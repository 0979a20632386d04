# Augusta, modelled

A verified model of the parts of Augusta, a server-authoritative first-person engine, whose correctness is a matter
of what holds over every run: what a capture file holds whatever the disk does, which commands reach a server over a
lossy link, what a view and its caches say, what a pack gives back. Each `.dfy` file is one module, named after the
component it models; `dafny verify dfyconfig.toml` checks them all.

Where the program changes things in place, the model has a class or a method with loops, proved equal to a function of
its state; what the program promises is then proved of that function, over every run.

## What is modelled

- **Captures** (`CaptureFormat`, `CaptureReading`, `CaptureLayout`, `CaptureWriter`, `CaptureRuns`, `CaptureFates`,
  `CaptureCompleted`, `CaptureWriterObject`, `Capturer`, `CapturerOrder`, `CapturerMeaning`, `CaptureEndToEnd`). The
  Simulation thread's Capturer, the writer thread with its queue, lock and file, and the reader. The writer is a state
  machine in which each critical section, and each piece of work outside the lock, is one atomic step, and each step on
  the disk may fail, leaving any prefix of its bytes written and any part of the rest to be flushed on closing. The
  Link's record codec is an abstract inverse pair of at most 255 bytes.
- **Retention** (`Retention`). The plan that keeps the capture directory within a count and a size, and the directory
  that replans after each deletion.
- **Commands** (`CommandQueue`, `CommandStream`, `CommandLink`, `CommandRounds`). The client's stream, the server's
  queue, and a channel between them that loses, reorders and repeats messages both ways, or loses nothing.
- **Server view** (`Pending`, `ServerView`, `ConvertedView`). What a client makes of messages in any order, what it
  hands out once, and the render side's incremental conversion of it.
- **Connection gauges** (`ConnectionHealth`, `Seqlock`, `GaugesRead`). The slots of every Session's gauges, the
  sequence lock that publishes them, one load or store at a time, and what a reader gets of the samples recorded.
- **Assets** (`WireFormat`, `Blobs`, `AssetBlobs`, `BlobLimits`, `BlobCodecs`, `AssetCodecs`, `SceneTransforms`,
  `PackFormat`, `PackRoundTrip`, `PackLayout`, `PackCodec`). Byte-level writer and reader, the blobs, and the signed
  container around them. An f32 is its 32 bits; hash and signature are abstract.
- **Crash reports** (`CrashCalendar`, `CrashLines`, `CrashReports`). The allocation-free calendar, digits and quoting,
  and the lines they make in a fixed buffer.
- **The rifle** (`Weapon`), **Intents** (`Intents`, `IntentMeaning`) and **package pruning** (`Prune`).

## Where the code falls short of its word

Each is proved, with the exact condition under which the code does keep it:

- A capture round-trips only without Seen ticks and without a winner numbered 0, which the Link drops
  (`CaptureReading.RoundTripIff`); the Capturer writes neither.
- A Death by a killer who is no entrant is written as killed by player 0, and then the reader refuses the whole file,
  not that record alone (`CapturerOrder.AStrangerKills`); it reads back exactly when the killer is an entrant
  (`CapturerOrder.DeathReadsBackIff`).
- Where captures are strict, a loss in one Match stops them all at once: the records of a Match already under way are
  then refused with nothing said of it, and its short file is reported complete
  (`CaptureCompleted.StrictReportsAShortFileComplete`). A file reported complete is whole exactly when none of its
  records was pushed while captures were stopped, which their health tells before each push
  (`CaptureCompleted.CompletedIsWholeIff`).
- The mesh, skeleton and scene encoders write what their decoders refuse, when indices are out of range or not whole
  triangles, or a child comes before its parent (`Blobs.MeshRoundTrip`, `Blobs.SkeletonRoundTrip`,
  `Blobs.SceneRoundTrip`).
- A command is lost for good once more than one message's worth of newer ones is ahead of what the server was offered
  (`CommandLink.DeliversIff`).
- A rifle held falls behind its fire rate when rounds come due faster than one to a tick: it fires just what has come
  due exactly when neither the second round of a magazine nor its last would be due too soon (`Weapon.FiresAsDueIff`).

## Model

| member | source | states |
|---|---|---|
| CaptureFormat.WireRoundTrip | src/modules/link/capture_records.cpp:19-70 | The Link gives a record back unchanged exactly when it is no Command with a Seen tick and no Match end won by player 0 |
| CaptureFormat.WriteCapture | src/modules/capture/capture.cpp:298-324 | What is written is all of header, Joins and events, each framed, or nothing: the first record that does not encode decides the error |
| CaptureFormat.ReadFrame | src/modules/capture/capture.cpp:43-58 | A frame read is a length byte and exactly that many bytes; an end before the length is the end, one inside is torn, a failing stream is unreadable |
| CaptureFormat.RecordOrder.Follows | src/modules/capture/capture.cpp:152-159 | An event follows only with no Match end before it, an offset that does not go back and players known; refused, nothing is remembered |
| CaptureFormat.RecordOrder.Admit | src/modules/capture/capture.cpp:114-167 | The object the reader keeps admits exactly the records the order admits, and then remembers what the order does |
| CaptureFormat.ReadCaptureFile | src/modules/capture/capture.cpp:181-213 | The reading loop, frame by frame, gives what the recursive reading of the whole stream gives |
| CaptureFormat.ReadCapture | src/modules/capture/capture.cpp:252-269 | A whole capture, or the same refusal as its file has |
| CaptureReading.CutFileReadsBack | src/modules/capture/capture.cpp:181-213 | A file cut at any byte at or past its header reads back as the header and the longest prefix of whole records, torn exactly when the cut is off a frame boundary; refused exactly when those records are out of order |
| CaptureReading.CutHeaderIsRefused | src/modules/capture/capture.cpp:60-108 | Cut inside its magic a file is no capture; cut later in its header it is an unsupported one |
| CaptureReading.FailingStreamNeverReads | src/modules/capture/capture.cpp:178-213 | A stream that fails, at whatever byte, is never a whole or a torn capture |
| CaptureReading.OrderIff | src/modules/capture/capture.cpp:110-167 | The record-by-record rule admits a capture exactly when it has at most 255 Joins, its events are in offset order, name Joined players, and none follows a Match end |
| CaptureReading.AdmittedIsJoinsThenEvents | src/modules/capture/capture.cpp:110-167 | Whatever records a file holds, those admitted are Joins at offset 0, numbered on from 1, and then events alone |
| CaptureReading.WrittenReadsBack | src/modules/capture/capture.cpp:252-324 | Every capture that can be written reads back as what the Link leaves of it, or is refused exactly when that is out of order |
| CaptureReading.RoundTripIff | src/modules/capture/capture.cpp:252-324 | A capture round-trips exactly when it is well ordered and holds nothing the Link drops |
| CaptureLayout.LinkDrops | src/modules/link/capture_records.cpp:19-70 | The Link carries every record whole but a Command's Seen tick, which comes back 0, and a winner 0, which comes back none |
| CaptureLayout.EncodedIff | src/modules/capture/capture.cpp:235-292 | A record is encoded exactly when the protocol carries it in at most 255 bytes; else it is broken or too long |
| CaptureLayout.WrittenLies | src/modules/capture/capture.cpp:271-324 | Every capture written is the magic, format 4, the header's frame, then each Join's and each event's in order, a length byte and the payload each, and nothing more |
| CaptureFates.FilesArePrefixes | src/modules/host/capture_writer.cpp:99-264 | Over every interleaving and every disk fault, a Match's file is a prefix of its header followed by the records pushed under it, in order |
| CaptureFates.QueueIsBounded | src/modules/host/capture_writer.cpp:111-193 | The count of queued records is the number in the queue, and never passes capacity |
| CaptureFates.ReportedOnce | src/modules/host/capture_writer.cpp:266-303 | No Match is reported stopped twice, or both stopped and completed |
| CaptureFates.NothingLostIsComplete | src/modules/host/capture_writer.cpp:161-284 | With nothing lost and nothing left to do, every file opened holds its header and all that was pushed |
| CaptureFates.HealthOnlyFalls | src/modules/host/capture_writer.cpp:305-335 | Over any run health only moves on, enabled, degraded, stopped, and the first loss is kept |
| CaptureFates.FinishReportsLosses | src/modules/host/host.cpp:219-236 | After finishing, a strict run reports a failure exactly when a capture was stopped, an optional one never, and with none stopped every file is complete |
| CaptureFates.StopTells | src/modules/host/capture_writer.cpp:286-303 | Stopping a Match is told of it alone, and once |
| CaptureRuns.KeepHandles | src/modules/host/capture_writer.cpp:203-264 | Carrying out an item, whatever the disk makes of it, keeps every Match's file, stream and queue in step |
| CaptureRuns.KeepSettles | src/modules/host/capture_writer.cpp:161-193 | Coming back under the lock after a loss, dropping the Match's queued records, keeps every Match in step |
| CaptureRuns.KeepPush | src/modules/host/capture_writer.cpp:111-128 | A record pushed, refused or stopping its Match keeps every Match in step |
| CaptureRuns.KeepCloses | src/modules/host/capture_writer.cpp:266-284 | Closing a file, flushing any part of what a failed write left, keeps every Match in step |
| CaptureWriterObject.WriterObject.Push | src/modules/host/capture_writer.cpp:111-128 | The locked section does what the atomic step says: queue, refuse, or stop for a full queue |
| CaptureWriterObject.WriterObject.Stop | src/modules/host/capture_writer.cpp:286-303 | Stopping is once for each Match, and only the first loss of a run sets health |
| CaptureWriterObject.WriterObject.LoseLocked | src/modules/host/capture_writer.cpp:305-322 | Only while health is enabled is a loss kept |
| CaptureWriterObject.WriterObject.Settle | src/modules/host/capture_writer.cpp:178-193 | A failed item drops its Match's queued records, recounts the rest and stops it |
| CaptureWriterObject.WriterObject.EraseRecords | src/modules/host/capture_writer.cpp:180-190 | The loop leaves the queue without that Match's records, in order, and the count of records left |
| CaptureWriterObject.WriterObject.Handle | src/modules/host/capture_writer.cpp:203-264 | Opening or writing does to the disk what the step says for each outcome, and passes over records of a file not open |
| CaptureWriterObject.WriterObject.CloseFile | src/modules/host/capture_writer.cpp:266-284 | A file open is closed and completed unless its Match was stopped |
| CaptureWriterObject.WriterObject.Take | src/modules/host/capture_writer.cpp:161-176 | The oldest item is taken and, if a record, counted out |
| CaptureCompleted.CompletedIsWholeIff | src/modules/host/capture_writer.cpp:111-128 | A Match reported complete has on disk its header and every record its queue accepted; these are all that was pushed, and the file whole, exactly when none was pushed while captures were stopped, as none is where they are optional |
| CaptureCompleted.StrictReportsAShortFileComplete | src/modules/host/capture_writer.cpp:111-128 | Where captures are strict the promise fails: after a loss in one Match, the next one's records are refused unsaid and its short file is reported complete |
| Capturer.CapturerObject.StartMatch | src/modules/host/capturer.cpp:128-161 | The method makes the calls and the state the step says: the last file closed, and a new one opened with its header and Joins unless captures stopped |
| CapturerMeaning.HeadersNameTheirMatch | src/modules/host/capturer.cpp:128-161 | Over any run, the header kept for a Match names that Match and the time it was started at, and else is the Capturer's own |
| CapturerMeaning.StartClosesTheLast | src/modules/host/capturer.cpp:128-145 | A Match started closes the file of one still open before it begins its own |
| CapturerMeaning.FilesAreClosed | src/modules/host/capturer.cpp:196-218 | A file is closed exactly when its Match ends or another is to start, and the writer finished exactly at the end |
| CapturerMeaning.OffsetsAreNearest | src/modules/host/capturer.cpp:163-211 | An offset is the ticks since the Match's first or, out of its range, the nearest it can say |
| CapturerMeaning.BreaksIff | src/modules/host/capturer.cpp:243-265 | An event fails the runtime exactly when the protocol cannot carry its record; a Match start, on its header or some entrant's Join |
| Capturer.CapturerObject.RunCommand | src/modules/host/capturer.cpp:163-177 | A Command is recorded for a known player alone, at its clamped offsets |
| Capturer.CapturerObject.PlayerDies | src/modules/host/capturer.cpp:187-194 | A Death is recorded for a known victim, whoever killed |
| Capturer.CapturerObject.EndMatch | src/modules/host/capturer.cpp:196-211 | The Match end is recorded, the file closed and the players forgotten |
| Capturer.CapturerObject.Admit | src/modules/host/capturer.cpp:243-259 | A record too long stops the capture; one that breaks an invariant is the runtime's failure |
| CapturerOrder.EventAdmittedIff | src/modules/host/capturer.cpp:163-211 | What an input records is admitted next by the reader exactly when its offset does not go back and it names known players |
| CapturerOrder.HandedOverInOrder | src/modules/host/capturer.cpp:128-265 | Over every proper run the writer is called in order and, under each Match, is pushed what the reader admits record by record and the Link gives back unchanged, up to the record that stops it |
| CapturerOrder.DeathReadsBackIff | src/modules/host/capturer.cpp:187-194 | With a Death recorded last the file reads back whole exactly when the killer is an entrant and the offset does not go back, and else is refused whole |
| CapturerOrder.StrangersKillLosesTheFile | src/modules/host/capturer.cpp:187-194 | With a killer who is no entrant the promise fails: the Death is written naming player 0 and the whole file is then refused |
| CapturerOrder.AStrangerKills | src/modules/host/capturer.cpp:187-194 | The run that shows it: a Match of one entrant, killed by another, leaves a file that is refused |
| CapturerMeaning.RecordTellsWhatHappened | src/modules/host/capturer.cpp:163-211 | Read back through who joined under each number, a record tells the very players, tick and event of its input; and exactly what is told of an entrant is recorded |
| CapturerMeaning.CaptureTellsTheMatch | src/modules/host/capturer.cpp:128-211 | As long as nothing of it is refused, a Match's capture is one Join to each entrant, numbered in order, and then all that happened to them, in order |
| CaptureEndToEnd.FilesReadBack | src/modules/host/capturer.cpp:128-211 | From inputs through the writer, faults and disk to the reader: each file gives back a header naming its Match and when it was started, then an unbroken prefix of the records captured, torn exactly when a fragment follows |
| CaptureEndToEnd.NothingLostReadsWhole | src/modules/host/capturer.cpp:213-218 | With every call carried out and nothing lost, each file gives back every record captured |
| Retention.PlanFrom | src/modules/host/capture_retention.cpp:79-100 | The plan is the least count of oldest deletions that meets both limits, or all of them, and fits exactly when they are met |
| Retention.PlanRetention | src/modules/host/capture_retention.cpp:79-100 | The two passes, by count and then by size, come to that least count |
| Retention.PlanIsLeast | src/modules/host/capture_retention.cpp:79-100 | Of what the directory holds, the plan deletes the fewest of the oldest that leave the count and the bytes within limits, the one open counted; all, and does not fit, when none do |
| Retention.Replanned | src/modules/host/capture_retention.cpp:193-201 | One deletion made, planning again gives the rest of the plan |
| Retention.UnfitIff | src/modules/host/capture_retention.cpp:79-100 | A plan does not fit exactly when the bytes outgrow the limit by themselves |
| Retention.CaptureDirectory.MakeRoom | src/modules/host/capture_retention.cpp:193-201 | Replanning after each deletion ends, deletes exactly what the first plan would, and keeps the total that of the captures left and the one open |
| Retention.CaptureDirectory.Open | src/modules/host/capture_retention.cpp:109-127 | Opened exactly when its own bytes fit, the oldest of those found deleted, and then within both limits |
| Retention.CaptureDirectory.Reserve | src/modules/host/capture_retention.cpp:129-136 | Reserved exactly when the open capture's own bytes fit, and the directory stays within both limits |
| CommandQueue.Validate | src/modules/host/command_queue.cpp:41-55 | Accepted exactly when newer than the last offered, finite and in range; else stale, not finite or out of range, the first of these that holds |
| CommandQueue.HeldTicks | src/modules/gameplay/include/augusta/command.h:80-83 | The fewest ticks that last 100 ms |
| CommandQueue.TryEnqueueKeeps | src/modules/host/command_queue.cpp:57-68 | Offering keeps the queue sorted, past what is acknowledged, up to the last offered, and at most 16 |
| CommandQueue.NextKeeps | src/modules/host/command_queue.cpp:70-92 | So does running, and the acknowledgement never falls |
| CommandQueue.AlwaysSorted | src/modules/host/command_queue.cpp:57-92 | Over any offers and ticks, from an empty queue on, it is sorted, and neither its acknowledgement nor its last offered ever goes back |
| CommandQueue.HeldThenStopped | src/modules/host/command_queue.cpp:70-92 | With nothing queued the last movement goes on, neither firing nor reloading, for the ticks it may be held, then the player stands still for good |
| CommandQueue.LastGoesOn | src/modules/host/command_queue.cpp:70-92 | Once the last command queued has run it goes on without its actions for as many ticks as last 100 ms, then stands still, its sequence acknowledged all along |
| CommandQueue.NothingYet | src/modules/host/command_queue.cpp:79-83 | Until a command was queued each tick stands still, looks ahead and does nothing |
| CommandQueue.OfferedGoesLast | src/modules/host/command_queue.cpp:57-68 | What is accepted goes last, the oldest of 16 making way for it, and only then |
| CommandQueue.AcceptedIff | src/modules/host/command_queue.cpp:41-55 | Accepted exactly when newer, all finite, its direction no longer than 2, its pitch within 1.6 and its yaw within 3.2; not finite, said so before out of range |
| CommandQueue.QueuedRunFirst | src/modules/host/command_queue.cpp:70-92 | Every command queued is run as sent, in order, before any is held |
| CommandQueue.PlayerQueue.Offer | src/modules/host/command_queue.cpp:57-68 | The queue in place does what the step says |
| CommandQueue.PlayerQueue.Take | src/modules/host/command_queue.cpp:70-92 | The tick in place does what the step says |
| CommandStream.ClientStream.Tick | src/modules/harness/command_stream.cpp:52-74 | The stream in place does what the step says: numbering on, forgetting an earlier Match, a dead player firing nothing |
| CommandStream.ClientStream.Queue | src/modules/harness/command_stream.cpp:76-90 | What is sent is the newest eight of those not acknowledged and the new one, and just those are kept |
| CommandStream.TickSends | src/modules/harness/command_stream.cpp:52-90 | A tick in a Match sends the command given last, under the next sequence, in every field as given but that a dead player's fires nothing; before it only commands of that Match not known acknowledged, 8 in all at most; out of one it sends nothing |
| CommandStream.FirstIsOne | src/modules/harness/command_stream.cpp:52-90 | A stream's first command goes alone, numbered 1 |
| CommandLink.SendIsMessage | src/modules/harness/command_stream.cpp:76-90 | What a tick sends is a contiguous run of the commands issued, up to the newest |
| CommandLink.RunsWhatWasIssued | src/modules/host/command_queue.cpp:57-92 | Over a channel that loses, reorders and repeats: commands run as sent have strictly increasing sequences, each in every field what its player gave under it, but that a dead player's fires nothing; the queue comes after them, 16 at most |
| CommandLink.AcknowledgedInOrder | src/modules/harness/command_stream.cpp:76-90 | What the client knows acknowledged <= what the server acknowledges <= what it was last offered < what was issued next |
| CommandLink.AcknowledgedNeverFalls | src/modules/harness/inbox.cpp:244-261 | Neither side's acknowledgement ever goes back |
| CommandLink.DeliversIff | src/modules/harness/command_stream.cpp:76-90 | A message with a new newest command brings in, in order, all the Match's commands up to it not offered yet, exactly when they are no more than one message carries |
| CommandLink.EveryCommandDelivered | src/modules/harness/command_stream.cpp:52-90 | With loss so bounded, over a whole Match every command given up to the last offered is offered in order, field by field as given, and, the queue never overflowing, run once in order |
| CommandRounds.RoundRuns | src/modules/host/command_queue.cpp:57-92 | When nothing is lost, a command given runs on the server on that tick, in every field as given but that a dead player's fires nothing, and the client then knows it acknowledged |
| CommandRounds.NothingLostRunsAll | src/modules/harness/command_stream.cpp:52-90 | Over a link that loses nothing every command given runs, in order, each once and on its own tick |
| Pending.Queue.Add | src/modules/harness/pending.h:30-37 | An event is kept under its Match, those of earlier Matches and one past the limit going; every event that arrived has one fate |
| Pending.Queue.Take | src/modules/harness/pending.h:42-51 | Exactly the events of that Match, in the order they came, each once, and none kept after |
| Pending.Queue.DropBefore | src/modules/harness/pending.h:60-64 | Exactly those of earlier Matches go |
| ServerView.SaidKeeps | src/modules/harness/inbox.cpp:31-261 | Each message keeps the view whole: the newest state last of the recent, bounded, in tick order, of bodies in the Match alone, and none outside one |
| ServerView.EveryViewOk | src/modules/harness/inbox.cpp:48-80 | Whatever order messages come in, every view published is whole, and the count of Matches never falls |
| ServerView.ViewTellsTheMatch | src/modules/harness/inbox.cpp:31-261 | Over every message order the dead are the victims of the Match's Deaths, in order, and the recent states the newest 28 of those newer than all before and of none but its players |
| ServerView.SaidOutright | src/modules/harness/inbox.cpp:31-261 | A state becomes the newest and last of the recent exactly when in a Match, of none but its players, and newer than the newest held; each other message changes just what it tells, exactly when it is for this client |
| ServerView.HandedOutIff | src/modules/harness/inbox.cpp:150-239 | A Shot, Hit or Death is handed out exactly when it comes in a Match, of its players |
| ServerView.Inbox.Receive | src/modules/harness/inbox.cpp:48-80 | A message changes the view as said and adds to each pending queue exactly the event it carries of this Match |
| ServerView.Inbox.OnAuthoritativeState | src/modules/harness/inbox.cpp:244-261 | A state out of a Match, of a body not in it, or no newer than the newest, changes nothing |
| ServerView.Inbox.OnDeath | src/modules/harness/inbox.cpp:225-239 | A Death of players of the Match is in the view and handed out once |
| ServerView.Inbox.TakeShots | src/modules/harness/inbox.cpp:87-87 | Exactly the Shots pending of the reader's Match |
| ConvertedView.BySessionSorts | src/client/frame_mapping.cpp:132-143 | The characters are those of every player of the Match once, in Session order |
| ConvertedView.ConvertedServerView.Update | src/client/frame_mapping.cpp:145-167 | The cache in place comes to what bringing it up to date says |
| ConvertedView.UpToDate | src/client/frame_mapping.cpp:156-166 | Whatever was dropped and added since, the updates kept and the newer converted are the view's, converted |
| ConvertedView.CacheIsConversion | src/client/frame_mapping.cpp:145-167 | Along every run of messages, frames skipping any views, each frame is lent each recent state's tick, bodies and seconds to a tick, and the entity and character of every player once, in Session order |
| ConvertedView.MatchEndOf | src/client/frame_mapping.cpp:173-187 | A Match end is shown exactly when the view has one, naming the first player of the winner's Session, if any |
| ConnectionHealth.GaugesAreNewest | src/server/metrics_connection_health.cpp:290-300 | A Session has gauges exactly while sampled, each the newest value measured since it appeared |
| ConnectionHealth.GaugesShow | src/server/metrics_connection_health.cpp:251-270 | Which statistic each gauge shows, and in which unit |
| ConnectionHealth.SlotsLoseNothing | src/server/metrics_connection_health.cpp:237-249 | While no more Sessions than slots are sampled at once, the slots hold what an unbounded table would |
| ConnectionHealth.RoomIff | src/server/metrics_connection_health.cpp:237-249 | A slot is free exactly while fewer Sessions than slots have gauges |
| ConnectionHealth.NeverMoreThanSlots | src/server/metrics_connection_health.cpp:239-256 | Of Sessions without gauges one is measured only while fewer than 8 have them, so there are never more |
| ConnectionHealth.Sampler.SlotOf | src/server/metrics_connection_health.cpp:239-249 | A Session's own slot, or else the first free, or none if all are taken |
| ConnectionHealth.Sampler.SetGauges | src/server/metrics_connection_health.cpp:251-270 | The slots stay one to a Session and hold the table with this Session measured, or as it was with no slot left |
| ConnectionHealth.Sampler.RemoveEnded | src/server/metrics_connection_health.cpp:273-281 | Exactly the Sessions not sampled go |
| ConnectionHealth.Sampler.Record | src/server/metrics_connection_health.cpp:290-300 | The slots come to what sampling into the table gives, with every sampled Session in it when there is a slot for each |
| Seqlock.ReadIsOnePublish | src/server/metrics_connection_health.cpp:105-182 | Under every interleaving of single loads and stores, a read that returns is one publish's gauges, whole and in slot order, no older than the newest over when it began |
| Seqlock.PublishedIsRead | src/server/metrics_connection_health.cpp:108-139 | Whatever happened before, with no publish under way the writer can publish any slots by its own steps, and a reader then read, by its own, just their gauges |
| GaugesRead.RecordAndPublish | src/server/metrics_connection_health.cpp:290-300 | Recording leaves the slots it publishes holding what the records so far come to |
| GaugesRead.ReadIsOneRecord | src/server/metrics_connection_health.cpp:105-182 | From samples to a read, under every interleaving and with a slot to each Session sampled at once: the Sessions of one single record, each once, each gauge its newest value since the Session appeared |
| WireFormat.LittleEndianReads | src/modules/assets/wire_format.h:86-96 | A number's bytes, lowest first, read back as it |
| WireFormat.TextReads | src/modules/assets/wire_format.h:125-135 | A string written reads back as itself wherever it lies |
| WireFormat.ManyReads | src/modules/assets/decoder.cpp:235-256 | A list written reads back exactly when each element is admitted at its place |
| WireFormat.NumbersLowestFirst | src/modules/assets/wire_format.h:86-96 | A number's bytes are of that number, the lowest first |
| WireFormat.TextReadIff | src/modules/assets/wire_format.h:215-225 | A string is read exactly when its length, in four bytes, is at most 4096 and the data holds it |
| WireFormat.ByteWriter.WriteNumber | src/modules/assets/wire_format.h:86-96 | The loop appends the number's bytes, lowest first |
| WireFormat.ByteWriter.WriteText | src/modules/assets/wire_format.h:125-135 | A string is appended with its length, or nothing when it is too long |
| WireFormat.ByteReader.NextNumber | src/modules/assets/wire_format.h:161-183 | The loop takes the bytes' value, or fails at the end of the data |
| WireFormat.ByteReader.NextText | src/modules/assets/wire_format.h:213-225 | A string is taken exactly when its length is within the limit and the data |
| Blobs.MeshRoundTrip | src/modules/assets/encoder.cpp:86-102 | A mesh encoded decodes to itself exactly when its indices are triangles of its own points |
| Blobs.SkeletonRoundTrip | src/modules/assets/encoder.cpp:165-182 | A skeleton encoded decodes to itself exactly when parents come before children |
| Blobs.SkeletonParentsFirst | src/modules/assets/decoder.cpp:326-349 | Whatever the bytes, a skeleton decoded lists parents before children |
| Blobs.SceneRoundTrip | src/modules/assets/encoder.cpp:104-118 | A scene encoded decodes to itself, every optional path and property, exactly when parents come before children |
| Blobs.SceneParentsFirst | src/modules/assets/decoder.cpp:235-256 | Whatever the bytes, a scene decoded lists parents before children |
| BlobLimits.SceneEncodesIff | src/modules/assets/encoder.cpp:24-119 | A scene encodes exactly when of at most a million nodes, each of short names and paths and at most 256 properties |
| AssetBlobs.HitboxRoundTrip | src/modules/assets/encoder.cpp:146-159 | A hitbox encoded decodes to itself exactly when its mesh does |
| AssetBlobs.ClipRoundTrip | src/modules/assets/encoder.cpp:195-214 | Every clip that encodes decodes to itself |
| BlobLimits.ClipEncodesIff | src/modules/assets/encoder.cpp:195-216 | A clip encodes exactly when its archive is of at most 64 MiB, its Foot contacts at most 255, its stride finite and at least 0 and each ratio from 0 to 1; too large is said before that |
| AssetBlobs.AudioRoundTrip | src/modules/assets/encoder.cpp:298-315 | Every sound that encodes decodes to itself |
| BlobLimits.AudioEncodesIff | src/modules/assets/encoder.cpp:298-317 | A sound encodes exactly when it is at most 64 MiB of whole samples of 8, 16, 24 or 32 bits, and the first rule broken is the error |
| AssetBlobs.DecodedSoundIsWhole | src/modules/assets/decoder.cpp:423-444 | Whatever the bytes, a sound decoded is whole samples of a PCM width, and can be encoded |
| AssetBlobs.CueSoundRoundTrip | src/modules/assets/encoder.cpp:319-336 | Every cue that encodes decodes to itself |
| AssetBlobs.WeaponSocketRoundTrip | src/modules/assets/encoder.cpp:257-269 | Every weapon socket that encodes decodes to itself |
| BlobCodecs.DecodeMeshBlob | src/modules/assets/decoder.cpp:182-233 | The loops over points and indices read the mesh the round trip is of |
| BlobCodecs.DecodeSkeletonBlob | src/modules/assets/decoder.cpp:326-349 | The loop reads the skeleton the round trip is of |
| BlobCodecs.DecodeSceneBlob | src/modules/assets/decoder.cpp:235-256 | The loop reads the scene the round trip is of |
| BlobCodecs.DecodeSceneNode | src/modules/assets/decoder.cpp:132-178 | One node is read, its flags naming which paths follow, or the whole is refused |
| BlobCodecs.EncodeMeshBlob | src/modules/assets/encoder.cpp:86-102 | The loops write the mesh's bytes, or refuse what is too large |
| BlobCodecs.EncodeSkeletonBlob | src/modules/assets/encoder.cpp:165-182 | The loop writes the skeleton's bytes, or refuses what is too large |
| BlobCodecs.EncodeSceneBlob | src/modules/assets/encoder.cpp:104-118 | The loop writes the scene's bytes, or refuses what is too large |
| AssetCodecs.DecodeHitboxBlob | src/modules/assets/decoder.cpp:307-322 | The reader's cursor reads the hitbox the round trip is of |
| AssetCodecs.DecodeClipBlob | src/modules/assets/decoder.cpp:478-501 | The loop over Foot contacts reads the clip the round trip is of |
| AssetCodecs.DecodeAudioBlob | src/modules/assets/decoder.cpp:423-444 | The cursor reads the sound the round trip is of |
| AssetCodecs.DecodeCueSoundBlob | src/modules/assets/decoder.cpp:448-466 | The loop over variants reads the cue the round trip is of |
| AssetCodecs.DecodeWeaponSocketBlob | src/modules/assets/decoder.cpp:377-390 | The socket the round trip is of |
| AssetCodecs.EncodeHitboxBlob | src/modules/assets/encoder.cpp:146-159 | The hitbox's bytes, or the error of its mesh or its Joint's name |
| AssetCodecs.EncodeClipBlob | src/modules/assets/encoder.cpp:195-214 | The clip's bytes, or which limit or value refuses it |
| AssetCodecs.EncodeAudioBlob | src/modules/assets/encoder.cpp:298-315 | The sound's bytes, or why it is none |
| AssetCodecs.EncodeCueSoundBlob | src/modules/assets/encoder.cpp:319-336 | The cue's bytes, or why it is none |
| AssetCodecs.EncodeWeaponSocketBlob | src/modules/assets/encoder.cpp:257-269 | The socket's bytes, or that a name is too long |
| SceneTransforms.Chain | src/modules/assets/assets.cpp:86-94 | A node's chain of ancestors begins at a root, and each is the parent of the next |
| SceneTransforms.ComputeWorldTransforms | src/modules/assets/assets.cpp:86-94 | One forward pass computes, for each node, the product of the transforms along its chain of ancestors |
| PackFormat.LoadedIsSound | src/modules/assets/pack_reader.cpp:136-168 | Whatever the bytes, a pack loaded names each path once, every slice lies past the header and before the index where the header has it start, and its hash is its content's |
| PackLayout.WrittenIff | src/modules/assets/pack_writer.cpp:27-103 | A pack can be written exactly when of at most 2^20 entries, paths of at most 4096 bytes, none twice, and 8 GiB in all; it is refused for a path named twice exactly when that is so within limits |
| PackLayout.WrittenLies | src/modules/assets/pack_writer.cpp:53-123 | Every pack written is the header, each entry's data one after another from byte 61, the rows in the same order, then the hash of all that and its signature |
| PackLayout.LoadedMeans | src/modules/assets/pack_reader.cpp:281-373 | What loads has the magic, format 7, a header's values, as many rows as it says, its content's hash, and a signature that verifies |
| PackRoundTrip.WrittenLoads | src/modules/assets/pack_writer.cpp:59-100 | Every pack that can be written loads, names the same client pack, and has the same types and paths in order, each slice exactly its entry's data |
| PackRoundTrip.FindIndexEntry | src/modules/assets/pack_reader.cpp:182-192 | The search gives what the search from the first entry on gives |
| PackRoundTrip.FindsOwn | src/modules/assets/pack_reader.cpp:182-192 | A path named finds its first entry, or a type mismatch |
| PackRoundTrip.FindsNone | src/modules/assets/pack_reader.cpp:182-192 | Nothing is found exactly when no entry has the path |
| PackRoundTrip.WrittenResolves | src/modules/assets/pack_reader.cpp:200-212 | Each path written resolves, as its own type, to its own data decoded, and as no other type |
| PackRoundTrip.PackedMeshResolves | src/modules/assets/pack_reader.cpp:388-390 | From a mesh through encoder, pack and back: itself, exactly when it is triangles of its own points |
| PackRoundTrip.PackedSceneResolves | src/modules/assets/pack_reader.cpp:392-394 | From a scene through encoder, pack and back: itself, exactly when parents come before children |
| PackCodec.PairsFound | src/modules/assets/pack_writer.cpp:29-49 | Two paths alike are neighbours once sorted, exactly when there are any |
| PackCodec.ValidateEntries | src/modules/assets/pack_writer.cpp:29-49 | The sort and the pass over neighbours refuse exactly what validation refuses |
| PackCodec.BuildPackSections | src/modules/assets/pack_writer.cpp:59-100 | The loops with a running cursor write the sections, each offset where its data lies |
| PackCodec.ParseClientPack | src/modules/assets/pack_reader.cpp:50-70 | The flags and the hash they may name, or which refusal |
| PackCodec.ParsePackHeader | src/modules/assets/pack_reader.cpp:81-129 | The cursor reads the header, or gives the refusal it calls for |
| PackCodec.ParsePackIndex | src/modules/assets/pack_reader.cpp:136-168 | The loop reads the index, or refuses a path twice or a slice outside the data |
| CrashCalendar.CivilIsValid | src/modules/crash/crash.cpp:117-144 | For every day from the epoch on, the date is one the Gregorian calendar has, and counting days to it gives the day back |
| CrashCalendar.OneDateADay | src/modules/crash/crash.cpp:117-144 | No two valid dates are of one day |
| CrashCalendar.CivilIsTheDate | src/modules/crash/crash.cpp:117-144 | The date is the unique valid one of its day |
| CrashReports.StampIsTheTime | src/modules/crash/crash.cpp:117-144 | Read back from its characters, between their marks, a stamp's year, month, day, hour, minute and second are a valid date and time of day that count back to the time; the year has four digits to 9999 and as many as it needs past it |
| CrashReports.PutTimestamp | src/modules/crash/crash.cpp:117-144 | The writer is given just the stamp, as far as it fits |
| CrashLines.DigitsDenote | src/modules/crash/crash.cpp:70-82 | The digits denote the value |
| CrashLines.DigitsAreNumeral | src/modules/crash/crash.cpp:69-80 | What is put is digits of the base alone, and denotes the value |
| CrashLines.DigitsWide | src/modules/crash/crash.cpp:70-82 | They are as wide as asked, wider only without a leading 0 |
| CrashLines.HexLengthIs | src/modules/crash/crash.cpp:167-174 | The length reckoned is the number of digits written |
| CrashLines.KeptFits | src/modules/crash/crash.cpp:87-102 | As much of a text is kept, escaped, as fits: all of it, or all up to a character that does not |
| CrashLines.QuotedReadsBack | src/modules/crash/crash.cpp:87-102 | What is quoted reads back as it was, with all that follows |
| CrashLines.QuotedFits | src/modules/crash/crash.cpp:87-102 | With room for both quotes, what follows and a newline, the quoted part is closed and no escape is broken |
| CrashLines.LineWriter.PutOne | src/modules/crash/crash.cpp:57-61 | A character is put only where its reserve still fits |
| CrashLines.LineWriter.PutDigits | src/modules/crash/crash.cpp:70-82 | The loop, last digit first and then reversed, puts the value's digits |
| CrashLines.LineWriter.PutQuoted | src/modules/crash/crash.cpp:87-102 | The loop puts the quoted text, cut to leave room for what is to follow |
| CrashLines.LineWriter.Finish | src/modules/crash/crash.cpp:104-107 | The newline always fits, and the line is what was put |
| CrashReports.ContentFits | src/modules/crash/crash.cpp:233-295 | However long its parts, a line and its newline keep to the buffer |
| CrashReports.LineIsWhole | src/modules/crash/crash.cpp:233-295 | When the fixed parts fit, a reader takes back from the quotes exactly the longest prefix that fits, and then the tail and the whole context |
| CrashReports.TightLineIs | src/modules/crash/crash.cpp:233-298 | When the fixed parts, quotes, tail, context and newline do not fit nothing is quoted, and the line is the rest, with empty quotes, cut |
| CrashReports.PlainLineIs | src/modules/crash/crash.cpp:233-298 | With nothing quoted a line that fits is its fixed parts and the whole context, and one that does not is those, cut |
| CrashReports.SignalFixedTells | src/modules/crash/crash.cpp:233-245 | A crash's line tells the time, the subsystem and its signal, by name or by number |
| CrashReports.FrameFixedTells | src/modules/crash/crash.cpp:155-164 | A frame's line tells the time, the subsystem, the frame's index in decimal and its program counter in hexadecimal |
| CrashReports.ExceptionFixedTells | src/modules/crash/crash.cpp:284-298 | An exception's line tells the time, the subsystem and its code, in eight hexadecimal digits |
| CrashReports.OffsetTailIs | src/modules/crash/crash.cpp:266-282 | The room reserved for an offset is just what writing it takes |
| CrashReports.FormatSignalLine | src/modules/crash/crash.cpp:233-251 | The line in the buffer is the signal's, its core quoted if there is one |
| CrashReports.FormatFrameLine | src/modules/crash/crash.cpp:253-264 | The line in the buffer is the frame's, its symbol quoted if there is one |
| CrashReports.FormatModuleFrameLine | src/modules/crash/crash.cpp:266-282 | The line in the buffer is the frame's, its module quoted before its offset |
| CrashReports.FormatExceptionLine | src/modules/crash/crash.cpp:284-295 | The line in the buffer is the exception's, its code in eight digits |
| Weapon.Step | src/modules/gameplay/weapon.cpp:56-97 | The statements, one after another, come to the state stepped field by field, and fire exactly when a round is due on the trigger |
| Weapon.RoundsAreConserved | src/modules/gameplay/weapon.cpp:56-97 | Over any run rounds fired, left and thrown away are those of the magazines loaded; a Burst and what is left never pass a magazine |
| Weapon.NeverFasterThanTheRifle | src/modules/gameplay/weapon.cpp:56-97 | However the trigger is worked, F rounds in N ticks have F*I <= N*dt + max(0, I + e - dt) |
| Weapon.HeldFiresWhatIsDue | src/modules/gameplay/weapon.cpp:56-97 | Held, with no more than a round to a tick and an interval longer than the slack, round k has been fired exactly when k intervals have passed since the first: no drift, to the last in the magazine |
| Weapon.FiresAsDueIff | src/modules/gameplay/weapon.cpp:56-97 | Of any rifle and tick: held from loaded it always fires just the rounds that have come due exactly when neither its second round nor its magazine's last comes due before one round to a tick can reach it |
| Weapon.ReloadTakesItsTime | src/modules/gameplay/weapon.cpp:56-97 | Asked of a magazine not full with none under way, a reload is over at the first tick that brings it within 0.0001 s, whatever is asked meanwhile: until then the magazine is as it was, then full |
| Weapon.NoReloadUnasked | src/modules/gameplay/weapon.cpp:59-63 | Without a reload asked for of a magazine not full none starts, and rounds not fired stay |
| Weapon.FiredIff | src/modules/gameplay/weapon.cpp:65-79 | A round is fired on a tick exactly when the trigger is held on a round, no reload under way or starting, and the last round's wait is over |
| Weapon.NeverFasterSince | src/modules/gameplay/weapon.cpp:56-97 | Of any N ticks of any run, F rounds have F*I <= (N + 1)*dt + max(0, I + e - dt), and N*dt after a tick the trigger was let go: having rested fires none sooner |
| Weapon.BurstIsCounted | src/modules/gameplay/weapon.cpp:75-84 | A Burst's index is the rounds fired since the trigger was last not pulled |
| Intents.SetIsToldOrHeld | src/modules/harness/intent.cpp:75-138 | Over any calls the Intents set are exactly those told of an ending and those held |
| Intents.ToldAtMostOnce | src/modules/harness/intent.cpp:84-92 | An Intent is told of at most once, and held exactly when it was not |
| Intents.RawIsHeldAlone | src/modules/harness/intent.cpp:127-138 | A Raw command is never held with another Intent |
| Intents.RawReloadsOnce | src/modules/harness/intent.cpp:266-270 | A Raw command is sent whole on every tick played, asking for its reload on the first alone |
| Intents.MoveToEnds | src/modules/harness/intent.cpp:140-167 | Wherever its body goes, a MoveTo ends Arrived or Blocked within a tick rate's ticks to each step of its first distance and one more |
| Intents.HeadsForItsPoint | src/modules/harness/intent.cpp:140-167 | A MoveTo has Arrived exactly when near enough, and while it goes on heads for its point: the distance, so headed, reaches it |
| Intents.BudgetKept | src/modules/harness/intent.cpp:140-167 | Each tick carried is progress of a step or one of the ticks waited since |
| Intents.AimStaysInItsMatch | src/modules/harness/intent.cpp:169-220 | While an AimAt is held every tick since it was first carried has shown its target alive, present and in that one Match |
| Intents.BurstsFireSixInTwentyFour | src/modules/harness/intent.cpp:222-245 | FireBursts never ends, holds the trigger 6 ticks in 24 from the last empty magazine on, and with it empty presses reload only while none is under way |
| Intents.IntentExecutor.NextCommand | src/modules/harness/intent.cpp:258-288 | The channels carried out in place come to the tick's state, endings and Command |
| Intents.IntentExecutor.CarryMovementChannel | src/modules/harness/intent.cpp:248-256 | The channel is emptied, and told of, exactly when its Intent ends on the tick |
| Intents.IntentExecutor.SetRaw | src/modules/harness/intent.cpp:127-138 | All four are ended, in order, before the Raw is held |
| Intents.IntentExecutor.SetMovement | src/modules/harness/intent.cpp:97-111 | The Raw and the channel's Intent are ended Replaced before the new one is held |
| Intents.IntentExecutor.ClearAim | src/modules/harness/intent.cpp:97-123 | The Raw and the aim are ended Replaced, and nothing is held there |
| IntentMeaning.ChannelsAlone | src/modules/harness/intent.cpp:258-288 | On a tick played each channel's Intent decides its own part of the Command, and ends, as if it alone were held |
| IntentMeaning.WaitsStill | src/modules/harness/intent.cpp:258-288 | While its player is not alive in a Match an Agent stands still, as it last looked and stood, and holds its Intents |
| IntentMeaning.NewStandsStill | src/modules/harness/intent.cpp:258-288 | An executor told nothing stands still, looks ahead, and tells nobody of anything |
| IntentMeaning.CommandSees | src/modules/harness/intent.cpp:284-285 | Every Command names the newest state's tick, or 0, and no fraction |
| IntentMeaning.MoveSays | src/modules/harness/intent.cpp:140-149 | A Move is sent as it is; without a movement Intent nothing moves, in the last stance |
| IntentMeaning.MoveToSays | src/modules/harness/intent.cpp:140-167 | A MoveTo has Arrived within half a metre; else a tenth of a metre nearer than ever is progress, and as many ticks without as there are in a second Block it; until then it heads for its point |
| IntentMeaning.BlockedAfterASecond | src/modules/harness/intent.cpp:155-161 | Blocked only when carried a second of ticks since the one it was nearest on, never a tenth of a metre nearer |
| IntentMeaning.NoNearerIsOver | src/modules/harness/intent.cpp:155-161 | And it is over once carried for a second of ticks without coming nearer than on one before |
| IntentMeaning.FacingSays | src/modules/harness/intent.cpp:189-196 | A Facing is looked along; without an aim Intent the last look is kept; neither aims down sights |
| IntentMeaning.AimAtSays | src/modules/harness/intent.cpp:169-220 | An AimAt ends TargetGone exactly when its target is, and until then aims down sights from its own eye to the target's torso, or as it last looked with no state to place it by |
| IntentMeaning.AimAtWaits | src/modules/harness/intent.cpp:179-187 | While its player waits, an AimAt carried before ends exactly when its target is gone |
| IntentMeaning.TriggerSays | src/modules/harness/intent.cpp:222-245 | HoldFire holds the trigger, Reload asks once and is Done, and with neither nothing is pulled |
| IntentMeaning.SetReplaces | src/modules/harness/intent.cpp:96-138 | Setting or clearing tells Replaced to those held there and to a Raw, and nothing to any other |
| IntentMeaning.SetHolds | src/modules/harness/intent.cpp:96-138 | What is set is held with nothing of it counted, and the other channels stay but for a Raw |
| Prune.ClosureIsLeast | scripts/prune-packages.py:169-184 | The closure is closed under needs the package has, and every other such set holding its roots holds it |
| Prune.PlanContainer | scripts/prune-packages.py:135-188 | The worklist ends, and its keep set is that closure: a plan, or the first required root missing, or a needed manifest not read |
| Prune.NeedsOf | scripts/prune-packages.py:176-184 | What is pushed for a digest is exactly its index's children and its referrers by tag |
| Prune.Missing | scripts/prune-packages.py:159-168 | No root is missing exactly when every required one is present |
| Prune.ByTagFinds | scripts/prune-packages.py:155-155 | With no tag on two versions, each tag finds its own |
| Prune.ByTagIsLast | scripts/prune-packages.py:155-155 | A tag finds the last listed of the versions it is on, and nothing exactly when it is on none |
| Prune.NeedsAreUsed | scripts/prune-packages.py:174-181 | What a digest needs is what the list read for it names and what its four referrer tags are on |
| Prune.PlanPartitions | scripts/prune-packages.py:185-197 | Kept and deleted are every version listed, each once, with no name in both, each sorted by name |
| Prune.NameLeqIff | scripts/prune-packages.py:192-193 | Names are in order when one begins the other or is lower where they first differ |
| Prune.KeptIsLedTo | scripts/prune-packages.py:169-184 | What is kept is just the versions some chain leads to from one pushed of late or a root's, each listed and named by the list read for the one before, or by a tag that refers to it; the rest are deleted |
| Prune.PlannedIff | scripts/prune-packages.py:159-184 | A plan can be made exactly when every required root is listed and every manifest such a chain leads to can be read |
| Prune.DeletedIsUnneeded | scripts/prune-packages.py:169-188 | Nothing deleted was pushed of late, is a root's, or is named by the list or a referrer tag of anything kept, and what is kept was read |
| Prune.UsedAreKept | scripts/prune-packages.py:172-181 | No version deleted is in the list read for one kept, or has its tag `sha256-` and hex, bare or with `.sig`, `.att` or `.sbom` |
| Prune.AbsentIff | scripts/prune-packages.py:161-166 | The roots reported absent are just those of no version listed, none of them required |
| Prune.RootsTagsAreKept | scripts/prune-packages.py:155-188 | No version deleted carries a root's tag |
| Prune.NugetKeepsTheNewest | scripts/prune-packages.py:129-132 | As many as asked are kept, and none kept was pushed before one deleted, or with it under a lower ID |

## Left out

- Capturer.CapturerObject.StartMatch: the counters and the observer's reports beside the records are not modelled; a Match starts with its own ID, a spawn comes snapped to its grid, and ticks stay below 2^63.
- CaptureFates.FilesArePrefixes: an exception while a capture file is being closed is not modelled.
- CaptureFates.HealthOnlyFalls: the first loss is kept from the moment health has left enabled, which is when one is set.
- CapturerOrder.HandedOverInOrder: callers are taken to keep to one ID a Match, distinct entrants that a byte numbers, ticks that do not go back, and killers among the entrants; what a stranger's kill does is proved beside it.
- CapturerMeaning.CaptureTellsTheMatch: of ticks an offset can say, up to 2^32 past the first.
- Retention.CaptureDirectory.Open: the scan of the directory for other captures, by name and magic, is the list it is given, and a file that cannot be deleted counts as gone, as the program has it; totals are unbounded.
- CommandLink.RunsWhatWasIssued: within one Match, as sequences are unbounded; the reset of the server's queue between Matches and a late message of an earlier Match are not modelled.
- CommandLink.EveryCommandDelivered: a command is one a client can produce, finite and in range; the age a Seen tick is sent as is not modelled.
- CommandStream.ClientStream.Tick: the prediction beside the stream is not modelled, nor what it says of the body.
- ServerView.EveryViewOk: one Session's admission is not told from another's; Shot judgements of a Development build and the callback on a Match's start and end are not modelled.
- ConvertedView.CacheIsConversion: at one fixed tick rate; a body's position, velocity and stance are carried whole, as one value.
- Seqlock.ReadIsOnePublish: loads and stores are in one order all threads agree on, not the weaker order the fences give; the version does not wrap.
- ConnectionHealth.Sampler.Record: the histograms beside the gauges are not modelled.
- Blobs.MeshRoundTrip: textures, spawn points, eyes, rifles, stance transitions, scripts, character lists and animation skeletons are not modelled; they are shorter forms of what is.
- SceneTransforms.ComputeWorldTransforms: a transform's matrix and the product of two are abstract.
- PackCodec.ValidateEntries: the library's sort is an insertion sort.
- PackRoundTrip.WrittenLoads: mapping, writing and renaming files is not modelled; hash and signature are any functions of which a signature made verifies.
- CrashReports.FormatSignalLine: signals have their numbers on Linux, and no negative one is given.
- Weapon.HeldFiresWhatIsDue: of intervals longer than 0.0001 s and no shorter than a tick, Weapon.FiresAsDueIff saying of which others it holds; over reals, so rounding is not modelled; the Recoil offset, aim and the bullet's heading are left out, as they change neither fire rate nor magazine.
- Weapon.NeverFasterThanTheRifle: at one fixed tick.
- Intents.MoveToEnds: over reals with lengths, looks and heights as functions given, and with the nearest distance unset, rather than the largest float, until the first tick carried.
- Intents.AimStaysInItsMatch: the angles of the look it comes to are a function given.
- Intents.ToldAtMostOnce: who is to be told is a tag; calling back, outside the lock, and the order of endings told on two threads are not modelled.
- Prune.PlanContainer: which of several unreadable manifests is named, and the order of absent roots of one name, are left open; the list of roots, drawn from Git and the registry, is given.
- Prune.NugetKeepsTheNewest: a timestamp is a number; refusing deletions of versions tagged since the plan is not modelled.
- Transport, physics, prediction, rendering, audio, windows, configuration, metrics endpoints and logging are outside this model.

/**
 The writer behind a Capturer: the queue the Simulation thread hands each Match's file opened, its
 records and its file closed to, and the thread that creates, writes and closes the files.  Each
 critical section, and each piece of work outside the lock, is one atomic step; what the disk makes
 of a step is part of the step.
 */
module CaptureWriter {
  import opened Common

  /** A Match ID; NIL names no Match. */
  type MatchId = nat
  const NIL: MatchId := 0

  datatype Mode = Optional | Strict

  datatype Health = Enabled | Degraded | Stopped

  datatype CaptureStep = Create | Write | Flush | QueueFull | RecordTooLong | RetentionBudget

  /** Why a capture stopped, as it is told: what the disk refused is one reason. */
  datatype CaptureStop = StopRecordTooLong | StopQueueFull | StopWriteFailed | StopRetentionBudget

  function StopAt(step: CaptureStep): CaptureStop {
    match step
    case QueueFull => StopQueueFull
    case RecordTooLong => StopRecordTooLong
    case RetentionBudget => StopRetentionBudget
    case _ => StopWriteFailed
  }

  datatype Code =
    | CaptureWriteFailed | CaptureFlushFailed | CaptureQueueFull | CaptureRecordTooLong
    | CaptureRetentionBudget | StrictCaptureFailed

  datatype Failure = Failure(code: Code, match_: MatchId, step: CaptureStep)

  function OptionalLossCode(step: CaptureStep): Code {
    match step
    case Flush => CaptureFlushFailed
    case QueueFull => CaptureQueueFull
    case RecordTooLong => CaptureRecordTooLong
    case RetentionBudget => CaptureRetentionBudget
    case _ => CaptureWriteFailed
  }

  function LostCapture(mode: Mode, m: MatchId, step: CaptureStep): Failure {
    Failure(if mode.Strict? then StrictCaptureFailed else OptionalLossCode(step), m, step)
  }

  /** Whether a failure's disposition is the runtime's, of those a capture can have. */
  predicate IsRuntime(code: Code) { code.StrictCaptureFailed? }

  datatype Item =
    | OpenItem(match_: MatchId, bytes: seq<byte>)
    | RecordItem(match_: MatchId, bytes: seq<byte>)
    | CloseItem(match_: MatchId)

  /** What the observer is told that a capture's fate is read from. */
  datatype Report = StoppedReport(match_: MatchId, why: CaptureStop) | CompletedReport(match_: MatchId)

  /** What the writer thread is doing: with `writing_` set, everything but Idle. */
  datatype Phase =
    | Idle
    | Taken(item: Item)
      // A close, its Match forgotten under the lock, its file not yet closed.
    | Forgotten(match_: MatchId, wasStopped: bool)
    | Handled(item: Item, failed: Option<CaptureStep>)

  datatype Writer = Writer(
    mode: Mode, capacity: nat,
    queue: seq<Item>, recordsQueued: nat, stopped: set<MatchId>,
    health: Health, loss: Option<Failure>, phase: Phase,
    // The file open, and what its stream still holds of a write that failed.
    fileMatch: MatchId, unflushed: seq<byte>,
    disk: map<MatchId, seq<byte>>, reports: seq<Report>)

  function Fresh(mode: Mode, capacity: nat): Writer {
    Writer(mode, capacity, [], 0, {}, Enabled, None, Idle, NIL, [], map[], [])
  }

  // ---------------------------------------------------------------- under the lock

  /** Where a run's first loss leaves the captures. */
  function AfterLoss(mode: Mode): Health { if mode.Optional? then Degraded else Stopped }

  /** `m`'s capture stops: reported once, and kept as the run's loss if it is the first. */
  function StopLocked(w: Writer, m: MatchId, step: CaptureStep): Writer {
    var first := m !in w.stopped;
    var loses := first && w.health == Enabled;
    w.(stopped := w.stopped + {m},
       reports := if first then w.reports + [StoppedReport(m, StopAt(step))] else w.reports,
       loss := if loses then Some(LostCapture(w.mode, m, step)) else w.loss,
       health := if loses then AfterLoss(w.mode) else w.health)
  }

  predicate Refuses(w: Writer, m: MatchId) { m in w.stopped || w.health == Stopped }

  function Push(w: Writer, m: MatchId, bytes: seq<byte>): Writer {
    if Refuses(w, m) then w
    else if w.recordsQueued >= w.capacity then StopLocked(w, m, QueueFull)
    else w.(recordsQueued := w.recordsQueued + 1, queue := w.queue + [RecordItem(m, bytes)])
  }

  predicate Accepts(w: Writer, m: MatchId) { !Refuses(w, m) && w.recordsQueued < w.capacity }

  predicate Drained(w: Writer) { w.queue == [] && w.phase.Idle? }

  function StopCaptures(w: Writer): Writer { w.(health := Stopped) }

  function Take(w: Writer): Writer
    requires w.phase.Idle? && w.queue != [] && (w.queue[0].RecordItem? ==> w.recordsQueued > 0)
  {
    w.(queue := w.queue[1..], phase := Taken(w.queue[0]),
       recordsQueued := if w.queue[0].RecordItem? then w.recordsQueued - 1 else w.recordsQueued)
  }

  predicate RecordOf(item: Item, m: MatchId) { item.RecordItem? && item.match_ == m }

  /** The queue without `m`'s records. */
  function Without(queue: seq<Item>, m: MatchId): seq<Item> {
    if queue == [] then []
    else if RecordOf(queue[0], m) then Without(queue[1..], m)
    else [queue[0]] + Without(queue[1..], m)
  }

  function Records(queue: seq<Item>): nat {
    if queue == [] then 0 else (if queue[0].RecordItem? then 1 else 0) + Records(queue[1..])
  }

  /** The writer back under the lock: a loss drops what is queued of its Match and stops it. */
  function Settle(w: Writer): Writer
    requires w.phase.Handled?
  {
    var idle := w.(phase := Idle);
    if w.phase.failed.None? then idle
    else
      var kept := Without(w.queue, w.phase.item.match_);
      StopLocked(idle.(queue := kept, recordsQueued := Records(kept)), w.phase.item.match_, w.phase.failed.value)
  }

  function Forget(w: Writer): Writer
    requires w.phase.Taken? && w.phase.item.CloseItem?
  {
    var m := w.phase.item.match_;
    w.(stopped := w.stopped - {m}, phase := Forgotten(m, m in w.stopped))
  }

  // ---------------------------------------------------------------- outside the lock

  /** What the disk, or an exception on the way to it, makes of opening or writing. */
  datatype Outcome =
    | Refused                            // the directory has no room
    | NotCreated
    | Abandoned                          // created, then failed before it counts as open
    | Partly(n: nat, step: CaptureStep)  // any part of the bytes reached the file
    | Whole

  predicate Possible(w: Writer, o: Outcome) {
    && w.phase.Taken? && !w.phase.item.CloseItem?
    && (o.Partly? ==> o.n <= |w.phase.item.bytes| && (o.step.Write? || o.step.Flush?))
    && ((o.NotCreated? || o.Abandoned?) ==> w.phase.item.OpenItem?)
  }

  function Failed(o: Outcome): Option<CaptureStep> {
    match o
    case Refused => Some(RetentionBudget)
    case NotCreated => Some(Create)
    case Abandoned => Some(Write)
    case Partly(_, step) => Some(step)
    case Whole => None
  }

  function OpenFile(w: Writer, m: MatchId, bytes: seq<byte>, o: Outcome): Writer
    requires o.Partly? ==> o.n <= |bytes|
  {
    match o
    case Refused => w
    case NotCreated => w
    case Abandoned => w.(disk := w.disk[m := []])
    case Partly(n, _) => w.(disk := w.disk[m := bytes[..n]], fileMatch := m, unflushed := bytes[n..])
    case Whole => w.(disk := w.disk[m := bytes], fileMatch := m, unflushed := [])
  }

  function Persist(w: Writer, m: MatchId, bytes: seq<byte>, o: Outcome): Writer
    requires m in w.disk && (o.Partly? ==> o.n <= |bytes|)
  {
    match o
    case Partly(n, _) => w.(disk := w.disk[m := w.disk[m] + bytes[..n]], unflushed := bytes[n..])
    case Whole => w.(disk := w.disk[m := w.disk[m] + bytes])
    case _ => w
  }

  /** A record of a Match whose file is not the one open is passed over. */
  predicate PassedOver(w: Writer, item: Item) { item.RecordItem? && w.fileMatch != item.match_ }

  function Handle(w: Writer, o: Outcome): Writer
    requires Possible(w, o) && (w.fileMatch != NIL ==> w.fileMatch in w.disk)
    requires w.phase.item.match_ != NIL
  {
    var item := w.phase.item;
    if PassedOver(w, item) then w.(phase := Handled(item, None))
    else
      var done := if item.OpenItem? then OpenFile(w, item.match_, item.bytes, o)
                  else Persist(w, item.match_, item.bytes, o);
      done.(phase := Handled(item, Failed(o)))
  }

  /** Closing a file may still flush part of what a failed write left in its stream. */
  function CloseFile(w: Writer, n: nat): Writer
    requires w.phase.Forgotten? && n <= |w.unflushed|
    requires w.fileMatch != NIL ==> w.fileMatch in w.disk
    requires w.phase.match_ != NIL
  {
    var m := w.phase.match_;
    var done := w.(phase := Handled(CloseItem(m), None));
    if w.fileMatch != m then done
    else
      var closed := done.(disk := w.disk[m := w.disk[m] + w.unflushed[..n]], fileMatch := NIL, unflushed := []);
      if w.phase.wasStopped then closed else closed.(reports := w.reports + [CompletedReport(m)])
  }

  // ---------------------------------------------------------------- the Simulation thread's calls

  datatype Call =
    | CallBegin(match_: MatchId)
    | CallOpen(match_: MatchId, bytes: seq<byte>)
    | CallPush(match_: MatchId, bytes: seq<byte>)
    | CallStop(match_: MatchId, step: CaptureStep)
    | CallClose(match_: MatchId)
    | CallFinish

  /**
   What the calls made so far come to, whatever the writer does: `pushed` are a Match's records up
   to the first call that stops its capture, since the writer keeps none after it.
   */
  datatype Calls = Calls(
    current: MatchId, begun: set<MatchId>, barred: set<MatchId>,
    headers: map<MatchId, seq<byte>>, pushed: map<MatchId, seq<seq<byte>>>, finished: bool)

  const NO_CALLS := Calls(NIL, {}, {}, map[], map[], false)

  function At(records: map<MatchId, seq<seq<byte>>>, m: MatchId): seq<seq<byte>> {
    if m in records then records[m] else []
  }

  /** The order a Capturer calls in: one Match at a time, each begun once, its file opened first. */
  predicate InOrder(sim: Calls, c: Call) {
    match c
    case CallBegin(m) => sim.current == NIL && m != NIL && m !in sim.begun && !sim.finished
    case CallOpen(m, _) => m == sim.current && m != NIL && m !in sim.headers && At(sim.pushed, m) == []
    case CallPush(m, _) => m == sim.current && m != NIL
    case CallStop(m, _) => m == sim.current && m != NIL
    case CallClose(m) => m == sim.current && m != NIL
    case CallFinish => true
  }

  function Called(sim: Calls, c: Call): Calls {
    match c
    case CallBegin(m) => sim.(current := m, begun := sim.begun + {m})
    case CallOpen(m, bytes) => sim.(headers := sim.headers[m := bytes])
    case CallPush(m, bytes) =>
      if m in sim.barred then sim else sim.(pushed := sim.pushed[m := At(sim.pushed, m) + [bytes]])
    case CallStop(m, _) => sim.(barred := sim.barred + {m})
    case CallClose(_) => sim.(current := NIL)
    case CallFinish => sim.(current := NIL, finished := true)
  }

  function Answer(w: Writer, c: Call): Writer {
    match c
    case CallBegin(_) => w
    case CallOpen(m, bytes) => w.(queue := w.queue + [OpenItem(m, bytes)])
    case CallPush(m, bytes) => Push(w, m, bytes)
    case CallStop(m, step) => StopLocked(w, m, step)
    case CallClose(m) => w.(queue := w.queue + [CloseItem(m)])
    case CallFinish => StopCaptures(w)
  }
}

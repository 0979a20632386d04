/** The writer as the object two threads share: each method is one of its atomic steps. */
module CaptureWriterObject {
  import opened Common
  import opened CaptureWriter

  class WriterObject {
    const mode: Mode
    const capacity: nat
    var queue: seq<Item>
    var recordsQueued: nat
    var stopped: set<MatchId>
    var health: Health
    var loss: Option<Failure>
    var phase: Phase
    var fileMatch: MatchId
    var unflushed: seq<byte>
    var disk: map<MatchId, seq<byte>>
    var reports: seq<Report>

    function State(): Writer
      reads this
    {
      Writer(mode, capacity, queue, recordsQueued, stopped, health, loss, phase, fileMatch, unflushed, disk, reports)
    }

    constructor (mode: Mode, capacity: nat)
      ensures State() == Fresh(mode, capacity)
    {
      this.mode, this.capacity := mode, capacity;
      queue, recordsQueued, stopped := [], 0, {};
      health, loss, phase := Enabled, None, Idle;
      fileMatch, unflushed, disk, reports := NIL, [], map[], [];
    }

    method Enqueue(item: Item)
      modifies this
      ensures State() == old(State()).(queue := old(queue) + [item])
    {
      queue := queue + [item];
    }

    method LoseLocked(m: MatchId, step: CaptureStep)
      modifies this
      ensures State() ==
        if old(health) != Enabled then old(State())
        else old(State()).(loss := Some(LostCapture(mode, m, step)), health := AfterLoss(mode))
    {
      if health != Enabled { return; }
      loss := Some(LostCapture(mode, m, step));
      if mode == Optional { health := Degraded; } else { health := Stopped; }
    }

    method Stop(m: MatchId, step: CaptureStep)
      modifies this
      ensures State() == StopLocked(old(State()), m, step)
    {
      if m in stopped {
        assert stopped == stopped + {m};
        return;
      }
      stopped := stopped + {m};
      reports := reports + [StoppedReport(m, StopAt(step))];
      LoseLocked(m, step);
    }

    method Push(m: MatchId, bytes: seq<byte>)
      modifies this
      ensures State() == CaptureWriter.Push(old(State()), m, bytes)
    {
      if m in stopped || health == Stopped { return; }
      // Going on past this record would leave a capture missing one in its middle.
      if recordsQueued >= capacity {
        Stop(m, QueueFull);
        return;
      }
      recordsQueued := recordsQueued + 1;
      queue := queue + [RecordItem(m, bytes)];
    }

    method Finish()
      requires Drained(State())
      modifies this
      ensures State() == StopCaptures(old(State()))
    {
      health := Stopped;
    }

    method Take()
      requires phase.Idle? && queue != [] && (queue[0].RecordItem? ==> recordsQueued > 0)
      modifies this
      ensures State() == CaptureWriter.Take(old(State()))
    {
      var item := queue[0];
      queue := queue[1..];
      if item.RecordItem? { recordsQueued := recordsQueued - 1; }
      phase := Taken(item);
    }

    /** Drops `m`'s records from the queue and counts those left. */
    method EraseRecords(m: MatchId)
      modifies this
      ensures var kept := Without(old(queue), m);
        State() == old(State()).(queue := kept, recordsQueued := Records(kept))
    {
      var kept: seq<Item>, count, i := [], 0, 0;
      while i < |queue|
        invariant i <= |queue|
        invariant kept + Without(queue[i..], m) == Without(queue, m)
        invariant count + Records(Without(queue[i..], m)) == Records(Without(queue, m))
        invariant State() == old(State())
      {
        assert queue[i..][1..] == queue[i + 1..];
        var rest := Without(queue[i + 1..], m);
        if !(queue[i].RecordItem? && queue[i].match_ == m) {
          assert ([queue[i]] + rest)[1..] == rest;
          assert kept + ([queue[i]] + rest) == (kept + [queue[i]]) + rest;
          kept := kept + [queue[i]];
          if queue[i].RecordItem? { count := count + 1; }
        }
        i := i + 1;
      }
      assert queue[i..] == [] && kept + [] == kept;
      queue, recordsQueued := kept, count;
    }

    method Settle()
      requires phase.Handled?
      modifies this
      ensures State() == CaptureWriter.Settle(old(State()))
    {
      var done := phase;
      phase := Idle;
      if done.failed.Some? {
        EraseRecords(done.item.match_);
        Stop(done.item.match_, done.failed.value);
      }
    }

    /** The item in hand carried out on the file, with what the disk makes of it. */
    method Handle(o: Outcome)
      requires Possible(State(), o) && phase.item.match_ != NIL && (fileMatch != NIL ==> fileMatch in disk)
      modifies this
      ensures State() == CaptureWriter.Handle(old(State()), o)
    {
      var item := phase.item;
      var m := item.match_;
      phase := Handled(item, Failed(o));
      if item.OpenItem? {
        match o {
          case Abandoned =>
            disk := disk[m := []];
          case Partly(n, _) =>
            disk, fileMatch, unflushed := disk[m := item.bytes[..n]], m, item.bytes[n..];
          case Whole =>
            disk, fileMatch, unflushed := disk[m := item.bytes], m, [];
          case _ =>
        }
      } else if fileMatch != m {
        phase := Handled(item, None);
      } else {
        match o {
          case Partly(n, _) =>
            disk, unflushed := disk[m := disk[m] + item.bytes[..n]], item.bytes[n..];
          case Whole =>
            disk := disk[m := disk[m] + item.bytes];
          case _ =>
        }
      }
    }

    method Forget()
      requires phase.Taken? && phase.item.CloseItem?
      modifies this
      ensures State() == CaptureWriter.Forget(old(State()))
    {
      var m := phase.item.match_;
      phase := Forgotten(m, m in stopped);
      stopped := stopped - {m};
    }

    method CloseFile(n: nat)
      requires phase.Forgotten? && n <= |unflushed| && phase.match_ != NIL
      requires fileMatch != NIL ==> fileMatch in disk
      modifies this
      ensures State() == CaptureWriter.CloseFile(old(State()), n)
    {
      var m, wasStopped := phase.match_, phase.wasStopped;
      phase := Handled(CloseItem(m), None);
      if fileMatch != m { return; }
      disk := disk[m := disk[m] + unflushed[..n]];
      fileMatch, unflushed := NIL, [];
      if !wasStopped { reports := reports + [CompletedReport(m)]; }
    }
  }
}

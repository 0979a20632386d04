/**
 What it means that a capture is reported complete: its file holds all that its queue accepted, which
 is all that was captured exactly when none of it was captured while captures were stopped.
 */
module CaptureCompleted {
  import opened Common
  import opened CaptureWriter
  import opened CaptureRuns
  import opened CaptureFates

  predicate Completed(reports: seq<Report>, m: MatchId) {
    exists i :: 0 <= i < |reports| && reports[i] == CompletedReport(m)
  }

  /** Whether an event hands over a record of `m` while captures are stopped: what Health tells before the call. */
  predicate PushesStopped(s: System, e: Event, m: MatchId) {
    e.Sim? && e.call.CallPush? && e.call.match_ == m && s.w.health == Stopped
  }

  /** Whether any event of a run does. */
  ghost predicate PushedWhileStopped(s: System, events: seq<Event>, m: MatchId)
    requires Run(s, events).Some?
    decreases |events|
  {
    events != []
    && (PushesStopped(s, events[0], m) || PushedWhileStopped(Next(s, events[0]), events[1..], m))
  }

  /**
   Whether a Match's file falls short: a write failed, its capture was told to stop or, where only that
   stops one, a record was refused.
   */
  predicate Lacking(v: View, whole: bool) {
    v.book.broken || v.barred || (whole && v.book.accepted != v.pushed)
  }

  /** A capture that falls short is stopped until it is forgotten, and never reported complete. */
  predicate Marked(v: View, whole: bool, before: bool, completed: bool) {
    && (Lacking(v, whole) && !v.failing && !v.forgotten && !v.book.closed ==> v.stopped)
    && (v.forgotten && Lacking(v, whole) ==> before)
    && (completed ==> v.book.closed && !Lacking(v, whole) && v.disk.Some?)
  }

  /** `whole`: none of the Match's records is handed over while captures are stopped. */
  ghost predicate MarksOk(s: System, m: MatchId, whole: bool) {
    Marked(ViewOf(s, m), whole, WasStopped(s.w), Completed(s.w.reports, m))
  }

  lemma CompletedMore(reports: seq<Report>, r: Report, m: MatchId)
    ensures Completed(reports + [r], m) <==> Completed(reports, m) || r == CompletedReport(m)
  {
    if Completed(reports, m) {
      var i :| 0 <= i < |reports| && reports[i] == CompletedReport(m);
      assert (reports + [r])[i] == CompletedReport(m);
    }
    if r == CompletedReport(m) { assert (reports + [r])[|reports|] == CompletedReport(m); }
  }

  lemma StopMarks(w: Writer, m: MatchId, step: CaptureStep, k: MatchId)
    ensures var w' := StopLocked(w, m, step);
      && Completed(w'.reports, k) == Completed(w.reports, k)
      && (w'.health == Stopped && w.mode.Optional? ==> w.health == Stopped)
  {
    CompletedMore(w.reports, StoppedReport(m, StopAt(step)), k);
  }

  /** No file leaves the disk. */
  lemma DiskStays(s: System, e: Event, m: MatchId)
    requires Can(s, e)
    ensures m in s.w.disk ==> m in Next(s, e).w.disk
  {}

  /** A step that leaves what a Match's mark is made of as it was. */
  lemma MarkSame(s: System, s': System, m: MatchId, whole: bool)
    requires MarksOk(s, m, whole) && Named(ViewOf(s', m))
    requires var v, v' := ViewOf(s, m), ViewOf(s', m);
      && v'.book.accepted == v.book.accepted && v'.pushed == v.pushed
      && v'.barred == v.barred && v'.stopped == v.stopped && v'.forgotten == v.forgotten
      && v'.book.closed == v.book.closed
      && (v'.book.broken && !v'.failing ==> v.book.broken && !v.failing)
      && (!v'.failing ==> !v.failing) && (v.disk.Some? ==> v'.disk.Some?)
    requires Completed(s'.w.reports, m) == Completed(s.w.reports, m)
    requires ViewOf(s, m).forgotten ==> s'.w.phase == s.w.phase
    ensures MarksOk(s', m, whole)
  {}

  lemma QuietMark(s: System, e: Event, m: MatchId, whole: bool)
    requires MarksOk(s, m, whole) && Named(ViewOf(s, m)) && Can(s, e) && Quiet(s, e) && Named(ViewOf(Next(s, e), m))
    ensures MarksOk(Next(s, e), m, whole)
  {
    QuietView(s, e, m);
    DiskStays(s, e, m);
    QuietFailing(s, e, m);
    if e == Sim(CallBegin(m)) {
      BegunMark(s, m, whole);
    } else {
      MarkSame(s, Next(s, e), m, whole);
    }
  }

  lemma BegunMark(s: System, m: MatchId, whole: bool)
    requires MarksOk(s, m, whole) && Named(ViewOf(s, m)) && Can(s, Sim(CallBegin(m)))
    ensures MarksOk(Next(s, Sim(CallBegin(m))), m, whole)
  {
    var s' := Next(s, Sim(CallBegin(m)));
    assert ViewOf(s, m).book == BLANK && ViewOf(s, m).pushed == [];
    assert BookOf(s', m) == BookOf(s, m);
  }

  lemma QuietFailing(s: System, e: Event, m: MatchId)
    requires Can(s, e) && Quiet(s, e)
    ensures !ViewOf(Next(s, e), m).failing ==> !ViewOf(s, m).failing
    ensures ViewOf(Next(s, e), m).barred == ViewOf(s, m).barred
  {}

  lemma PushMark(s: System, m: MatchId, bytes: seq<byte>, k: MatchId, whole: bool)
    requires MarksOk(s, k, whole) && Can(s, Sim(CallPush(m, bytes)))
    requires whole && k == m ==> s.w.health != Stopped
    requires Named(ViewOf(s, k)) && Named(ViewOf(Next(s, Sim(CallPush(m, bytes))), k))
    ensures MarksOk(Next(s, Sim(CallPush(m, bytes))), k, whole)
  {
    hide Named;
    StopMarks(s.w, m, QueueFull, k);
    DiskStays(s, Sim(CallPush(m, bytes)), k);
    if k != m {
      OtherViewPush(s, m, bytes, k);
      MarkSame(s, Next(s, Sim(CallPush(m, bytes))), k, whole);
    } else {
      PushView(s, m, bytes);
      LiveIsOpen(ViewOf(s, m));
    }
  }

  lemma LiveIsOpen(v: View)
    requires Named(v) && v.live
    ensures !v.book.closed && !v.forgotten && (v.barred ==> v.stopped)
  {}

  lemma StopMark(s: System, m: MatchId, step: CaptureStep, k: MatchId, whole: bool)
    requires MarksOk(s, k, whole) && Can(s, Sim(CallStop(m, step))) && Named(ViewOf(s, k))
    requires Named(ViewOf(Next(s, Sim(CallStop(m, step))), k))
    ensures MarksOk(Next(s, Sim(CallStop(m, step))), k, whole)
  {
    var s' := Next(s, Sim(CallStop(m, step)));
    StopMarks(s.w, m, step, k);
    if k != m {
      MarkSame(s, s', k, whole);
    } else {
      LiveIsOpen(ViewOf(s, m));
    }
  }

  lemma SettleMark(s: System, k: MatchId, whole: bool)
    requires MarksOk(s, k, whole) && Can(s, WriterSettles) && s.w.phase.failed.Some?
    requires Named(ViewOf(s, k)) && Named(ViewOf(Next(s, WriterSettles), k)) && s.w.phase.item.match_ != NIL
    ensures MarksOk(Next(s, WriterSettles), k, whole)
  {
    var s', m := Next(s, WriterSettles), s.w.phase.item.match_;
    StopMarks(s.w, m, s.w.phase.failed.value, k);
    if k != m { OtherViewSettles(s, k); MarkSame(s, s', k, whole); }
  }

  lemma ForgetMark(s: System, k: MatchId, whole: bool)
    requires MarksOk(s, k, whole) && MatchOk(s, k) && Can(s, WriterForgets) && Named(ViewOf(Next(s, WriterForgets), k))
    ensures MarksOk(Next(s, WriterForgets), k, whole)
  {
    var s', m := Next(s, WriterForgets), s.w.phase.item.match_;
    if k != m {
      MarkSame(s, s', k, whole);
    } else {
      assert Mine(Pending(s.w), m)[0] == CloseItem(m);
      HeadOf(m, BookOf(s, m).ahead);
      assert ViewOf(s', k) == ViewOf(s, k).(stopped := false, forgotten := true);
    }
  }

  lemma CloseMark(s: System, n: nat, k: MatchId, whole: bool)
    requires MarksOk(s, k, whole) && MatchOk(s, k) && Can(s, WriterCloses(n))
    requires Named(ViewOf(Next(s, WriterCloses(n)), k))
    ensures MarksOk(Next(s, WriterCloses(n)), k, whole)
  {
    var s', m := Next(s, WriterCloses(n)), s.w.phase.match_;
    CompletedMore(s.w.reports, CompletedReport(m), k);
    if k != m {
      OtherViewCloses(s, n, k);
      MarkSame(s, s', k, whole);
    } else {
      ViewAfterCloses(s, n, m);
    }
  }

  lemma EachMark(s: System, e: Event, m: MatchId, whole: bool)
    requires Inv(s) && MarksOk(s, m, whole) && Can(s, e) && Inv(Next(s, e))
    requires whole ==> !PushesStopped(s, e, m)
    ensures MarksOk(Next(s, e), m, whole)
  {
    hide Marked, FileOk, Named;
    assert MatchOk(s, m) && MatchOk(Next(s, e), m);
    if Quiet(s, e) {
      QuietMark(s, e, m, whole);
    } else {
      match e {
        case Sim(CallPush(k, bytes)) => PushMark(s, k, bytes, m, whole);
        case Sim(CallStop(k, step)) => StopMark(s, k, step, m, whole);
        case WriterForgets => ForgetMark(s, m, whole);
        case WriterCloses(n) => CloseMark(s, n, m, whole);
        case WriterSettles =>
          FailingIsNamed(s);
          SettleMark(s, m, whole);
      }
    }
  }

  lemma FailingIsNamed(s: System)
    requires Inv(s) && Can(s, WriterSettles) && s.w.phase.failed.Some?
    ensures s.w.phase.item.match_ != NIL
  {
    assert MatchOk(s, NIL);
  }

  lemma {:induction false} RunMarks(s: System, events: seq<Event>, m: MatchId, whole: bool)
    requires Inv(s) && Fates(s) && MarksOk(s, m, whole) && Run(s, events).Some?
    requires whole ==> !PushedWhileStopped(s, events, m)
    ensures MarksOk(Run(s, events).value, m, whole)
    decreases |events|
  {
    hide Inv, Fates, MarksOk, PushesStopped;
    if events != [] {
      KeepsAll(s, events[0]);
      EachMark(s, events[0], m, whole);
      RunMarks(Next(s, events[0]), events[1..], m, whole);
    }
  }

  // ---------------------------------------------------------------- what is lost stays lost

  /** A record was handed over and not accepted, or the capture told to stop. */
  predicate Short(v: View) { v.barred || |v.book.accepted| < |v.pushed| }

  lemma PushShort(s: System, m: MatchId, bytes: seq<byte>, k: MatchId)
    requires Can(s, Sim(CallPush(m, bytes))) && MatchOk(s, k)
    requires Short(ViewOf(s, k)) || (k == m && s.w.health == Stopped)
    ensures Short(ViewOf(Next(s, Sim(CallPush(m, bytes))), k))
  {
    if k == m { PushView(s, m, bytes); } else { OtherViewPush(s, m, bytes, k); }
  }

  lemma OtherwiseShort(s: System, e: Event, k: MatchId)
    requires Can(s, e) && !(e.Sim? && e.call.CallPush?)
    ensures Short(ViewOf(s, k)) ==> Short(ViewOf(Next(s, e), k))
  {}

  lemma {:induction false} RunShort(s: System, events: seq<Event>, m: MatchId)
    requires Inv(s) && Fates(s) && Run(s, events).Some?
    requires Short(ViewOf(s, m)) || PushedWhileStopped(s, events, m)
    ensures Short(ViewOf(Run(s, events).value, m))
    decreases |events|
  {
    hide Short, Fates;
    if events != [] {
      var e := events[0];
      assert MatchOk(s, m);
      KeepsAll(s, e);
      hide Inv;
      if e.Sim? && e.call.CallPush? {
        if Short(ViewOf(s, m)) || PushesStopped(s, e, m) { PushShort(s, e.call.match_, e.call.bytes, m); }
      } else {
        OtherwiseShort(s, e, m);
      }
      RunShort(Next(s, e), events[1..], m);
    }
  }

  // ---------------------------------------------------------------- optional captures

  /** Captures that are optional only stop for good at the end, when no Match is under way. */
  predicate GoesOn(s: System) {
    && (s.w.mode.Optional? && s.w.health == Stopped ==> s.sim.finished)
    && (s.sim.finished ==> s.sim.current == NIL)
  }

  lemma GoesOnStill(s: System, e: Event)
    requires GoesOn(s) && Can(s, e)
    ensures GoesOn(Next(s, e)) && Next(s, e).w.mode == s.w.mode
  {
    match e {
      case Sim(CallPush(m, bytes)) => StopMarks(s.w, m, QueueFull, NIL);
      case Sim(CallStop(m, step)) => StopMarks(s.w, m, step, NIL);
      case Sim(_) =>
      case WriterSettles =>
        if s.w.phase.failed.Some? { StopMarks(s.w, s.w.phase.item.match_, s.w.phase.failed.value, NIL); }
      case _ =>
    }
  }

  lemma {:induction false} OptionalNeverStopsEarly(s: System, events: seq<Event>, m: MatchId)
    requires GoesOn(s) && s.w.mode.Optional? && Run(s, events).Some?
    ensures !PushedWhileStopped(s, events, m)
    decreases |events|
  {
    if events != [] {
      GoesOnStill(s, events[0]);
      assert !PushesStopped(s, events[0], m);
      hide GoesOn, PushesStopped;
      OptionalNeverStopsEarly(Next(s, events[0]), events[1..], m);
    }
  }

  // ---------------------------------------------------------------- main result

  /** No record is empty, as none with its length before it is. */
  predicate Filled(records: seq<seq<byte>>) { forall i :: 0 <= i < |records| ==> records[i] != [] }

  lemma {:induction false} AsLongAs(records: seq<seq<byte>>)
    requires Filled(records)
    ensures |Concat(records)| >= |records|
  {
    if records != [] { AsLongAs(records[1..]); }
  }

  lemma ShorterFile(accepted: seq<seq<byte>>, pushed: seq<seq<byte>>)
    requires accepted <= pushed && accepted != pushed && Filled(pushed)
    ensures |Concat(accepted)| < |Concat(pushed)|
  {
    var rest := pushed[|accepted|..];
    assert pushed == accepted + rest && rest != [];
    ConcatAppend(accepted, rest);
    AsLongAs(rest);
  }

  lemma StartsFresh(mode: Mode, capacity: nat, m: MatchId, whole: bool)
    ensures Inv(Start(mode, capacity)) && Fates(Start(mode, capacity)) && MarksOk(Start(mode, capacity), m, whole)
  {
    StartInv(mode, capacity);
    assert forall k :: FateOk(Start(mode, capacity), k);
  }

  /**
   A Match reported complete has on disk its header and every record its queue accepted. These are all
   that was pushed under it, and the file is whole, exactly when none was pushed while captures were
   stopped; where captures are optional, none ever is.
   */
  lemma CompletedIsWholeIff(mode: Mode, capacity: nat, events: seq<Event>, s: System, m: MatchId)
    requires Reaches(mode, capacity, events, s) && Completed(s.w.reports, m)
    ensures m in s.w.disk && m in s.sim.headers && s.w.disk[m] == s.sim.headers[m] + Concat(Accepted(s, m))
    ensures Accepted(s, m) == At(s.sim.pushed, m) <==> !PushedWhileStopped(Start(mode, capacity), events, m)
    ensures Filled(At(s.sim.pushed, m)) ==>
              (s.w.disk[m] == Intended(s, m) <==> !PushedWhileStopped(Start(mode, capacity), events, m))
    ensures mode.Optional? ==> !PushedWhileStopped(Start(mode, capacity), events, m)
  {
    var s0, stopped := Start(mode, capacity), PushedWhileStopped(Start(mode, capacity), events, m);
    StartsFresh(mode, capacity, m, !stopped);
    RunMarks(s0, events, m, !stopped);
    if stopped { RunShort(s0, events, m); }
    if mode.Optional? { OptionalNeverStopsEarly(s0, events, m); }
    Reached(mode, capacity, events, s);
    assert MatchOk(s, m) && FateOk(s, m);
    if stopped && Filled(At(s.sim.pushed, m)) { ShorterFile(Accepted(s, m), At(s.sim.pushed, m)); }
  }

  // ---------------------------------------------------------------- where captures are strict

  lemma {:induction false} RunMore(s: System, events: seq<Event>, e: Event)
    requires Run(s, events).Some? && Can(Run(s, events).value, e)
    ensures Run(s, events + [e]) == Some(Next(Run(s, events).value, e))
    decreases |events|
  {
    if events == [] {
      assert [e][1..] == [];
    } else {
      assert (events + [e])[1..] == events[1..] + [e];
      RunMore(Next(s, events[0]), events[1..], e);
    }
  }

  /** A first Match's file queued to be opened, and a second Match under way. */
  lemma TwoMatches() returns (events: seq<Event>, s: System)
    ensures Reaches(Strict, 1, events, s)
    ensures s.w == Fresh(Strict, 1).(queue := [OpenItem(1, [0]), CloseItem(1), OpenItem(2, [0])])
    ensures s.sim == Calls(2, {1, 2}, {}, map[1 := [0], 2 := [0]], map[], false)
  {
    hide Run;
    var s0 := Start(Strict, 1);
    assert Run(s0, []) == Some(s0) by { NoRun(s0); }
    RunMore(s0, [], Sim(CallBegin(1)));
    var e1, s1 := [Sim(CallBegin(1))], Next(s0, Sim(CallBegin(1)));
    assert [] + e1 == e1;
    RunMore(s0, e1, Sim(CallOpen(1, [0])));
    var e2, s2 := e1 + [Sim(CallOpen(1, [0]))], Next(s1, Sim(CallOpen(1, [0])));
    RunMore(s0, e2, Sim(CallClose(1)));
    var e3, s3 := e2 + [Sim(CallClose(1))], Next(s2, Sim(CallClose(1)));
    RunMore(s0, e3, Sim(CallBegin(2)));
    var e4, s4 := e3 + [Sim(CallBegin(2))], Next(s3, Sim(CallBegin(2)));
    RunMore(s0, e4, Sim(CallOpen(2, [0])));
    events, s := e4 + [Sim(CallOpen(2, [0]))], Next(s4, Sim(CallOpen(2, [0])));
    assert s.w.queue == [OpenItem(1, [0]), CloseItem(1), OpenItem(2, [0])];
    assert s.sim.begun == {1, 2};
  }

  lemma NoRun(s: System)
    ensures Run(s, []) == Some(s)
  {}

  const BOTH := map[1 := [0 as byte], 2 := [0 as byte]]

  /** The first file cannot be created, and captures stop. */
  lemma FirstFails() returns (events: seq<Event>, s: System)
    ensures Reaches(Strict, 1, events, s)
    ensures s.w == Fresh(Strict, 1).(queue := [CloseItem(1), OpenItem(2, [0])], stopped := {1}, health := Stopped,
                                     loss := s.w.loss, reports := s.w.reports)
    ensures s.sim == Calls(2, {1, 2}, {}, BOTH, map[], false)
  {
    hide Run;
    var s0 := Start(Strict, 1);
    var e0, t0 := TwoMatches();
    RunMore(s0, e0, WriterTakes);
    var e1, t1 := e0 + [WriterTakes], Next(t0, WriterTakes);
    RunMore(s0, e1, WriterHandles(NotCreated));
    var e2, t2 := e1 + [WriterHandles(NotCreated)], Next(t1, WriterHandles(NotCreated));
    RunMore(s0, e2, WriterSettles);
    events, s := e2 + [WriterSettles], Next(t2, WriterSettles);
    KeptWhole(t2.w.queue, 1);
  }

  /** The second Match's record goes nowhere, and it ends. */
  lemma RecordRefused() returns (events: seq<Event>, s: System)
    ensures Reaches(Strict, 1, events, s)
    ensures s.w == Fresh(Strict, 1).(queue := [CloseItem(1), OpenItem(2, [0]), CloseItem(2)], stopped := {1},
                                     health := Stopped, loss := s.w.loss, reports := s.w.reports)
    ensures s.sim.headers == BOTH && s.sim.pushed == map[2 := [[7]]]
  {
    hide Run;
    var s0 := Start(Strict, 1);
    var e0, t0 := FirstFails();
    RunMore(s0, e0, Sim(CallPush(2, [7])));
    var e1, t1 := e0 + [Sim(CallPush(2, [7]))], Next(t0, Sim(CallPush(2, [7])));
    assert At(t0.sim.pushed, 2) + [[7]] == [[7]] && t1.sim.pushed == map[2 := [[7]]];
    RunMore(s0, e1, Sim(CallClose(2)));
    events, s := e1 + [Sim(CallClose(2))], Next(t1, Sim(CallClose(2)));
  }

  /** The first Match is forgotten. */
  lemma FirstForgotten() returns (events: seq<Event>, s: System)
    ensures Reaches(Strict, 1, events, s)
    ensures s.w == Fresh(Strict, 1).(queue := [OpenItem(2, [0]), CloseItem(2)], health := Stopped,
                                     loss := s.w.loss, reports := s.w.reports)
    ensures s.sim.headers == BOTH && s.sim.pushed == map[2 := [[7]]]
  {
    hide Run;
    var s0 := Start(Strict, 1);
    var e0, t0 := RecordRefused();
    RunMore(s0, e0, WriterTakes);
    var e1, t1 := e0 + [WriterTakes], Next(t0, WriterTakes);
    RunMore(s0, e1, WriterForgets);
    var e2, t2 := e1 + [WriterForgets], Next(t1, WriterForgets);
    RunMore(s0, e2, WriterCloses(0));
    var e3, t3 := e2 + [WriterCloses(0)], Next(t2, WriterCloses(0));
    RunMore(s0, e3, WriterSettles);
    events, s := e3 + [WriterSettles], Next(t3, WriterSettles);
  }

  /** The second Match's file is opened with its header, and no record follows. */
  lemma SecondOpened() returns (events: seq<Event>, s: System)
    ensures Reaches(Strict, 1, events, s)
    ensures s.w == Fresh(Strict, 1).(queue := [CloseItem(2)], health := Stopped, fileMatch := 2,
                                     disk := map[2 := [0]], loss := s.w.loss, reports := s.w.reports)
    ensures s.sim.headers == BOTH && s.sim.pushed == map[2 := [[7]]]
  {
    hide Run;
    var s0 := Start(Strict, 1);
    var e0, t0 := FirstForgotten();
    RunMore(s0, e0, WriterTakes);
    var e1, t1 := e0 + [WriterTakes], Next(t0, WriterTakes);
    RunMore(s0, e1, WriterHandles(Whole));
    var e2, t2 := e1 + [WriterHandles(Whole)], Next(t1, WriterHandles(Whole));
    RunMore(s0, e2, WriterSettles);
    events, s := e2 + [WriterSettles], Next(t2, WriterSettles);
  }

  lemma {:induction false} KeptWhole(queue: seq<Item>, m: MatchId)
    requires forall i :: 0 <= i < |queue| ==> !queue[i].RecordItem?
    ensures Without(queue, m) == queue && Records(queue) == 0
    decreases |queue|
  {
    if queue != [] {
      KeptWhole(queue[1..], m);
      assert queue == [queue[0]] + queue[1..];
    }
  }

  /**
   Where captures are strict the word is not kept: a loss in one Match stops them all, so the next one's
   records are refused with nothing said, and its file, short of them, is reported complete.
   */
  lemma StrictReportsAShortFileComplete() returns (events: seq<Event>, s: System)
    ensures Reaches(Strict, 1, events, s)
    ensures Completed(s.w.reports, 2) && 2 in s.w.disk && 2 in s.sim.headers && s.w.disk[2] != Intended(s, 2)
  {
    hide Run;
    var s0 := Start(Strict, 1);
    var e0, t0 := SecondOpened();
    RunMore(s0, e0, WriterTakes);
    var e1, t1 := e0 + [WriterTakes], Next(t0, WriterTakes);
    RunMore(s0, e1, WriterForgets);
    var e2, t2 := e1 + [WriterForgets], Next(t1, WriterForgets);
    RunMore(s0, e2, WriterCloses(0));
    events, s := e2 + [WriterCloses(0)], Next(t2, WriterCloses(0));
    CompletedMore(t2.w.reports, CompletedReport(2), 2);
    assert s.w.disk[2] == [0] && Concat([[7]]) == [7] && |Intended(s, 2)| == 2;
  }
}

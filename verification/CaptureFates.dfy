/**
 What every run comes to: each Match's file against what was pushed under it, what the observer is
 told, the health of the captures, and what a run reports as lost.
 */
module CaptureFates {
  import opened Common
  import opened CaptureWriter
  import opened CaptureRuns

  /** How many times `m`'s capture was reported over, stopped or completed. */
  function Told(reports: seq<Report>, m: MatchId): nat {
    if reports == [] then 0
    else (if reports[|reports| - 1].match_ == m then 1 else 0) + Told(reports[..|reports| - 1], m)
  }

  predicate SomeStopped(reports: seq<Report>) {
    exists i :: 0 <= i < |reports| && reports[i].StoppedReport?
  }

  lemma ToldAppend(reports: seq<Report>, r: Report)
    ensures forall m :: Told(reports + [r], m) == Told(reports, m) + if r.match_ == m then 1 else 0
    ensures SomeStopped(reports + [r]) <==> SomeStopped(reports) || r.StoppedReport?
  {
    assert (reports + [r])[..|reports|] == reports;
    assert forall i :: 0 <= i < |reports| ==> (reports + [r])[i] == reports[i];
    assert (reports + [r])[|reports|] == r;
  }

  // ---------------------------------------------------------------- the invariant

  ghost predicate Halted(s: System) { s.w.health == Stopped }

  /**
   One Match's records accepted and refused, and what was told of it: `told` is how often, `before`
   whether its capture had stopped when the writer forgot it.
   */
  predicate Fated(v: View, told: nat, loss: bool, halted: bool, before: bool) {
    && v.book.accepted <= v.pushed
    && (v.book.accepted != v.pushed ==> loss)
    && (v.live && v.book.accepted != v.pushed ==> v.stopped || halted)
    && (v.stopped ==> told == 1 && loss)
    && (v.forgotten ==> told == if before then 1 else 0)
    && (!v.stopped && !v.forgotten && !v.book.closed ==> told == 0)
    && told <= 1
    && (v.book.broken && !v.failing ==> loss)
  }

  predicate WasStopped(w: Writer) { w.phase.Forgotten? && w.phase.wasStopped }

  ghost predicate FateOk(s: System, m: MatchId) {
    Fated(ViewOf(s, m), Told(s.w.reports, m), s.w.loss.Some?, Halted(s), WasStopped(s.w))
  }

  ghost predicate HealthOk(s: System) {
    && (s.w.loss.Some? <==> SomeStopped(s.w.reports))
    && (s.w.loss.Some? ==> s.w.health == Stopped || s.w.health == AfterLoss(s.w.mode))
    && (s.w.loss.Some? ==> exists m, step :: s.w.loss.value == LostCapture(s.w.mode, m, step))
    && (s.w.loss.None? ==> s.w.health == if s.sim.finished then Stopped else Enabled)
    && (s.sim.finished ==> Drained(s.w) && s.w.health == Stopped)
  }

  ghost predicate Fates(s: System) { HealthOk(s) && forall m :: FateOk(s, m) }

  // ---------------------------------------------------------------- each step keeps it

  /** Stopping a Match is told of it alone, and leaves a loss. */
  lemma StopTells(w: Writer, m: MatchId, step: CaptureStep)
    ensures var w' := StopLocked(w, m, step);
      && (forall k :: Told(w'.reports, k) == Told(w.reports, k) + if k == m && m !in w.stopped then 1 else 0)
      && (SomeStopped(w'.reports) <==> SomeStopped(w.reports) || m !in w.stopped)
  {
    ToldAppend(w.reports, StoppedReport(m, StopAt(step)));
  }

  lemma FateSame(s: System, s': System, m: MatchId)
    requires FateOk(s, m)
    requires var v, v' := ViewOf(s, m), ViewOf(s', m);
      && v'.book.accepted == v.book.accepted && v'.pushed == v.pushed && (v'.live ==> v.live)
      && v'.stopped == v.stopped && v'.forgotten == v.forgotten && v'.book.closed == v.book.closed
      && (v'.book.broken && !v'.failing ==> v.book.broken && !v.failing)
    requires Told(s'.w.reports, m) == Told(s.w.reports, m)
    requires ViewOf(s, m).forgotten ==> s'.w.phase == s.w.phase
    requires s.w.loss.Some? ==> s'.w.loss.Some?
    requires Halted(s) ==> Halted(s')
    ensures FateOk(s', m)
  {}

  /** The steps that tell nothing and refuse nothing. */
  predicate Quiet(s: System, e: Event) {
    match e
    case WriterTakes => true
    case WriterHandles(_) => true
    case Sim(CallBegin(_)) => true
    case Sim(CallOpen(_, _)) => true
    case Sim(CallClose(_)) => true
    case Sim(CallFinish) => true
    case WriterSettles => s.w.phase.Handled? && s.w.phase.failed.None?
    case _ => false
  }

  lemma QuietHealth(s: System, e: Event)
    requires HealthOk(s) && Can(s, e) && Quiet(s, e) && (s.sim.finished ==> s.sim.current == NIL)
    ensures HealthOk(Next(s, e))
  {}

  lemma QuietFate(s: System, e: Event, m: MatchId)
    requires FateOk(s, m) && Named(ViewOf(s, m)) && Can(s, e) && Quiet(s, e)
    ensures FateOk(Next(s, e), m)
  {
    QuietView(s, e, m);
    if e == Sim(CallBegin(m)) {
      assert ViewOf(s, m).book == BLANK && ViewOf(s, m).pushed == [];
    } else {
      FateSame(s, Next(s, e), m);
    }
  }

  lemma QuietKeeps(s: System, e: Event)
    requires Inv(s) && Can(s, e) && Quiet(s, e) && Fates(s)
    ensures Fates(Next(s, e))
  {
    QuietHealth(s, e);
    forall m ensures FateOk(Next(s, e), m) {
      assert FateOk(s, m) && MatchOk(s, m);
      QuietFate(s, e, m);
    }
  }

  lemma QuietView(s: System, e: Event, m: MatchId)
    requires Can(s, e) && Quiet(s, e)
    ensures var v, v' := ViewOf(s, m), ViewOf(Next(s, e), m);
      && v'.book.accepted == v.book.accepted && v'.pushed == v.pushed
      && (e == Sim(CallBegin(m)) || (v'.live ==> v.live))
      && v'.stopped == v.stopped && v'.forgotten == v.forgotten && v'.book.closed == v.book.closed
      && (v'.book.broken && !v'.failing ==> v.book.broken && !v.failing)
      && Next(s, e).w.reports == s.w.reports && Next(s, e).w.loss == s.w.loss
      && (v.forgotten ==> Next(s, e).w.phase == s.w.phase)
  {
    match e {
      case Sim(_) =>
      case WriterHandles(_) =>
      case _ =>
    }
  }

  lemma PushHealth(s: System, m: MatchId, bytes: seq<byte>)
    requires HealthOk(s) && Can(s, Sim(CallPush(m, bytes)))
    ensures HealthOk(Next(s, Sim(CallPush(m, bytes))))
  {
    StopTells(s.w, m, QueueFull);
  }

  lemma PushView(s: System, m: MatchId, bytes: seq<byte>)
    requires Can(s, Sim(CallPush(m, bytes)))
    ensures var v, v', w' := ViewOf(s, m), ViewOf(Next(s, Sim(CallPush(m, bytes))), m), Answer(s.w, CallPush(m, bytes));
      && w'.phase == s.w.phase
      && v'.live && (v.stopped ==> v'.stopped) && v'.failing == v.failing
      && v'.pushed == (if v.barred then v.pushed else v.pushed + [bytes])
      && v'.book.closed == v.book.closed && v'.book.broken == v.book.broken && v'.forgotten == v.forgotten
      && v'.book.accepted == (if Accepts(s.w, m) then v.book.accepted + [bytes] else v.book.accepted)
      && v'.stopped == (v.stopped || (!Accepts(s.w, m) && !Refuses(s.w, m)))
      && (s.w.loss.Some? ==> w'.loss.Some?) && (v'.stopped && !v.stopped && s.w.health == Enabled ==> w'.loss.Some?)
      && (s.w.health == Stopped ==> w'.health == Stopped)
  {}

  lemma PushOwn(s: System, m: MatchId, bytes: seq<byte>)
    requires HealthOk(s) && FateOk(s, m) && MatchOk(s, m) && Can(s, Sim(CallPush(m, bytes))) && !s.sim.finished
    ensures FateOk(Next(s, Sim(CallPush(m, bytes))), m)
  {
    PushView(s, m, bytes);
    StopTells(s.w, m, QueueFull);
  }

  lemma PushOther(s: System, m: MatchId, bytes: seq<byte>, k: MatchId)
    requires FateOk(s, k) && Can(s, Sim(CallPush(m, bytes))) && k != m
    ensures FateOk(Next(s, Sim(CallPush(m, bytes))), k)
  {
    StopTells(s.w, m, QueueFull);
    FateSame(s, Next(s, Sim(CallPush(m, bytes))), k);
  }

  lemma PushKeeps(s: System, m: MatchId, bytes: seq<byte>)
    requires Inv(s) && Can(s, Sim(CallPush(m, bytes))) && Fates(s)
    ensures Fates(Next(s, Sim(CallPush(m, bytes))))
  {
    PushHealth(s, m, bytes);
    forall k ensures FateOk(Next(s, Sim(CallPush(m, bytes))), k) {
      assert FateOk(s, k) && MatchOk(s, k);
      if k == m { PushOwn(s, m, bytes); } else { PushOther(s, m, bytes, k); }
    }
  }

  lemma StopKeeps(s: System, m: MatchId, step: CaptureStep)
    requires Inv(s) && Can(s, Sim(CallStop(m, step))) && Fates(s)
    ensures Fates(Next(s, Sim(CallStop(m, step))))
  {
    var s' := Next(s, Sim(CallStop(m, step)));
    StopTells(s.w, m, step);
    forall k ensures FateOk(s', k) {
      assert FateOk(s, k) && MatchOk(s, k);
      if k != m { FateSame(s, s', k); }
    }
  }

  lemma SettleKeeps(s: System)
    requires Inv(s) && Can(s, WriterSettles) && s.w.phase.failed.Some? && Fates(s)
    ensures Fates(Next(s, WriterSettles))
  {
    var s', m := Next(s, WriterSettles), s.w.phase.item.match_;
    SettleHealth(s);
    forall k ensures FateOk(s', k) {
      assert FateOk(s, k) && MatchOk(s, k);
      if k == m { assert m != NIL; SettleOwn(s, m); } else { SettleOther(s, k); }
    }
  }

  lemma SettleHealth(s: System)
    requires HealthOk(s) && Can(s, WriterSettles) && s.w.phase.failed.Some?
    requires FateOk(s, s.w.phase.item.match_)
    ensures HealthOk(Next(s, WriterSettles))
  {
    StopTells(s.w, s.w.phase.item.match_, s.w.phase.failed.value);
  }

  lemma SettleOwn(s: System, m: MatchId)
    requires HealthOk(s) && FateOk(s, m) && MatchOk(s, m) && Can(s, WriterSettles) && m != NIL
    requires s.w.phase.failed.Some? && s.w.phase.item.match_ == m
    ensures FateOk(Next(s, WriterSettles), m)
  {
    StopTells(s.w, m, s.w.phase.failed.value);
  }

  lemma SettleOther(s: System, k: MatchId)
    requires FateOk(s, k) && Can(s, WriterSettles) && s.w.phase.failed.Some? && s.w.phase.item.match_ != k
    ensures FateOk(Next(s, WriterSettles), k)
  {
    StopTells(s.w, s.w.phase.item.match_, s.w.phase.failed.value);
    FateSame(s, Next(s, WriterSettles), k);
  }

  lemma ForgetKeeps(s: System)
    requires Inv(s) && Can(s, WriterForgets) && Fates(s)
    ensures Fates(Next(s, WriterForgets))
  {
    var s', m := Next(s, WriterForgets), s.w.phase.item.match_;
    forall k ensures FateOk(s', k) {
      assert FateOk(s, k) && MatchOk(s, k);
      if k != m {
        FateSame(s, s', k);
      } else {
        assert Mine(Pending(s.w), m)[0] == CloseItem(m);
        HeadOf(m, BookOf(s, m).ahead);
      }
    }
  }

  lemma ClosesKeeps(s: System, n: nat)
    requires Inv(s) && Can(s, WriterCloses(n)) && Fates(s)
    ensures Fates(Next(s, WriterCloses(n)))
  {
    var s', m := Next(s, WriterCloses(n)), s.w.phase.match_;
    ToldAppend(s.w.reports, CompletedReport(m));
    forall k ensures FateOk(s', k) {
      assert FateOk(s, k) && MatchOk(s, k);
      if k != m { FateSame(s, s', k); }
    }
  }

  lemma KeepsAll(s: System, e: Event)
    requires Inv(s) && Fates(s) && Can(s, e)
    ensures Inv(Next(s, e)) && Fates(Next(s, e))
  {
    match e {
      case Sim(c) => KeepCall(s, c);
      case WriterTakes => KeepTake(s);
      case WriterHandles(o) => KeepHandles(s, o);
      case WriterForgets => KeepForget(s);
      case WriterCloses(n) => KeepCloses(s, n);
      case WriterSettles => KeepSettles(s);
    }
    if Quiet(s, e) {
      QuietKeeps(s, e);
    } else {
      match e {
        case Sim(CallPush(m, bytes)) => PushKeeps(s, m, bytes);
        case Sim(CallStop(m, step)) => StopKeeps(s, m, step);
        case WriterForgets => ForgetKeeps(s);
        case WriterCloses(n) => ClosesKeeps(s, n);
        case WriterSettles => SettleKeeps(s);
      }
    }
  }

  lemma {:induction false} RunKeepsAll(s: System, events: seq<Event>)
    requires Inv(s) && Fates(s) && Run(s, events).Some?
    ensures Inv(Run(s, events).value) && Fates(Run(s, events).value)
    decreases |events|
  {
    if events != [] {
      KeepsAll(s, events[0]);
      RunKeepsAll(Next(s, events[0]), events[1..]);
    }
  }

  /** Whether a run of `events` of a writer of `mode` and `capacity` comes to `s`. */
  ghost predicate Reaches(mode: Mode, capacity: nat, events: seq<Event>, s: System) {
    Run(Start(mode, capacity), events) == Some(s)
  }

  lemma Reached(mode: Mode, capacity: nat, events: seq<Event>, s: System)
    requires Reaches(mode, capacity, events, s)
    ensures Inv(s) && Fates(s)
  {
    StartInv(mode, capacity);
    assert forall m :: FateOk(Start(mode, capacity), m);
    RunKeepsAll(Start(mode, capacity), events);
  }

  // ---------------------------------------------------------------- main results

  /** All a Match's file is for: its header, then every record pushed under it. */
  function Intended(s: System, m: MatchId): seq<byte>
    requires m in s.sim.headers
  {
    s.sim.headers[m] + Concat(At(s.sim.pushed, m))
  }

  /**
   Whatever the interleaving and the disk's faults, a Match's file is a prefix of its header and then
   exactly the records pushed under it, in order: whole records, and at most one fragment last.
   */
  lemma FilesArePrefixes(mode: Mode, capacity: nat, events: seq<Event>, s: System, m: MatchId)
    requires Reaches(mode, capacity, events, s) && m in s.w.disk
    ensures m in s.sim.headers && s.w.disk[m] <= Intended(s, m)
    ensures Accepted(s, m) <= At(s.sim.pushed, m)
    ensures s.w.disk[m] <= s.sim.headers[m] + Concat(Accepted(s, m))
  {
    Reached(mode, capacity, events, s);
    assert MatchOk(s, m) && FateOk(s, m);
    FilePrefix(ViewOf(s, m));
  }

  lemma FilePrefix(v: View)
    requires FileOk(v) && v.disk.Some? && v.book.accepted <= v.pushed
    ensures v.header.Some? && v.disk.value <= Full(v) <= v.header.value + Concat(v.pushed)
  {
    ConcatPrefix(v.book.accepted, v.pushed);
  }

  /** The count of queued records is that of the queue, and never passes capacity. */
  lemma QueueIsBounded(mode: Mode, capacity: nat, events: seq<Event>, s: System)
    requires Reaches(mode, capacity, events, s)
    ensures s.w.recordsQueued == Records(s.w.queue) && Records(s.w.queue) <= s.w.capacity
  {
    Reached(mode, capacity, events, s);
  }

  /** No Match is reported stopped twice, or both stopped and completed. */
  lemma ReportedOnce(mode: Mode, capacity: nat, events: seq<Event>, s: System, m: MatchId)
    requires Reaches(mode, capacity, events, s)
    ensures Told(s.w.reports, m) <= 1
  {
    Reached(mode, capacity, events, s);
    assert FateOk(s, m);
  }

  /** With nothing lost and nothing left to do, every file opened holds all that was pushed under it. */
  lemma NothingLostIsComplete(mode: Mode, capacity: nat, events: seq<Event>, s: System, m: MatchId)
    requires Reaches(mode, capacity, events, s) && Drained(s.w) && s.w.loss.None? && m in s.sim.headers
    ensures m in s.w.disk && s.w.disk[m] == Intended(s, m)
  {
    Reached(mode, capacity, events, s);
    assert MatchOk(s, m) && FateOk(s, m);
    var v := ViewOf(s, m);
    assert ItemsOf(m, v.book.ahead) == [];
    assert v.book.ahead.queued == [] && v.book.ahead.opening.None?;
    assert Done(v.book) == v.book.accepted;
  }

  function Rank(h: Health): nat {
    match h
    case Enabled => 0
    case Degraded => 1
    case Stopped => 2
  }

  /** Health only moves on, and the first loss is kept, over any run. */
  lemma {:induction false} HealthOnlyFalls(s: System, events: seq<Event>)
    requires Run(s, events).Some?
    ensures Rank(s.w.health) <= Rank(Run(s, events).value.w.health)
    ensures s.w.loss.Some? && s.w.health != Enabled ==> Run(s, events).value.w.loss == s.w.loss
    decreases |events|
  {
    if events != [] { HealthOnlyFalls(Next(s, events[0]), events[1..]); }
  }

  /** What the Host reports once FinishCapture has stopped the captures. */
  function CaptureFailure(w: Writer): Option<Failure> {
    if w.health != Stopped then None
    else if w.loss.Some? && !IsRuntime(w.loss.value.code) then None
    else w.loss
  }

  /** After Finish a strict run reports a failure exactly when a capture was lost; an optional one never does. */
  lemma FinishReportsLosses(mode: Mode, capacity: nat, events: seq<Event>, s: System)
    requires Reaches(mode, capacity, events, s) && s.sim.finished
    ensures s.w.mode == mode
    ensures mode.Strict? ==> (CaptureFailure(s.w).Some? <==> SomeStopped(s.w.reports))
    ensures mode.Optional? ==> CaptureFailure(s.w).None?
    ensures !SomeStopped(s.w.reports) ==>
              forall m :: m in s.sim.headers ==> m in s.w.disk && s.w.disk[m] == Intended(s, m)
  {
    Reached(mode, capacity, events, s);
    ModeStays(Start(mode, capacity), events);
    if !SomeStopped(s.w.reports) {
      forall m | m in s.sim.headers ensures m in s.w.disk && s.w.disk[m] == Intended(s, m) {
        NothingLostIsComplete(mode, capacity, events, s, m);
      }
    }
  }

  lemma {:induction false} ModeStays(s: System, events: seq<Event>)
    requires Run(s, events).Some?
    ensures Run(s, events).value.w.mode == s.w.mode && Run(s, events).value.w.capacity == s.w.capacity
    decreases |events|
  {
    if events != [] { ModeStays(Next(s, events[0]), events[1..]); }
  }
}

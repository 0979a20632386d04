/**
 Commands over a link that loses, reorders and repeats messages, within one Match: the client's
 stream, the server's queue, and the acknowledgements that come back the same way.
 */
module CommandLink {
  import opened Common
  import opened CommandQueue
  import opened CommandStream

  /** What the server says of one tick, as far as commands go. */
  datatype Update = Update(tick: nat, acknowledged: nat)

  datatype System = System(
    // The Match's number, and the sequence its first command goes under.
    match_: nat, first: nat,
    stream: Stream, view: Option<Update>,
    // Every message sent either way: each may arrive any number of times, or never.
    up: set<seq<Sequenced>>, down: set<Update>,
    queue: Queue, tick: nat,
    // Every command issued, offered and run, in order, and how many the queue dropped.
    issued: seq<Command>, offered: seq<Sequenced>, ran: seq<Sequenced>, overflowed: nat)

  /** A Match about to start: the stream may hold an earlier one's commands, the queue holds none. */
  predicate Starts(s: System) {
    && s.first >= 1 && s.stream.next == s.first && s.stream.startedMatch != s.match_ && s.view.None?
    && s.up == {} && s.down == {} && (exists hz: byte :: s.queue == EmptyQueue(hz))
    && s.issued == [] && s.offered == [] && s.ran == [] && s.overflowed == 0
  }

  datatype Event =
    | ClientTick(command: Command, alive: bool)
    | ServerReceives(message: seq<Sequenced>)
    | ServerTick
    | ClientReceives(update: Update)

  predicate Can(s: System, e: Event) {
    match e
    case ServerReceives(m) => m in s.up
    case ClientReceives(u) => u in s.down
    case _ => true
  }

  function ToldBy(s: System, alive: bool): Told {
    Told(true, s.match_, if s.view.Some? then Some(s.view.value.acknowledged) else None, alive)
  }

  function Offer(s: System, c: Sequenced): System {
    var (q, r) := TryEnqueue(s.queue, c);
    s.(queue := q,
       offered := if r.Ok? then s.offered + [c] else s.offered,
       overflowed := if r == Ok(DroppedOldest) then s.overflowed + 1 else s.overflowed)
  }

  function OfferAll(s: System, m: seq<Sequenced>): System
    decreases |m|
  {
    if m == [] then s else OfferAll(Offer(s, m[0]), m[1..])
  }

  function Step(s: System, e: Event): System {
    match e
    case ClientTick(c, alive) =>
      var (stream, send) := Ticked(s.stream, ToldBy(s, alive), c);
      s.(stream := stream, up := s.up + {send}, issued := s.issued + [AsSent(ToldBy(s, alive), c)])
    case ServerReceives(m) => OfferAll(s, m)
    case ServerTick =>
      var (q, t) := Next(s.queue);
      s.(queue := q, tick := s.tick + 1, down := s.down + {Update(s.tick + 1, t.acknowledged)},
         ran := if t.sent then s.ran + [Sequenced(t.acknowledged, t.command)] else s.ran)
    case ClientReceives(u) =>
      if s.view.Some? && u.tick <= s.view.value.tick then s else s.(view := Some(u))
  }

  function Run(s: System, events: seq<Event>): Option<System>
    decreases |events|
  {
    if events == [] then Some(s)
    else if Can(s, events[0]) then Run(Step(s, events[0]), events[1..])
    else None
  }

  // ---------------------------------------------------------------- runs of sequences

  function Max(a: int, b: int): int { if a < b then b else a }

  /** The commands issued under the sequences from `lo` up to, not including, `hi`. */
  function Span(first: nat, issued: seq<Command>, lo: nat, hi: nat): seq<Sequenced>
    requires first <= lo <= hi <= first + |issued|
  {
    seq(hi - lo, i requires 0 <= i < hi - lo => Sequenced(lo + i, issued[lo + i - first]))
  }

  predicate Issued(s: System, c: Sequenced) {
    s.first <= c.sequence < s.first + |s.issued| && s.issued[c.sequence - s.first] == c.command
  }

  /** Whether `m` is what was issued from some sequence up to, not including, `hi`. */
  predicate EndsAt(first: nat, issued: seq<Command>, m: seq<Sequenced>, hi: nat) {
    && m != [] && hi <= first + |issued| && |m| <= hi - first
    && m == Span(first, issued, hi - |m|, hi)
  }

  lemma {:induction false} AboveSpan(first: nat, issued: seq<Command>, lo: nat, hi: nat, acknowledged: nat)
    requires first <= lo <= hi <= first + |issued| && acknowledged < hi
    ensures Above(Span(first, issued, lo, hi), acknowledged) == Span(first, issued, Max(lo, acknowledged + 1), hi)
    decreases hi - lo
  {
    if lo < hi {
      assert Span(first, issued, lo, hi)[1..] == Span(first, issued, lo + 1, hi);
      AboveSpan(first, issued, lo + 1, hi, acknowledged);
    }
  }

  lemma CarriedSpan(first: nat, issued: seq<Command>, lo: nat, hi: nat)
    requires first <= lo <= hi <= first + |issued|
    ensures Carried(Span(first, issued, lo, hi)) == Span(first, issued, Max(lo, hi - MAX_PER_MESSAGE), hi)
  {}

  lemma SpanSnoc(first: nat, issued: seq<Command>, lo: nat, c: Command)
    requires first <= lo <= first + |issued|
    ensures Span(first, issued, lo, first + |issued|) + [Sequenced(first + |issued|, c)]
            == Span(first, issued + [c], lo, first + |issued| + 1)
  {}

  // ---------------------------------------------------------------- the invariant

  /**
   A message is a run of the newest commands, no longer than one carries, and shorter only when all
   before it are of no use: acknowledged, or of before the Match.
   */
  predicate IsMessage(first: nat, issued: seq<Command>, acknowledged: nat, m: seq<Sequenced>, hi: nat) {
    && EndsAt(first, issued, m, hi) && |m| <= MAX_PER_MESSAGE
    && hi - |m| <= Max(first, Max(hi - MAX_PER_MESSAGE, acknowledged + 1))
  }

  function EndOf(m: seq<Sequenced>): nat {
    if m == [] then 0 else m[|m| - 1].sequence + 1
  }

  predicate ClientOk(s: System) {
    && s.stream.next == s.first + |s.issued|
    && (s.stream.startedMatch == s.match_ <==> s.issued != [])
    && (s.issued != [] ==>
          IsMessage(s.first, s.issued, s.queue.acknowledged, s.stream.unacknowledged, s.stream.next))
  }

  predicate UpOk(s: System) {
    forall m :: m in s.up ==> IsMessage(s.first, s.issued, s.queue.acknowledged, m, EndOf(m))
  }

  predicate AllIssued(s: System, cs: seq<Sequenced>) { forall i :: 0 <= i < |cs| ==> Issued(s, cs[i]) }

  function Last(cs: seq<Sequenced>): nat { if cs == [] then 0 else cs[|cs| - 1].sequence }

  /** Each command offered was run, is queued, or was dropped for room. */
  predicate Accounted(q: Queue, offered: seq<Sequenced>, ran: seq<Sequenced>, overflowed: nat) {
    && Increasing(offered) && q.lastOffered == Last(offered)
    && Increasing(ran) && q.acknowledged == Last(ran)
    && |offered| == |ran| + |q.queued| + overflowed
    && (overflowed == 0 ==> offered == ran + q.queued)
  }

  predicate ServerOk(s: System) {
    && Sorted(s.queue) && s.queue.lastOffered < s.first + |s.issued|
    && AllIssued(s, s.queue.queued) && AllIssued(s, s.offered) && AllIssued(s, s.ran)
    && Accounted(s.queue, s.offered, s.ran, s.overflowed)
  }

  predicate DownOk(s: System) {
    && (forall u :: u in s.down ==> u.tick <= s.tick && u.acknowledged <= s.queue.acknowledged)
    && (forall u, v :: u in s.down && v in s.down && u.tick <= v.tick ==> u.acknowledged <= v.acknowledged)
    && (s.view.Some? ==> s.view.value in s.down)
  }

  predicate Inv(s: System) { s.first >= 1 && ClientOk(s) && UpOk(s) && ServerOk(s) && DownOk(s) }

  lemma StartsInv(s: System)
    requires Starts(s)
    ensures Inv(s)
  {}

  // ---------------------------------------------------------------- the client's tick

  lemma MessageStays(first: nat, issued: seq<Command>, issued': seq<Command>, a: nat, a': nat, m: seq<Sequenced>,
                     hi: nat)
    requires IsMessage(first, issued, a, m, hi) && issued <= issued' && a <= a'
    ensures IsMessage(first, issued', a', m, hi)
  {}

  /** What the client still holds back for the server: what it does not know acknowledged. */
  lemma PrunedIsSpan(s: System, alive: bool) returns (lo: nat)
    requires s.first >= 1 && ClientOk(s) && (s.view.Some? ==> s.view.value.acknowledged <= s.queue.acknowledged)
    requires s.queue.acknowledged < s.first + |s.issued|
    ensures s.first <= lo <= s.first + |s.issued|
    ensures Pruned(s.stream, ToldBy(s, alive)) == Span(s.first, s.issued, lo, s.first + |s.issued|)
    ensures lo <= Max(s.first, Max(s.stream.next - MAX_PER_MESSAGE, s.queue.acknowledged + 1))
  {
    var hi := s.first + |s.issued|;
    var held := if s.issued == [] then [] else s.stream.unacknowledged;
    lo := hi - |held|;
    assert held == Span(s.first, s.issued, lo, hi);
    if s.view.Some? {
      AboveSpan(s.first, s.issued, lo, hi, s.view.value.acknowledged);
      lo := Max(lo, s.view.value.acknowledged + 1);
    }
  }

  lemma SpanIsMessage(first: nat, issued: seq<Command>, lo: nat, a: nat, send: seq<Sequenced>, hi: nat)
    requires first <= lo < hi == first + |issued| && send == Carried(Span(first, issued, lo, hi))
    requires lo <= Max(first, Max(hi - 1 - MAX_PER_MESSAGE, a + 1))
    ensures IsMessage(first, issued, a, send, hi) && EndOf(send) == hi
  {
    CarriedSpan(first, issued, lo, hi);
  }

  lemma SendIsCarried(st: Stream, told: Told, c: Command, first: nat, issued: seq<Command>, lo: nat, hi: nat)
    requires told.inMatch && first <= lo <= hi == st.next == first + |issued|
    requires Pruned(st, told) == Span(first, issued, lo, hi)
    ensures Ticked(st, told, c).1 == Carried(Span(first, issued + [AsSent(told, c)], lo, hi + 1))
  {
    SpanSnoc(first, issued, lo, AsSent(told, c));
  }

  /** What a tick sends: the newest commands issued, but for those acknowledged. */
  lemma SendIsMessage(s: System, c: Command, alive: bool, send: seq<Sequenced>, issued: seq<Command>, hi: nat)
    requires s.first >= 1 && ClientOk(s) && (s.view.Some? ==> s.view.value.acknowledged <= s.queue.acknowledged)
    requires s.queue.acknowledged < s.first + |s.issued|
    requires send == Ticked(s.stream, ToldBy(s, alive), c).1
    requires issued == s.issued + [AsSent(ToldBy(s, alive), c)] && hi == s.first + |issued|
    ensures IsMessage(s.first, issued, s.queue.acknowledged, send, hi) && EndOf(send) == hi
  {
    var lo := PrunedIsSpan(s, alive);
    SendIsCarried(s.stream, ToldBy(s, alive), c, s.first, s.issued, lo, s.stream.next);
    SpanIsMessage(s.first, issued, lo, s.queue.acknowledged, send, hi);
  }

  lemma ServerStays(s: System, s': System)
    requires ServerOk(s) && s'.queue == s.queue && s'.offered == s.offered && s'.ran == s.ran
    requires s'.overflowed == s.overflowed && s'.first == s.first && s.issued <= s'.issued
    ensures ServerOk(s')
  {}

  /** What the client sent and holds stays of use while its acknowledgement only grows. */
  lemma ClientStays(s: System, s': System)
    requires ClientOk(s) && UpOk(s) && s'.first == s.first && s'.issued == s.issued && s'.stream == s.stream
    requires s'.match_ == s.match_ && s'.up == s.up && s.queue.acknowledged <= s'.queue.acknowledged
    ensures ClientOk(s') && UpOk(s')
  {
    var a, a' := s.queue.acknowledged, s'.queue.acknowledged;
    if s.issued != [] { MessageStays(s.first, s.issued, s.issued, a, a', s.stream.unacknowledged, s.stream.next); }
    forall m | m in s'.up ensures IsMessage(s.first, s.issued, a', m, EndOf(m)) {
      MessageStays(s.first, s.issued, s.issued, a, a', m, EndOf(m));
    }
  }

  lemma ClientTickClient(s: System, c: Command, alive: bool, s': System)
    requires Inv(s) && s' == Step(s, ClientTick(c, alive))
    ensures ClientOk(s') && UpOk(s')
  {
    SendIsMessage(s, c, alive, s'.stream.unacknowledged, s'.issued, s'.stream.next);
    forall m | m in s'.up ensures IsMessage(s'.first, s'.issued, s'.queue.acknowledged, m, EndOf(m)) {
      if m in s.up {
        MessageStays(s.first, s.issued, s'.issued, s.queue.acknowledged, s'.queue.acknowledged, m, EndOf(m));
      }
    }
  }

  lemma ClientTickKeeps(s: System, c: Command, alive: bool)
    requires Inv(s)
    ensures Inv(Step(s, ClientTick(c, alive)))
  {
    ClientTickClient(s, c, alive, Step(s, ClientTick(c, alive)));
    ServerStays(s, Step(s, ClientTick(c, alive)));
  }

  // ---------------------------------------------------------------- the server's steps

  lemma OfferAccounts(q: Queue, offered: seq<Sequenced>, ran: seq<Sequenced>, overflowed: nat, c: Sequenced)
    requires Sorted(q) && Accounted(q, offered, ran, overflowed) && TryEnqueue(q, c).1.Ok?
    ensures var (q', r) := TryEnqueue(q, c);
      Accounted(q', offered + [c], ran, if r == Ok(DroppedOldest) then overflowed + 1 else overflowed)
  {
    assert ran + (q.queued + [c]) == ran + q.queued + [c];
  }

  lemma OfferServer(s: System, c: Sequenced)
    requires ServerOk(s) && Issued(s, c)
    ensures ServerOk(Offer(s, c)) && s.queue.lastOffered <= Offer(s, c).queue.lastOffered
    ensures Offer(s, c).queue.acknowledged == s.queue.acknowledged
  {
    TryEnqueueKeeps(s.queue, c);
    if TryEnqueue(s.queue, c).1.Ok? {
      OfferAccounts(s.queue, s.offered, s.ran, s.overflowed, c);
      IssuedQueue(s, c);
    }
  }

  lemma IssuedQueue(s: System, c: Sequenced)
    requires AllIssued(s, s.queue.queued) && AllIssued(s, s.offered) && AllIssued(s, s.ran) && Issued(s, c)
    ensures AllIssued(Offer(s, c), Offer(s, c).queue.queued) && AllIssued(Offer(s, c), Offer(s, c).offered)
    ensures AllIssued(Offer(s, c), Offer(s, c).ran)
  {}

  lemma {:induction false} OfferAllKeeps(s: System, m: seq<Sequenced>)
    requires ServerOk(s) && AllIssued(s, m)
    ensures var s' := OfferAll(s, m);
      && ServerOk(s') && s'.queue.acknowledged == s.queue.acknowledged
      && s' == s.(queue := s'.queue, offered := s'.offered, overflowed := s'.overflowed)
    decreases |m|
  {
    if m != [] {
      OfferServer(s, m[0]);
      OfferAllKeeps(Offer(s, m[0]), m[1..]);
    }
  }

  lemma NextAccounts(q: Queue, offered: seq<Sequenced>, ran: seq<Sequenced>, overflowed: nat)
    requires Sorted(q) && Accounted(q, offered, ran, overflowed) && q.queued != []
    ensures Accounted(Next(q).0, offered, ran + [q.queued[0]], overflowed)
  {
    assert ran + q.queued == ran + [q.queued[0]] + q.queued[1..];
  }

  lemma ServerTickServer(s: System, s': System)
    requires ServerOk(s) && s' == Step(s, ServerTick)
    ensures ServerOk(s') && s.queue.acknowledged <= s'.queue.acknowledged
  {
    NextKeeps(s.queue);
    NextIssued(s);
    if s.queue.queued != [] { NextAccounts(s.queue, s.offered, s.ran, s.overflowed); }
  }

  lemma NextIssued(s: System)
    requires AllIssued(s, s.queue.queued) && AllIssued(s, s.offered) && AllIssued(s, s.ran)
    ensures var s' := Step(s, ServerTick);
      AllIssued(s', s'.queue.queued) && AllIssued(s', s'.offered) && AllIssued(s', s'.ran)
  {}

  lemma ServerTickDown(s: System, s': System)
    requires DownOk(s) && Sorted(s.queue) && s' == Step(s, ServerTick)
    ensures DownOk(s')
  {
    NextKeeps(s.queue);
  }

  lemma ServerTickKeeps(s: System)
    requires Inv(s)
    ensures Inv(Step(s, ServerTick))
  {
    var s' := Step(s, ServerTick);
    ServerTickServer(s, s');
    ServerTickDown(s, s');
    ClientStays(s, s');
  }

  lemma ServerReceivesKeeps(s: System, m: seq<Sequenced>)
    requires Inv(s) && m in s.up
    ensures Inv(Step(s, ServerReceives(m)))
  {
    MessageIssued(s, m);
    OfferAllKeeps(s, m);
    ClientStays(s, OfferAll(s, m));
  }

  lemma MessageIssued(s: System, m: seq<Sequenced>)
    requires UpOk(s) && m in s.up
    ensures AllIssued(s, m)
  {}

  lemma ClientReceivesKeeps(s: System, u: Update)
    requires Inv(s) && u in s.down
    ensures Inv(Step(s, ClientReceives(u)))
  {
    ClientStays(s, Step(s, ClientReceives(u)));
    ServerStays(s, Step(s, ClientReceives(u)));
  }

  lemma StepKeeps(s: System, e: Event)
    requires Inv(s) && Can(s, e)
    ensures Inv(Step(s, e))
  {
    match e {
      case ClientTick(c, alive) => ClientTickKeeps(s, c, alive);
      case ServerReceives(m) => ServerReceivesKeeps(s, m);
      case ServerTick => ServerTickKeeps(s);
      case ClientReceives(u) => ClientReceivesKeeps(s, u);
    }
  }

  lemma {:induction false} RunKeeps(s: System, events: seq<Event>)
    requires Inv(s) && Run(s, events).Some?
    ensures Inv(Run(s, events).value)
    decreases |events|
  {
    if events != [] {
      StepKeeps(s, events[0]);
      RunKeeps(Step(s, events[0]), events[1..]);
    }
  }

  // ---------------------------------------------------------------- what was given

  /** A command as its player gave it, and whether the player was alive. */
  datatype Given = Given(command: Command, alive: bool)

  function GivenIn(events: seq<Event>): seq<Given>
    decreases |events|
  {
    if events == [] then []
    else (if events[0].ClientTick? then [Given(events[0].command, events[0].alive)] else []) + GivenIn(events[1..])
  }

  /** Whether `issued` from `from` on are the commands given, each as it is sent. */
  predicate IssuesGiven(issued: seq<Command>, from: nat, given: seq<Given>) {
    && |issued| == from + |given|
    && forall k :: 0 <= k < |given| ==> SentFor(given[k].command, given[k].alive, issued[from + k])
  }

  lemma StepIssues(s: System, e: Event)
    ensures s.issued <= Step(s, e).issued && Step(s, e).first == s.first
    ensures IssuesGiven(Step(s, e).issued, |s.issued|, GivenIn([e]))
  {
    assert [e][1..] == [];
    if e.ServerReceives? { OfferedAside(s, e.message); }
  }

  lemma {:induction false} OfferedAside(s: System, m: seq<Sequenced>)
    ensures OfferAll(s, m).issued == s.issued && OfferAll(s, m).first == s.first
    decreases |m|
  {
    hide TryEnqueue;
    if m != [] { OfferedAside(Offer(s, m[0]), m[1..]); }
  }

  lemma GivenNext(events: seq<Event>)
    requires events != []
    ensures GivenIn(events) == GivenIn([events[0]]) + GivenIn(events[1..])
  {
    assert [events[0]][1..] == [];
  }

  lemma {:induction false} RunIssues(s: System, events: seq<Event>)
    requires Run(s, events).Some?
    ensures s.issued <= Run(s, events).value.issued && Run(s, events).value.first == s.first
    ensures IssuesGiven(Run(s, events).value.issued, |s.issued|, GivenIn(events))
    decreases |events|
  {
    hide Step, SentFor;
    if events != [] {
      StepIssues(s, events[0]);
      RunIssues(Step(s, events[0]), events[1..]);
      GivenNext(events);
    }
  }

  // ---------------------------------------------------------------- main results

  /** Whether a Match that starts as `s0` can come to `s`. */
  predicate Reaches(s0: System, events: seq<Event>, s: System) {
    Starts(s0) && Run(s0, events) == Some(s)
  }

  lemma Reached(s0: System, events: seq<Event>, s: System)
    requires Reaches(s0, events, s)
    ensures Inv(s)
  {
    StartsInv(s0);
    RunKeeps(s0, events);
  }

  /**
   The commands run as sent have strictly increasing sequences, so each runs at most once, and each is
   exactly the one its player gave under its sequence, but that a dead player's fires nothing; whatever is
   queued comes after them, 16 at most.
   */
  lemma RunsWhatWasIssued(s0: System, events: seq<Event>, s: System)
    requires Reaches(s0, events, s)
    ensures Increasing(s.ran + s.queue.queued) && |s.queue.queued| <= MAX_QUEUED
    ensures forall i :: 0 <= i < |s.ran| ==> Issued(s, s.ran[i]) && s.ran[i].sequence <= s.queue.acknowledged
    ensures |s.issued| == |GivenIn(events)| && s.first == s0.first
    ensures forall i :: 0 <= i < |s.ran| ==>
              && 0 <= s.ran[i].sequence - s.first < |GivenIn(events)|
              && var given := GivenIn(events)[s.ran[i].sequence - s.first];
                 SentFor(given.command, given.alive, s.ran[i].command)
    ensures forall i :: 0 <= i < |s.queue.queued| ==>
              s.queue.acknowledged < s.queue.queued[i].sequence <= s.queue.lastOffered
  {
    Reached(s0, events, s);
    RunIssues(s0, events);
    hide SentFor;
    forall i | 0 <= i < |s.ran| ensures s.ran[i].sequence <= s.queue.acknowledged {
      assert i < |s.ran| - 1 ==> s.ran[i].sequence < s.ran[|s.ran| - 1].sequence;
    }
  }

  function ViewAcknowledged(s: System): nat { if s.view.Some? then s.view.value.acknowledged else 0 }

  /** What the client knows acknowledged never passes what the server acknowledges, nor that what came in. */
  lemma AcknowledgedInOrder(s0: System, events: seq<Event>, s: System)
    requires Reaches(s0, events, s)
    ensures ViewAcknowledged(s) <= s.queue.acknowledged <= s.queue.lastOffered < s.first + |s.issued|
  {
    Reached(s0, events, s);
  }

  /** Neither side's acknowledgement goes back, however updates are reordered. */
  lemma {:induction false} AcknowledgedNeverFalls(s: System, events: seq<Event>)
    requires Inv(s) && Run(s, events).Some?
    ensures s.queue.acknowledged <= Run(s, events).value.queue.acknowledged
    ensures ViewAcknowledged(s) <= ViewAcknowledged(Run(s, events).value)
    decreases |events|
  {
    if events != [] {
      StepKeeps(s, events[0]);
      StepNeverFalls(s, events[0]);
      AcknowledgedNeverFalls(Step(s, events[0]), events[1..]);
    }
  }

  lemma StepNeverFalls(s: System, e: Event)
    requires Inv(s) && Can(s, e)
    ensures s.queue.acknowledged <= Step(s, e).queue.acknowledged
    ensures ViewAcknowledged(s) <= ViewAcknowledged(Step(s, e))
  {
    match e {
      case ServerReceives(m) =>
        MessageIssued(s, m);
        OfferAllKeeps(s, m);
      case ServerTick => NextKeeps(s.queue);
      case _ =>
    }
  }

  // ---------------------------------------------------------------- delivery with bounded loss

  /** The newest sequence settled: offered, or of before the Match. */
  function Settled(s: System): nat
    requires s.first >= 1
  {
    Max(s.queue.lastOffered, s.first - 1)
  }

  predicate AllWellFormed(cs: seq<Command>) {
    cs == [] || (WellFormed(cs[|cs| - 1]) && AllWellFormed(cs[..|cs| - 1]))
  }

  lemma {:induction false} WellFormedAt(cs: seq<Command>, i: nat)
    requires AllWellFormed(cs) && i < |cs|
    ensures WellFormed(cs[i])
  {
    if i < |cs| - 1 { WellFormedAt(cs[..|cs| - 1], i); }
  }

  function Min(a: int, b: int): int { if a < b then a else b }

  lemma SpanCons(first: nat, issued: seq<Command>, lo: nat, hi: nat)
    requires first <= lo < hi <= first + |issued|
    ensures Span(first, issued, lo, hi) == [Sequenced(lo, issued[lo - first])] + Span(first, issued, lo + 1, hi)
    ensures Span(first, issued, lo, hi)[1..] == Span(first, issued, lo + 1, hi)
  {}

  lemma Regroup<T>(a: seq<T>, x: T, b: seq<T>)
    ensures a + ([x] + b) == (a + [x]) + b
  {}

  /** Where a span not yet offered starts. */
  function From(lo: nat, hi: nat, lastOffered: nat): nat { Min(hi, Max(lo, lastOffered + 1)) }

  lemma OfferGood(s: System, c: Sequenced)
    requires WellFormed(c.command)
    ensures Offer(s, c).first == s.first && Offer(s, c).issued == s.issued
    ensures c.sequence <= s.queue.lastOffered ==> Offer(s, c) == s
    ensures c.sequence > s.queue.lastOffered ==>
              Offer(s, c).offered == s.offered + [c] && Offer(s, c).queue.lastOffered == c.sequence
  {}

  lemma FromStep(lo: nat, hi: nat, last: nat)
    requires lo <= hi
    ensures lo <= From(lo, hi, last) <= hi
    ensures lo < hi && lo <= last ==> From(lo, hi, last) == From(lo + 1, hi, last)
    ensures lo < hi && lo > last ==> From(lo, hi, last) == lo && From(lo + 1, hi, lo) == lo + 1
    ensures lo < hi && lo > last ==> Max(last, hi - 1) == if lo + 1 < hi then Max(lo, hi - 1) else lo
    ensures lo < hi && lo <= last ==> Max(last, hi - 1) == if lo + 1 < hi then Max(last, hi - 1) else last
  {}

  /** A run of good commands: those not yet offered all are, in order. */
  lemma {:induction false} OfferSpan(s: System, lo: nat, hi: nat, m: seq<Sequenced>)
    requires s.first >= 1 && AllWellFormed(s.issued) && s.first <= lo <= hi <= s.first + |s.issued|
    requires m == Span(s.first, s.issued, lo, hi)
    ensures OfferAll(s, m).offered == s.offered + Span(s.first, s.issued, From(lo, hi, s.queue.lastOffered), hi)
    ensures OfferAll(s, m).queue.lastOffered
            == if lo < hi then Max(s.queue.lastOffered, hi - 1) else s.queue.lastOffered
    decreases hi - lo
  {
    hide Offer, WellFormed, From, Max;
    if lo == hi {
      FromStep(lo, hi, s.queue.lastOffered);
      assert m == [] && s.offered + [] == s.offered;
    } else {
      FromStep(lo, hi, s.queue.lastOffered);
      SpanCons(s.first, s.issued, lo, hi);
      WellFormedAt(s.issued, lo - s.first);
      OfferGood(s, m[0]);
      var s' := Offer(s, m[0]);
      OfferSpan(s', lo + 1, hi, m[1..]);
      if lo > s.queue.lastOffered {
        Regroup(s.offered, m[0], Span(s.first, s.issued, lo + 1, hi));
      }
    }
  }

  lemma SpansDiffer(offered: seq<Sequenced>, first: nat, issued: seq<Command>, lo: nat, lo': nat, hi: nat)
    requires first <= lo <= hi <= first + |issued| && first <= lo' <= hi && lo != lo'
    ensures offered + Span(first, issued, lo, hi) != offered + Span(first, issued, lo', hi)
  {
    assert |offered + Span(first, issued, lo, hi)| != |offered + Span(first, issued, lo', hi)|;
  }

  lemma MessageSpan(s: System, m: seq<Sequenced>, lo: nat, hi: nat)
    requires s.first >= 1 && UpOk(s) && m in s.up && hi == EndOf(m) && lo == hi - |m|
    ensures s.first <= lo < hi <= s.first + |s.issued| && m == Span(s.first, s.issued, lo, hi)
    ensures hi == Last(m) + 1 && hi - lo <= MAX_PER_MESSAGE
    ensures lo <= Max(s.first, Max(hi - MAX_PER_MESSAGE, s.queue.acknowledged + 1))
  {}

  lemma DeliversSpan(s: System, m: seq<Sequenced>, lo: nat, hi: nat)
    requires s.first >= 1 && AllWellFormed(s.issued) && s.first <= lo < hi <= s.first + |s.issued|
    requires m == Span(s.first, s.issued, lo, hi) && hi - lo <= MAX_PER_MESSAGE
    requires s.queue.acknowledged <= s.queue.lastOffered < hi - 1
    requires lo <= Max(s.first, Max(hi - MAX_PER_MESSAGE, s.queue.acknowledged + 1))
    ensures Settled(s) + 1 <= hi
    ensures OfferAll(s, m).offered == s.offered + Span(s.first, s.issued, Settled(s) + 1, hi)
            <==> hi - 1 - Settled(s) <= MAX_PER_MESSAGE
    ensures OfferAll(s, m).queue.lastOffered == hi - 1
  {
    hide OfferAll, WellFormed;
    OfferSpan(s, lo, hi, m);
    FromSettled(s.first, lo, hi, s.queue.lastOffered, s.queue.acknowledged);
    var from := From(lo, hi, s.queue.lastOffered);
    if from != Settled(s) + 1 { SpansDiffer(s.offered, s.first, s.issued, from, Settled(s) + 1, hi); }
  }

  lemma FromSettled(first: nat, lo: nat, hi: nat, last: nat, acknowledged: nat)
    requires 1 <= first <= lo < hi && hi - lo <= MAX_PER_MESSAGE && acknowledged <= last < hi - 1
    requires lo <= Max(first, Max(hi - MAX_PER_MESSAGE, acknowledged + 1))
    ensures From(lo, hi, last) == Max(last, first - 1) + 1 <==> hi - 1 - Max(last, first - 1) <= MAX_PER_MESSAGE
  {}

  /**
   A message whose newest command is new brings in, in order, every command of the Match up to it that
   was not offered yet, exactly when that is no more than one message carries.
   */
  lemma DeliversIff(s: System, m: seq<Sequenced>)
    requires Inv(s) && AllWellFormed(s.issued) && m in s.up && Last(m) > s.queue.lastOffered
    ensures Settled(s) < Last(m) < s.first + |s.issued|
    ensures OfferAll(s, m).offered == s.offered + Span(s.first, s.issued, Settled(s) + 1, Last(m) + 1)
            <==> Last(m) - Settled(s) <= MAX_PER_MESSAGE
    ensures OfferAll(s, m).queue.lastOffered == Last(m)
  {
    hide OfferAll, WellFormed;
    AcknowledgedBelow(s);
    MessageSpan(s, m, EndOf(m) - |m|, EndOf(m));
    DeliversSpan(s, m, EndOf(m) - |m|, EndOf(m));
  }

  lemma AcknowledgedBelow(s: System)
    requires Inv(s)
    ensures s.queue.acknowledged <= s.queue.lastOffered < s.first + |s.issued|
  {}

  /** A message with nothing new brings in nothing. */
  lemma StaleSpan(s: System, m: seq<Sequenced>, lo: nat, hi: nat)
    requires s.first >= 1 && AllWellFormed(s.issued) && s.first <= lo < hi <= s.first + |s.issued|
    requires m == Span(s.first, s.issued, lo, hi) && hi - 1 <= s.queue.lastOffered
    ensures OfferAll(s, m).offered == s.offered && OfferAll(s, m).queue.lastOffered == s.queue.lastOffered
  {
    OfferSpan(s, lo, hi, m);
    assert Span(s.first, s.issued, hi, hi) == [];
  }

  /** Every command is one a client can produce, and no message comes more than one's worth too late. */
  predicate Timely(s: System, events: seq<Event>)
    requires s.first >= 1
    decreases |events|
  {
    events == [] ||
    (&& Can(s, events[0])
     && (events[0].ClientTick? ==> WellFormed(events[0].command))
     && (events[0].ServerReceives? ==> Last(events[0].message) - Settled(s) <= MAX_PER_MESSAGE)
     && Step(s, events[0]).first >= 1
     && Timely(Step(s, events[0]), events[1..]))
  }

  /** Everything from the Match's first command up to the last offered was offered, in order. */
  predicate Whole(first: nat, issued: seq<Command>, offered: seq<Sequenced>, last: nat) {
    && first >= 1 && Max(last, first - 1) < first + |issued|
    && offered == Span(first, issued, first, Max(last, first - 1) + 1)
  }

  predicate NoGap(s: System) {
    AllWellFormed(s.issued) && Whole(s.first, s.issued, s.offered, s.queue.lastOffered)
  }

  lemma WholeIssues(first: nat, issued: seq<Command>, issued': seq<Command>, offered: seq<Sequenced>, last: nat)
    requires Whole(first, issued, offered, last) && issued <= issued'
    ensures Whole(first, issued', offered, last)
  {}

  lemma WholeOffers(
    first: nat, issued: seq<Command>, offered: seq<Sequenced>, last: nat, mid: nat, hi: nat)
    requires Whole(first, issued, offered, last) && mid == Max(last, first - 1) + 1 < hi <= first + |issued|
    ensures Whole(first, issued, offered + Span(first, issued, mid, hi), hi - 1)
  {
    SpanJoin(first, issued, first, mid, hi);
  }

  lemma SpanJoin(first: nat, issued: seq<Command>, lo: nat, mid: nat, hi: nat)
    requires first <= lo <= mid <= hi <= first + |issued|
    ensures Span(first, issued, lo, mid) + Span(first, issued, mid, hi) == Span(first, issued, lo, hi)
  {}

  lemma ReceiveNoGap(s: System, m: seq<Sequenced>, lo: nat, hi: nat, s': System)
    requires NoGap(s) && s.first <= lo < hi <= s.first + |s.issued| && m == Span(s.first, s.issued, lo, hi)
    requires hi - lo <= MAX_PER_MESSAGE && hi - 1 - Settled(s) <= MAX_PER_MESSAGE
    requires lo <= Max(s.first, Max(hi - MAX_PER_MESSAGE, s.queue.acknowledged + 1))
    requires s.queue.acknowledged <= s.queue.lastOffered && s' == OfferAll(s, m)
    ensures Whole(s.first, s.issued, s'.offered, s'.queue.lastOffered)
  {
    hide OfferAll;
    hide WellFormed;
    if hi - 1 > s.queue.lastOffered {
      var mid := Settled(s) + 1;
      WholeOffers(s.first, s.issued, s.offered, s.queue.lastOffered, mid, hi);
      DeliversSpan(s, m, lo, hi);
      assert s'.offered == s.offered + Span(s.first, s.issued, mid, hi);
    } else {
      StaleSpan(s, m, lo, hi);
    }
  }

  lemma ClientTickNoGap(s: System, c: Command, alive: bool, s': System)
    requires NoGap(s) && WellFormed(c) && s' == Step(s, ClientTick(c, alive))
    ensures NoGap(s')
  {
    hide InRange, Ticked;
    WholeIssues(s.first, s.issued, s'.issued, s.offered, s.queue.lastOffered);
    assert s'.issued[..|s.issued|] == s.issued;
    assert WellFormed(AsSent(ToldBy(s, alive), c)) by { AsSentWellFormed(ToldBy(s, alive), c); }
  }

  lemma AsSentWellFormed(told: Told, c: Command)
    ensures WellFormed(AsSent(told, c)) == WellFormed(c)
  {}

  lemma ServerReceivesNoGap(s: System, m: seq<Sequenced>, s': System)
    requires NoGap(s) && UpOk(s) && m in s.up && s.queue.acknowledged <= s.queue.lastOffered
    requires s' == OfferAll(s, m) && s'.first == s.first && s'.issued == s.issued
    requires Last(m) - Settled(s) <= MAX_PER_MESSAGE
    ensures NoGap(s')
  {
    hide OfferAll, WellFormed;
    MessageSpan(s, m, EndOf(m) - |m|, EndOf(m));
    ReceiveNoGap(s, m, EndOf(m) - |m|, EndOf(m), s');
  }

  lemma StepNoGap(s: System, e: Event, s': System)
    requires Inv(s) && NoGap(s) && Can(s, e) && s' == Step(s, e)
    requires e.ClientTick? ==> WellFormed(e.command)
    requires e.ServerReceives? ==> Last(e.message) - Settled(s) <= MAX_PER_MESSAGE
    ensures NoGap(s')
  {
    hide OfferAll, WellFormed, Ticked;
    match e {
      case ClientTick(c, alive) => ClientTickNoGap(s, c, alive, s');
      case ServerReceives(m) =>
        MessageIssued(s, m);
        OfferAllKeeps(s, m);
        AcknowledgedBelow(s);
        ServerReceivesNoGap(s, m, s');
      case ServerTick => assert s'.queue.lastOffered == s.queue.lastOffered;
      case ClientReceives(u) =>
    }
  }

  lemma {:induction false} RunNoGap(s: System, events: seq<Event>)
    requires Inv(s) && NoGap(s) && Timely(s, events)
    ensures Run(s, events).Some? && NoGap(Run(s, events).value) && Inv(Run(s, events).value)
    decreases |events|
  {
    if events != [] {
      StepKeeps(s, events[0]);
      StepNoGap(s, events[0], Step(s, events[0]));
      RunNoGap(Step(s, events[0]), events[1..]);
    }
  }

  /**
   Every command from the Match's first to the last offered was offered, in order and once; and if the
   queue never overflowed, each up to the acknowledged was run, in order and once.
   */
  predicate Delivered(s: System) {
    && s.first >= 1 && s.queue.acknowledged <= Settled(s) < s.first + |s.issued|
    && s.offered == Span(s.first, s.issued, s.first, Settled(s) + 1)
    && (s.overflowed == 0 ==>
          s.ran == Span(s.first, s.issued, s.first, Max(s.queue.acknowledged, s.first - 1) + 1))
  }

  /** With loss so bounded, over a whole Match, everything given is delivered. */
  lemma EveryCommandDelivered(s0: System, events: seq<Event>)
    requires Starts(s0) && Timely(s0, events)
    ensures Run(s0, events).Some? && Delivered(Run(s0, events).value)
    ensures IssuesGiven(Run(s0, events).value.issued, 0, GivenIn(events))
  {
    hide Timely, Inv;
    StartsInv(s0);
    assert Span(s0.first, s0.issued, s0.first, s0.first) == [];
    RunNoGap(s0, events);
    RunIssues(s0, events);
    NoGapDelivers(Run(s0, events).value);
  }

  lemma NoGapDelivers(s: System)
    requires Inv(s) && NoGap(s)
    ensures Delivered(s)
  {
    AcknowledgedBelow(s);
    if s.overflowed == 0 { RanIsSpan(s, Settled(s) + 1); }
  }

  lemma RanIsSpan(s: System, hi: nat)
    requires s.first >= 1 && s.first <= hi <= s.first + |s.issued| && s.overflowed == 0
    requires Accounted(s.queue, s.offered, s.ran, 0) && s.offered == Span(s.first, s.issued, s.first, hi)
    ensures Max(s.queue.acknowledged, s.first - 1) + 1 <= hi
    ensures s.ran == Span(s.first, s.issued, s.first, Max(s.queue.acknowledged, s.first - 1) + 1)
  {
    assert s.ran == s.offered[..|s.ran|];
    if s.ran != [] { assert s.ran[|s.ran| - 1] == s.offered[|s.ran| - 1]; }
  }
}

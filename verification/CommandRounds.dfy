/** Commands over a link that loses nothing: each runs on the server on its own tick, and is acknowledged at once. */
module CommandRounds {
  import opened Common
  import opened CommandQueue
  import opened CommandStream
  import opened CommandLink

  /** Nothing waits to run, and all that was issued has run. */
  predicate CaughtUp(s: System) {
    && Inv(s) && s.queue.queued == []
    && (s.issued == [] ==> s.queue.lastOffered < s.stream.next)
    && (s.issued != [] ==> s.queue.lastOffered == s.stream.next - 1)
  }

  /** The message that a tick giving `c` sends. */
  function Sends(s: System, given: Given): seq<Sequenced> {
    Ticked(s.stream, ToldBy(s, given.alive), given.command).1
  }

  /** A round: the client's tick, its message in, the server's tick, and what it says of it in. */
  function Round(s: System, given: Given): seq<Event> {
    [ClientTick(given.command, given.alive), ServerReceives(Sends(s, given)), ServerTick,
     ClientReceives(Update(s.tick + 1, s.stream.next))]
  }

  lemma {:induction false} StaleOffered(s: System, m: seq<Sequenced>)
    requires forall i :: 0 <= i < |m| ==> m[i].sequence <= s.queue.lastOffered
    ensures OfferAll(s, m) == s
    decreases |m|
  {
    if m != [] {
      assert Offer(s, m[0]) == s;
      StaleOffered(s, m[1..]);
    }
  }

  /** A message that brings one command not offered before queues just that. */
  lemma {:induction false} OneNew(s: System, m: seq<Sequenced>)
    requires m != [] && |s.queue.queued| < 16 && WellFormed(m[|m| - 1].command)
    requires forall i :: 0 <= i < |m| - 1 ==> m[i].sequence <= s.queue.lastOffered
    requires m[|m| - 1].sequence > s.queue.lastOffered
    ensures var c := m[|m| - 1];
      OfferAll(s, m) == s.(queue := s.queue.(lastOffered := c.sequence, queued := s.queue.queued + [c]),
                           offered := s.offered + [c])
    decreases |m|
  {
    if |m| == 1 {
      assert OfferAll(Offer(s, m[0]), m[1..]) == Offer(s, m[0]);
    } else {
      assert Offer(s, m[0]) == s;
      OneNew(s, m[1..]);
    }
  }

  /** What a round's message ends with, and that all before it was offered already. */
  lemma MessageIs(s: System, given: Given)
    requires CaughtUp(s) && WellFormed(given.command)
    ensures var m := Sends(s, given);
      && m != [] && m[|m| - 1].sequence == s.stream.next && WellFormed(m[|m| - 1].command)
      && SentFor(given.command, given.alive, m[|m| - 1].command)
      && (forall i :: 0 <= i < |m| - 1 ==> m[i].sequence <= s.queue.lastOffered)
  {
    hide Ticked, SentFor, Accounted, Sorted, Above, Carried;
    var m := Sends(s, given);
    TickSends(s.stream, ToldBy(s, given.alive), given.command);
    StillWellFormed(given.command, given.alive, m[|m| - 1].command);
    AcknowledgedBelow(s);
    var issued := s.issued + [AsSent(ToldBy(s, given.alive), given.command)];
    SendIsMessage(s, given.command, given.alive, m, issued, s.first + |issued|);
  }

  lemma StillWellFormed(given: Command, alive: bool, sent: Command)
    requires WellFormed(given) && SentFor(given, alive, sent)
    ensures WellFormed(sent)
  {}

  lemma AfterTick(s: System, given: Given)
    requires CaughtUp(s) && WellFormed(given.command)
    ensures var m := Sends(s, given); var a := Step(s, ClientTick(given.command, given.alive));
      && Inv(a) && m in a.up && a.first == s.first && a.queue == s.queue && a.ran == s.ran && a.view == s.view
      && a.tick == s.tick && a.stream.next == s.stream.next + 1 && a.issued != []
  {
    hide Inv, AsSent, Pruned, Carried;
    StepKeeps(s, ClientTick(given.command, given.alive));
  }

  lemma AfterMessage(a: System, m: seq<Sequenced>, sequence: nat)
    requires Inv(a) && m in a.up && a.queue.queued == [] && m != [] && m[|m| - 1].sequence == sequence
    requires WellFormed(m[|m| - 1].command) && sequence > a.queue.lastOffered
    requires forall i :: 0 <= i < |m| - 1 ==> m[i].sequence <= a.queue.lastOffered
    ensures var b := Step(a, ServerReceives(m));
      && Inv(b) && b.queue.queued == [m[|m| - 1]] && b.queue.lastOffered == sequence && b.stream == a.stream
      && b.first == a.first && b.issued == a.issued && b.ran == a.ran && b.view == a.view && b.tick == a.tick
  {
    hide Inv, WellFormed;
    StepKeeps(a, ServerReceives(m));
    OneNew(a, m);
  }

  lemma AfterRun(b: System, c: Sequenced)
    requires Inv(b) && b.queue.queued == [c]
    ensures var d := Step(b, ServerTick);
      && Inv(d) && d.queue.queued == [] && d.queue.lastOffered == b.queue.lastOffered
      && d.queue.acknowledged == c.sequence && d.ran == b.ran + [c] && Update(b.tick + 1, c.sequence) in d.down
      && d.stream == b.stream && d.first == b.first && d.issued == b.issued && d.view == b.view && d.tick == b.tick + 1
  {
    hide Inv;
    StepKeeps(b, ServerTick);
  }

  lemma AfterNews(d: System, u: Update)
    requires Inv(d) && u in d.down && (d.view.Some? ==> d.view.value.tick < u.tick)
    ensures var e := Step(d, ClientReceives(u));
      && Inv(e) && e == d.(view := Some(u)) && ViewAcknowledged(e) == u.acknowledged
  {
    hide Inv;
    StepKeeps(d, ClientReceives(u));
  }

  lemma NewsIsNewer(s: System)
    requires Inv(s)
    ensures s.view.Some? ==> s.view.value.tick <= s.tick
  {
    hide ClientOk, UpOk, ServerOk;
  }

  /** One round of a link that loses nothing: the command runs, on that tick, and the client knows it has. */
  lemma RoundRuns(s: System, given: Given)
    requires CaughtUp(s) && WellFormed(given.command)
    ensures Run(s, Round(s, given)).Some?
    ensures var s' := Run(s, Round(s, given)).value;
      && CaughtUp(s') && s'.stream.next == s.stream.next + 1 && s'.first == s.first && |s'.ran| == |s.ran| + 1
      && s'.ran[..|s.ran|] == s.ran && s'.ran[|s.ran|].sequence == s.stream.next
      && SentFor(given.command, given.alive, s'.ran[|s.ran|].command)
      && ViewAcknowledged(s') == s.stream.next == s'.queue.acknowledged
  {
    hide Inv, Run, Step, SentFor, WellFormed, Sends;
    var m, round := Sends(s, given), Round(s, given);
    NewsIsNewer(s);
    AfterTick(s, given);
    MessageIs(s, given);
    Later(s);
    var a := Step(s, round[0]);
    AfterMessage(a, m, s.stream.next);
    var b := Step(a, round[1]);
    AfterRun(b, m[|m| - 1]);
    var d := Step(b, round[2]);
    AfterNews(d, Update(s.tick + 1, s.stream.next));
    Unrolled(s, round);
  }

  lemma Later(s: System)
    requires CaughtUp(s)
    ensures s.queue.lastOffered < s.stream.next
  {
    hide Inv;
  }

  lemma Unrolled(s: System, e: seq<Event>)
    requires |e| == 4 && Can(s, e[0]) && Can(Step(s, e[0]), e[1]) && Can(Step(Step(s, e[0]), e[1]), e[2])
    requires Can(Step(Step(Step(s, e[0]), e[1]), e[2]), e[3])
    ensures Run(s, e) == Some(Step(Step(Step(Step(s, e[0]), e[1]), e[2]), e[3]))
  {
    hide Step, Can;
    var a := Step(s, e[0]);
    var b := Step(a, e[1]);
    var c := Step(b, e[2]);
    assert e[1..][0] == e[1] && e[1..][1..] == e[2..] && e[2..][0] == e[2] && e[2..][1..] == e[3..];
    assert e[3..][0] == e[3] && e[3..][1..] == [];
    assert Run(c, e[3..]) == Some(Step(c, e[3]));
    assert Run(b, e[2..]) == Run(c, e[3..]);
    assert Run(a, e[1..]) == Run(b, e[2..]);
  }

  /** A round after another, each giving the next of `given`. */
  function Rounds(s: System, given: seq<Given>): seq<Event>
    decreases |given|
  {
    if given == [] then []
    else
      var after := Run(s, Round(s, given[0]));
      Round(s, given[0]) + if after.Some? then Rounds(after.value, given[1..]) else []
  }

  lemma {:induction false} RunsOn(s: System, a: seq<Event>, b: seq<Event>)
    requires Run(s, a).Some?
    ensures Run(s, a + b) == Run(Run(s, a).value, b)
    decreases |a|
  {
    hide Step, Can;
    if a == [] {
      assert a + b == b;
    } else {
      assert (a + b)[1..] == a[1..] + b;
      RunsOn(Step(s, a[0]), a[1..], b);
    }
  }

  predicate AllFit(given: seq<Given>) { forall i :: 0 <= i < |given| ==> WellFormed(given[i].command) }

  /** `ran` are the commands given, in order, from a sequence on. */
  predicate RanAsGiven(ran: seq<Sequenced>, given: seq<Given>, first: nat) {
    |ran| == |given| &&
    forall i :: 0 <= i < |given| ==>
      ran[i].sequence == first + i && SentFor(given[i].command, given[i].alive, ran[i].command)
  }

  lemma RanOn(ran: seq<Sequenced>, c: Sequenced, more: seq<Sequenced>, given: seq<Given>, first: nat)
    requires given != [] && c.sequence == first && SentFor(given[0].command, given[0].alive, c.command)
    requires RanAsGiven(more, given[1..], first + 1)
    ensures RanAsGiven([c] + more, given, first)
  {
    hide SentFor;
    forall i | 0 < i < |given| ensures SentFor(given[i].command, given[i].alive, more[i - 1].command) {
      assert given[1..][i - 1] == given[i];
    }
  }

  lemma {:induction false} RoundsRun(s: System, given: seq<Given>)
    requires CaughtUp(s) && AllFit(given)
    ensures Run(s, Rounds(s, given)).Some?
    ensures var s' := Run(s, Rounds(s, given)).value;
      CaughtUp(s') && |s'.ran| >= |s.ran| && s'.ran[..|s.ran|] == s.ran
      && RanAsGiven(s'.ran[|s.ran|..], given, s.stream.next)
    decreases |given|
  {
    hide Run, Round, CaughtUp, WellFormed, SentFor;
    if given == [] {
      NothingRuns(s);
    } else {
      RoundRuns(s, given[0]);
      var mid := Run(s, Round(s, given[0])).value;
      RoundsRun(mid, given[1..]);
      RunsOn(s, Round(s, given[0]), Rounds(mid, given[1..]));
      var end := Run(mid, Rounds(mid, given[1..])).value;
      RanSplit(s.ran, mid.ran, end.ran);
      RanOn(s.ran, mid.ran[|s.ran|], end.ran[|mid.ran|..], given, s.stream.next);
    }
  }

  lemma NothingRuns(s: System)
    ensures Run(s, []) == Some(s)
  {}

  lemma RanSplit(a: seq<Sequenced>, b: seq<Sequenced>, c: seq<Sequenced>)
    requires |b| == |a| + 1 && b[..|a|] == a && |c| >= |b| && c[..|b|] == b
    ensures c[..|a|] == a && c[|a|..] == [b[|a|]] + c[|b|..]
  {
    assert c[..|a|] == c[..|b|][..|a|];
    assert c[|a|] == c[..|b|][|a|];
  }

  /** Over a link that loses nothing every command given runs, in order, each once and on its own tick. */
  lemma NothingLostRunsAll(s: System, given: seq<Given>)
    requires Starts(s) && AllFit(given)
    ensures Run(s, Rounds(s, given)).Some?
    ensures RanAsGiven(Run(s, Rounds(s, given)).value.ran, given, s.first)
  {
    hide Run, Rounds, WellFormed, SentFor;
    StartsInv(s);
    StartsCaughtUp(s);
    RoundsRun(s, given);
    var ran := Run(s, Rounds(s, given)).value.ran;
    assert ran[0..] == ran;
  }

  lemma StartsCaughtUp(s: System)
    requires Starts(s) && Inv(s)
    ensures CaughtUp(s)
  {
    hide Inv;
  }
}

/**
 The client's side of each tick: the commands the server has not acknowledged go out again with each
 new one, as many of the newest as one message carries.
 */
module CommandStream {
  import opened Common
  import opened CommandQueue

  const MAX_PER_MESSAGE := 8

  /** The newest of `commands` that one message carries. */
  function Carried(commands: seq<Sequenced>): seq<Sequenced> {
    if |commands| <= MAX_PER_MESSAGE then commands else commands[|commands| - MAX_PER_MESSAGE..]
  }

  function Above(sent: seq<Sequenced>, acknowledged: nat): seq<Sequenced> {
    if sent == [] then []
    else if sent[0].sequence <= acknowledged then Above(sent[1..], acknowledged)
    else [sent[0]] + Above(sent[1..], acknowledged)
  }

  /** What the server has told the client that its commands depend on. */
  datatype Told = Told(inMatch: bool, matchesStarted: nat, acknowledged: Option<nat>, alive: bool)

  datatype Stream = Stream(startedMatch: nat, unacknowledged: seq<Sequenced>, next: nat)

  const NEW_STREAM := Stream(0, [], 1)

  /** A dead player's command fires nothing: it keeps only the stream in step. */
  function AsSent(told: Told, c: Command): Command { if told.alive then c else c.(fire := false) }

  function Pruned(st: Stream, told: Told): seq<Sequenced> {
    var sent := if st.startedMatch == told.matchesStarted then st.unacknowledged else [];
    if told.acknowledged.Some? then Above(sent, told.acknowledged.value) else sent
  }

  /** One tick: the stream after it, and the commands it sends. */
  function Ticked(st: Stream, told: Told, c: Command): (Stream, seq<Sequenced>) {
    if !told.inMatch then (st, [])
    else
      var send := Carried(Pruned(st, told) + [Sequenced(st.next, AsSent(told, c))]);
      (Stream(told.matchesStarted, send, st.next + 1), send)
  }

  /** The player's command as it was given, but that a dead player's fires nothing. */
  predicate SentFor(given: Command, alive: bool, sent: Command) {
    && sent.direction == given.direction && sent.sprint == given.sprint && sent.stance == given.stance
    && sent.yaw == given.yaw && sent.pitch == given.pitch && sent.ads == given.ads && sent.reload == given.reload
    && sent.seenTick == given.seenTick && sent.seenFraction == given.seenFraction
    && (sent.fire <==> given.fire && alive)
  }

  lemma {:induction false} AboveOnly(sent: seq<Sequenced>, acknowledged: nat)
    ensures forall c :: c in Above(sent, acknowledged) <==> c in sent && c.sequence > acknowledged
    decreases |sent|
  {
    if sent != [] {
      AboveOnly(sent[1..], acknowledged);
      assert sent == [sent[0]] + sent[1..];
    }
  }

  /**
   A tick in a Match sends the command given, last and under the next sequence, after nothing but commands
   of the same Match sent before and not known acknowledged, 8 in all at most; out of one it sends nothing.
   */
  lemma TickSends(st: Stream, told: Told, c: Command)
    ensures var (st', send) := Ticked(st, told, c);
      && (!told.inMatch ==> st' == st && send == [])
      && (told.inMatch ==>
            && 0 < |send| <= 8 && st'.next == st.next + 1 && st'.startedMatch == told.matchesStarted
            && st'.unacknowledged == send
            && send[|send| - 1].sequence == st.next && SentFor(c, told.alive, send[|send| - 1].command)
            && forall i :: 0 <= i < |send| - 1 ==>
                 && send[i] in st.unacknowledged && st.startedMatch == told.matchesStarted
                 && (told.acknowledged.Some? ==> send[i].sequence > told.acknowledged.value))
  {
    var sent := if st.startedMatch == told.matchesStarted then st.unacknowledged else [];
    if told.acknowledged.Some? { AboveOnly(sent, told.acknowledged.value); }
    var all, send := Pruned(st, told) + [Sequenced(st.next, AsSent(told, c))], Ticked(st, told, c).1;
    if told.inMatch {
      forall i | 0 <= i < |send| - 1 ensures send[i] in Pruned(st, told) {
        assert send[i] == all[|all| - |send| + i] == Pruned(st, told)[|all| - |send| + i];
      }
    }
  }

  /** A stream's first commands are numbered from 1, and one before any Match has nothing to send again. */
  lemma FirstIsOne(told: Told, c: Command)
    requires told.inMatch
    ensures var (st', send) := Ticked(NEW_STREAM, told, c);
            && |send| == 1 && send[0].sequence == 1 && SentFor(c, told.alive, send[0].command) && st'.next == 2
  {
    assert Pruned(NEW_STREAM, told) == [];
    TickSends(NEW_STREAM, told, c);
  }

  class ClientStream {
    var startedMatch: nat
    var unacknowledged: seq<Sequenced>
    var next: nat

    function State(): Stream
      reads this
    {
      Stream(startedMatch, unacknowledged, next)
    }

    constructor ()
      ensures State() == NEW_STREAM
    {
      startedMatch, unacknowledged, next := 0, [], 1;
    }

    method EraseAcknowledged(acknowledged: nat)
      modifies this`unacknowledged
      ensures unacknowledged == Above(old(unacknowledged), acknowledged)
    {
      var kept: seq<Sequenced>, i := [], 0;
      while i < |unacknowledged|
        invariant i <= |unacknowledged| && unacknowledged == old(unacknowledged)
        invariant kept + Above(unacknowledged[i..], acknowledged) == Above(unacknowledged, acknowledged)
      {
        assert unacknowledged[i..][1..] == unacknowledged[i + 1..];
        if unacknowledged[i].sequence > acknowledged { kept := kept + [unacknowledged[i]]; }
        i := i + 1;
      }
      assert unacknowledged[i..] == [] && kept + [] == kept;
      unacknowledged := kept;
    }

    method Queue(told: Told, sequence: nat, c: Command) returns (send: seq<Sequenced>)
      modifies this`unacknowledged
      ensures send == unacknowledged
      ensures send == Carried(
        (if told.acknowledged.Some? then Above(old(unacknowledged), told.acknowledged.value) else old(unacknowledged))
        + [Sequenced(sequence, c)])
    {
      if told.acknowledged.Some? { EraseAcknowledged(told.acknowledged.value); }
      unacknowledged := unacknowledged + [Sequenced(sequence, c)];
      var carried := |Carried(unacknowledged)|;
      unacknowledged := unacknowledged[|unacknowledged| - carried..];
      send := unacknowledged;
    }

    method Tick(told: Told, c: Command) returns (send: seq<Sequenced>)
      modifies this
      ensures (State(), send) == Ticked(old(State()), told, c)
    {
      if !told.inMatch { return []; }
      if startedMatch != told.matchesStarted {
        unacknowledged := [];
        startedMatch := told.matchesStarted;
      }
      var sequence := next;
      next := next + 1;
      if !told.alive {
        var unarmed := c.(fire := false);
        send := Queue(told, sequence, unarmed);
        return;
      }
      send := Queue(told, sequence, c);
    }
  }
}

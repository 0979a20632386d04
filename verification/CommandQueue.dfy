/**
 Where one client's commands come in: each is refused or queued, and each tick runs one, the oldest
 queued or, for want of one, what the last leaves to go on with.
 */
module CommandQueue {
  import opened Common

  /** A number off the wire: finite, or not a number or infinite. */
  datatype Number = Finite(value: real) | NotFinite

  datatype Direction = Direction(x: Number, y: Number, z: Number)

  datatype Stance = Standing | Crouching | Prone

  datatype Command = Command(
    direction: Direction, sprint: bool, stance: Stance, yaw: Number, pitch: Number,
    ads: bool, fire: bool, reload: bool, seenTick: nat, seenFraction: Number)

  datatype Sequenced = Sequenced(sequence: nat, command: Command)

  const STILL := Direction(Finite(0.0), Finite(0.0), Finite(0.0))

  const NO_COMMAND := Command(STILL, false, Standing, Finite(0.0), Finite(0.0), false, false, false, 0, Finite(0.0))

  // ---------------------------------------------------------------- the gate

  const MAX_MOVEMENT_MAGNITUDE := 2.0
  const MAX_PITCH := 1.6
  const MAX_YAW := 3.2

  datatype Rejection = Stale | NonFinite | OutOfRange

  predicate FiniteDirection(d: Direction) { d.x.Finite? && d.y.Finite? && d.z.Finite? }

  predicate AllFinite(c: Command) {
    FiniteDirection(c.direction) && c.yaw.Finite? && c.pitch.Finite? && c.seenFraction.Finite?
  }

  /** A length over a limit is a squared length over its square. */
  function SquaredLength(d: Direction): real
    requires FiniteDirection(d)
  {
    d.x.value * d.x.value + d.y.value * d.y.value + d.z.value * d.z.value
  }

  function Abs(x: real): real { if x < 0.0 then -x else x }

  predicate InRange(c: Command)
    requires AllFinite(c)
  {
    && SquaredLength(c.direction) <= MAX_MOVEMENT_MAGNITUDE * MAX_MOVEMENT_MAGNITUDE
    && Abs(c.pitch.value) <= MAX_PITCH
    && Abs(c.yaw.value) <= MAX_YAW
  }

  predicate WellFormed(c: Command) { AllFinite(c) && InRange(c) }

  function Validate(s: Sequenced, last: nat): (refused: Option<Rejection>)
    ensures refused.None? <==> s.sequence > last && WellFormed(s.command)
    ensures refused == Some(Stale) <==> s.sequence <= last
    ensures refused == Some(NonFinite) <==> s.sequence > last && !AllFinite(s.command)
    ensures refused == Some(OutOfRange) <==> s.sequence > last && AllFinite(s.command) && !InRange(s.command)
  {
    if s.sequence <= last then Some(Stale)
    else if !AllFinite(s.command) then Some(NonFinite)
    else if !InRange(s.command) then Some(OutOfRange)
    else None
  }

  // ---------------------------------------------------------------- the queue

  const MAX_QUEUED := 16

  /** How many ticks 100 ms last at a tick rate, rounded up. */
  function HeldTicks(tickRateHz: byte): (n: nat)
    ensures n * 1000 >= 100 * tickRateHz > (n - 1) * 1000
  {
    (100 * tickRateHz + 999) / 1000
  }

  datatype Queue = Queue(
    queued: seq<Sequenced>, last: Option<Command>, maxHeld: nat, held: nat, lastOffered: nat, acknowledged: nat)

  function EmptyQueue(tickRateHz: byte): Queue { Queue([], None, HeldTicks(tickRateHz), 0, 0, 0) }

  datatype Enqueued = Queued | DroppedOldest

  function TryEnqueue(q: Queue, s: Sequenced): (Queue, Result<Enqueued, Rejection>) {
    var refused := Validate(s, q.lastOffered);
    if refused.Some? then (q, Err(refused.value))
    else
      var longer := q.queued + [s];
      if |longer| > MAX_QUEUED then (q.(lastOffered := s.sequence, queued := longer[1..]), Ok(DroppedOldest))
      else (q.(lastOffered := s.sequence, queued := longer), Ok(Queued))
  }

  datatype TickCommand = TickCommand(command: Command, acknowledged: nat, sent: bool)

  function WithoutActions(c: Command): Command { c.(fire := false, reload := false) }

  function Stopped(c: Command): Command { c.(direction := STILL, sprint := false) }

  function Next(q: Queue): (Queue, TickCommand) {
    if q.queued != [] then
      var next := q.queued[0];
      (q.(queued := q.queued[1..], last := Some(next.command), held := 0, acknowledged := next.sequence),
       TickCommand(next.command, next.sequence, true))
    else if q.last.None? then (q, TickCommand(NO_COMMAND, q.acknowledged, false))
    else
      var repeated := WithoutActions(q.last.value);
      if q.held < q.maxHeld then (q.(held := q.held + 1), TickCommand(repeated, q.acknowledged, false))
      else (q, TickCommand(Stopped(repeated), q.acknowledged, false))
  }

  // ---------------------------------------------------------------- what it keeps

  predicate Increasing(s: seq<Sequenced>) {
    forall i, j :: 0 <= i < j < |s| ==> s[i].sequence < s[j].sequence
  }

  /** Queued in order, past what is acknowledged and up to what was last offered, no more than 16. */
  predicate Sorted(q: Queue) {
    && Increasing(q.queued) && |q.queued| <= MAX_QUEUED
    && (forall i :: 0 <= i < |q.queued| ==> q.acknowledged < q.queued[i].sequence <= q.lastOffered)
    && q.lastOffered == (if q.queued == [] then q.acknowledged else q.queued[|q.queued| - 1].sequence)
    && q.held <= q.maxHeld
  }

  lemma EmptySorted(tickRateHz: byte)
    ensures Sorted(EmptyQueue(tickRateHz))
  {}

  lemma TryEnqueueKeeps(q: Queue, s: Sequenced)
    requires Sorted(q)
    ensures var (q', r) := TryEnqueue(q, s);
      && Sorted(q') && q'.acknowledged == q.acknowledged && q.lastOffered <= q'.lastOffered
      && (r.Err? ==> q' == q)
      && (r.Ok? ==> q'.lastOffered == s.sequence)
  {}

  lemma NextKeeps(q: Queue)
    requires Sorted(q)
    ensures var (q', t) := Next(q);
      && Sorted(q') && q'.lastOffered == q.lastOffered && q.acknowledged <= q'.acknowledged == t.acknowledged
      && (t.sent <==> q.queued != [])
      && (t.sent ==> q.acknowledged < q'.acknowledged)
      && (!t.sent ==> q'.acknowledged == q.acknowledged && !t.command.fire && !t.command.reload)
  {}

  /** What is done with a queue: a command offered, or a tick run. */
  datatype Use = Offers(s: Sequenced) | Ticks

  function Used(q: Queue, use: Use): Queue {
    match use
    case Offers(s) => TryEnqueue(q, s).0
    case Ticks => Next(q).0
  }

  function UsedAll(q: Queue, uses: seq<Use>): Queue
    decreases |uses|
  {
    if uses == [] then q else UsedAll(Used(q, uses[0]), uses[1..])
  }

  lemma {:induction false} SortedKept(q: Queue, uses: seq<Use>)
    requires Sorted(q)
    ensures Sorted(UsedAll(q, uses))
    ensures q.acknowledged <= UsedAll(q, uses).acknowledged && q.lastOffered <= UsedAll(q, uses).lastOffered
    decreases |uses|
  {
    hide Sorted;
    if uses != [] {
      match uses[0] {
        case Offers(s) => TryEnqueueKeeps(q, s);
        case Ticks => NextKeeps(q);
      }
      SortedKept(Used(q, uses[0]), uses[1..]);
    }
  }

  /** Whatever is offered, and however ticks fall between, the queue stays sorted and acknowledges no less. */
  lemma AlwaysSorted(tickRateHz: byte, uses: seq<Use>, more: seq<Use>)
    ensures var q := UsedAll(EmptyQueue(tickRateHz), uses);
      Sorted(q) && q.acknowledged <= UsedAll(q, more).acknowledged && q.lastOffered <= UsedAll(q, more).lastOffered
  {
    hide Sorted, UsedAll;
    EmptySorted(tickRateHz);
    SortedKept(EmptyQueue(tickRateHz), uses);
    SortedKept(UsedAll(EmptyQueue(tickRateHz), uses), more);
  }

  /** What the next `n` ticks run when nothing more comes in. */
  function HandOut(q: Queue, n: nat): seq<TickCommand>
    decreases n
  {
    if n == 0 then [] else [Next(q).1] + HandOut(Next(q).0, n - 1)
  }

  /** The last command's movement goes on for as many ticks as may be held, then stops for good. */
  lemma {:induction false} HeldThenStopped(q: Queue, n: nat, i: nat)
    requires q.queued == [] && q.last.Some? && q.held <= q.maxHeld && i < n
    ensures |HandOut(q, n)| == n && !HandOut(q, n)[i].sent && HandOut(q, n)[i].acknowledged == q.acknowledged
    ensures var c := q.last.value.(fire := false, reload := false);
      HandOut(q, n)[i].command ==
        if i < q.maxHeld - q.held then c
        else c.(direction := Direction(Finite(0.0), Finite(0.0), Finite(0.0)), sprint := false)
    decreases n
  {
    if i > 0 {
      HeldThenStopped(Next(q).0, n - 1, i - 1);
    } else if n > 1 {
      HeldThenStopped(Next(q).0, n - 1, 0);
    }
  }

  /** Until a command was ever queued, each tick stands still, looks ahead and does nothing. */
  lemma {:induction false} NothingYet(q: Queue, n: nat, i: nat)
    requires q.queued == [] && q.last.None? && i < n
    ensures |HandOut(q, n)| == n && !HandOut(q, n)[i].sent
    ensures var c := HandOut(q, n)[i].command;
      && c.direction == Direction(Finite(0.0), Finite(0.0), Finite(0.0)) && !c.sprint && c.stance == Standing
      && c.yaw == Finite(0.0) && c.pitch == Finite(0.0) && !c.ads && !c.fire && !c.reload
      && c.seenTick == 0 && c.seenFraction == Finite(0.0)
    decreases n
  {
    if i > 0 {
      NothingYet(Next(q).0, n - 1, i - 1);
    } else if n > 1 {
      NothingYet(Next(q).0, n - 1, 0);
    }
  }

  /** What is offered and accepted goes last, the oldest of 16 queued making way for it, and only then. */
  lemma OfferedGoesLast(q: Queue, s: Sequenced)
    requires Sorted(q)
    ensures var (q', r) := TryEnqueue(q, s);
      && (r.Ok? ==> q'.queued == (if |q.queued| == 16 then q.queued[1..] else q.queued) + [s])
      && (r == Ok(DroppedOldest) <==> r.Ok? && |q.queued| == 16)
  {}

  predicate Within(x: Number, least: real, most: real) { x.Finite? && least <= x.value <= most }

  /** The gate, in numbers: a direction no longer than 2, a pitch within 1.6 and a yaw within 3.2, all finite. */
  lemma AcceptedIff(s: Sequenced, last: nat)
    ensures var c, d := s.command, s.command.direction;
      Validate(s, last).None? <==>
        && s.sequence > last && c.seenFraction.Finite?
        && d.x.Finite? && d.y.Finite? && d.z.Finite?
        && d.x.value * d.x.value + d.y.value * d.y.value + d.z.value * d.z.value <= 4.0
        && Within(c.pitch, -1.6, 1.6) && Within(c.yaw, -3.2, 3.2)
    ensures var c, d := s.command, s.command.direction;
      Validate(s, last) == Some(NonFinite) <==>
        s.sequence > last && !(&& d.x.Finite? && d.y.Finite? && d.z.Finite? && c.yaw.Finite? && c.pitch.Finite?
                               && c.seenFraction.Finite?)
  {}

  /** Every command queued is run, in order, before any is held. */
  lemma {:induction false} QueuedRunFirst(q: Queue, n: nat, i: nat)
    requires i < n
    ensures |HandOut(q, n)| == n
    ensures i < |q.queued| ==>
              HandOut(q, n)[i] == TickCommand(q.queued[i].command, q.queued[i].sequence, true)
    ensures i >= |q.queued| ==> !HandOut(q, n)[i].sent
    decreases n
  {
    if i > 0 {
      QueuedRunFirst(Next(q).0, n - 1, i - 1);
    } else if n > 1 {
      QueuedRunFirst(Next(q).0, n - 1, 0);
    }
  }

  /**
   Once the last command queued has run, and no other comes, it goes on without its actions for as many
   ticks as last 100 ms, then stands still, its sequence acknowledged all along.
   */
  lemma {:induction false} LastGoesOn(q: Queue, n: nat, i: nat)
    requires q.queued != [] && |q.queued| <= i < n
    ensures |HandOut(q, n)| == n && !HandOut(q, n)[i].sent
    ensures HandOut(q, n)[i].acknowledged == q.queued[|q.queued| - 1].sequence
    ensures var c := q.queued[|q.queued| - 1].command.(fire := false, reload := false);
      HandOut(q, n)[i].command ==
        if i < |q.queued| + q.maxHeld then c
        else c.(direction := Direction(Finite(0.0), Finite(0.0), Finite(0.0)), sprint := false)
    decreases n
  {
    var q' := Next(q).0;
    if q'.queued != [] {
      LastGoesOn(q', n - 1, i - 1);
    } else {
      HeldThenStopped(q', n - 1, i - 1);
    }
  }

  /** The queue as it changes in place. */
  class PlayerQueue {
    var queued: seq<Sequenced>
    var last: Option<Command>
    const maxHeld: nat
    var held: nat
    var lastOffered: nat
    var acknowledged: nat

    function State(): Queue
      reads this
    {
      Queue(queued, last, maxHeld, held, lastOffered, acknowledged)
    }

    constructor (tickRateHz: byte)
      ensures State() == EmptyQueue(tickRateHz)
    {
      queued, last, maxHeld, held, lastOffered, acknowledged := [], None, HeldTicks(tickRateHz), 0, 0, 0;
    }

    method Offer(s: Sequenced) returns (r: Result<Enqueued, Rejection>)
      requires Sorted(State())
      modifies this
      ensures (State(), r) == TryEnqueue(old(State()), s) && Sorted(State())
    {
      TryEnqueueKeeps(State(), s);
      var refused := Validate(s, lastOffered);
      if refused.Some? { return Err(refused.value); }
      lastOffered := s.sequence;
      queued := queued + [s];
      if |queued| > MAX_QUEUED {
        queued := queued[1..];
        return Ok(DroppedOldest);
      }
      return Ok(Queued);
    }

    method Take() returns (t: TickCommand)
      requires Sorted(State())
      modifies this
      ensures (State(), t) == Next(old(State())) && Sorted(State())
    {
      NextKeeps(State());
      if queued != [] {
        var next := queued[0];
        queued, last, held, acknowledged := queued[1..], Some(next.command), 0, next.sequence;
        return TickCommand(next.command, acknowledged, true);
      }
      if last.None? { return TickCommand(NO_COMMAND, acknowledged, false); }
      var command := WithoutActions(last.value);
      if held < maxHeld {
        held := held + 1;
      } else {
        command := command.(direction := STILL, sprint := false);
      }
      return TickCommand(command, acknowledged, false);
    }
  }
}

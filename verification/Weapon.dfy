/**
 The rifle's simulation step, over reals: the fire-rate clock, the magazine, the Burst and the
 reload, and what they come to over any run of fixed ticks from a loaded rifle.
 */
module Weapon {
  /** A wait with this little left is over. */
  const READY_WITHIN: real := 0.0001
  const SECONDS_PER_MINUTE: real := 60.0

  datatype Rifle = Rifle(roundsPerMinute: real, reloadSeconds: real, magazineCapacity: nat)

  /** What the gameplay parameters are checked for before a Match may use them. */
  predicate Valid(rifle: Rifle) {
    rifle.roundsPerMinute > 0.0 && rifle.reloadSeconds >= 0.0 && rifle.magazineCapacity >= 1
  }

  datatype State = State(cooldown: real, reloadRemaining: real, rounds: nat, burstIndex: nat)

  /** The part of a Command the rifle acts on. */
  datatype Command = Command(fire: bool, reload: bool)

  function Loaded(rifle: Rifle): State { State(0.0, 0.0, rifle.magazineCapacity, 0) }

  /** The seconds between two rounds, the trigger held. */
  function Interval(rifle: Rifle): (seconds: real)
    requires Valid(rifle)
    ensures seconds > 0.0
    ensures seconds * rifle.roundsPerMinute == 60.0
  {
    SECONDS_PER_MINUTE / rifle.roundsPerMinute
  }

  function Max(a: real, b: real): real { if a < b then b else a }

  predicate StartsReload(rifle: Rifle, state: State, command: Command) {
    command.reload && state.reloadRemaining <= 0.0 && state.rounds < rifle.magazineCapacity
  }

  predicate Reloading(rifle: Rifle, state: State, command: Command) {
    StartsReload(rifle, state, command) || state.reloadRemaining > 0.0
  }

  /** What is left to wait for the magazine, at the start of a tick spent reloading. */
  function Wait(rifle: Rifle, state: State, command: Command): real {
    if StartsReload(rifle, state, command) then rifle.reloadSeconds else state.reloadRemaining
  }

  predicate Trigger(rifle: Rifle, state: State, command: Command) {
    command.fire && state.rounds > 0 && !Reloading(rifle, state, command)
  }

  predicate Fires(rifle: Rifle, state: State, command: Command) {
    Trigger(rifle, state, command) && state.cooldown <= READY_WITHIN
  }

  predicate Refills(rifle: Rifle, state: State, command: Command, tick: real) {
    Reloading(rifle, state, command) && Wait(rifle, state, command) - tick <= READY_WITHIN
  }

  /** The state a tick leaves, field by field. */
  function Stepped(rifle: Rifle, state: State, command: Command, tick: real): State
    requires Valid(rifle)
  {
    var fired := Fires(rifle, state, command);
    var trigger := Trigger(rifle, state, command);
    var refilled := Refills(rifle, state, command, tick);
    State(
      Max(state.cooldown + (if fired then Interval(rifle) else 0.0) - tick, if trigger then -tick else 0.0),
      if !Reloading(rifle, state, command) then state.reloadRemaining
      else if refilled then 0.0 else Wait(rifle, state, command) - tick,
      if refilled then rifle.magazineCapacity else if fired then state.rounds - 1 else state.rounds,
      if !trigger then 0 else if fired then state.burstIndex + 1 else state.burstIndex)
  }

  /** The step as it updates its own copy of the state, one statement after another. */
  method Step(rifle: Rifle, state: State, command: Command, tick: real) returns (next: State, fired: bool)
    requires Valid(rifle)
    ensures next == Stepped(rifle, state, command, tick)
    ensures fired == Fires(rifle, state, command)
  {
    hide Interval;
    next, fired := state, false;
    var startsReload := command.reload && state.reloadRemaining <= 0.0 && state.rounds < rifle.magazineCapacity;
    if startsReload {
      next := next.(reloadRemaining := rifle.reloadSeconds);
    }
    var reloading := startsReload || state.reloadRemaining > 0.0;
    var trigger := command.fire && state.rounds > 0 && !reloading;
    if trigger && next.cooldown <= READY_WITHIN {
      fired := true;
      next := next.(rounds := next.rounds - 1);
      next := next.(cooldown := next.cooldown + Interval(rifle));
      next := next.(burstIndex := next.burstIndex + 1);
    }
    if !trigger {
      next := next.(burstIndex := 0);
    }
    next := next.(cooldown := next.cooldown - tick);
    next := next.(cooldown := Max(next.cooldown, if trigger then -tick else 0.0));
    if reloading {
      next := next.(reloadRemaining := next.reloadRemaining - tick);
      if next.reloadRemaining <= READY_WITHIN {
        next := next.(reloadRemaining := 0.0, rounds := rifle.magazineCapacity);
      }
    }
  }

  /**
   A run so far: the rounds fired, the reloads completed, and the rounds those reloads found left in
   the magazine they replaced.
   */
  datatype Run = Run(state: State, fired: nat, reloads: nat, discarded: nat)

  function After(rifle: Rifle, tick: real, run: Run, command: Command): Run
    requires Valid(rifle)
  {
    var refilled := Refills(rifle, run.state, command, tick);
    Run(Stepped(rifle, run.state, command, tick),
        run.fired + (if Fires(rifle, run.state, command) then 1 else 0),
        run.reloads + (if refilled then 1 else 0),
        run.discarded + (if refilled then run.state.rounds else 0))
  }

  /** The run a loaded rifle makes of `commands`, one to a tick. */
  function RunOf(rifle: Rifle, tick: real, commands: seq<Command>): Run
    requires Valid(rifle)
    decreases |commands|
  {
    if commands == [] then Run(Loaded(rifle), 0, 0, 0)
    else After(rifle, tick, RunOf(rifle, tick, commands[..|commands| - 1]), commands[|commands| - 1])
  }

  // The magazine.

  /** Every round fired or thrown away came out of a magazine: the first, or a completed reload's. */
  predicate Accounted(rifle: Rifle, run: Run) {
    && run.fired + run.state.rounds + run.discarded
       == rifle.magazineCapacity + run.reloads * rifle.magazineCapacity
    && run.state.rounds + run.state.burstIndex <= rifle.magazineCapacity
    && run.state.reloadRemaining >= 0.0
  }

  lemma AnotherMagazine(reloads: nat, capacity: nat)
    ensures (reloads + 1) * capacity == reloads * capacity + capacity
  {}

  lemma AccountedKept(rifle: Rifle, tick: real, run: Run, command: Command)
    requires Valid(rifle) && Accounted(rifle, run)
    ensures Accounted(rifle, After(rifle, tick, run, command))
  {
    hide Interval;
    AnotherMagazine(run.reloads, rifle.magazineCapacity);
  }

  /**
   Rounds are conserved over every run, a Burst and what is left of its magazine never pass what the
   magazine holds, and no more rounds are fired than the magazines loaded hold.
   */
  lemma {:induction false} RoundsAreConserved(rifle: Rifle, tick: real, commands: seq<Command>)
    requires Valid(rifle)
    ensures Accounted(rifle, RunOf(rifle, tick, commands))
    ensures RunOf(rifle, tick, commands).fired
         <= rifle.magazineCapacity + RunOf(rifle, tick, commands).reloads * rifle.magazineCapacity
    decreases |commands|
  {
    if commands != [] {
      hide Interval;
      var before := commands[..|commands| - 1];
      RoundsAreConserved(rifle, tick, before);
      AccountedKept(rifle, tick, RunOf(rifle, tick, before), commands[|commands| - 1]);
    }
  }

  // The fire rate.

  /** The clock owes every round fired its interval, and no wait ever passes one interval's. */
  predicate OnTime(interval: real, tick: real, ticks: nat, fired: nat, cooldown: real) {
    && fired as real * interval <= ticks as real * tick + cooldown
    && -tick <= cooldown <= Max(0.0, interval + 0.0001 - tick)
  }

  lemma Another(count: nat, each: real)
    ensures (count + 1) as real * each == count as real * each + each
  {}

  lemma OnTimeKept(rifle: Rifle, tick: real, ticks: nat, run: Run, command: Command)
    requires Valid(rifle) && tick > 0.0
    requires OnTime(Interval(rifle), tick, ticks, run.fired, run.state.cooldown)
    ensures var next := After(rifle, tick, run, command);
            OnTime(Interval(rifle), tick, ticks + 1, next.fired, next.state.cooldown)
  {
    hide Interval;
    Another(run.fired, Interval(rifle));
    Another(ticks, tick);
  }

  lemma {:induction false} OnTimeOver(rifle: Rifle, tick: real, commands: seq<Command>)
    requires Valid(rifle) && tick > 0.0
    ensures var run := RunOf(rifle, tick, commands);
            OnTime(Interval(rifle), tick, |commands|, run.fired, run.state.cooldown)
    decreases |commands|
  {
    hide Interval, After;
    if commands == [] {
    } else {
      hide OnTime;
      var before := commands[..|commands| - 1];
      OnTimeOver(rifle, tick, before);
      OnTimeKept(rifle, tick, |before|, RunOf(rifle, tick, before), commands[|commands| - 1]);
    }
  }

  /**
   However the trigger is worked, and whatever is reloaded: the rounds fired in N ticks, each worth an
   interval, take no longer than the N ticks and one interval more.
   */
  lemma NeverFasterThanTheRifle(rifle: Rifle, tick: real, commands: seq<Command>)
    requires Valid(rifle) && tick > 0.0
    ensures RunOf(rifle, tick, commands).fired as real * Interval(rifle)
         <= |commands| as real * tick + Max(0.0, Interval(rifle) + 0.0001 - tick)
  {
    hide Interval, RunOf;
    OnTimeOver(rifle, tick, commands);
  }

  /** The trigger is held on a rifle with a round in it, no reload under way and none started now. */
  predicate Pulls(rifle: Rifle, state: State, command: Command) {
    && command.fire && state.rounds > 0 && state.reloadRemaining <= 0.0
    && !(command.reload && state.rounds < rifle.magazineCapacity)
  }

  /** A round is fired on a tick exactly when the trigger is pulled and the last round's wait is over. */
  lemma FiredIff(rifle: Rifle, tick: real, run: Run, command: Command)
    requires Valid(rifle)
    ensures var after := After(rifle, tick, run, command);
            after.fired == run.fired
                           + if Pulls(rifle, run.state, command) && run.state.cooldown <= 0.0001 then 1 else 0
    ensures Pulls(rifle, run.state, command) ==>
              After(rifle, tick, run, command).state.rounds + After(rifle, tick, run, command).fired
              == run.state.rounds + run.fired
  {
    hide Interval;
  }

  /** A tick the trigger is not pulled keeps no time: the next round waits as long as ever, and a Burst is over. */
  lemma LetGoKeepsNothing(rifle: Rifle, tick: real, state: State, command: Command)
    requires Valid(rifle) && !Pulls(rifle, state, command)
    ensures var after := Stepped(rifle, state, command, tick); after.cooldown >= 0.0 && after.burstIndex == 0
  {
    hide Interval;
  }

  /** The state a loaded rifle is in before the `i`th of `commands`. */
  function StateAt(rifle: Rifle, tick: real, commands: seq<Command>, i: nat): State
    requires Valid(rifle) && i <= |commands|
  {
    RunOf(rifle, tick, commands[..i]).state
  }

  function FiredBy(rifle: Rifle, tick: real, commands: seq<Command>, i: nat): nat
    requires Valid(rifle) && i <= |commands|
  {
    RunOf(rifle, tick, commands[..i]).fired
  }

  lemma RunNext(rifle: Rifle, tick: real, commands: seq<Command>, i: nat)
    requires Valid(rifle) && i < |commands|
    ensures RunOf(rifle, tick, commands[..i + 1]) == After(rifle, tick, RunOf(rifle, tick, commands[..i]), commands[i])
  {
    hide After;
    assert commands[..i + 1][..i] == commands[..i];
  }

  lemma OwedOneMore(rifle: Rifle, tick: real, run: Run, command: Command)
    requires Valid(rifle) && tick > 0.0
    ensures var after := After(rifle, tick, run, command);
            && run.fired <= after.fired <= run.fired + 1
            && after.state.cooldown
               >= run.state.cooldown + (if after.fired > run.fired then Interval(rifle) else 0.0) - tick
  {
    hide Interval;
  }

  lemma {:induction false} OwedSince(rifle: Rifle, tick: real, commands: seq<Command>, start: nat, end: nat)
    requires Valid(rifle) && tick > 0.0 && start <= end <= |commands|
    ensures FiredBy(rifle, tick, commands, start) <= FiredBy(rifle, tick, commands, end)
    ensures (FiredBy(rifle, tick, commands, end) - FiredBy(rifle, tick, commands, start)) as real * Interval(rifle)
         <= (end - start) as real * tick + StateAt(rifle, tick, commands, end).cooldown
            - StateAt(rifle, tick, commands, start).cooldown
    decreases end
  {
    hide Interval, RunOf, After;
    if start < end {
      OwedSince(rifle, tick, commands, start, end - 1);
      RunNext(rifle, tick, commands, end - 1);
      OwedOneMore(rifle, tick, RunOf(rifle, tick, commands[..end - 1]), commands[end - 1]);
      Another(FiredBy(rifle, tick, commands, end - 1) - FiredBy(rifle, tick, commands, start), Interval(rifle));
      Another(end - 1 - start, tick);
    }
  }

  /**
   Of any ticks of any run: the rounds fired in N of them, each worth an interval, take no longer than
   N + 1 ticks and an interval more; and no longer than N and an interval when the trigger was not
   pulled just before, so having rested fires none sooner.
   */
  lemma NeverFasterSince(rifle: Rifle, tick: real, commands: seq<Command>, start: nat, end: nat)
    requires Valid(rifle) && tick > 0.0 && start <= end <= |commands|
    ensures var fired := FiredBy(rifle, tick, commands, end) - FiredBy(rifle, tick, commands, start);
            var rested := start > 0 && !Pulls(rifle, StateAt(rifle, tick, commands, start - 1), commands[start - 1]);
            fired as real * Interval(rifle)
            <= (end - start) as real * tick + (if rested then 0.0 else tick)
               + Max(0.0, Interval(rifle) + 0.0001 - tick)
  {
    hide Interval, RunOf, After, Pulls;
    OwedSince(rifle, tick, commands, start, end);
    OnTimeOver(rifle, tick, commands[..end]);
    OnTimeOver(rifle, tick, commands[..start]);
    if start > 0 && !Pulls(rifle, StateAt(rifle, tick, commands, start - 1), commands[start - 1]) {
      RunNext(rifle, tick, commands, start - 1);
      RestedSince(rifle, tick, RunOf(rifle, tick, commands[..start - 1]), commands[start - 1]);
    }
  }

  lemma RestedSince(rifle: Rifle, tick: real, run: Run, command: Command)
    requires Valid(rifle) && !Pulls(rifle, run.state, command)
    ensures After(rifle, tick, run, command).state.cooldown >= 0.0
  {
    hide Interval, Stepped;
    LetGoKeepsNothing(rifle, tick, run.state, command);
  }

  /** Since tick `start` the trigger was pulled on every tick, and not on the one before. */
  predicate BurstSince(rifle: Rifle, tick: real, commands: seq<Command>, start: nat)
    requires Valid(rifle)
  {
    && start <= |commands|
    && (start > 0 ==> !Pulls(rifle, StateAt(rifle, tick, commands, start - 1), commands[start - 1]))
    && forall i :: start <= i < |commands| ==> Pulls(rifle, StateAt(rifle, tick, commands, i), commands[i])
  }

  /** A Burst's index is the rounds fired since the trigger was last not pulled. */
  lemma BurstIsCounted(rifle: Rifle, tick: real, commands: seq<Command>, start: nat)
    requires Valid(rifle) && BurstSince(rifle, tick, commands, start)
    ensures RunOf(rifle, tick, commands).state.burstIndex
         == RunOf(rifle, tick, commands).fired - FiredBy(rifle, tick, commands, start)
  {
    hide RunOf, Pulls;
    assert commands[..|commands|] == commands;
    BurstBegins(rifle, tick, commands, start);
    BurstGrows(rifle, tick, commands, start, |commands|);
  }

  lemma BurstBegins(rifle: Rifle, tick: real, commands: seq<Command>, start: nat)
    requires Valid(rifle) && BurstSince(rifle, tick, commands, start)
    ensures StateAt(rifle, tick, commands, start).burstIndex == 0
  {
    hide Pulls, Stepped;
    if start > 0 {
      RunNext(rifle, tick, commands, start - 1);
      LetGoKeepsNothing(rifle, tick, StateAt(rifle, tick, commands, start - 1), commands[start - 1]);
    }
  }

  lemma {:induction false} BurstGrows(rifle: Rifle, tick: real, commands: seq<Command>, start: nat, end: nat)
    requires Valid(rifle) && BurstSince(rifle, tick, commands, start) && start <= end <= |commands|
    requires StateAt(rifle, tick, commands, start).burstIndex == 0
    ensures StateAt(rifle, tick, commands, end).burstIndex
         == FiredBy(rifle, tick, commands, end) - FiredBy(rifle, tick, commands, start)
    decreases end
  {
    hide RunOf, Pulls, After;
    if start < end {
      BurstGrows(rifle, tick, commands, start, end - 1);
      RunNext(rifle, tick, commands, end - 1);
      OneMoreOfBurst(rifle, tick, RunOf(rifle, tick, commands[..end - 1]), commands[end - 1]);
    }
  }

  lemma OneMoreOfBurst(rifle: Rifle, tick: real, run: Run, command: Command)
    requires Valid(rifle) && Pulls(rifle, run.state, command)
    ensures var after := After(rifle, tick, run, command);
            after.state.burstIndex - run.state.burstIndex == after.fired - run.fired
  {
    hide Interval;
  }

  /** Every tick of `commands` holds the trigger and asks for no reload. */
  predicate Held(commands: seq<Command>) {
    forall i :: 0 <= i < |commands| ==> commands[i] == Command(true, false)
  }

  /** The `ordinal`th round (counting from 0) has come due by the start of tick `ticks` (from 0). */
  predicate Due(interval: real, tick: real, ordinal: int, ticks: int) {
    ordinal as real * interval - 0.0001 <= ticks as real * tick
  }

  /** With rounds left, the clock reads exactly what the rounds fired and the ticks passed make it. */
  predicate NoDrift(rifle: Rifle, tick: real, ticks: nat, run: Run)
    requires Valid(rifle)
  {
    && run.fired + run.state.rounds == rifle.magazineCapacity
    && run.state.reloadRemaining == 0.0
    && (run.state.rounds > 0 && ticks > 0 ==>
          && run.state.cooldown == run.fired as real * Interval(rifle) - ticks as real * tick
          && READY_WITHIN - tick < run.state.cooldown)
    && (ticks == 0 ==> run.state.cooldown == 0.0 && run.fired == 0)
    && (ticks > 0 ==> run.fired > 0 && Due(Interval(rifle), tick, run.fired - 1, ticks - 1))
  }

  lemma NoDriftKept(rifle: Rifle, tick: real, ticks: nat, run: Run)
    requires Valid(rifle) && tick > 0.0 && Interval(rifle) >= tick && Interval(rifle) > READY_WITHIN
    requires NoDrift(rifle, tick, ticks, run)
    ensures NoDrift(rifle, tick, ticks + 1, After(rifle, tick, run, Command(true, false)))
  {
    hide Interval;
    Another(run.fired, Interval(rifle));
    Another(ticks, tick);
    if run.fired > 0 { Another(run.fired - 1, Interval(rifle)); }
    if ticks > 0 { Another(ticks - 1, tick); }
  }

  lemma {:induction false} NoDriftOver(rifle: Rifle, tick: real, commands: seq<Command>)
    requires Valid(rifle) && tick > 0.0 && Interval(rifle) >= tick && Interval(rifle) > READY_WITHIN
    requires Held(commands)
    ensures NoDrift(rifle, tick, |commands|, RunOf(rifle, tick, commands))
    decreases |commands|
  {
    hide Interval;
    if commands != [] {
      var before := commands[..|commands| - 1];
      NoDriftOver(rifle, tick, before);
      NoDriftKept(rifle, tick, |before|, RunOf(rifle, tick, before));
    }
  }

  /**
   Held from a loaded rifle, with no more than a round to a tick, the trigger fires exactly the rounds
   that have come due, to the last in the magazine: round k, k intervals after the first, at whatever
   tick that falls in, with no error building up.
   */
  lemma HeldFiresWhatIsDue(rifle: Rifle, tick: real, commands: seq<Command>, ordinal: nat)
    requires Valid(rifle) && tick > 0.0 && Interval(rifle) >= tick && Interval(rifle) > READY_WITHIN
    requires Held(commands) && commands != [] && ordinal < rifle.magazineCapacity
    ensures ordinal < RunOf(rifle, tick, commands).fired
        <==> Due(Interval(rifle), tick, ordinal, |commands| - 1)
  {
    hide Interval, RunOf;
    NoDriftOver(rifle, tick, commands);
    var run := RunOf(rifle, tick, commands);
    Another(|commands| - 1, tick);
    if ordinal < run.fired {
      Later(Interval(rifle), ordinal, run.fired - 1);
    } else {
      assert !Due(Interval(rifle), tick, run.fired, |commands| - 1);
      Later(Interval(rifle), run.fired, ordinal);
    }
  }

  lemma Later(interval: real, a: nat, b: nat)
    requires interval > 0.0 && a <= b
    ensures a as real * interval <= b as real * interval
  {}

  /** With less than a tick to a round, one is fired on every tick, to the last in the magazine. */
  predicate EachTick(rifle: Rifle, ticks: nat, run: Run) {
    && run.fired + run.state.rounds == rifle.magazineCapacity && run.state.reloadRemaining == 0.0
    && run.fired == (if ticks <= rifle.magazineCapacity then ticks else rifle.magazineCapacity)
    && (run.state.rounds > 0 ==> run.state.cooldown <= 0.0)
  }

  lemma EachTickKept(rifle: Rifle, tick: real, ticks: nat, run: Run)
    requires Valid(rifle) && tick > 0.0 && Interval(rifle) <= tick && EachTick(rifle, ticks, run)
    ensures EachTick(rifle, ticks + 1, After(rifle, tick, run, Command(true, false)))
  {
    hide Interval;
  }

  lemma {:induction false} EachTickOver(rifle: Rifle, tick: real, commands: seq<Command>)
    requires Valid(rifle) && tick > 0.0 && Interval(rifle) <= tick && Held(commands)
    ensures EachTick(rifle, |commands|, RunOf(rifle, tick, commands))
    decreases |commands|
  {
    hide Interval;
    if commands != [] {
      var before := commands[..|commands| - 1];
      EachTickOver(rifle, tick, before);
      EachTickKept(rifle, tick, |before|, RunOf(rifle, tick, before));
    }
  }

  lemma {:induction false} OneToATick(rifle: Rifle, tick: real, commands: seq<Command>)
    requires Valid(rifle)
    ensures RunOf(rifle, tick, commands).fired <= |commands|
    decreases |commands|
  {
    hide Interval, Stepped;
    if commands != [] { OneToATick(rifle, tick, commands[..|commands| - 1]); }
  }

  /** The trigger held for `ticks` ticks. */
  function Holding(ticks: nat): (commands: seq<Command>)
    ensures |commands| == ticks && Held(commands)
  {
    seq(ticks, _ => Command(true, false))
  }

  /** Whether, held for `ticks` ticks from loaded, a rifle has fired a round exactly if it has come due. */
  predicate AsDue(rifle: Rifle, tick: real, ticks: nat, ordinal: nat)
    requires Valid(rifle)
  {
    ordinal < RunOf(rifle, tick, Holding(ticks)).fired <==> Due(Interval(rifle), tick, ordinal, ticks - 1)
  }

  /** So of every round of its magazine, at any time. */
  ghost predicate FiresAsDue(rifle: Rifle, tick: real)
    requires Valid(rifle)
  {
    forall ticks: nat, ordinal: nat :: 0 < ticks && ordinal < rifle.magazineCapacity ==>
      AsDue(rifle, tick, ticks, ordinal)
  }

  /** Neither the second round of a magazine nor its last comes due before a round to each tick reaches it. */
  predicate KeepsUp(rifle: Rifle, tick: real)
    requires Valid(rifle)
  {
    rifle.magazineCapacity >= 2 ==>
      && !Due(Interval(rifle), tick, 1, 0)
      && !Due(Interval(rifle), tick, rifle.magazineCapacity - 1, rifle.magazineCapacity - 2)
  }

  lemma Line(interval: real, tick: real, k: nat, last: nat)
    requires 1 <= k <= last && !Due(interval, tick, 1, 0) && !Due(interval, tick, last, last - 1)
    ensures !Due(interval, tick, k, k - 1)
  {
    // Over the rounds, what is left to wait is linear: short of due at both ends, it is in between.
    var slope, at := interval - tick, (k - 1) as real;
    Split(interval, k);
    Split(interval, last);
    Times(interval, tick, at);
    Times(interval, tick, (last - 1) as real);
    if slope >= 0.0 {
      assert at * slope >= 0.0;
    } else {
      Less(at, (last - 1) as real, slope);
    }
  }

  lemma Split(interval: real, k: nat)
    requires 1 <= k
    ensures k as real * interval == interval + (k - 1) as real * interval
  {
    assert k as real == 1.0 + (k - 1) as real;
  }

  lemma Times(interval: real, tick: real, at: real)
    ensures at * interval - at * tick == at * (interval - tick)
  {}

  lemma Less(a: real, b: real, slope: real)
    requires a <= b && slope <= 0.0
    ensures a * slope >= b * slope
  {
    assert (b - a) * slope <= 0.0;
  }

  lemma EarlyIsDue(interval: real, tick: real, ordinal: nat, ticks: nat)
    requires 0.0 < interval <= tick && ordinal <= ticks
    ensures Due(interval, tick, ordinal, ticks)
  {
    Less(ordinal as real, ticks as real, -tick);
    Less(interval, tick, -(ordinal as real));
  }

  lemma DueStays(interval: real, tick: real, ordinal: int, before: int, ticks: int)
    requires tick > 0.0 && before <= ticks && Due(interval, tick, ordinal, before)
    ensures Due(interval, tick, ordinal, ticks)
  {
    Less(before as real, ticks as real, -tick);
  }

  lemma EachTickIsDue(rifle: Rifle, tick: real, ticks: nat, ordinal: nat)
    requires Valid(rifle) && tick > 0.0 && Interval(rifle) <= tick && KeepsUp(rifle, tick)
    requires 0 < ticks && ordinal < rifle.magazineCapacity
    ensures AsDue(rifle, tick, ticks, ordinal)
  {
    hide Interval, RunOf, Due;
    EachTickOver(rifle, tick, Holding(ticks));
    if ordinal < ticks {
      EarlyIsDue(Interval(rifle), tick, ordinal, ticks - 1);
    } else {
      Line(Interval(rifle), tick, ordinal, rifle.magazineCapacity - 1);
      if Due(Interval(rifle), tick, ordinal, ticks - 1) {
        DueStays(Interval(rifle), tick, ordinal, ticks - 1, ordinal - 1);
      }
    }
  }

  /** A magazine's only round is due at once, and fired at once. */
  lemma OnlyRoundIsDue(rifle: Rifle, tick: real, ticks: nat)
    requires Valid(rifle) && tick > 0.0 && 0 < ticks
    ensures RunOf(rifle, tick, Holding(ticks)).fired > 0 && Due(Interval(rifle), tick, 0, ticks - 1)
    decreases ticks
  {
    hide Interval;
    assert Holding(ticks)[..ticks - 1] == Holding(ticks - 1);
    Less(0.0, (ticks - 1) as real, -tick);
    if ticks > 1 { OnlyRoundIsDue(rifle, tick, ticks - 1); }
  }

  /**
   Held from loaded, a rifle always fires just what has come due exactly when neither its second round
   nor its last comes due before one round to a tick can reach it.
   */
  lemma FiresAsDueIff(rifle: Rifle, tick: real)
    requires Valid(rifle) && tick > 0.0
    ensures FiresAsDue(rifle, tick) <==> KeepsUp(rifle, tick)
  {
    hide Interval, RunOf, Holding, Due;
    var last := rifle.magazineCapacity - 1;
    if KeepsUp(rifle, tick) {
      forall ticks: nat, ordinal: nat | 0 < ticks && ordinal < rifle.magazineCapacity
        ensures AsDue(rifle, tick, ticks, ordinal)
      {
        if last == 0 {
          OnlyRoundIsDue(rifle, tick, ticks);
        } else if Interval(rifle) <= tick {
          EachTickIsDue(rifle, tick, ticks, ordinal);
        } else {
          NotWithin(rifle, tick);
          HeldFiresWhatIsDue(rifle, tick, Holding(ticks), ordinal);
        }
      }
    } else {
      OneToATick(rifle, tick, Holding(1));
      OneToATick(rifle, tick, Holding(last));
      assert !AsDue(rifle, tick, 1, 1) || !AsDue(rifle, tick, last, last);
    }
  }

  lemma NotWithin(rifle: Rifle, tick: real)
    requires Valid(rifle) && !Due(Interval(rifle), tick, 1, 0)
    ensures Interval(rifle) > READY_WITHIN
  {
    hide Interval;
  }

  // The reload.

  /** What an unfinished reload has left to wait after `ticks` ticks of it. */
  predicate Waiting(rifle: Rifle, tick: real, ticks: nat, from: State, state: State) {
    && state.reloadRemaining == rifle.reloadSeconds - ticks as real * tick > 0.0001
    && state.rounds == from.rounds
  }

  /** The state `commands` leave, from `state`. */
  function Stepping(rifle: Rifle, tick: real, state: State, commands: seq<Command>): State
    requires Valid(rifle)
    decreases |commands|
  {
    if commands == [] then state
    else Stepped(rifle, Stepping(rifle, tick, state, commands[..|commands| - 1]), commands[|commands| - 1], tick)
  }

  /** Whether a reload of this rifle, started `ticks` ticks ago, has its magazine in. */
  predicate ReloadOver(rifle: Rifle, tick: real, ticks: nat) {
    rifle.reloadSeconds - ticks as real * tick <= 0.0001
  }

  lemma WaitingBegins(rifle: Rifle, tick: real, state: State, command: Command)
    requires Valid(rifle) && StartsReload(rifle, state, command)
    ensures var after := Stepped(rifle, state, command, tick);
            if ReloadOver(rifle, tick, 1) then after.reloadRemaining == 0.0 && after.rounds == rifle.magazineCapacity
            else Waiting(rifle, tick, 1, state, after)
  {
    hide Interval;
  }

  lemma ReloadAsked(rifle: Rifle, state: State, command: Command)
    ensures StartsReload(rifle, state, command) <==>
              command.reload && state.reloadRemaining <= 0.0 && state.rounds < rifle.magazineCapacity
  {}

  /** Without one asked for of a magazine not full no reload starts: the rounds not fired stay. */
  lemma NoReloadUnasked(rifle: Rifle, tick: real, run: Run, command: Command)
    requires Valid(rifle) && run.state.reloadRemaining <= 0.0
    requires !command.reload || run.state.rounds >= rifle.magazineCapacity
    ensures var after := After(rifle, tick, run, command);
            && after.state.reloadRemaining == run.state.reloadRemaining && after.reloads == run.reloads
            && after.state.rounds + after.fired == run.state.rounds + run.fired
  {
    hide Interval;
  }

  lemma WaitingKept(rifle: Rifle, tick: real, ticks: nat, from: State, state: State, command: Command)
    requires Valid(rifle) && Waiting(rifle, tick, ticks, from, state)
    ensures !Fires(rifle, state, command)
    ensures var after := Stepped(rifle, state, command, tick);
            if ReloadOver(rifle, tick, ticks + 1)
            then after.reloadRemaining == 0.0 && after.rounds == rifle.magazineCapacity
            else Waiting(rifle, tick, ticks + 1, from, after)
  {
    hide Interval;
    Another(ticks, tick);
  }

  /**
   A reload, once started, is over at the first tick that brings what is left of it within
   READY_WITHIN, whatever the commands meanwhile ask: until then no round is fired, nothing restarts
   it, and the magazine stays as it was; then it is full.
   */
  lemma {:induction false} ReloadTakesItsTime(rifle: Rifle, tick: real, state: State, commands: seq<Command>)
    requires Valid(rifle) && tick > 0.0
    requires commands != [] && commands[0].reload
    requires state.reloadRemaining <= 0.0 && state.rounds < rifle.magazineCapacity
    requires forall k :: 0 < k < |commands| ==> !ReloadOver(rifle, tick, k)
    ensures var after := Stepping(rifle, tick, state, commands);
            if ReloadOver(rifle, tick, |commands|)
            then after.reloadRemaining == 0.0 && after.rounds == rifle.magazineCapacity
            else Waiting(rifle, tick, |commands|, state, after)
    decreases |commands|
  {
    hide Interval, Stepped, Waiting, ReloadOver, StartsReload;
    var before, last := commands[..|commands| - 1], commands[|commands| - 1];
    if before == [] {
      assert Stepping(rifle, tick, state, before) == state;
      ReloadAsked(rifle, state, last);
      WaitingBegins(rifle, tick, state, last);
    } else {
      ReloadTakesItsTime(rifle, tick, state, before);
      WaitingKept(rifle, tick, |before|, state, Stepping(rifle, tick, state, before), last);
    }
  }
}

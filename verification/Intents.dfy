/**
 What an Agent is doing on each of its three channels, and the Command they come to each tick: which
 Intents are held, how each ended, and who was told.
 */
module Intents {
  import opened Common

  type Entity = nat

  datatype Ending = Replaced | Done | Arrived | Blocked | TargetGone

  datatype Stance = Standing | Crouching | Prone

  datatype Vec = Vec(x: real, y: real, z: real)

  datatype Look = Look(yaw: real, pitch: real)

  datatype Body = Body(position: Vec, stance: Stance)

  datatype MovementIntent =
    | Move(direction: Vec, sprint: bool, stance: Stance)
    | MoveTo(point: Vec, sprint: bool, stance: Stance)

  datatype AimIntent = Facing(look: Look) | AimAt(target: Entity)

  datatype TriggerIntent = HoldFire | Reload | FireBursts

  datatype Command = Command(direction: Vec, sprint: bool, stance: Stance, look: Look,
                             ads: bool, fire: bool, reload: bool, seenTick: nat, seenFraction: real)

  /** What an Intent has counted since it was first carried out; `nearest` is None while it is no distance yet. */
  datatype Tracking = Tracking(nearest: Option<real>, idleTicks: nat, match_: Option<nat>, triggerTicks: nat)

  const UNTRACKED := Tracking(None, 0, None, 0)

  /** An Intent on its channel, and whose it is to be told of its ending. */
  datatype Held<+I> = Held(intent: I, tag: nat, tracking: Tracking)

  datatype Ended = Ended(tag: nat, ending: Ending)

  datatype State = State(movement: Option<Held<MovementIntent>>, aim: Option<Held<AimIntent>>,
                         trigger: Option<Held<TriggerIntent>>, raw: Option<Held<Command>>,
                         lastLook: Look, lastStance: Stance)

  const ORIGIN := Vec(0.0, 0.0, 0.0)
  const IDLE := State(None, None, None, None, Look(0.0, 0.0), Standing)

  datatype Own = Own(entity: Entity, tickRate: nat)

  datatype Authoritative = Authoritative(tick: nat, bodies: seq<(Entity, Body)>, health: real,
                                         rounds: nat, reloadRemaining: real)

  /** The part of what the server has told this Agent that its Intents depend on. */
  datatype View = View(own: Option<Own>, inMatch: bool, matchesStarted: nat, dead: set<Entity>,
                       newest: Option<Authoritative>)

  predicate OwnAlive(view: View) {
    && view.inMatch && view.own.Some?
    && !(view.newest.Some? && view.newest.value.health <= 0.0)
    && view.own.value.entity !in view.dead
  }

  /** The geometry carried out in floating point: a length along the floor, a view from point to point, heights. */
  datatype Geometry = Geometry(length: (real, real) -> real, lookAt: (Vec, Vec) -> Look, height: Stance -> real)

  const ARRIVED: real := 0.5
  const PROGRESS: real := 0.1
  const EYE: real := 0.9
  const TORSO: real := 0.6
  const BURST_TICKS := 6
  const RELEASE_TICKS := 18

  function PointUp(g: Geometry, body: Body, fraction: real): Vec {
    body.position.(y := body.position.y + g.height(body.stance) * fraction)
  }

  function BodyIn(bodies: seq<(Entity, Body)>, entity: Entity): Option<Body> {
    if bodies == [] then None
    else if bodies[0].0 == entity then Some(bodies[0].1)
    else BodyIn(bodies[1..], entity)
  }

  function BodyOf(view: View, entity: Entity): Option<Body> {
    if view.newest.None? then None else BodyIn(view.newest.value.bodies, entity)
  }

  // What each Intent comes to on one tick.

  datatype Carry<+I> = Carry(held: Held<I>, command: Command, ending: Option<Ending>)

  function Distance(g: Geometry, from: Vec, to: Vec): real { g.length(to.x - from.x, to.z - from.z) }

  predicate Nearer(tracking: Tracking, distance: real) {
    tracking.nearest.Some? ==> distance < tracking.nearest.value - PROGRESS
  }

  function CarryMovement(g: Geometry, held: Held<MovementIntent>, rate: nat, own: Body, c: Command)
    : Carry<MovementIntent>
  {
    match held.intent
    case Move(direction, sprint, stance) =>
      Carry(held, c.(direction := direction, sprint := sprint, stance := stance), None)
    case MoveTo(point, sprint, stance) =>
      var posed := c.(stance := stance);
      var distance := Distance(g, own.position, point);
      if distance <= ARRIVED then Carry(held, posed, Some(Arrived))
      else
        var heading := Vec((point.x - own.position.x) / distance, 0.0, (point.z - own.position.z) / distance);
        var moving := posed.(direction := heading, sprint := sprint);
        if Nearer(held.tracking, distance) then
          Carry(held.(tracking := held.tracking.(nearest := Some(distance), idleTicks := 0)), moving, None)
        else
          var waited := held.(tracking := held.tracking.(idleTicks := held.tracking.idleTicks + 1));
          if waited.tracking.idleTicks >= rate then Carry(waited, posed, Some(Blocked))
          else Carry(waited, moving, None)
  }

  predicate Gone(held: Held<AimIntent>, view: View) {
    && held.intent.AimAt? && held.tracking.match_.Some?
    && (|| held.tracking.match_.value != view.matchesStarted || !view.inMatch || held.intent.target in view.dead
        || (view.newest.Some? && BodyOf(view, held.intent.target).None?))
  }

  function CarryAim(g: Geometry, held: Held<AimIntent>, view: View, own: Body, c: Command): Carry<AimIntent> {
    match held.intent
    case Facing(look) => Carry(held, c.(look := look), None)
    case AimAt(target) =>
      var aimed := if held.tracking.match_.Some? then held
                   else held.(tracking := held.tracking.(match_ := Some(view.matchesStarted)));
      if Gone(aimed, view) then Carry(aimed, c, Some(TargetGone))
      else
        var sighted := c.(ads := true);
        match BodyOf(view, target)
        case None => Carry(aimed, sighted, None)
        case Some(body) =>
          Carry(aimed, sighted.(look := g.lookAt(PointUp(g, own, EYE), PointUp(g, body, TORSO))), None)
  }

  predicate Empty(view: View) { view.newest.Some? && view.newest.value.rounds == 0 }

  function CarryTrigger(held: Held<TriggerIntent>, view: View, c: Command): Carry<TriggerIntent> {
    match held.intent
    case HoldFire => Carry(held, c.(fire := true), None)
    case Reload => Carry(held, c.(reload := true), Some(Done))
    case FireBursts =>
      var ticks := held.tracking.triggerTicks;
      if Empty(view) then
        Carry(held.(tracking := held.tracking.(triggerTicks := 0)),
              c.(reload := view.newest.value.reloadRemaining <= 0.0), None)
      else
        Carry(held.(tracking := held.tracking.(triggerTicks := ticks + 1)),
              c.(fire := ticks % (BURST_TICKS + RELEASE_TICKS) < BURST_TICKS), None)
  }

  function EndingOf<I>(held: Option<Held<I>>, ending: Ending): seq<Ended> {
    if held.Some? then [Ended(held.value.tag, ending)] else []
  }

  /** What a carried Intent leaves of its channel, and says of its ending. */
  function Left<I>(carry: Carry<I>): Option<Held<I>> { if carry.ending.None? then Some(carry.held) else None }

  function Told<I>(carry: Carry<I>): seq<Ended> {
    if carry.ending.None? then [] else [Ended(carry.held.tag, carry.ending.value)]
  }

  // Calls.

  datatype Call =
    | SetMovement(movement: MovementIntent, tag: nat)
    | SetAim(aim: AimIntent, tag: nat)
    | SetTrigger(trigger: TriggerIntent, tag: nat)
    | SetRaw(command: Command, tag: nat)
    | ClearMovement | ClearAim | ClearTrigger
    | NextCommand(view: View, own: Body)

  function SeenIn(view: View, c: Command): Command {
    c.(seenTick := if view.newest.Some? then view.newest.value.tick else 0, seenFraction := 0.0)
  }

  /** The Command a tick starts from: the last view and stance sent, and nothing else. */
  function Still(s: State): Command {
    Command(ORIGIN, false, s.lastStance, s.lastLook, false, false, false, 0, 0.0)
  }

  datatype Tick = Tick(state: State, ended: seq<Ended>, command: Command)

  function AfterMovement(g: Geometry, s: State, view: View, own: Body, c: Command): Tick
    requires OwnAlive(view)
  {
    if s.movement.None? then Tick(s, [], c)
    else
      var carry := CarryMovement(g, s.movement.value, view.own.value.tickRate, own, c);
      Tick(s.(movement := Left(carry)), Told(carry), carry.command)
  }

  function AfterAim(g: Geometry, s: State, view: View, own: Body, c: Command): Tick {
    if s.aim.None? then Tick(s, [], c)
    else
      var carry := CarryAim(g, s.aim.value, view, own, c);
      Tick(s.(aim := Left(carry)), Told(carry), carry.command)
  }

  function AfterTrigger(s: State, view: View, c: Command): Tick {
    if s.trigger.None? then Tick(s, [], c)
    else
      var carry := CarryTrigger(s.trigger.value, view, c);
      Tick(s.(trigger := Left(carry)), Told(carry), carry.command)
  }

  function Sent(s: State, c: Command): State { s.(lastLook := c.look, lastStance := c.stance) }

  /** One tick: what is held after it, which Intents ended on it, and its Command. */
  function Ticked(g: Geometry, s: State, view: View, own: Body): Tick {
    if !OwnAlive(view) then
      var gone := s.aim.Some? && Gone(s.aim.value, view);
      Tick(if gone then s.(aim := None) else s,
           if gone then EndingOf(s.aim, TargetGone) else [],
           SeenIn(view, Still(s)))
    else if s.raw.Some? then
      var c := s.raw.value.intent;
      var kept := s.raw.value.(intent := c.(reload := false));
      Tick(Sent(s.(raw := Some(kept)), c), [], SeenIn(view, c))
    else
      var moved := AfterMovement(g, s, view, own, Still(s));
      var aimed := AfterAim(g, moved.state, view, own, moved.command);
      var pulled := AfterTrigger(aimed.state, view, aimed.command);
      Tick(Sent(pulled.state, pulled.command), moved.ended + aimed.ended + pulled.ended,
           SeenIn(view, pulled.command))
  }

  datatype Outcome = Outcome(state: State, ended: seq<Ended>)

  function Performed(g: Geometry, s: State, call: Call): Outcome {
    match call
    case SetMovement(intent, tag) =>
      Outcome(s.(raw := None, movement := Some(Held(intent, tag, UNTRACKED))),
              EndingOf(s.raw, Replaced) + EndingOf(s.movement, Replaced))
    case SetAim(intent, tag) =>
      Outcome(s.(raw := None, aim := Some(Held(intent, tag, UNTRACKED))),
              EndingOf(s.raw, Replaced) + EndingOf(s.aim, Replaced))
    case SetTrigger(intent, tag) =>
      Outcome(s.(raw := None, trigger := Some(Held(intent, tag, UNTRACKED))),
              EndingOf(s.raw, Replaced) + EndingOf(s.trigger, Replaced))
    case SetRaw(command, tag) =>
      Outcome(s.(raw := Some(Held(command, tag, UNTRACKED)), movement := None, aim := None, trigger := None),
              EndingOf(s.raw, Replaced) + EndingOf(s.movement, Replaced)
              + EndingOf(s.aim, Replaced) + EndingOf(s.trigger, Replaced))
    case ClearMovement => Outcome(s.(raw := None, movement := None),
                                  EndingOf(s.raw, Replaced) + EndingOf(s.movement, Replaced))
    case ClearAim => Outcome(s.(raw := None, aim := None),
                             EndingOf(s.raw, Replaced) + EndingOf(s.aim, Replaced))
    case ClearTrigger => Outcome(s.(raw := None, trigger := None),
                                 EndingOf(s.raw, Replaced) + EndingOf(s.trigger, Replaced))
    case NextCommand(view, own) =>
      var tick := Ticked(g, s, view, own);
      Outcome(tick.state, tick.ended)
  }

  /** What `calls` leave held, of what `from` held, and every ending they told, in order. */
  function RunFrom(g: Geometry, from: State, calls: seq<Call>): Outcome
    decreases |calls|
  {
    if calls == [] then Outcome(from, [])
    else
      var before := RunFrom(g, from, calls[..|calls| - 1]);
      var done := Performed(g, before.state, calls[|calls| - 1]);
      Outcome(done.state, before.ended + done.ended)
  }

  /** The run of a new executor. */
  function RunOf(g: Geometry, calls: seq<Call>): Outcome { RunFrom(g, IDLE, calls) }

  // Every Intent set is told of once, or held.

  function SetBy(call: Call): multiset<nat> {
    match call
    case SetMovement(_, tag) => multiset{tag}
    case SetAim(_, tag) => multiset{tag}
    case SetTrigger(_, tag) => multiset{tag}
    case SetRaw(_, tag) => multiset{tag}
    case _ => multiset{}
  }

  function SetIn(calls: seq<Call>): multiset<nat>
    decreases |calls|
  {
    if calls == [] then multiset{} else SetIn(calls[..|calls| - 1]) + SetBy(calls[|calls| - 1])
  }

  function Tags(ended: seq<Ended>): multiset<nat>
    decreases |ended|
  {
    if ended == [] then multiset{} else Tags(ended[..|ended| - 1]) + multiset{ended[|ended| - 1].tag}
  }

  function TagOf<I>(held: Option<Held<I>>): multiset<nat> {
    if held.Some? then multiset{held.value.tag} else multiset{}
  }

  function HeldTags(s: State): multiset<nat> {
    TagOf(s.movement) + TagOf(s.aim) + TagOf(s.trigger) + TagOf(s.raw)
  }

  lemma {:induction false} TagsOfBoth(a: seq<Ended>, b: seq<Ended>)
    ensures Tags(a + b) == Tags(a) + Tags(b)
    decreases |b|
  {
    if b == [] {
      assert a + b == a;
    } else {
      assert (a + b)[..|a + b| - 1] == a + b[..|b| - 1];
      TagsOfBoth(a, b[..|b| - 1]);
    }
  }

  lemma TagsOfNone()
    ensures Tags([]) == multiset{}
  {}

  lemma TagsOfOne(e: Ended)
    ensures Tags([e]) == multiset{e.tag}
  {
    assert [e][..0] == [];
  }

  lemma TagsOfEnding<I>(held: Option<Held<I>>, ending: Ending)
    ensures Tags(EndingOf(held, ending)) == TagOf(held)
  {
    TagsOfNone();
    if held.Some? { TagsOfOne(Ended(held.value.tag, ending)); }
  }

  /** A carried Intent is held still or told of, and stays its own. */
  lemma TagsOfCarry<I>(held: Held<I>, carry: Carry<I>)
    requires carry.held.tag == held.tag
    ensures Tags(Told(carry)) + TagOf(Left(carry)) == multiset{held.tag}
  {
    TagsOfNone();
    if carry.ending.Some? { TagsOfOne(Ended(carry.held.tag, carry.ending.value)); }
  }

  lemma CarriedIsItsOwn(g: Geometry, s: State, view: View, own: Body, c: Command)
    ensures s.movement.Some? && OwnAlive(view)
        ==> CarryMovement(g, s.movement.value, view.own.value.tickRate, own, c).held.tag == s.movement.value.tag
    ensures s.aim.Some? ==> CarryAim(g, s.aim.value, view, own, c).held.tag == s.aim.value.tag
    ensures s.trigger.Some? ==> CarryTrigger(s.trigger.value, view, c).held.tag == s.trigger.value.tag
  {
    hide BodyIn;
  }

  lemma TickConservesMovement(g: Geometry, s: State, view: View, own: Body, c: Command)
    requires OwnAlive(view)
    ensures var t := AfterMovement(g, s, view, own, c);
            && Tags(t.ended) + TagOf(t.state.movement) == TagOf(s.movement)
            && t.state == s.(movement := t.state.movement)
  {
    hide Tags, CarryMovement;
    TagsOfNone();
    CarriedIsItsOwn(g, s, view, own, c);
    if s.movement.Some? {
      TagsOfCarry(s.movement.value, CarryMovement(g, s.movement.value, view.own.value.tickRate, own, c));
    }
  }

  lemma TickConservesAim(g: Geometry, s: State, view: View, own: Body, c: Command)
    ensures var t := AfterAim(g, s, view, own, c);
            && Tags(t.ended) + TagOf(t.state.aim) == TagOf(s.aim)
            && t.state == s.(aim := t.state.aim)
  {
    hide Tags, CarryAim;
    TagsOfNone();
    CarriedIsItsOwn(g, s, view, own, c);
    if s.aim.Some? { TagsOfCarry(s.aim.value, CarryAim(g, s.aim.value, view, own, c)); }
  }

  lemma TickConservesTrigger(g: Geometry, s: State, view: View, own: Body, c: Command)
    ensures var t := AfterTrigger(s, view, c);
            && Tags(t.ended) + TagOf(t.state.trigger) == TagOf(s.trigger)
            && t.state == s.(trigger := t.state.trigger)
  {
    hide Tags, CarryTrigger;
    TagsOfNone();
    CarriedIsItsOwn(g, s, view, own, c);
    if s.trigger.Some? { TagsOfCarry(s.trigger.value, CarryTrigger(s.trigger.value, view, c)); }
  }

  lemma ChannelByChannel(toldM: multiset<nat>, toldA: multiset<nat>, toldT: multiset<nat>, m: multiset<nat>,
                         a: multiset<nat>, t: multiset<nat>, raw: multiset<nat>)
    ensures ((toldM + toldA) + toldT) + (((m + a) + t) + raw) == (((toldM + m) + (toldA + a)) + (toldT + t)) + raw
  {}

  lemma TagOfNone<I>()
    ensures TagOf<I>(None) == multiset{}
  {}

  lemma TagOfKept<I>(held: Held<I>, kept: Held<I>)
    requires held.tag == kept.tag
    ensures TagOf(Some(kept)) == TagOf(Some(held))
  {}

  lemma TickConserves(g: Geometry, s: State, view: View, own: Body)
    ensures var t := Ticked(g, s, view, own);
            Tags(t.ended) + HeldTags(t.state) == HeldTags(s)
  {
    hide Tags, AfterMovement, AfterAim, AfterTrigger, OwnAlive, Gone, TagOf;
    TagsOfNone();
    if !OwnAlive(view) {
      TagsOfEnding(s.aim, TargetGone);
      TagOfNone<AimIntent>();
    } else if s.raw.Some? {
      var kept := s.raw.value.(intent := s.raw.value.intent.(reload := false));
      TagOfKept(s.raw.value, kept);
    } else {
      var moved := AfterMovement(g, s, view, own, Still(s));
      var aimed := AfterAim(g, moved.state, view, own, moved.command);
      var pulled := AfterTrigger(aimed.state, view, aimed.command);
      TickConservesMovement(g, s, view, own, Still(s));
      TickConservesAim(g, moved.state, view, own, moved.command);
      TickConservesTrigger(g, aimed.state, view, own, aimed.command);
      TagsOfBoth(moved.ended, aimed.ended);
      TagsOfBoth(moved.ended + aimed.ended, pulled.ended);
      ChannelByChannel(Tags(moved.ended), Tags(aimed.ended), Tags(pulled.ended), TagOf(moved.state.movement),
                       TagOf(aimed.state.aim), TagOf(pulled.state.trigger), TagOf(s.raw));
    }
  }

  lemma OneReplaced(raw: multiset<nat>, a: multiset<nat>, b: multiset<nat>, c: multiset<nat>, tag: multiset<nat>)
    ensures (raw + a) + (((tag + b) + c) + multiset{}) == (((a + b) + c) + raw) + tag
    ensures (raw + a) + (((b + tag) + c) + multiset{}) == (((b + a) + c) + raw) + tag
    ensures (raw + a) + (((b + c) + tag) + multiset{}) == (((b + c) + a) + raw) + tag
  {}

  lemma SetConserves(g: Geometry, s: State, call: Call)
    requires !call.NextCommand? && !call.SetRaw?
    ensures var done := Performed(g, s, call);
            Tags(done.ended) + HeldTags(done.state) == HeldTags(s) + SetBy(call)
  {
    hide Tags, Ticked, EndingOf;
    TagsOfEnding(s.raw, Replaced);
    var raw, movement, aim, trigger := TagOf(s.raw), TagOf(s.movement), TagOf(s.aim), TagOf(s.trigger);
    var tag := SetBy(call);
    if call.SetMovement? || call.ClearMovement? {
      TagsOfEnding(s.movement, Replaced);
      TagsOfBoth(EndingOf(s.raw, Replaced), EndingOf(s.movement, Replaced));
      OneReplaced(raw, movement, aim, trigger, tag);
    } else if call.SetAim? || call.ClearAim? {
      TagsOfEnding(s.aim, Replaced);
      TagsOfBoth(EndingOf(s.raw, Replaced), EndingOf(s.aim, Replaced));
      OneReplaced(raw, aim, movement, trigger, tag);
    } else {
      TagsOfEnding(s.trigger, Replaced);
      TagsOfBoth(EndingOf(s.raw, Replaced), EndingOf(s.trigger, Replaced));
      OneReplaced(raw, trigger, movement, aim, tag);
    }
  }

  lemma SetRawConserves(g: Geometry, s: State, command: Command, tag: nat)
    ensures var done := Performed(g, s, SetRaw(command, tag));
            Tags(done.ended) + HeldTags(done.state) == HeldTags(s) + multiset{tag}
  {
    hide Tags, Ticked, EndingOf;
    var raw, movement, aim, trigger := EndingOf(s.raw, Replaced), EndingOf(s.movement, Replaced),
                                       EndingOf(s.aim, Replaced), EndingOf(s.trigger, Replaced);
    TagsOfEnding(s.raw, Replaced);
    TagsOfEnding(s.movement, Replaced);
    TagsOfEnding(s.aim, Replaced);
    TagsOfEnding(s.trigger, Replaced);
    TagsOfBoth(raw, movement);
    TagsOfBoth(raw + movement, aim);
    TagsOfBoth(raw + movement + aim, trigger);
  }

  lemma CallConserves(g: Geometry, s: State, call: Call)
    ensures var done := Performed(g, s, call);
            Tags(done.ended) + HeldTags(done.state) == HeldTags(s) + SetBy(call)
  {
    hide Tags, Ticked, EndingOf, HeldTags;
    match call
    case NextCommand(view, own) => TickConserves(g, s, view, own);
    case SetRaw(command, tag) => SetRawConserves(g, s, command, tag);
    case _ => SetConserves(g, s, call);
  }

  lemma SetAgain(set_: multiset<nat>, more: multiset<nat>, told: multiset<nat>, toldMore: multiset<nat>,
                 held: multiset<nat>, heldAfter: multiset<nat>)
    requires set_ == told + held && toldMore + heldAfter == held + more
    ensures set_ + more == (told + toldMore) + heldAfter
  {
    assert (told + held) + more == told + (held + more);
    assert (told + toldMore) + heldAfter == told + (toldMore + heldAfter);
  }

  lemma {:induction false} SetFromIsToldOrHeld(g: Geometry, from: State, calls: seq<Call>)
    ensures HeldTags(from) + SetIn(calls)
         == Tags(RunFrom(g, from, calls).ended) + HeldTags(RunFrom(g, from, calls).state)
    decreases |calls|
  {
    hide Performed, Tags, SetBy, HeldTags;
    if calls == [] {
      TagsOfNone();
    } else {
      var before, last := RunFrom(g, from, calls[..|calls| - 1]), calls[|calls| - 1];
      var done := Performed(g, before.state, last);
      SetFromIsToldOrHeld(g, from, calls[..|calls| - 1]);
      CallConserves(g, before.state, last);
      TagsOfBoth(before.ended, done.ended);
      SetAgain(HeldTags(from) + SetIn(calls[..|calls| - 1]), SetBy(last), Tags(before.ended), Tags(done.ended),
               HeldTags(before.state), HeldTags(done.state));
    }
  }

  /** Over any calls, the Intents set are exactly those told of an ending and those held. */
  lemma SetIsToldOrHeld(g: Geometry, calls: seq<Call>)
    ensures SetIn(calls) == Tags(RunOf(g, calls).ended) + HeldTags(RunOf(g, calls).state)
  {
    hide RunFrom, Tags, SetIn;
    SetFromIsToldOrHeld(g, IDLE, calls);
  }

  /** An Intent of its own tag is held or was told of, once, and never both. */
  lemma ToldAtMostOnce(g: Geometry, calls: seq<Call>, tag: nat)
    requires SetIn(calls)[tag] == 1
    ensures Tags(RunOf(g, calls).ended)[tag] <= 1
    ensures tag in HeldTags(RunOf(g, calls).state) <==> tag !in Tags(RunOf(g, calls).ended)
  {
    hide RunOf, Tags, HeldTags, SetIn;
    SetIsToldOrHeld(g, calls);
    var told, held := Tags(RunOf(g, calls).ended), HeldTags(RunOf(g, calls).state);
    assert SetIn(calls)[tag] == told[tag] + held[tag];
  }

  // A Raw command holds all three channels.

  predicate RawAlone(s: State) {
    s.raw.Some? ==> s.movement.None? && s.aim.None? && s.trigger.None?
  }

  lemma CallKeepsRawAlone(g: Geometry, s: State, call: Call)
    requires RawAlone(s)
    ensures RawAlone(Performed(g, s, call).state)
  {
    hide CarryMovement, CarryAim, CarryTrigger, OwnAlive, Gone;
  }

  lemma {:induction false} RawIsHeldAlone(g: Geometry, from: State, calls: seq<Call>)
    requires RawAlone(from)
    ensures RawAlone(RunFrom(g, from, calls).state)
    decreases |calls|
  {
    hide Performed, RawAlone;
    if calls != [] {
      RawIsHeldAlone(g, from, calls[..|calls| - 1]);
      CallKeepsRawAlone(g, RunFrom(g, from, calls[..|calls| - 1]).state, calls[|calls| - 1]);
    }
  }

  predicate Carrying(call: Call) { call.NextCommand? && OwnAlive(call.view) }

  /** The ticks of `calls` on which this Agent's Intents were carried out. */
  function Carries(calls: seq<Call>): nat
    decreases |calls|
  {
    if calls == [] then 0
    else Carries(calls[..|calls| - 1]) + if Carrying(calls[|calls| - 1]) then 1 else 0
  }

  predicate AllTicks(calls: seq<Call>) { forall i :: 0 <= i < |calls| ==> calls[i].NextCommand? }

  lemma {:induction false} RawKept(g: Geometry, from: State, c: Command, tag: nat, calls: seq<Call>)
    requires from.raw == Some(Held(c, tag, UNTRACKED)) && RawAlone(from) && AllTicks(calls)
    ensures RunFrom(g, from, calls).state.raw
         == Some(Held(c.(reload := c.reload && Carries(calls) == 0), tag, UNTRACKED))
    decreases |calls|
  {
    hide OwnAlive, SeenIn, AfterMovement, AfterAim, AfterTrigger, Gone, RawAlone;
    if calls != [] {
      RawKept(g, from, c, tag, calls[..|calls| - 1]);
      assert calls[|calls| - 1].NextCommand?;
    }
  }

  /** A Raw command is sent whole on every tick played, except that it asks for its reload on the first alone. */
  lemma RawReloadsOnce(g: Geometry, from: State, c: Command, tag: nat, calls: seq<Call>, view: View, own: Body)
    requires RawAlone(from) && AllTicks(calls) && OwnAlive(view)
    ensures var set_ := Performed(g, from, SetRaw(c, tag)).state;
            Ticked(g, RunFrom(g, set_, calls).state, view, own).command
            == SeenIn(view, c.(reload := c.reload && Carries(calls) == 0))
  {
    hide OwnAlive, SeenIn, RunFrom, Carries;
    RawKept(g, Performed(g, from, SetRaw(c, tag)).state, c, tag, calls);
  }

  // A MoveTo ends.

  predicate LeavesMovement(call: Call) { !call.SetMovement? && !call.ClearMovement? && !call.SetRaw? }

  /** The fewest steps of PROGRESS that `distance` is within of having arrived. */
  function Steps(distance: real): int { -((-(distance - ARRIVED) * 10.0).Floor) }

  lemma StepsLeft(distance: real)
    requires distance > ARRIVED
    ensures Steps(distance) >= 1
  {}

  lemma StepsFewer(distance: real, nearest: real)
    requires distance < nearest - PROGRESS
    ensures Steps(distance) <= Steps(nearest) - 1
  {
    assert (nearest - ARRIVED) * 10.0 > (distance - ARRIVED) * 10.0 + 1.0;
  }

  /** Each tick carried was progress, or one of those waited since; `steps` bounds the progress from the first. */
  predicate Budget(tracking: Tracking, steps: nat, rate: nat, ticks: nat) {
    if ticks == 0 then tracking == UNTRACKED
    else
      && tracking.nearest.Some? && tracking.idleTicks < rate
      && 1 <= Steps(tracking.nearest.value) <= steps
      && ticks <= 1 + (steps - Steps(tracking.nearest.value)) * rate + tracking.idleTicks
  }

  lemma AtLeastOnce(times: int, rate: nat)
    requires times >= 1
    ensures times * rate >= rate
  {}

  lemma Apart(a: int, b: int, rate: nat)
    ensures (a + b) * rate == a * rate + b * rate
  {}

  lemma MoreProgress(steps: int, before: int, after: int, rate: nat)
    requires after <= before - 1
    ensures (steps - before) * rate + rate <= (steps - after) * rate
  {
    AtLeastOnce(before - after, rate);
    assert steps - after == (steps - before) + (before - after);
    Apart(steps - before, before - after, rate);
  }

  lemma BudgetKept(g: Geometry, held: Held<MovementIntent>, limit: nat, rate: nat, own: Body, c: Command, steps: nat,
                   ticks: nat)
    requires held.intent.MoveTo? && 1 <= limit && rate <= limit
    requires Budget(held.tracking, steps, limit, ticks)
    requires ticks == 0 ==> Steps(Distance(g, own.position, held.intent.point)) <= steps
    ensures var carry := CarryMovement(g, held, rate, own, c);
            && carry.held.intent == held.intent && carry.held.tag == held.tag
            && (carry.ending.None? ==> Budget(carry.held.tracking, steps, limit, ticks + 1))
            && (carry.ending.Some? ==> carry.ending.value.Arrived? || carry.ending.value.Blocked?)
  {
    hide Steps, Distance;
    var distance := Distance(g, own.position, held.intent.point);
    if distance > ARRIVED {
      StepsLeft(distance);
      if ticks > 0 && Nearer(held.tracking, distance) {
        StepsFewer(distance, held.tracking.nearest.value);
        MoreProgress(steps, Steps(held.tracking.nearest.value), Steps(distance), limit);
      }
    }
  }

  /** While it goes on, a MoveTo heads along the floor for its point: the distance, so headed, reaches it. */
  lemma HeadsForItsPoint(g: Geometry, held: Held<MovementIntent>, rate: nat, own: Body, c: Command)
    requires held.intent.MoveTo?
    ensures var carry := CarryMovement(g, held, rate, own, c);
            var distance := Distance(g, own.position, held.intent.point);
            && (carry.ending == Some(Arrived) <==> distance <= ARRIVED)
            && carry.command.stance == held.intent.stance
            && (carry.ending.None? ==>
                  && own.position.x + distance * carry.command.direction.x == held.intent.point.x
                  && own.position.z + distance * carry.command.direction.z == held.intent.point.z
                  && carry.command.direction.y == 0.0 && carry.command.sprint == held.intent.sprint)
  {
    var distance := Distance(g, own.position, held.intent.point);
    hide Distance;
    if distance > ARRIVED {
      Along(held.intent.point.x - own.position.x, distance);
      Along(held.intent.point.z - own.position.z, distance);
    }
  }

  lemma Along(offset: real, distance: real)
    requires distance != 0.0
    ensures distance * (offset / distance) == offset
  {}

  /** What became of a MoveTo after `ticks` ticks carried. */
  predicate HeadedOrOver(out: Outcome, intent: MovementIntent, tag: nat, steps: nat, limit: nat, ticks: nat) {
    && out.state.raw.None?
    && if out.state.movement.None?
       then Ended(tag, Arrived) in out.ended || Ended(tag, Blocked) in out.ended
       else out.state.movement.value.intent == intent && out.state.movement.value.tag == tag
            && Budget(out.state.movement.value.tracking, steps, limit, ticks)
  }

  /** No call of `calls` takes the movement channel, and no tick they are carried at is faster than `limit` a second. */
  predicate Undisturbed(calls: seq<Call>, limit: nat) {
    forall i :: 0 <= i < |calls| ==>
      && LeavesMovement(calls[i])
      && (Carrying(calls[i]) ==> calls[i].view.own.value.tickRate <= limit)
  }

  /** The first tick carried starts within `steps` steps of `point`. */
  predicate StartsWithin(g: Geometry, calls: seq<Call>, point: Vec, steps: nat) {
    forall i :: 0 <= i < |calls| && Carrying(calls[i]) && Carries(calls[..i]) == 0
      ==> Steps(Distance(g, calls[i].own.position, point)) <= steps
  }

  lemma PrefixToo(g: Geometry, calls: seq<Call>, point: Vec, steps: nat, limit: nat)
    requires calls != [] && Undisturbed(calls, limit) && StartsWithin(g, calls, point, steps)
    ensures Undisturbed(calls[..|calls| - 1], limit) && StartsWithin(g, calls[..|calls| - 1], point, steps)
  {
    hide Steps, Distance, Carries, OwnAlive, LeavesMovement;
    var before := calls[..|calls| - 1];
    forall i | 0 <= i < |before| && Carrying(before[i]) && Carries(before[..i]) == 0
      ensures Steps(Distance(g, before[i].own.position, point)) <= steps
    {
      assert before[..i] == calls[..i] && before[i] == calls[i];
    }
  }

  lemma CallKeepsHeading(g: Geometry, out: Outcome, call: Call, intent: MovementIntent, tag: nat, steps: nat,
                         limit: nat, ticks: nat)
    requires intent.MoveTo? && 1 <= limit && LeavesMovement(call)
    requires HeadedOrOver(out, intent, tag, steps, limit, ticks)
    requires Carrying(call) ==> call.view.own.value.tickRate <= limit
    requires Carrying(call) && ticks == 0 ==> Steps(Distance(g, call.own.position, intent.point)) <= steps
    ensures var done := Performed(g, out.state, call);
            HeadedOrOver(Outcome(done.state, out.ended + done.ended), intent, tag, steps, limit,
                         ticks + if Carrying(call) then 1 else 0)
  {
    hide Steps, Distance, Budget, CarryMovement, CarryAim, CarryTrigger, Gone;
    if Carrying(call) && out.state.movement.Some? {
      var c := Still(out.state);
      var carry := CarryMovement(g, out.state.movement.value, call.view.own.value.tickRate, call.own, c);
      BudgetKept(g, out.state.movement.value, limit, call.view.own.value.tickRate, call.own, c, steps, ticks);
      if carry.ending.Some? {
        assert Told(carry)[0] == Ended(tag, carry.ending.value);
      }
    }
  }

  lemma {:induction false} HeadsOrEnds(g: Geometry, from: State, intent: MovementIntent, tag: nat, calls: seq<Call>,
                                       steps: nat, limit: nat)
    requires intent.MoveTo? && 1 <= limit
    requires from.movement == Some(Held(intent, tag, UNTRACKED)) && from.raw.None?
    requires Undisturbed(calls, limit) && StartsWithin(g, calls, intent.point, steps)
    ensures HeadedOrOver(RunFrom(g, from, calls), intent, tag, steps, limit, Carries(calls))
    decreases |calls|
  {
    hide Performed, Steps, Distance, HeadedOrOver, OwnAlive;
    if calls == [] {
      Headed(from, intent, tag, steps, limit);
    } else {
      PrefixToo(g, calls, intent.point, steps, limit);
      HeadsOrEnds(g, from, intent, tag, calls[..|calls| - 1], steps, limit);
      CallKeepsHeading(g, RunFrom(g, from, calls[..|calls| - 1]), calls[|calls| - 1], intent, tag, steps, limit,
                       Carries(calls[..|calls| - 1]));
    }
  }

  lemma Headed(from: State, intent: MovementIntent, tag: nat, steps: nat, limit: nat)
    requires from.movement == Some(Held(intent, tag, UNTRACKED)) && from.raw.None?
    ensures HeadedOrOver(Outcome(from, []), intent, tag, steps, limit, 0)
  {}

  /**
   Wherever its body goes, a MoveTo that nothing else ends has ended, Arrived or Blocked, once it has
   been carried for a second to each PROGRESS of its first distance and one tick more. The ticks its
   player is not alive in a Match count for nothing.
   */
  lemma MoveToEnds(g: Geometry, from: State, intent: MovementIntent, tag: nat, calls: seq<Call>, steps: nat, limit: nat)
    requires intent.MoveTo? && 1 <= limit
    requires Undisturbed(calls, limit) && StartsWithin(g, calls, intent.point, steps)
    requires Carries(calls) > steps * limit
    ensures var out := RunFrom(g, Performed(g, from, SetMovement(intent, tag)).state, calls);
            && out.state.movement.None?
            && (Ended(tag, Arrived) in out.ended || Ended(tag, Blocked) in out.ended)
  {
    hide RunFrom, Steps, Carries, Undisturbed, StartsWithin;
    var set_ := Performed(g, from, SetMovement(intent, tag)).state;
    HeadsOrEnds(g, set_, intent, tag, calls, steps, limit);
    var out := RunFrom(g, set_, calls);
    if out.state.movement.Some? {
      assert Carries(calls) > 0;
      MoreProgress(steps, Steps(out.state.movement.value.tracking.nearest.value), 0, limit);
      assert false;
    }
  }

  // An AimAt stays in the Match it was first carried out in.

  predicate LeavesAim(call: Call) { !call.SetAim? && !call.ClearAim? && !call.SetRaw? }

  /** `view` shows `target` where an aim begun in Match `m` may go on. */
  predicate StillThere(view: View, target: Entity, m: nat) {
    && view.inMatch && view.matchesStarted == m && target !in view.dead
    && (view.newest.Some? ==> BodyOf(view, target).Some?)
  }

  /** Every tick of `calls`, from the first carried on, shows the target in the Match `m`. */
  predicate AimedIn(calls: seq<Call>, target: Entity, m: nat) {
    forall j :: 0 <= j < |calls| && calls[j].NextCommand? && Carries(calls[..j + 1]) > 0
      ==> StillThere(calls[j].view, target, m)
  }

  predicate AimedOrOver(s: State, calls: seq<Call>, target: Entity, tag: nat) {
    && s.raw.None?
    && (s.aim.Some? && s.aim.value.tag == tag ==>
          && s.aim.value.intent == AimAt(target)
          && (Carries(calls) > 0 <==> s.aim.value.tracking.match_.Some?)
          && (s.aim.value.tracking.match_.Some? ==> AimedIn(calls, target, s.aim.value.tracking.match_.value)))
  }

  lemma CallKeepsAim(g: Geometry, s: State, call: Call, target: Entity, tag: nat)
    requires s.raw.None? && LeavesAim(call)
    requires s.aim.Some? && s.aim.value.intent == AimAt(target) && s.aim.value.tag == tag
    ensures var after := Performed(g, s, call).state; var m := s.aim.value.tracking.match_;
            && after.raw.None?
            && (after.aim.Some? ==>
                  && after.aim.value.intent == AimAt(target) && after.aim.value.tag == tag
                  && after.aim.value.tracking.match_
                     == (if m.None? && Carrying(call) then Some(call.view.matchesStarted) else m)
                  && (call.NextCommand? && after.aim.value.tracking.match_.Some?
                      ==> StillThere(call.view, target, after.aim.value.tracking.match_.value)))
  {
    hide CarryMovement, CarryTrigger, BodyOf;
  }

  lemma AimedInMore(calls: seq<Call>, call: Call, target: Entity, m: nat)
    requires Carries(calls) > 0 ==> AimedIn(calls, target, m)
    requires call.NextCommand? && Carries(calls + [call]) > 0 ==> StillThere(call.view, target, m)
    ensures AimedIn(calls + [call], target, m)
  {
    hide StillThere;
    var all := calls + [call];
    forall j | 0 <= j < |all| && all[j].NextCommand? && Carries(all[..j + 1]) > 0
      ensures StillThere(all[j].view, target, m)
    {
      if j < |calls| {
        assert all[..j + 1] == calls[..j + 1];
        CarriesGrow(calls, j + 1);
      } else {
        assert all[..j + 1] == all;
      }
    }
  }

  lemma {:induction false} CarriesGrow(calls: seq<Call>, n: nat)
    requires n <= |calls|
    ensures Carries(calls[..n]) <= Carries(calls)
    decreases |calls|
  {
    hide Carrying;
    if n < |calls| {
      CarriesGrow(calls[..|calls| - 1], n);
      assert calls[..|calls| - 1][..n] == calls[..n];
    } else {
      assert calls[..n] == calls;
    }
  }

  /**
   As long as an AimAt is held, every tick from the first it was carried on has shown its target alive,
   in the newest state, and in the one Match it was first carried in.
   */
  lemma {:induction false} AimStaysInItsMatch(g: Geometry, from: State, target: Entity, tag: nat, calls: seq<Call>)
    requires from.raw.None? && from.aim == Some(Held(AimAt(target), tag, UNTRACKED))
    requires forall i :: 0 <= i < |calls| ==> LeavesAim(calls[i])
    ensures var s := RunFrom(g, from, calls).state;
            s.aim.Some? ==> AimedOrOver(s, calls, target, tag) && s.aim.value.tag == tag
    ensures RunFrom(g, from, calls).state.raw.None?
    decreases |calls|
  {
    hide Performed, StillThere, AimedIn, Carrying;
    if calls != [] {
      var before, last := calls[..|calls| - 1], calls[|calls| - 1];
      AimStaysInItsMatch(g, from, target, tag, before);
      var s := RunFrom(g, from, before).state;
      assert calls == before + [last];
      if s.aim.Some? {
        CallKeepsAim(g, s, last, target, tag);
        var after := Performed(g, s, last).state;
        if after.aim.Some? && after.aim.value.tracking.match_.Some? {
          AimedInMore(before, last, target, after.aim.value.tracking.match_.value);
        }
      } else {
        NoAimComes(g, s, last);
      }
    }
  }

  lemma NoAimComes(g: Geometry, s: State, call: Call)
    requires s.raw.None? && s.aim.None? && LeavesAim(call)
    ensures var after := Performed(g, s, call).state; after.raw.None? && after.aim.None?
  {
    hide CarryMovement, CarryTrigger, OwnAlive;
  }

  // FireBursts.

  predicate LeavesTrigger(call: Call) { !call.SetTrigger? && !call.ClearTrigger? && !call.SetRaw? }

  /** The newest state shows the magazine without a round. */
  predicate NoRounds(view: View) { view.newest.Some? && view.newest.value.rounds == 0 }

  /** The ticks carried since the magazine was last seen empty. */
  function SinceEmpty(calls: seq<Call>): nat
    decreases |calls|
  {
    if calls == [] then 0
    else
      var before, last := SinceEmpty(calls[..|calls| - 1]), calls[|calls| - 1];
      if !Carrying(last) then before else if NoRounds(last.view) then 0 else before + 1
  }

  lemma CallKeepsBursts(g: Geometry, s: State, call: Call, tag: nat, ticks: nat)
    requires s.raw.None? && LeavesTrigger(call)
    requires s.trigger == Some(Held(FireBursts, tag, UNTRACKED.(triggerTicks := ticks)))
    ensures var after := Performed(g, s, call).state;
            && after.raw.None?
            && after.trigger == Some(Held(FireBursts, tag, UNTRACKED.(triggerTicks :=
                 if !Carrying(call) then ticks else if NoRounds(call.view) then 0 else ticks + 1)))
  {
    hide CarryMovement, CarryAim, Gone;
  }

  lemma {:induction false} BurstsCounted(g: Geometry, from: State, tag: nat, calls: seq<Call>)
    requires from.raw.None? && from.trigger == Some(Held(FireBursts, tag, UNTRACKED))
    requires forall i :: 0 <= i < |calls| ==> LeavesTrigger(calls[i])
    ensures var s := RunFrom(g, from, calls).state;
            && s.raw.None?
            && s.trigger == Some(Held(FireBursts, tag, UNTRACKED.(triggerTicks := SinceEmpty(calls))))
    decreases |calls|
  {
    hide Performed, Carrying, NoRounds;
    if calls != [] {
      BurstsCounted(g, from, tag, calls[..|calls| - 1]);
      CallKeepsBursts(g, RunFrom(g, from, calls[..|calls| - 1]).state, calls[|calls| - 1], tag,
                      SinceEmpty(calls[..|calls| - 1]));
    }
  }

  lemma NothingPulled(g: Geometry, s: State, view: View, own: Body, c: Command)
    requires OwnAlive(view) && !c.fire && !c.reload
    ensures var t := AfterMovement(g, s, view, own, c);
            !t.command.fire && !t.command.reload && t.state.trigger == s.trigger
    ensures var t := AfterAim(g, s, view, own, c); !t.command.fire && !t.command.reload && t.state.trigger == s.trigger
  {
    hide Gone, Nearer, BodyOf;
  }

  /**
   FireBursts never ends on its own, and on each tick played it holds the trigger 6 ticks in 24 from
   the last empty magazine on; with the magazine empty it fires nothing, and presses reload only
   while none is under way.
   */
  lemma BurstsFireSixInTwentyFour(g: Geometry, from: State, tag: nat, calls: seq<Call>, view: View, own: Body)
    requires forall i :: 0 <= i < |calls| ==> LeavesTrigger(calls[i])
    requires OwnAlive(view)
    ensures var set_ := Performed(g, from, SetTrigger(FireBursts, tag)).state;
            var s := RunFrom(g, set_, calls).state;
            var c := Ticked(g, s, view, own).command;
            && s.trigger.Some? && s.trigger.value.tag == tag
            && (c.fire <==> !NoRounds(view) && SinceEmpty(calls) % 24 < 6)
            && (c.reload <==> NoRounds(view) && view.newest.value.reloadRemaining <= 0.0)
  {
    hide RunFrom, SinceEmpty, OwnAlive, AfterMovement, AfterAim;
    var set_ := Performed(g, from, SetTrigger(FireBursts, tag)).state;
    BurstsCounted(g, set_, tag, calls);
    var s := RunFrom(g, set_, calls).state;
    var moved := AfterMovement(g, s, view, own, Still(s));
    NothingPulled(g, s, view, own, Still(s));
    NothingPulled(g, moved.state, view, own, moved.command);
  }

  /** The executor as it changes in place; every method returns whom it tells, and of which ending. */
  class IntentExecutor {
    const g: Geometry
    var movement: Option<Held<MovementIntent>>
    var aim: Option<Held<AimIntent>>
    var trigger: Option<Held<TriggerIntent>>
    var raw: Option<Held<Command>>
    var lastLook: Look
    var lastStance: Stance

    function Now(): State
      reads this
    {
      State(movement, aim, trigger, raw, lastLook, lastStance)
    }

    constructor (g: Geometry)
      ensures Now() == IDLE && this.g == g
    {
      this.g := g;
      movement, aim, trigger, raw := None, None, None, None;
      lastLook, lastStance := Look(0.0, 0.0), Standing;
    }

    static method EndInto<I>(held: Option<Held<I>>, ending: Ending, ended: seq<Ended>)
      returns (left: Option<Held<I>>, more: seq<Ended>)
      ensures left.None? && more == ended + EndingOf(held, ending)
    {
      left, more := held, ended;
      if left.Some? {
        more := more + [Ended(left.value.tag, ending)];
        left := None;
      }
    }

    method ReplaceMovement(next: Option<Held<MovementIntent>>) returns (ended: seq<Ended>)
      modifies this`raw, this`movement
      ensures raw.None? && movement == next
      ensures ended == EndingOf(old(raw), Replaced) + EndingOf(old(movement), Replaced)
    {
      raw, ended := EndInto(raw, Replaced, []);
      movement, ended := EndInto(movement, Replaced, ended);
      movement := next;
    }

    method ReplaceAim(next: Option<Held<AimIntent>>) returns (ended: seq<Ended>)
      modifies this`raw, this`aim
      ensures raw.None? && aim == next
      ensures ended == EndingOf(old(raw), Replaced) + EndingOf(old(aim), Replaced)
    {
      raw, ended := EndInto(raw, Replaced, []);
      aim, ended := EndInto(aim, Replaced, ended);
      aim := next;
    }

    method ReplaceTrigger(next: Option<Held<TriggerIntent>>) returns (ended: seq<Ended>)
      modifies this`raw, this`trigger
      ensures raw.None? && trigger == next
      ensures ended == EndingOf(old(raw), Replaced) + EndingOf(old(trigger), Replaced)
    {
      raw, ended := EndInto(raw, Replaced, []);
      trigger, ended := EndInto(trigger, Replaced, ended);
      trigger := next;
    }

    method SetMovement(intent: MovementIntent, tag: nat) returns (ended: seq<Ended>)
      modifies this
      ensures Outcome(Now(), ended) == Performed(g, old(Now()), Call.SetMovement(intent, tag))
    {
      ended := ReplaceMovement(Some(Held(intent, tag, UNTRACKED)));
    }

    method SetAim(intent: AimIntent, tag: nat) returns (ended: seq<Ended>)
      modifies this
      ensures Outcome(Now(), ended) == Performed(g, old(Now()), Call.SetAim(intent, tag))
    {
      ended := ReplaceAim(Some(Held(intent, tag, UNTRACKED)));
    }

    method SetTrigger(intent: TriggerIntent, tag: nat) returns (ended: seq<Ended>)
      modifies this
      ensures Outcome(Now(), ended) == Performed(g, old(Now()), Call.SetTrigger(intent, tag))
    {
      ended := ReplaceTrigger(Some(Held(intent, tag, UNTRACKED)));
    }

    method ClearMovement() returns (ended: seq<Ended>)
      modifies this
      ensures Outcome(Now(), ended) == Performed(g, old(Now()), Call.ClearMovement)
    {
      ended := ReplaceMovement(None);
    }

    method ClearAim() returns (ended: seq<Ended>)
      modifies this
      ensures Outcome(Now(), ended) == Performed(g, old(Now()), Call.ClearAim)
    {
      ended := ReplaceAim(None);
    }

    method ClearTrigger() returns (ended: seq<Ended>)
      modifies this
      ensures Outcome(Now(), ended) == Performed(g, old(Now()), Call.ClearTrigger)
    {
      ended := ReplaceTrigger(None);
    }

    method SetRaw(command: Command, tag: nat) returns (ended: seq<Ended>)
      modifies this
      ensures Outcome(Now(), ended) == Performed(g, old(Now()), Call.SetRaw(command, tag))
    {
      raw, ended := EndInto(raw, Replaced, []);
      movement, ended := EndInto(movement, Replaced, ended);
      aim, ended := EndInto(aim, Replaced, ended);
      trigger, ended := EndInto(trigger, Replaced, ended);
      raw := Some(Held(command, tag, UNTRACKED));
    }

    method CarryMovementChannel(view: View, own: Body, c: Command, ended: seq<Ended>)
      returns (command: Command, more: seq<Ended>)
      requires OwnAlive(view)
      modifies this`movement
      ensures var t := AfterMovement(g, old(Now()), view, own, c);
              Now() == t.state && command == t.command && more == ended + t.ended
    {
      hide CarryMovement;
      command, more := c, ended;
      if movement.Some? {
        var carry := CarryMovement(g, movement.value, view.own.value.tickRate, own, command);
        movement, command := Some(carry.held), carry.command;
        if carry.ending.Some? { movement, more := EndInto(movement, carry.ending.value, more); }
      }
    }

    method CarryAimChannel(view: View, own: Body, c: Command, ended: seq<Ended>)
      returns (command: Command, more: seq<Ended>)
      modifies this`aim
      ensures var t := AfterAim(g, old(Now()), view, own, c);
              Now() == t.state && command == t.command && more == ended + t.ended
    {
      hide CarryAim;
      command, more := c, ended;
      if aim.Some? {
        var carry := CarryAim(g, aim.value, view, own, command);
        aim, command := Some(carry.held), carry.command;
        if carry.ending.Some? { aim, more := EndInto(aim, carry.ending.value, more); }
      }
    }

    method CarryTriggerChannel(view: View, c: Command, ended: seq<Ended>)
      returns (command: Command, more: seq<Ended>)
      modifies this`trigger
      ensures var t := AfterTrigger(old(Now()), view, c);
              Now() == t.state && command == t.command && more == ended + t.ended
    {
      hide CarryTrigger;
      command, more := c, ended;
      if trigger.Some? {
        var carry := CarryTrigger(trigger.value, view, command);
        trigger, command := Some(carry.held), carry.command;
        if carry.ending.Some? { trigger, more := EndInto(trigger, carry.ending.value, more); }
      }
    }

    method NextCommand(view: View, own: Body) returns (command: Command, ended: seq<Ended>)
      modifies this
      ensures Tick(Now(), ended, command) == Ticked(g, old(Now()), view, own)
    {
      hide AfterMovement, AfterAim, AfterTrigger, OwnAlive, Gone;
      command, ended := Still(Now()), [];
      if OwnAlive(view) {
        if raw.Some? {
          command := raw.value.intent;
          raw := Some(raw.value.(intent := raw.value.intent.(reload := false)));
        } else {
          command, ended := CarryMovementChannel(view, own, command, ended);
          command, ended := CarryAimChannel(view, own, command, ended);
          command, ended := CarryTriggerChannel(view, command, ended);
        }
        lastLook := command.look;
        lastStance := command.stance;
      } else if aim.Some? && Gone(aim.value, view) {
        aim, ended := EndInto(aim, TargetGone, ended);
      }
      command := SeenIn(view, command);
    }
  }
}

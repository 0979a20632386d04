/**
 What an Agent's Intents mean: which Command each comes to on a tick, field by field, when and how each
 ends, and when a MoveTo is Blocked.
 */
module IntentMeaning {
  import opened Common
  import opened Intents

  // When Intents are carried out, and what a Command is without any.

  /** This Agent's player is in a Match and alive in it, as far as the server has told. */
  predicate Playing(view: View) {
    && view.inMatch && view.own.Some? && view.own.value.entity !in view.dead
    && (view.newest.Some? ==> view.newest.value.health > 0.0)
  }

  lemma PlayingIff(view: View)
    ensures Playing(view) <==> OwnAlive(view)
  {}

  /** Every Command names the newest state's tick, or 0 before there is one, and no fraction of it. */
  lemma CommandSees(g: Geometry, s: State, view: View, own: Body)
    ensures var c := Ticked(g, s, view, own).command;
            && (view.newest.Some? ==> c.seenTick == view.newest.value.tick)
            && (view.newest.None? ==> c.seenTick == 0) && c.seenFraction == 0.0
  {
    hide AfterMovement, AfterAim, AfterTrigger, Gone;
  }

  /** While its player is not alive in a Match an Agent stands still, as it last looked and stood, its Intents held. */
  lemma WaitsStill(g: Geometry, s: State, view: View, own: Body)
    requires !Playing(view)
    ensures var t := Ticked(g, s, view, own); var c := t.command;
            && c.direction == Vec(0.0, 0.0, 0.0) && !c.sprint && c.stance == s.lastStance && c.look == s.lastLook
            && !c.ads && !c.fire && !c.reload
            && t.state.movement == s.movement && t.state.trigger == s.trigger && t.state.raw == s.raw
            && t.state.lastLook == s.lastLook && t.state.lastStance == s.lastStance
            && (t.state.aim == s.aim || t.state.aim.None?)
  {
    hide Gone;
  }

  /** An executor told nothing stands still, looks ahead and tells nobody of anything. */
  lemma NewStandsStill(g: Geometry, view: View, own: Body)
    ensures var t := Ticked(g, IDLE, view, own); var c := t.command;
            && c.direction == Vec(0.0, 0.0, 0.0) && !c.sprint && c.stance == Standing && c.look == Look(0.0, 0.0)
            && !c.ads && !c.fire && !c.reload && t.ended == [] && t.state == IDLE
  {}

  /** What is sent is what the next tick starts from: its look and its stance are kept. */
  lemma LastSentIsKept(g: Geometry, s: State, view: View, own: Body)
    requires Playing(view)
    ensures var t := Ticked(g, s, view, own);
            t.state.lastLook == t.command.look && t.state.lastStance == t.command.stance
  {
    hide AfterMovement, AfterAim, AfterTrigger;
  }

  // Each channel alone decides its own part of the Command.

  predicate SamePosture(a: Command, b: Command) {
    a.direction == b.direction && a.sprint == b.sprint && a.stance == b.stance
  }

  predicate SameAim(a: Command, b: Command) { a.look == b.look && a.ads == b.ads }

  predicate SamePull(a: Command, b: Command) { a.fire == b.fire && a.reload == b.reload }

  lemma OnlyMoves(g: Geometry, s: State, view: View, own: Body, c: Command)
    requires OwnAlive(view)
    ensures var t := AfterMovement(g, s, view, own, c);
            && SameAim(t.command, c) && SamePull(t.command, c) && t.state == s.(movement := t.state.movement)
  {
    hide Nearer, Distance;
  }

  lemma OnlyAims(g: Geometry, s: State, view: View, own: Body, c: Command)
    ensures var t := AfterAim(g, s, view, own, c);
            && SamePosture(t.command, c) && SamePull(t.command, c) && t.state == s.(aim := t.state.aim)
  {
    hide Gone, BodyOf;
  }

  lemma OnlyPulls(s: State, view: View, c: Command)
    ensures var t := AfterTrigger(s, view, c);
            && SamePosture(t.command, c) && SameAim(t.command, c) && t.state == s.(trigger := t.state.trigger)
  {}

  lemma AimsAlike(g: Geometry, s: State, moved: State, view: View, own: Body, c: Command, after: Command)
    requires s.aim == moved.aim && SameAim(c, after)
    ensures var t, u := AfterAim(g, s, view, own, c), AfterAim(g, moved, view, own, after);
            t.state.aim == u.state.aim && t.ended == u.ended && SameAim(t.command, u.command)
  {
    hide Gone, BodyOf;
  }

  lemma PullsAlike(s: State, aimed: State, view: View, c: Command, after: Command)
    requires s.trigger == aimed.trigger && SamePull(c, after)
    ensures var t, u := AfterTrigger(s, view, c), AfterTrigger(aimed, view, after);
            t.state.trigger == u.state.trigger && t.ended == u.ended && SamePull(t.command, u.command)
  {}

  /** A tick played: each channel's Intent as if it alone were held, and all they tell, in order. */
  lemma ChannelsAlone(g: Geometry, s: State, view: View, own: Body)
    requires Playing(view) && s.raw.None?
    ensures var t := Ticked(g, s, view, own); var c := Still(s);
            var moved, aimed := AfterMovement(g, s, view, own, c), AfterAim(g, s, view, own, c);
            var pulled := AfterTrigger(s, view, c);
            && SamePosture(t.command, moved.command) && SameAim(t.command, aimed.command)
            && SamePull(t.command, pulled.command) && t.ended == moved.ended + aimed.ended + pulled.ended
            && t.state.movement == moved.state.movement && t.state.aim == aimed.state.aim
            && t.state.trigger == pulled.state.trigger && t.state.raw.None?
  {
    hide AfterMovement, AfterAim, AfterTrigger;
    var c := Still(s);
    var moved := AfterMovement(g, s, view, own, c);
    var aimed := AfterAim(g, moved.state, view, own, moved.command);
    OnlyMoves(g, s, view, own, c);
    OnlyAims(g, moved.state, view, own, moved.command);
    OnlyPulls(aimed.state, view, aimed.command);
    AimsAlike(g, s, moved.state, view, own, c, moved.command);
    PullsAlike(s, aimed.state, view, c, aimed.command);
  }

  /** Where a MoveTo's body is from its point, along the floor. */
  function FloorDistance(g: Geometry, own: Body, point: Vec): real {
    g.length(point.x - own.position.x, point.z - own.position.z)
  }

  /** A Move is sent as it is; with no movement Intent nothing moves, and the last stance is kept. */
  lemma MoveSays(g: Geometry, s: State, view: View, own: Body)
    requires Playing(view) && s.raw.None?
    ensures var t := Ticked(g, s, view, own); var c := t.command;
            && (s.movement.None? ==>
                  && c.direction == Vec(0.0, 0.0, 0.0) && !c.sprint && c.stance == s.lastStance
                  && t.state.movement.None?)
            && (s.movement.Some? && s.movement.value.intent.Move? ==>
                  && c.direction == s.movement.value.intent.direction && c.sprint == s.movement.value.intent.sprint
                  && c.stance == s.movement.value.intent.stance && t.state.movement == s.movement)
  {
    hide Ticked;
    ChannelsAlone(g, s, view, own);
  }

  /**
   A MoveTo has Arrived within half a metre of its point; else a tenth of a metre nearer than ever before,
   or the first tick, is progress, and as many ticks without as there are in a second Block it. Until
   then it goes on.  On the tick it ends nothing moves, in its stance.
   */
  lemma MoveToSays(g: Geometry, s: State, view: View, own: Body)
    requires Playing(view) && s.raw.None? && s.movement.Some? && s.movement.value.intent.MoveTo?
    ensures var t := Ticked(g, s, view, own); var c := t.command;
            var held := s.movement.value; var tracked := held.tracking;
            var distance := FloorDistance(g, own, held.intent.point);
            var progress := tracked.nearest.None? || distance < tracked.nearest.value - 0.1;
            var over := distance <= 0.5 || (!progress && tracked.idleTicks + 1 >= view.own.value.tickRate);
            && c.stance == held.intent.stance
            && (over ==>
                  && t.state.movement.None? && c.direction == Vec(0.0, 0.0, 0.0) && !c.sprint
                  && Ended(held.tag, if distance <= 0.5 then Arrived else Blocked) in t.ended)
            && (!over ==>
                  && c.sprint == held.intent.sprint && t.state.movement.Some?
                  && t.state.movement.value.intent == held.intent && t.state.movement.value.tag == held.tag
                  && t.state.movement.value.tracking.nearest == (if progress then Some(distance) else tracked.nearest)
                  && t.state.movement.value.tracking.idleTicks == (if progress then 0 else tracked.idleTicks + 1)
                  && own.position.x + distance * c.direction.x == held.intent.point.x
                  && own.position.z + distance * c.direction.z == held.intent.point.z && c.direction.y == 0.0)
  {
    hide Ticked, OwnAlive, AfterAim, AfterTrigger;
    PlayingIff(view);
    ChannelsAlone(g, s, view, own);
    var held := s.movement.value;
    HeadsForItsPoint(g, held, view.own.value.tickRate, own, Still(s));
    var moved := AfterMovement(g, s, view, own, Still(s));
    if moved.ended != [] { assert moved.ended[0] in moved.ended; }
  }

  /** A Facing is looked along; with no aim Intent the last look is kept, and neither aims down sights. */
  lemma FacingSays(g: Geometry, s: State, view: View, own: Body)
    requires Playing(view) && s.raw.None?
    ensures var t := Ticked(g, s, view, own); var c := t.command;
            && (s.aim.None? ==> c.look == s.lastLook && !c.ads && t.state.aim.None?)
            && (s.aim.Some? && s.aim.value.intent.Facing? ==>
                  c.look == s.aim.value.intent.look && !c.ads && t.state.aim == s.aim)
  {
    hide Ticked;
    ChannelsAlone(g, s, view, own);
  }

  /** The newest state's first body of `entity` is the `k`th. */
  predicate ShownAt(view: View, entity: Entity, k: nat) {
    && view.newest.Some? && k < |view.newest.value.bodies| && view.newest.value.bodies[k].0 == entity
    && forall i :: 0 <= i < k ==> view.newest.value.bodies[i].0 != entity
  }

  ghost predicate Shown(view: View, entity: Entity) { exists k: nat :: ShownAt(view, entity, k) }

  lemma {:induction false} BodyInIs(bodies: seq<(Entity, Body)>, entity: Entity)
    ensures BodyIn(bodies, entity).None? <==> forall k :: 0 <= k < |bodies| ==> bodies[k].0 != entity
    ensures forall k :: 0 <= k < |bodies| && bodies[k].0 == entity
                        && (forall i :: 0 <= i < k ==> bodies[i].0 != entity)
              ==> BodyIn(bodies, entity) == Some(bodies[k].1)
  {
    if bodies != [] && bodies[0].0 != entity {
      BodyInIs(bodies[1..], entity);
      forall k | 0 <= k < |bodies| && bodies[k].0 == entity && (forall i :: 0 <= i < k ==> bodies[i].0 != entity)
        ensures BodyIn(bodies, entity) == Some(bodies[k].1)
      {
        assert bodies[1..][k - 1] == bodies[k];
        assert forall i :: 0 <= i < k - 1 ==> bodies[1..][i] == bodies[i + 1];
      }
      forall k | 0 <= k < |bodies| && BodyIn(bodies, entity).None? ensures bodies[k].0 != entity {
        if k > 0 { assert bodies[1..][k - 1] == bodies[k]; }
      }
    }
  }

  lemma BodyOfIs(view: View, entity: Entity)
    ensures BodyOf(view, entity).Some? <==> Shown(view, entity)
    ensures forall k: nat :: ShownAt(view, entity, k) ==> BodyOf(view, entity) == Some(view.newest.value.bodies[k].1)
  {
    hide BodyIn;
    if view.newest.Some? {
      var bodies := view.newest.value.bodies;
      BodyInIs(bodies, entity);
      if k :| 0 <= k < |bodies| && bodies[k].0 == entity { FirstShown(view, entity, k); }
      forall k: nat | ShownAt(view, entity, k) ensures BodyOf(view, entity) == Some(bodies[k].1) {
        assert forall i :: 0 <= i < k ==> bodies[i].0 != entity;
      }
    }
  }

  lemma {:induction false} FirstShown(view: View, entity: Entity, k: nat)
    requires view.newest.Some? && k < |view.newest.value.bodies| && view.newest.value.bodies[k].0 == entity
    ensures Shown(view, entity)
    decreases k
  {
    if i :| 0 <= i < k && view.newest.value.bodies[i].0 == entity {
      FirstShown(view, entity, i);
    } else {
      assert ShownAt(view, entity, k);
    }
  }

  /** The target of an aim begun in Match `m` is gone: another Match, or none, a Death, or a state without it. */
  ghost predicate TargetIsGone(view: View, target: Entity, m: nat) {
    m != view.matchesStarted || !view.inMatch || target in view.dead || (view.newest.Some? && !Shown(view, target))
  }

  /** A point so far up a body, by its height in its stance. */
  function Up(g: Geometry, body: Body, fraction: real): Vec {
    Vec(body.position.x, body.position.y + g.height(body.stance) * fraction, body.position.z)
  }

  /**
   An AimAt ends, its target gone, exactly when it is; until then it aims down sights, from its own eye
   at nine tenths of its height to its target's torso at six, or as it last looked with no state to
   place its target by.  It stays in the Match it was first carried in.
   */
  lemma AimAtSays(g: Geometry, s: State, view: View, own: Body)
    requires Playing(view) && s.raw.None? && s.aim.Some? && s.aim.value.intent.AimAt?
    ensures var t := Ticked(g, s, view, own); var c := t.command;
            var held := s.aim.value; var target := held.intent.target;
            var m := if held.tracking.match_.Some? then held.tracking.match_.value else view.matchesStarted;
            && (TargetIsGone(view, target, m) ==>
                  t.state.aim.None? && Ended(held.tag, TargetGone) in t.ended && c.look == s.lastLook && !c.ads)
            && (!TargetIsGone(view, target, m) ==>
                  && c.ads && t.state.aim.Some? && t.state.aim.value.intent == held.intent
                  && t.state.aim.value.tag == held.tag && t.state.aim.value.tracking.match_ == Some(m)
                  && (view.newest.None? ==> c.look == s.lastLook)
                  && forall k: nat :: ShownAt(view, target, k) ==>
                       c.look == g.lookAt(Up(g, own, 0.9), Up(g, view.newest.value.bodies[k].1, 0.6)))
  {
    hide Ticked, BodyOf, ShownAt, Shown;
    ChannelsAlone(g, s, view, own);
    BodyOfIs(view, s.aim.value.intent.target);
    NoneShown(view, s.aim.value.intent.target);
    GoneIff(view, s.aim.value, s.aim.value.intent.target);
    var aimed := AfterAim(g, s, view, own, Still(s));
    if aimed.ended != [] { assert aimed.ended[0] in aimed.ended; }
  }

  lemma NoneShown(view: View, target: Entity)
    ensures view.newest.None? ==> BodyOf(view, target).None?
  {}

  lemma GoneIff(view: View, held: Held<AimIntent>, target: Entity)
    requires held.intent == AimAt(target)
    ensures var m := held.tracking.match_;
            && (m.Some? ==> (Gone(held, view) <==> TargetIsGone(view, target, m.value)))
            && (m.None? ==> !Gone(held, view))
            && (m.None? ==> forall begun: Held<AimIntent> ::
                  begun == held.(tracking := held.tracking.(match_ := Some(view.matchesStarted))) ==>
                    (Gone(begun, view) <==> TargetIsGone(view, target, view.matchesStarted)))
  {
    hide BodyOf, Shown;
    BodyOfIs(view, target);
  }

  /** While its player waits, an AimAt that was carried out before ends exactly when its target is gone. */
  lemma AimAtWaits(g: Geometry, s: State, view: View, own: Body)
    requires !Playing(view)
    ensures var t := Ticked(g, s, view, own);
            var gone := s.aim.Some? && s.aim.value.intent.AimAt? && s.aim.value.tracking.match_.Some?
                        && TargetIsGone(view, s.aim.value.intent.target, s.aim.value.tracking.match_.value);
            && t.state.aim == (if gone then None else s.aim)
            && t.ended == (if gone then [Ended(s.aim.value.tag, TargetGone)] else [])
  {
    hide BodyOf, Shown;
    if s.aim.Some? && s.aim.value.intent.AimAt? { GoneIff(view, s.aim.value, s.aim.value.intent.target); }
  }

  /** HoldFire holds the trigger; Reload presses it once, and is Done; with neither, nothing is pulled. */
  lemma TriggerSays(g: Geometry, s: State, view: View, own: Body)
    requires Playing(view) && s.raw.None?
    ensures var t := Ticked(g, s, view, own); var c := t.command;
            && (s.trigger.None? ==> !c.fire && !c.reload && t.state.trigger.None?)
            && (s.trigger.Some? && s.trigger.value.intent.HoldFire? ==>
                  c.fire && !c.reload && t.state.trigger == s.trigger)
            && (s.trigger.Some? && s.trigger.value.intent.Reload? ==>
                  !c.fire && c.reload && t.state.trigger.None? && Ended(s.trigger.value.tag, Done) in t.ended)
  {
    hide Ticked;
    ChannelsAlone(g, s, view, own);
    var pulled := AfterTrigger(s, view, Still(s));
    if pulled.ended != [] { assert pulled.ended[0] in pulled.ended; }
  }

  // What a call ends.

  predicate HoldsRaw(s: State, tag: nat) { s.raw.Some? && s.raw.value.tag == tag }

  predicate HoldsMovement(s: State, tag: nat) { s.movement.Some? && s.movement.value.tag == tag }

  predicate HoldsAim(s: State, tag: nat) { s.aim.Some? && s.aim.value.tag == tag }

  predicate HoldsTrigger(s: State, tag: nat) { s.trigger.Some? && s.trigger.value.tag == tag }

  /** An Intent set, or its channel cleared, is told Replaced to those held there and to a Raw, and to no other. */
  lemma SetReplaces(g: Geometry, s: State, call: Call, e: Ended)
    requires !call.NextCommand?
    ensures e in Performed(g, s, call).ended <==>
              && e.ending == Replaced
              && (|| HoldsRaw(s, e.tag)
                  || ((call.SetMovement? || call.ClearMovement? || call.SetRaw?) && HoldsMovement(s, e.tag))
                  || ((call.SetAim? || call.ClearAim? || call.SetRaw?) && HoldsAim(s, e.tag))
                  || ((call.SetTrigger? || call.ClearTrigger? || call.SetRaw?) && HoldsTrigger(s, e.tag)))
  {
    EndedOne(s.raw, e);
    EndedOne(s.movement, e);
    EndedOne(s.aim, e);
    EndedOne(s.trigger, e);
    hide EndingOf;
  }

  lemma EndedOne<I>(held: Option<Held<I>>, e: Ended)
    ensures e in EndingOf(held, Replaced) <==> held.Some? && e == Ended(held.value.tag, Replaced)
  {}

  /** What is set is held, nothing of it counted yet, and the other channels are as they were but for a Raw. */
  lemma SetHolds(g: Geometry, s: State, call: Call)
    requires !call.NextCommand?
    ensures var after := Performed(g, s, call).state;
      && after.lastLook == s.lastLook && after.lastStance == s.lastStance
      && after.raw == (if call.SetRaw? then Some(Held(call.command, call.tag, Tracking(None, 0, None, 0))) else None)
      && after.movement == (if call.SetMovement? then Some(Held(call.movement, call.tag, Tracking(None, 0, None, 0)))
                            else if call.ClearMovement? || call.SetRaw? then None else s.movement)
      && after.aim == (if call.SetAim? then Some(Held(call.aim, call.tag, Tracking(None, 0, None, 0)))
                       else if call.ClearAim? || call.SetRaw? then None else s.aim)
      && after.trigger == (if call.SetTrigger? then Some(Held(call.trigger, call.tag, Tracking(None, 0, None, 0)))
                           else if call.ClearTrigger? || call.SetRaw? then None else s.trigger)
  {}

  // When a MoveTo is Blocked, over a run.

  /** The `i`th call carried it on nearest its point, and it was carried `idle` times since, never a tenth nearer. */
  predicate WaitedSince(g: Geometry, calls: seq<Call>, point: Vec, i: nat, idle: nat) {
    && i < |calls| && Carrying(calls[i]) && Carries(calls) == Carries(calls[..i + 1]) + idle
    && forall j :: i < j < |calls| && Carrying(calls[j]) ==>
         FloorDistance(g, calls[j].own, point) >= FloorDistance(g, calls[i].own, point) - 0.1
  }

  ghost predicate TrackedIn(g: Geometry, calls: seq<Call>, point: Vec, tracking: Tracking) {
    if Carries(calls) == 0 then tracking == UNTRACKED
    else exists i: nat :: TrackedAt(g, calls, point, tracking.nearest, tracking.idleTicks, i)
  }

  predicate TrackedAt(g: Geometry, calls: seq<Call>, point: Vec, nearest: Option<real>, idle: nat, i: nat) {
    WaitedSince(g, calls, point, i, idle) && nearest == Some(FloorDistance(g, calls[i].own, point))
  }

  lemma WaitedOn(g: Geometry, calls: seq<Call>, call: Call, point: Vec, i: nat, idle: nat)
    requires WaitedSince(g, calls, point, i, idle)
    requires Carrying(call) ==> FloorDistance(g, call.own, point) >= FloorDistance(g, calls[i].own, point) - 0.1
    ensures WaitedSince(g, calls + [call], point, i, if Carrying(call) then idle + 1 else idle)
  {
    hide FloorDistance, Carrying;
    assert (calls + [call])[..i + 1] == calls[..i + 1];
    assert (calls + [call])[..|calls|] == calls;
  }

  lemma TrackedOn(g: Geometry, calls: seq<Call>, call: Call, point: Vec, nearest: Option<real>, idle: nat, i: nat)
    requires TrackedAt(g, calls, point, nearest, idle, i)
    ensures nearest.Some?
    ensures !Carrying(call) ==> TrackedAt(g, calls + [call], point, nearest, idle, i)
    ensures Carrying(call) && FloorDistance(g, call.own, point) >= nearest.value - 0.1
            ==> TrackedAt(g, calls + [call], point, nearest, idle + 1, i)
                && WaitedSince(g, calls + [call], point, i, idle + 1)
  {
    hide FloorDistance, OwnAlive, Carries;
    if !Carrying(call) || FloorDistance(g, call.own, point) >= nearest.value - 0.1 {
      WaitedOn(g, calls, call, point, i, idle);
    }
  }

  lemma WaitsAnew(g: Geometry, calls: seq<Call>, call: Call, point: Vec)
    requires Carrying(call)
    ensures WaitedSince(g, calls + [call], point, |calls|, 0) && Carries(calls + [call]) == Carries(calls) + 1
  {
    hide FloorDistance, Carrying;
    assert (calls + [call])[..|calls| + 1] == calls + [call] && (calls + [call])[..|calls|] == calls;
  }

  lemma NotCarried(calls: seq<Call>, call: Call)
    requires !Carrying(call)
    ensures Carries(calls + [call]) == Carries(calls)
  {
    hide Carrying;
    assert (calls + [call])[..|calls|] == calls;
  }

  predicate Heads(s: State, point: Vec) {
    s.raw.None? && s.movement.Some? && s.movement.value.intent.MoveTo? && s.movement.value.intent.point == point
  }

  /** A call that leaves the movement channel alone leaves what heads there tracked, or ended it. */
  lemma CallKeepsTracked(g: Geometry, s: State, calls: seq<Call>, call: Call, point: Vec)
    requires Heads(s, point) && LeavesMovement(call) && TrackedIn(g, calls, point, s.movement.value.tracking)
    ensures var after := Performed(g, s, call).state;
            && after.raw.None?
            && (after.movement.Some? ==>
                  Heads(after, point) && TrackedIn(g, calls + [call], point, after.movement.value.tracking))
  {
    hide TrackedAt, WaitedSince, FloorDistance, Ticked, OwnAlive, Carries;
    var tracked := s.movement.value.tracking;
    if Carrying(call) {
      PlayingIff(call.view);
      RawStaysNone(g, s, call);
      MoveToSays(g, s, call.view, call.own);
      WaitsAnew(g, calls, call, point);
      TrackedAnew(g, calls, call, point);
      if tracked.nearest.Some? {
        var i: nat :| TrackedAt(g, calls, point, tracked.nearest, tracked.idleTicks, i);
        TrackedOn(g, calls, call, point, tracked.nearest, tracked.idleTicks, i);
      }
    } else {
      NotCarried(calls, call);
      LeftAlone(g, s, call);
      if Carries(calls) != 0 {
        var i: nat :| TrackedAt(g, calls, point, tracked.nearest, tracked.idleTicks, i);
        TrackedOn(g, calls, call, point, tracked.nearest, tracked.idleTicks, i);
      }
    }
  }

  lemma TrackedAnew(g: Geometry, calls: seq<Call>, call: Call, point: Vec)
    requires Carrying(call)
    ensures TrackedAt(g, calls + [call], point, Some(FloorDistance(g, call.own, point)), 0, |calls|)
  {
    hide FloorDistance, OwnAlive, Carries;
    WaitsAnew(g, calls, call, point);
  }

  lemma RawStaysNone(g: Geometry, s: State, call: Call)
    requires s.raw.None? && LeavesMovement(call)
    ensures Performed(g, s, call).state.raw.None?
  {
    hide AfterMovement, AfterAim, AfterTrigger, Gone;
    if call.NextCommand? && OwnAlive(call.view) {
      PlayingIff(call.view);
      ChannelsAlone(g, s, call.view, call.own);
    }
  }

  lemma LeftAlone(g: Geometry, s: State, call: Call)
    requires s.raw.None? && LeavesMovement(call) && !Carrying(call)
    ensures var after := Performed(g, s, call).state; after.raw.None? && after.movement == s.movement
  {
    hide AfterMovement, AfterAim, AfterTrigger, Gone;
  }

  lemma NoMoveComes(g: Geometry, s: State, call: Call)
    requires s.raw.None? && s.movement.None? && LeavesMovement(call)
    ensures var after := Performed(g, s, call).state; after.raw.None? && after.movement.None?
  {
    hide Ticked;
    RawStaysNone(g, s, call);
    if Carrying(call) {
      PlayingIff(call.view);
      MoveSays(g, s, call.view, call.own);
    } else {
      LeftAlone(g, s, call);
    }
  }

  lemma {:induction false} TrackedOrOver(g: Geometry, from: State, point: Vec, calls: seq<Call>)
    requires Heads(from, point) && from.movement.value.tracking == UNTRACKED
    requires forall i :: 0 <= i < |calls| ==> LeavesMovement(calls[i])
    ensures var s := RunFrom(g, from, calls).state;
            && s.raw.None?
            && (s.movement.Some? ==> Heads(s, point) && TrackedIn(g, calls, point, s.movement.value.tracking))
    decreases |calls|
  {
    hide Performed, TrackedIn, LeavesMovement, Heads;
    if calls == [] {
      NoneTracked(g, point);
      HeadsIs(from, point);
    } else {
      var before, last := calls[..|calls| - 1], calls[|calls| - 1];
      TrackedOrOver(g, from, point, before);
      var s := RunFrom(g, from, before).state;
      assert calls == before + [last];
      if s.movement.Some? { CallKeepsTracked(g, s, before, last, point); } else { NoMoveComes(g, s, last); }
    }
  }

  lemma NoneTracked(g: Geometry, point: Vec)
    ensures TrackedIn(g, [], point, UNTRACKED)
  {}

  lemma HeadsIs(s: State, point: Vec)
    ensures Heads(s, point) ==> s.raw.None?
  {}

  /**
   A MoveTo is Blocked only after a second of ticks without progress: on the tick it is, it has been
   carried as many times as there are ticks in a second since the tick it was nearest on, and was never
   a tenth of a metre nearer.
   */
  lemma BlockedAfterASecond(g: Geometry, from: State, intent: MovementIntent, tag: nat, calls: seq<Call>, view: View,
                            own: Body)
    requires intent.MoveTo? && Playing(view) && forall i :: 0 <= i < |calls| ==> LeavesMovement(calls[i])
    ensures var s := RunFrom(g, Performed(g, from, SetMovement(intent, tag)).state, calls).state;
            var tick := NextCommand(view, own);
            s.movement.Some? && Performed(g, s, tick).state.movement.None?
            && FloorDistance(g, own, intent.point) > 0.5
            ==> exists i: nat, idle: nat :: idle >= view.own.value.tickRate
                                            && WaitedSince(g, calls + [tick], intent.point, i, idle)
  {
    hide RunFrom, TrackedAt, WaitedSince, FloorDistance, Ticked, LeavesMovement, Carries, OwnAlive;
    var set_ := Performed(g, from, SetMovement(intent, tag)).state;
    TrackedOrOver(g, set_, intent.point, calls);
    var s := RunFrom(g, set_, calls).state;
    var tick := NextCommand(view, own);
    if s.movement.Some? && Performed(g, s, tick).state.movement.None? && FloorDistance(g, own, intent.point) > 0.5 {
      PlayingIff(view);
      MoveToSays(g, s, view, own);
      var tracked := s.movement.value.tracking;
      var i: nat :| TrackedAt(g, calls, intent.point, tracked.nearest, tracked.idleTicks, i);
      TrackedOn(g, calls, tick, intent.point, tracked.nearest, tracked.idleTicks, i);
    }
  }

  /** Every tick of `calls` carried finds the body no nearer than `distance`, at no more than `limit` ticks a second. */
  predicate NoNearer(g: Geometry, calls: seq<Call>, point: Vec, distance: real, limit: nat) {
    forall i :: 0 <= i < |calls| ==>
      && LeavesMovement(calls[i])
      && (Carrying(calls[i]) ==> && calls[i].view.own.value.tickRate <= limit
                                 && FloorDistance(g, calls[i].own, point) >= distance)
  }

  lemma {:induction false} WaitsOrIsOver(g: Geometry, from: State, point: Vec, distance: real, limit: nat,
                                         calls: seq<Call>)
    requires Heads(from, point) && from.movement.value.tracking.nearest.Some?
    requires from.movement.value.tracking.nearest.value - 0.1 <= distance
    requires limit > 0 && NoNearer(g, calls, point, distance, limit)
    ensures var s := RunFrom(g, from, calls).state;
            && s.raw.None?
            && (s.movement.Some? ==>
                  && Heads(s, point) && s.movement.value.tracking.nearest == from.movement.value.tracking.nearest
                  && s.movement.value.tracking.idleTicks >= Carries(calls)
                  && (Carries(calls) > 0 ==> s.movement.value.tracking.idleTicks < limit))
    decreases |calls|
  {
    hide Performed, FloorDistance, LeavesMovement, OwnAlive;
    if calls != [] {
      var before, last := calls[..|calls| - 1], calls[|calls| - 1];
      assert NoNearer(g, before, point, distance, limit);
      WaitsOrIsOver(g, from, point, distance, limit, before);
      var s := RunFrom(g, from, before).state;
      assert LeavesMovement(last);
      if s.movement.None? {
        NoMoveComes(g, s, last);
      } else if Carrying(last) {
        OneMoreWait(g, s, last, point, distance, limit);
      } else {
        LeftAlone(g, s, last);
      }
    }
  }

  lemma OneMoreWait(g: Geometry, s: State, call: Call, point: Vec, distance: real, limit: nat)
    requires Heads(s, point) && s.movement.value.tracking.nearest.Some?
    requires s.movement.value.tracking.nearest.value - 0.1 <= distance
    requires Carrying(call) && LeavesMovement(call)
    requires FloorDistance(g, call.own, point) >= distance && call.view.own.value.tickRate <= limit
    ensures var after := Performed(g, s, call).state;
            && after.raw.None?
            && (after.movement.Some? ==>
                  && Heads(after, point) && after.movement.value.tracking.nearest == s.movement.value.tracking.nearest
                  && after.movement.value.tracking.idleTicks == s.movement.value.tracking.idleTicks + 1 < limit)
  {
    hide Ticked, FloorDistance, OwnAlive;
    PlayingIff(call.view);
    RawStaysNone(g, s, call);
    MoveToSays(g, s, call.view, call.own);
  }

  /** And it is over once it has been carried for a second of ticks without coming nearer than on one before. */
  lemma NoNearerIsOver(g: Geometry, s: State, point: Vec, view: View, own: Body, limit: nat, calls: seq<Call>)
    requires Heads(s, point) && Playing(view)
    requires limit > 0 && NoNearer(g, calls, point, FloorDistance(g, own, point), limit) && Carries(calls) >= limit
    ensures RunFrom(g, Performed(g, s, NextCommand(view, own)).state, calls).state.movement.None?
  {
    hide Ticked, FloorDistance, NoNearer, Carries, RunFrom, OwnAlive;
    PlayingIff(view);
    MoveToSays(g, s, view, own);
    RawStaysNone(g, s, NextCommand(view, own));
    var after := Performed(g, s, NextCommand(view, own)).state;
    if after.movement.Some? {
      WaitsOrIsOver(g, after, point, FloorDistance(g, own, point), limit, calls);
    } else {
      OverStays(g, after, point, FloorDistance(g, own, point), limit, calls);
    }
  }

  lemma {:induction false} OverStays(g: Geometry, from: State, point: Vec, distance: real, limit: nat,
                                     calls: seq<Call>)
    requires from.raw.None? && from.movement.None? && NoNearer(g, calls, point, distance, limit)
    ensures var s := RunFrom(g, from, calls).state; s.raw.None? && s.movement.None?
    decreases |calls|
  {
    hide Performed, FloorDistance, LeavesMovement, OwnAlive;
    if calls != [] {
      var before := calls[..|calls| - 1];
      assert NoNearer(g, before, point, distance, limit);
      OverStays(g, from, point, distance, limit, before);
      NoMoveComes(g, RunFrom(g, from, before).state, calls[|calls| - 1]);
    }
  }
}

/**
 What a client makes of its server's messages: each is checked against what it already knows, and
 kept in the view it publishes or, for what is handed out once, until it is taken.
 */
module ServerView {
  import opened Common
  import Pending

  datatype MatchPlayer = MatchPlayer(session: nat, entity: nat, character: string)

  datatype MatchStart = MatchStart(match_: nat, players: seq<MatchPlayer>)

  datatype MatchEnd = MatchEnd(winner: Option<nat>)

  datatype Admission = Admission(session: nat, tickRateHz: byte, parametersValid: bool)

  /** One body of an update; `state` stands for its position, velocity and stance, carried whole. */
  datatype Body = Body(entity: nat, state: nat, yaw: real, pitch: real, ads: bool)

  datatype Update = Update(tick: nat, acknowledged: nat, bodies: seq<Body>, health: real)

  datatype Shot = Shot(shooter: nat, tick: nat)

  datatype Hit = Hit(target: nat)

  datatype Death = Death(victim: nat, killer: nat)

  datatype View = View(
    accepted: Option<Admission>, refusal: Option<nat>, lobby: Option<nat>,
    matchStart: Option<MatchStart>, matchesStarted: nat, inMatch: bool, matchEnd: Option<MatchEnd>,
    authoritative: Option<Update>, recent: seq<Update>, dead: seq<nat>)

  const NOTHING_SAID := View(None, None, None, None, 0, false, None, None, [], [])

  datatype Message =
    | JoinAccepted(admission: Admission)
    | JoinRefused(reason: nat)
    | LobbyNews(version: nat)
    | MatchStarts(start: MatchStart)
    | MatchEnds(end: MatchEnd)
    | Updated(update: Update)
    | Fired(shot: Shot)
    | Confirmed(hit: Hit)
    | Died(death: Death)
    | ReplayList

  const RECENT_KEPT := 28

  predicate AnySession(players: seq<MatchPlayer>, session: nat) {
    players != [] && (players[0].session == session || AnySession(players[1..], session))
  }

  predicate AnyEntity(players: seq<MatchPlayer>, entity: nat) {
    players != [] && (players[0].entity == entity || AnyEntity(players[1..], entity))
  }

  predicate HasSession(start: MatchStart, session: nat) { AnySession(start.players, session) }

  predicate HasEntity(start: MatchStart, entity: nat) { AnyEntity(start.players, entity) }

  predicate Usable(a: Admission) { a.tickRateHz > 0 && a.parametersValid }

  function ForgetStates(v: View): View { v.(authoritative := None, recent := []) }

  function KeepState(v: View, u: Update): View {
    var kept := if |v.recent| == RECENT_KEPT then v.recent[1..] else v.recent;
    v.(recent := kept + [u], authoritative := Some(u))
  }

  predicate Playable(viewer: bool, v: View, start: MatchStart) {
    v.accepted.Some? && (viewer || HasSession(start, v.accepted.value.session))
  }

  predicate OfTheMatch(v: View, entity: nat) {
    v.inMatch && v.matchStart.Some? && HasEntity(v.matchStart.value, entity)
  }

  predicate AllInMatch(start: MatchStart, bodies: seq<Body>) {
    forall i :: 0 <= i < |bodies| ==> HasEntity(start, bodies[i].entity)
  }

  predicate IsNews(v: View, u: Update) {
    && v.inMatch && v.matchStart.Some? && AllInMatch(v.matchStart.value, u.bodies)
    && (v.authoritative.Some? ==> u.tick > v.authoritative.value.tick)
  }

  /** The view after a message. */
  function Said(viewer: bool, v: View, m: Message): View {
    match m
    case JoinAccepted(a) => if Usable(a) then v.(accepted := Some(a)) else v
    case JoinRefused(reason) => v.(refusal := Some(reason))
    case LobbyNews(version) => v.(lobby := Some(version))
    case MatchStarts(start) =>
      if !Playable(viewer, v, start) then v
      else ForgetStates(v).(matchStart := Some(start), matchesStarted := v.matchesStarted + 1, inMatch := true,
                            matchEnd := None, dead := [])
    case MatchEnds(end) => ForgetStates(v).(inMatch := false, matchEnd := Some(end))
    case Updated(u) => if IsNews(v, u) then KeepState(v, u) else v
    case Died(d) =>
      if OfTheMatch(v, d.victim) && OfTheMatch(v, d.killer) then v.(dead := v.dead + [d.victim]) else v
    case _ => v
  }

  // ---------------------------------------------------------------- the invariant

  predicate InTickOrder(us: seq<Update>) {
    forall i, j :: 0 <= i < j < |us| ==> us[i].tick < us[j].tick
  }

  /**
   The newest state is the last of the recent ones, which are bounded, in tick order, only of bodies in
   the Match, and none outside one; in a Match an admission and a Match start are set, and no Match end.
   */
  predicate ViewOk(v: View) {
    && v.authoritative == (if v.recent == [] then None else Some(v.recent[|v.recent| - 1]))
    && |v.recent| <= RECENT_KEPT && InTickOrder(v.recent)
    && (!v.inMatch ==> v.recent == [])
    && (v.inMatch ==> v.accepted.Some? && v.matchStart.Some? && v.matchEnd.None?)
    && (v.inMatch ==> RecentInMatch(v.matchStart.value, v.recent))
    && (v.accepted.Some? ==> Usable(v.accepted.value))
    && (v.matchStart.Some? <==> v.matchesStarted > 0)
    && (if v.matchStart.None? then v.dead == [] else DeadInMatch(v.matchStart.value, v.dead))
  }

  predicate RecentInMatch(start: MatchStart, recent: seq<Update>) {
    forall i :: 0 <= i < |recent| ==> AllInMatch(start, recent[i].bodies)
  }

  predicate DeadInMatch(start: MatchStart, dead: seq<nat>) {
    forall i :: 0 <= i < |dead| ==> HasEntity(start, dead[i])
  }

  lemma KeepStateKeeps(v: View, u: Update)
    requires ViewOk(v) && IsNews(v, u)
    ensures ViewOk(KeepState(v, u))
  {
    var v' := KeepState(v, u);
    forall i | 0 <= i < |v'.recent| - 1 ensures v'.recent[i].tick < u.tick && v'.recent[i] in v.recent {
      assert v'.recent[i] in v.recent;
    }
  }

  lemma SaidKeeps(viewer: bool, v: View, m: Message)
    requires ViewOk(v)
    ensures ViewOk(Said(viewer, v, m)) && v.matchesStarted <= Said(viewer, v, m).matchesStarted
  {
    match m {
      case MatchStarts(start) =>
      case MatchEnds(end) =>
      case Updated(u) => if IsNews(v, u) { KeepStateKeeps(v, u); }
      case Died(d) =>
      case _ =>
    }
  }

  function SaidAll(viewer: bool, v: View, ms: seq<Message>): View
    decreases |ms|
  {
    if ms == [] then v else SaidAll(viewer, Said(viewer, v, ms[0]), ms[1..])
  }

  /** Whatever order messages come in, every view published is whole. */
  lemma {:induction false} EveryViewOk(viewer: bool, v: View, ms: seq<Message>)
    requires ViewOk(v)
    ensures ViewOk(SaidAll(viewer, v, ms)) && v.matchesStarted <= SaidAll(viewer, v, ms).matchesStarted
    decreases |ms|
  {
    if ms != [] {
      SaidKeeps(viewer, v, ms[0]);
      EveryViewOk(viewer, Said(viewer, v, ms[0]), ms[1..]);
    }
  }

  // ---------------------------------------------------------------- what the view tells

  /** All the Deaths and states of the Match under way that came in and were taken. */
  datatype Heard = Heard(deaths: seq<Death>, news: seq<Update>)

  predicate SomeoneIs(players: seq<MatchPlayer>, entity: nat) {
    exists j :: 0 <= j < |players| && players[j].entity == entity
  }

  predicate SomeonePlays(players: seq<MatchPlayer>, session: nat) {
    exists j :: 0 <= j < |players| && players[j].session == session
  }

  /** In a Match that `entity` is a player's of. */
  predicate IsPlaying(v: View, entity: nat) {
    v.inMatch && v.matchStart.Some? && SomeoneIs(v.matchStart.value.players, entity)
  }

  /** A state of nobody but the Match's players, and newer than the newest held, if one is. */
  predicate IsFresh(v: View, u: Update) {
    && v.inMatch && v.matchStart.Some?
    && (forall i :: 0 <= i < |u.bodies| ==> SomeoneIs(v.matchStart.value.players, u.bodies[i].entity))
    && (v.authoritative.None? || u.tick > v.authoritative.value.tick)
  }

  /** A Match start for someone admitted: one of its players, or a viewer. */
  predicate IsOurs(viewer: bool, v: View, start: MatchStart) {
    v.accepted.Some? && (viewer || SomeonePlays(start.players, v.accepted.value.session))
  }

  function Hear(viewer: bool, v: View, h: Heard, m: Message): Heard {
    match m
    case MatchStarts(start) => if IsOurs(viewer, v, start) then Heard([], []) else h
    case MatchEnds(_) => h.(news := [])
    case Updated(u) => if IsFresh(v, u) then h.(news := h.news + [u]) else h
    case Died(d) =>
      if IsPlaying(v, d.victim) && IsPlaying(v, d.killer) then h.(deaths := h.deaths + [d]) else h
    case _ => h
  }

  lemma {:induction false} AnyoneIs(players: seq<MatchPlayer>, id: nat)
    ensures AnyEntity(players, id) <==> SomeoneIs(players, id)
    ensures AnySession(players, id) <==> SomeonePlays(players, id)
    decreases |players|
  {
    if players != [] {
      AnyoneIs(players[1..], id);
      forall j | 0 <= j < |players| - 1 ensures players[1..][j] == players[j + 1] {}
      if SomeoneIs(players, id) {
        var j :| 0 <= j < |players| && players[j].entity == id;
        if j > 0 { assert players[1..][j - 1].entity == id; }
      }
      if SomeonePlays(players, id) {
        var j :| 0 <= j < |players| && players[j].session == id;
        if j > 0 { assert players[1..][j - 1].session == id; }
      }
    }
  }

  lemma TakenIsFresh(v: View, u: Update)
    ensures IsNews(v, u) <==> IsFresh(v, u)
  {
    hide AnyEntity, SomeoneIs;
    if v.matchStart.Some? {
      forall i | 0 <= i < |u.bodies|
        ensures HasEntity(v.matchStart.value, u.bodies[i].entity)
            <==> SomeoneIs(v.matchStart.value.players, u.bodies[i].entity)
      {
        AnyoneIs(v.matchStart.value.players, u.bodies[i].entity);
      }
    }
  }

  lemma PlayableIsOurs(viewer: bool, v: View, start: MatchStart)
    ensures Playable(viewer, v, start) <==> IsOurs(viewer, v, start)
  {
    if v.accepted.Some? { AnyoneIs(start.players, v.accepted.value.session); }
  }

  lemma OfTheMatchIsPlaying(v: View, entity: nat)
    ensures OfTheMatch(v, entity) <==> IsPlaying(v, entity)
  {
    if v.matchStart.Some? { AnyoneIs(v.matchStart.value.players, entity); }
  }

  function HearAll(viewer: bool, v: View, h: Heard, ms: seq<Message>): Heard
    decreases |ms|
  {
    if ms == [] then h else HearAll(viewer, Said(viewer, v, ms[0]), Hear(viewer, v, h, ms[0]), ms[1..])
  }

  function Victims(deaths: seq<Death>): seq<nat> {
    seq(|deaths|, i requires 0 <= i < |deaths| => deaths[i].victim)
  }

  function NewestOf(news: seq<Update>, n: nat): seq<Update> {
    if |news| <= n then news else news[|news| - n..]
  }

  predicate Tells(v: View, h: Heard) {
    v.dead == Victims(h.deaths) && v.recent == NewestOf(h.news, 28)
  }

  lemma NewestNext(news: seq<Update>, u: Update)
    ensures var kept := NewestOf(news, RECENT_KEPT);
      NewestOf(news + [u], RECENT_KEPT) == (if |kept| == RECENT_KEPT then kept[1..] else kept) + [u]
  {}

  lemma SaidTells(viewer: bool, v: View, h: Heard, m: Message)
    requires Tells(v, h)
    ensures Tells(Said(viewer, v, m), Hear(viewer, v, h, m))
  {
    hide NewestOf, IsNews, IsFresh, Playable, IsOurs, OfTheMatch, IsPlaying;
    match m {
      case Updated(u) =>
        TakenIsFresh(v, u);
        NewestNext(h.news, u);
      case Died(d) =>
        OfTheMatchIsPlaying(v, d.victim);
        OfTheMatchIsPlaying(v, d.killer);
        assert Victims(h.deaths + [d]) == Victims(h.deaths) + [d.victim];
      case MatchStarts(start) =>
        PlayableIsOurs(viewer, v, start);
        NoNews();
      case MatchEnds(_) => NoNews();
      case _ =>
    }
  }

  /**
   What each message makes of the view, outright: a state becomes the newest exactly when it is fresh, an
   admission stands exactly when it can be played by, a Match start is taken exactly when it is ours, and
   nothing else of the view moves.
   */
  lemma SaidOutright(viewer: bool, v: View, m: Message)
    ensures var v' := Said(viewer, v, m);
      match m
      case JoinAccepted(a) => v' == if a.tickRateHz > 0 && a.parametersValid then v.(accepted := Some(a)) else v
      case JoinRefused(reason) => v' == v.(refusal := Some(reason))
      case LobbyNews(version) => v' == v.(lobby := Some(version))
      case MatchStarts(start) =>
        v' == if !IsOurs(viewer, v, start) then v
              else v.(matchStart := Some(start), matchesStarted := v.matchesStarted + 1, inMatch := true,
                      matchEnd := None, dead := [], authoritative := None, recent := [])
      case MatchEnds(end) => v' == v.(inMatch := false, matchEnd := Some(end), authoritative := None, recent := [])
      case Updated(u) =>
        && (!IsFresh(v, u) ==> v' == v)
        && (IsFresh(v, u) ==>
              && v'.recent != [] && v'.recent[|v'.recent| - 1] == u && v'.authoritative == Some(u)
              && v' == v.(recent := v'.recent, authoritative := Some(u))
              && v'.recent[..|v'.recent| - 1] == if |v.recent| == 28 then v.recent[1..] else v.recent)
      case Died(d) =>
        v' == if IsPlaying(v, d.victim) && IsPlaying(v, d.killer) then v.(dead := v.dead + [d.victim]) else v
      case Fired(_) => v' == v
      case Confirmed(_) => v' == v
      case ReplayList => v' == v
  {
    hide IsNews, IsFresh, Playable, IsOurs, OfTheMatch, IsPlaying;
    match m {
      case Updated(u) => TakenIsFresh(v, u);
      case Died(d) =>
        OfTheMatchIsPlaying(v, d.victim);
        OfTheMatchIsPlaying(v, d.killer);
      case MatchStarts(start) => PlayableIsOurs(viewer, v, start);
      case _ =>
    }
  }

  lemma NoNews()
    ensures NewestOf([], RECENT_KEPT) == [] && Victims([]) == []
  {}

  /**
   Over every message order, the dead are the victims of the Match's Deaths, in order, and the recent
   states the newest of those taken since it started, as many as are kept.
   */
  lemma {:induction false} ViewTellsTheMatch(viewer: bool, v: View, h: Heard, ms: seq<Message>)
    requires Tells(v, h)
    ensures Tells(SaidAll(viewer, v, ms), HearAll(viewer, v, h, ms))
    decreases |ms|
  {
    hide Tells, Said, Hear;
    if ms != [] {
      SaidTells(viewer, v, h, ms[0]);
      ViewTellsTheMatch(viewer, Said(viewer, v, ms[0]), Hear(viewer, v, h, ms[0]), ms[1..]);
    }
  }

  // ---------------------------------------------------------------- the object

  const MAX_PENDING_SHOTS := 256
  const MAX_PENDING_HITS := 64
  const MAX_PENDING_DEATHS := 16

  /** What a message adds to what is handed out once. */
  function ShotsOf(v: View, m: Message): seq<Pending.Kept<Shot>> {
    if m.Fired? && OfTheMatch(v, m.shot.shooter) then [Pending.Kept(v.matchesStarted, m.shot)] else []
  }

  function HitsOf(v: View, m: Message): seq<Pending.Kept<Hit>> {
    if m.Confirmed? && OfTheMatch(v, m.hit.target) then [Pending.Kept(v.matchesStarted, m.hit)] else []
  }

  function DeathsOf(v: View, m: Message): seq<Pending.Kept<Death>> {
    if m.Died? && OfTheMatch(v, m.death.victim) && OfTheMatch(v, m.death.killer)
    then [Pending.Kept(v.matchesStarted, m.death)] else []
  }

  /** Just the events of players of the Match are handed out, each under the Match it came in. */
  lemma HandedOutIff(v: View, m: Message)
    ensures ShotsOf(v, m) ==
      if m.Fired? && IsPlaying(v, m.shot.shooter) then [Pending.Kept(v.matchesStarted, m.shot)] else []
    ensures HitsOf(v, m) ==
      if m.Confirmed? && IsPlaying(v, m.hit.target) then [Pending.Kept(v.matchesStarted, m.hit)] else []
    ensures DeathsOf(v, m) ==
      if m.Died? && IsPlaying(v, m.death.victim) && IsPlaying(v, m.death.killer)
      then [Pending.Kept(v.matchesStarted, m.death)] else []
  {
    hide OfTheMatch, IsPlaying;
    match m {
      case Fired(shot) => OfTheMatchIsPlaying(v, shot.shooter);
      case Confirmed(hit) => OfTheMatchIsPlaying(v, hit.target);
      case Died(d) =>
        OfTheMatchIsPlaying(v, d.victim);
        OfTheMatchIsPlaying(v, d.killer);
      case _ =>
    }
  }

  /** A queue is as sound once more Matches have started. */
  lemma SoundLater<E>(log: Pending.Log<E>, limit: nat, started: nat, later: nat)
    requires Pending.Sound(log, limit, started) && started <= later
    ensures Pending.Sound(log, limit, later)
  {}

  class Inbox {
    const viewer: bool
    var view: View
    const shots: Pending.Queue<Shot>
    const hits: Pending.Queue<Hit>
    const deaths: Pending.Queue<Death>

    ghost predicate Valid()
      reads this, shots, hits, deaths
    {
      && ViewOk(view)
      && shots.limit == 256 && hits.limit == 64 && deaths.limit == 16
      && shots.Valid(view.matchesStarted) && hits.Valid(view.matchesStarted) && deaths.Valid(view.matchesStarted)
    }

    constructor (viewer: bool)
      ensures Valid() && view == NOTHING_SAID && this.viewer == viewer && fresh(shots) && fresh(hits) && fresh(deaths)
    {
      this.viewer, view := viewer, NOTHING_SAID;
      shots := new Pending.Queue(MAX_PENDING_SHOTS);
      hits := new Pending.Queue(MAX_PENDING_HITS);
      deaths := new Pending.Queue(MAX_PENDING_DEATHS);
    }

    method OnJoinAccepted(a: Admission)
      modifies this`view
      ensures view == Said(viewer, old(view), JoinAccepted(a))
    {
      if a.tickRateHz == 0 || !a.parametersValid { return; }
      view := view.(accepted := Some(a));
    }

    method OnMatchStart(start: MatchStart)
      modifies this`view
      ensures view == Said(viewer, old(view), MatchStarts(start))
    {
      if view.accepted.None? || (!viewer && !HasSession(start, view.accepted.value.session)) { return; }
      var next := view.(matchStart := Some(start), matchesStarted := view.matchesStarted + 1, inMatch := true,
                        matchEnd := None, dead := []);
      view := ForgetStates(next);
    }

    method OnMatchEnd(end: MatchEnd)
      modifies this`view
      ensures view == Said(viewer, old(view), MatchEnds(end))
    {
      view := ForgetStates(view.(inMatch := false)).(matchEnd := Some(end));
    }

    method OnAuthoritativeState(u: Update)
      requires view.inMatch ==> view.matchStart.Some?
      modifies this`view
      ensures view == Said(viewer, old(view), Updated(u))
    {
      if !view.inMatch { return; }
      var i := 0;
      while i < |u.bodies|
        invariant i <= |u.bodies| && view == old(view)
        invariant forall k :: 0 <= k < i ==> HasEntity(view.matchStart.value, u.bodies[k].entity)
      {
        if !HasEntity(view.matchStart.value, u.bodies[i].entity) { return; }
        i := i + 1;
      }
      if view.authoritative.Some? && u.tick <= view.authoritative.value.tick { return; }
      view := KeepState(view, u);
    }

    method OnShot(shot: Shot)
      requires Valid()
      modifies shots
      ensures Valid() && shots.log.arrived == old(shots.log.arrived) + ShotsOf(view, Fired(shot))
      ensures shots.log.given == old(shots.log.given)
    {
      if !view.inMatch || !HasEntity(view.matchStart.value, shot.shooter) { return; }
      shots.Add(view.matchesStarted, shot);
    }

    method OnHitConfirmation(hit: Hit)
      requires Valid()
      modifies hits
      ensures Valid() && hits.log.arrived == old(hits.log.arrived) + HitsOf(view, Confirmed(hit))
      ensures hits.log.given == old(hits.log.given)
    {
      if !view.inMatch || !HasEntity(view.matchStart.value, hit.target) { return; }
      hits.Add(view.matchesStarted, hit);
    }

    method OnDeath(death: Death)
      requires Valid()
      modifies this`view, deaths
      ensures Valid() && view == Said(viewer, old(view), Died(death))
      ensures deaths.log.arrived == old(deaths.log.arrived) + DeathsOf(old(view), Died(death))
      ensures deaths.log.given == old(deaths.log.given)
    {
      if !view.inMatch { return; }
      if !HasEntity(view.matchStart.value, death.victim) || !HasEntity(view.matchStart.value, death.killer) {
        return;
      }
      SaidKeeps(viewer, view, Died(death));
      view := view.(dead := view.dead + [death.victim]);
      deaths.Add(view.matchesStarted, death);
    }

    /** A message that only changes the view. */
    method Publish(m: Message)
      requires Valid() && !m.Fired? && !m.Confirmed? && !m.Died?
      modifies this`view
      ensures Valid() && view == Said(viewer, old(view), m)
    {
      SaidKeeps(viewer, view, m);
      ghost var started := view.matchesStarted;
      match m {
        case JoinAccepted(a) => OnJoinAccepted(a);
        case JoinRefused(reason) => view := view.(refusal := Some(reason));
        case LobbyNews(version) => view := view.(lobby := Some(version));
        case MatchStarts(start) => OnMatchStart(start);
        case MatchEnds(end) => OnMatchEnd(end);
        case Updated(u) => OnAuthoritativeState(u);
        case ReplayList =>
      }
      SoundLater(shots.log, shots.limit, started, view.matchesStarted);
      SoundLater(hits.log, hits.limit, started, view.matchesStarted);
      SoundLater(deaths.log, deaths.limit, started, view.matchesStarted);
    }

    /** Takes in one message: what it adds to the view, and to what is handed out once. */
    method Receive(m: Message)
      requires Valid()
      modifies this`view, shots, hits, deaths
      ensures Valid() && view == Said(viewer, old(view), m)
      ensures shots.log.arrived == old(shots.log.arrived) + ShotsOf(old(view), m)
      ensures hits.log.arrived == old(hits.log.arrived) + HitsOf(old(view), m)
      ensures deaths.log.arrived == old(deaths.log.arrived) + DeathsOf(old(view), m)
      ensures shots.log.given == old(shots.log.given) && hits.log.given == old(hits.log.given)
      ensures deaths.log.given == old(deaths.log.given)
    {
      hide ViewOk, Pending.Sound, HasEntity, KeepState, IsNews, Playable;
      match m {
        case Fired(shot) => OnShot(shot);
        case Confirmed(hit) => OnHitConfirmation(hit);
        case Died(death) => OnDeath(death);
        case _ => Publish(m);
      }
    }

    /** The Shots of the Match a reader's view is of, which is no later than the newest. */
    method TakeShots(matchesStarted: nat) returns (taken: seq<Shot>)
      requires Valid() && matchesStarted <= view.matchesStarted
      modifies shots
      ensures Valid() && taken == Pending.Events(Pending.OfMatch(old(shots.events), matchesStarted))
      ensures shots.log.given == old(shots.log.given) + taken
    {
      taken := shots.Take(matchesStarted, view.matchesStarted);
    }

    method TakeHitConfirmations(matchesStarted: nat) returns (taken: seq<Hit>)
      requires Valid() && matchesStarted <= view.matchesStarted
      modifies hits
      ensures Valid() && taken == Pending.Events(Pending.OfMatch(old(hits.events), matchesStarted))
      ensures hits.log.given == old(hits.log.given) + taken
    {
      taken := hits.Take(matchesStarted, view.matchesStarted);
    }

    method TakeDeaths(matchesStarted: nat) returns (taken: seq<Death>)
      requires Valid() && matchesStarted <= view.matchesStarted
      modifies deaths
      ensures Valid() && taken == Pending.Events(Pending.OfMatch(old(deaths.events), matchesStarted))
      ensures deaths.log.given == old(deaths.log.given) + taken
    {
      taken := deaths.Take(matchesStarted, view.matchesStarted);
    }
  }
}

/**
 The render side's copy of the Server view: each update is converted once, when it is new, and kept
 while the view keeps it.  Along every run it is what converting the whole view would give.
 */
module ConvertedView {
  import opened Common
  import opened ServerView

  datatype Snapshot = Snapshot(tick: nat, tickDuration: real, bodies: seq<Body>)

  function Convert(u: Update, tickRateHz: byte): Snapshot
    requires tickRateHz > 0
  {
    Snapshot(u.tick, TickDuration(tickRateHz), u.bodies)
  }

  function TickDuration(tickRateHz: byte): real
    requires tickRateHz > 0
  {
    1.0 / tickRateHz as real
  }

  function ConvertAll(us: seq<Update>, tickRateHz: byte): (ss: seq<Snapshot>)
    requires tickRateHz > 0
    ensures |ss| == |us| && forall i :: 0 <= i < |us| ==> ss[i] == Convert(us[i], tickRateHz)
  {
    seq(|us|, i requires 0 <= i < |us| => Convert(us[i], tickRateHz))
  }

  // ---------------------------------------------------------------- characters

  datatype PlayerCharacter = PlayerCharacter(entity: nat, character: string)

  function Insert(p: MatchPlayer, sorted: seq<MatchPlayer>): seq<MatchPlayer> {
    if sorted == [] || p.session <= sorted[0].session then [p] + sorted
    else [sorted[0]] + Insert(p, sorted[1..])
  }

  function BySession(players: seq<MatchPlayer>): seq<MatchPlayer> {
    if players == [] then [] else Insert(players[0], BySession(players[1..]))
  }

  function CharactersOf(start: Option<MatchStart>): seq<PlayerCharacter> {
    if start.None? then []
    else
      var sorted := BySession(start.value.players);
      seq(|sorted|, i requires 0 <= i < |sorted| => PlayerCharacter(sorted[i].entity, sorted[i].character))
  }

  predicate InSessionOrder(players: seq<MatchPlayer>) {
    forall i, j :: 0 <= i < j < |players| ==> players[i].session <= players[j].session
  }

  predicate NoEarlier(players: seq<MatchPlayer>, session: nat) {
    forall i :: 0 <= i < |players| ==> session <= players[i].session
  }

  lemma InOrderCons(p: MatchPlayer, rest: seq<MatchPlayer>)
    requires InSessionOrder(rest) && NoEarlier(rest, p.session)
    ensures InSessionOrder([p] + rest)
  {}

  lemma {:induction false} InsertSorts(p: MatchPlayer, sorted: seq<MatchPlayer>, least: nat)
    requires InSessionOrder(sorted) && NoEarlier(sorted, least) && least <= p.session
    ensures InSessionOrder(Insert(p, sorted)) && NoEarlier(Insert(p, sorted), least)
    ensures multiset(Insert(p, sorted)) == multiset(sorted) + multiset{p}
  {
    if sorted == [] || p.session <= sorted[0].session {
      InOrderCons(p, sorted);
    } else {
      InsertSorts(p, sorted[1..], sorted[0].session);
      InOrderCons(sorted[0], Insert(p, sorted[1..]));
      assert sorted == [sorted[0]] + sorted[1..];
    }
  }

  /** Every player of the Match once, in Session order. */
  lemma {:induction false} BySessionSorts(players: seq<MatchPlayer>)
    ensures InSessionOrder(BySession(players)) && multiset(BySession(players)) == multiset(players)
  {
    if players != [] {
      BySessionSorts(players[1..]);
      InsertSorts(players[0], BySession(players[1..]), 0);
      assert players == [players[0]] + players[1..];
    }
  }

  // ---------------------------------------------------------------- the cache

  datatype Cache = Cache(
    updatesMatch: nat, updates: seq<Snapshot>, charactersMatch: nat, characters: seq<PlayerCharacter>)

  const NOTHING_CONVERTED := Cache(0, [], 0, [])

  /** Those the view keeps no more, dropped. */
  function StillKept(updates: seq<Snapshot>, recent: seq<Update>): seq<Snapshot> {
    if updates == [] then []
    else (if recent == [] || updates[0].tick < recent[0].tick then [] else [updates[0]])
         + StillKept(updates[1..], recent)
  }

  /** Those of a newer tick than the last converted, converted. */
  function Newer(updates: seq<Snapshot>, recent: seq<Update>, tickRateHz: byte): seq<Snapshot>
    requires tickRateHz > 0
    decreases |recent|
  {
    if recent == [] then updates
    else
      var more := if updates == [] || recent[0].tick > updates[|updates| - 1].tick
                  then updates + [Convert(recent[0], tickRateHz)] else updates;
      Newer(more, recent[1..], tickRateHz)
  }

  function BroughtUp(c: Cache, v: View): Cache
    requires v.accepted.Some? ==> v.accepted.value.tickRateHz > 0
  {
    var named := if v.matchesStarted != c.charactersMatch
                 then c.(characters := CharactersOf(v.matchStart), charactersMatch := v.matchesStarted) else c;
    if v.accepted.None? then named.(updates := [])
    else
      var updates := if v.matchesStarted != c.updatesMatch then [] else c.updates;
      named.(updatesMatch := v.matchesStarted,
             updates := Newer(StillKept(updates, v.recent), v.recent, v.accepted.value.tickRateHz))
  }

  class ConvertedServerView {
    var updatesMatch: nat
    var updates: seq<Snapshot>
    var charactersMatch: nat
    var characters: seq<PlayerCharacter>

    function State(): Cache
      reads this
    {
      Cache(updatesMatch, updates, charactersMatch, characters)
    }

    constructor ()
      ensures State() == NOTHING_CONVERTED
    {
      updatesMatch, updates, charactersMatch, characters := 0, [], 0, [];
    }

    method EraseDropped(recent: seq<Update>)
      modifies this`updates
      ensures updates == StillKept(old(updates), recent)
    {
      var kept: seq<Snapshot>, i := [], 0;
      while i < |updates|
        invariant i <= |updates| && updates == old(updates)
        invariant kept + StillKept(updates[i..], recent) == StillKept(updates, recent)
      {
        assert updates[i..][1..] == updates[i + 1..];
        ghost var rest := StillKept(updates[i + 1..], recent);
        if recent == [] || updates[i].tick < recent[0].tick {
          assert [] + rest == rest;
        } else {
          Regroup(kept, updates[i], rest);
          kept := kept + [updates[i]];
        }
        i := i + 1;
      }
      assert updates[i..] == [] && kept + [] == kept;
      updates := kept;
    }

    method ConvertNewer(recent: seq<Update>, tickRateHz: byte)
      requires tickRateHz > 0
      modifies this`updates
      ensures updates == Newer(old(updates), recent, tickRateHz)
    {
      var i := 0;
      assert recent[0..] == recent;
      while i < |recent|
        invariant i <= |recent|
        invariant Newer(updates, recent[i..], tickRateHz) == Newer(old(updates), recent, tickRateHz)
      {
        assert recent[i..][1..] == recent[i + 1..];
        if updates == [] || recent[i].tick > updates[|updates| - 1].tick {
          updates := updates + [Convert(recent[i], tickRateHz)];
        }
        i := i + 1;
      }
    }

    method Update(v: View)
      requires v.accepted.Some? ==> v.accepted.value.tickRateHz > 0
      modifies this
      ensures State() == BroughtUp(old(State()), v)
    {
      if v.matchesStarted != charactersMatch {
        characters, charactersMatch := CharactersOf(v.matchStart), v.matchesStarted;
      }
      if v.accepted.None? {
        updates := [];
        return;
      }
      if v.matchesStarted != updatesMatch {
        updates, updatesMatch := [], v.matchesStarted;
      }
      EraseDropped(v.recent);
      ConvertNewer(v.recent, v.accepted.value.tickRateHz);
    }
  }

  // ---------------------------------------------------------------- the cache against the view

  predicate After(us: seq<Update>, tick: nat) { forall i :: 0 <= i < |us| ==> us[i].tick > tick }

  /** Whether `b` is `a` with its first `k` dropped and newer ones added. */
  predicate Extends(a: seq<Update>, b: seq<Update>, k: nat) {
    && k <= |a| && |a| - k <= |b| && b[..|a| - k] == a[k..]
    && (a != [] ==> b != [] && After(b[|a| - k..], a[|a| - 1].tick))
  }

  lemma {:induction false} NewerAppends(updates: seq<Snapshot>, recent: seq<Update>, tickRateHz: byte)
    requires tickRateHz > 0 && InTickOrder(recent)
    requires updates != [] ==> After(recent, updates[|updates| - 1].tick)
    ensures Newer(updates, recent, tickRateHz) == updates + ConvertAll(recent, tickRateHz)
    decreases |recent|
  {
    hide TickDuration;
    if recent == [] {
      assert updates + [] == updates;
    } else {
      var first := Convert(recent[0], tickRateHz);
      NewerAppends(updates + [first], recent[1..], tickRateHz);
      ConvertCons(recent, tickRateHz);
      Regroup(updates, first, ConvertAll(recent[1..], tickRateHz));
    }
  }

  lemma Regroup<T>(a: seq<T>, x: T, b: seq<T>)
    ensures a + ([x] + b) == (a + [x]) + b
  {}

  lemma ConvertCons(us: seq<Update>, tickRateHz: byte)
    requires tickRateHz > 0 && us != []
    ensures ConvertAll(us, tickRateHz) == [Convert(us[0], tickRateHz)] + ConvertAll(us[1..], tickRateHz)
  {}

  lemma {:induction false} NewerSkips(updates: seq<Snapshot>, recent: seq<Update>, tickRateHz: byte, n: nat)
    requires tickRateHz > 0 && n <= |recent| && updates != []
    requires forall i :: 0 <= i < n ==> recent[i].tick <= updates[|updates| - 1].tick
    ensures Newer(updates, recent, tickRateHz) == Newer(updates, recent[n..], tickRateHz)
    decreases n
  {
    if n == 0 {
      assert recent[0..] == recent;
    } else {
      NewerSkips(updates, recent[1..], tickRateHz, n - 1);
      assert recent[1..][n - 1..] == recent[n..];
    }
  }

  lemma {:induction false} KeptIsSuffix(updates: seq<Snapshot>, recent: seq<Update>, k: nat)
    requires k <= |updates|
    requires forall i :: 0 <= i < k ==> recent == [] || updates[i].tick < recent[0].tick
    requires forall i :: k <= i < |updates| ==> recent != [] && updates[i].tick >= recent[0].tick
    ensures StillKept(updates, recent) == updates[k..]
    decreases |updates|
  {
    if updates == [] {
    } else if k > 0 {
      forall i | k - 1 <= i < |updates[1..]| ensures recent != [] && updates[1..][i].tick >= recent[0].tick {
        assert updates[1..][i] == updates[i + 1];
      }
      KeptIsSuffix(updates[1..], recent, k - 1);
      assert updates[1..][k - 1..] == updates[k..];
    } else {
      KeptIsSuffix(updates[1..], recent, 0);
      assert updates[0..] == [updates[0]] + updates[1..][0..];
    }
  }

  lemma ConvertSplit(us: seq<Update>, n: nat, tickRateHz: byte)
    requires tickRateHz > 0 && n <= |us|
    ensures ConvertAll(us[..n], tickRateHz) + ConvertAll(us[n..], tickRateHz) == ConvertAll(us, tickRateHz)
  {}

  lemma NewerPast(b: seq<Update>, n: nat, tickRateHz: byte)
    requires tickRateHz > 0 && InTickOrder(b) && 0 < n <= |b|
    ensures Newer(ConvertAll(b[..n], tickRateHz), b, tickRateHz) == ConvertAll(b, tickRateHz)
  {
    hide TickDuration;
    var kept := ConvertAll(b[..n], tickRateHz);
    assert kept[n - 1].tick == b[n - 1].tick;
    NewerSkips(kept, b, tickRateHz, n);
    NewerAppends(kept, b[n..], tickRateHz);
    ConvertSplit(b, n, tickRateHz);
  }

  /** Brought up to date with what extends it, the cache is that converted. */
  lemma UpToDate(a: seq<Update>, b: seq<Update>, k: nat, tickRateHz: byte)
    requires tickRateHz > 0 && InTickOrder(a) && InTickOrder(b) && Extends(a, b, k)
    ensures Newer(StillKept(ConvertAll(a, tickRateHz), b), b, tickRateHz) == ConvertAll(b, tickRateHz)
  {
    var n := |a| - k;
    KeptOf(a, b, k, tickRateHz);
    assert ConvertAll(a, tickRateHz)[k..] == ConvertAll(b[..n], tickRateHz);
    if n == 0 {
      NewerAppends([], b, tickRateHz);
      assert [] + ConvertAll(b, tickRateHz) == ConvertAll(b, tickRateHz);
    } else {
      NewerPast(b, n, tickRateHz);
    }
  }

  lemma KeptOf(a: seq<Update>, b: seq<Update>, k: nat, tickRateHz: byte)
    requires tickRateHz > 0 && InTickOrder(a) && InTickOrder(b) && Extends(a, b, k)
    ensures StillKept(ConvertAll(a, tickRateHz), b) == ConvertAll(a, tickRateHz)[k..]
  {
    var all, n := ConvertAll(a, tickRateHz), |a| - k;
    if n > 0 { assert b[0] == b[..n][0] == a[k..][0] == a[k]; }
    forall i | 0 <= i < k ensures b == [] || all[i].tick < b[0].tick {
      if b != [] && n == 0 { assert b[n..][0] == b[0]; }
    }
    KeptIsSuffix(all, b, k);
  }

  // ---------------------------------------------------------------- along a run

  datatype Event = Message(message: Message) | Frame

  /** The view as published, the cache, and the updates the cache last saw of its Match. */
  datatype System = System(viewer: bool, view: View, cache: Cache, seen: seq<Update>)

  function Start(viewer: bool): System { System(viewer, NOTHING_SAID, NOTHING_CONVERTED, []) }

  function Step(s: System, e: Event): System
    requires s.view.accepted.Some? ==> s.view.accepted.value.tickRateHz > 0
  {
    match e
    case Message(m) => s.(view := Said(s.viewer, s.view, m))
    case Frame => s.(cache := BroughtUp(s.cache, s.view), seen := s.view.recent)
  }

  /** The server tells its tick rate once: no usable admission tells another. */
  predicate FixedRate(e: Event, rate: byte) {
    e.Message? && e.message.JoinAccepted? && Usable(e.message.admission) ==> e.message.admission.tickRateHz == rate
  }

  /** How the cache stands to a view it may have skipped any number of: it can be brought up to date. */
  predicate Behind(s: System, rate: byte, k: nat)
    requires rate > 0
  {
    && ViewOk(s.view) && InTickOrder(s.seen)
    && (s.view.accepted.Some? ==> s.view.accepted.value.tickRateHz == rate)
    && s.cache.updates == ConvertAll(s.seen, rate)
    && s.cache.updatesMatch <= s.view.matchesStarted && s.cache.charactersMatch <= s.view.matchesStarted
    && (s.cache.updatesMatch == s.view.matchesStarted ==>
          if s.view.inMatch then Extends(s.seen, s.view.recent, k) else k == |s.seen|)
    && (s.cache.charactersMatch == s.view.matchesStarted ==> s.cache.characters == CharactersOf(s.view.matchStart))
  }

  /** What a frame drawn now would be lent: the view's own updates and characters, converted. */
  predicate Current(c: Cache, v: View, rate: byte)
    requires rate > 0
  {
    c.updates == ConvertAll(v.recent, rate) && c.characters == CharactersOf(v.matchStart)
  }

  lemma LastAfter(a: seq<Update>, b: seq<Update>, k: nat)
    requires InTickOrder(b) && Extends(a, b, k) && a != []
    ensures b[|b| - 1].tick >= a[|a| - 1].tick
  {
    var n := |a| - k;
    if n == |b| {
      assert b[..n][n - 1] == a[k..][n - 1];
    } else {
      assert b[n..][|b| - n - 1] == b[|b| - 1];
    }
  }

  lemma AddExtends(a: seq<Update>, b: seq<Update>, u: Update, k: nat)
    requires Extends(a, b, k) && (a != [] ==> u.tick > a[|a| - 1].tick)
    ensures Extends(a, b + [u], k)
  {
    var n := |a| - k;
    assert (b + [u])[..n] == b[..n] && (b + [u])[n..] == b[n..] + [u];
  }

  lemma DropExtends(a: seq<Update>, b: seq<Update>, k: nat)
    requires Extends(a, b, k) && |b| > 1
    ensures Extends(a, b[1..], if k < |a| then k + 1 else k)
  {
    var n := |a| - k;
    if n > 0 {
      assert b[1..][..n - 1] == b[..n][1..] == a[k + 1..] && b[1..][n - 1..] == b[n..];
    } else {
      assert b[1..][..0] == a[k..] && b[0..] == b && b[1..][0..] == b[1..];
    }
  }

  lemma NewsIsLater(a: seq<Update>, v: View, u: Update, k: nat)
    requires ViewOk(v) && IsNews(v, u) && Extends(a, v.recent, k)
    ensures a != [] ==> u.tick > a[|a| - 1].tick
  {
    if a != [] { LastAfter(a, v.recent, k); }
  }

  /** One more update kept: what extended the seen ones still does. */
  lemma KeptExtends(a: seq<Update>, v: View, u: Update, k: nat)
    requires ViewOk(v) && IsNews(v, u) && Extends(a, v.recent, k)
    ensures Extends(a, KeepState(v, u).recent, if |v.recent| == RECENT_KEPT && k < |a| then k + 1 else k)
  {
    hide Extends;
    NewsIsLater(a, v, u, k);
    AddExtends(a, v.recent, u, k);
    if |v.recent| == RECENT_KEPT {
      assert v.recent[1..] + [u] == (v.recent + [u])[1..];
      DropExtends(a, v.recent + [u], k);
    }
  }

  lemma SelfExtends(a: seq<Update>)
    ensures Extends(a, a, 0)
  {
    assert a[..|a|] == a == a[0..];
  }

  lemma StartBehind(viewer: bool, rate: byte)
    requires rate > 0
    ensures Behind(Start(viewer), rate, 0)
  {
    assert ConvertAll([], rate) == [];
  }

  lemma UpdateKeeps(s: System, u: Update, rate: byte, k: nat) returns (k': nat)
    requires rate > 0 && Behind(s, rate, k)
    ensures Behind(Step(s, Message(Updated(u))), rate, k')
  {
    SaidKeeps(s.viewer, s.view, Updated(u));
    k' := k;
    if IsNews(s.view, u) && s.cache.updatesMatch == s.view.matchesStarted {
      KeptExtends(s.seen, s.view, u, k);
      k' := if |s.view.recent| == RECENT_KEPT && k < |s.seen| then k + 1 else k;
    }
  }

  /** Whatever a message says, the cache can be brought up to date as well as before. */
  lemma MessageKeeps(s: System, m: ServerView.Message, rate: byte, k: nat) returns (k': nat)
    requires rate > 0 && Behind(s, rate, k) && FixedRate(Message(m), rate)
    ensures Behind(Step(s, Message(m)), rate, k')
  {
    if m.Updated? {
      k' := UpdateKeeps(s, m.update, rate, k);
    } else {
      SaidKeeps(s.viewer, s.view, m);
      k' := if m.MatchEnds? then |s.seen| else k;
    }
  }

  /** Brought up to date, the cache is what converting the view gives. */
  lemma FrameKeeps(s: System, rate: byte, k: nat)
    requires rate > 0 && Behind(s, rate, k)
    ensures Current(Step(s, Frame).cache, s.view, rate)
    ensures Behind(Step(s, Frame), rate, 0)
  {
    var v := s.view;
    SelfExtends(v.recent);
    assert ConvertAll([], rate) == [] && [] + ConvertAll(v.recent, rate) == ConvertAll(v.recent, rate);
    if v.accepted.Some? {
      if v.matchesStarted != s.cache.updatesMatch {
        NewerAppends([], v.recent, rate);
      } else if v.inMatch {
        UpToDate(s.seen, v.recent, k, rate);
      } else {
        KeptIsSuffix(s.cache.updates, [], |s.seen|);
      }
    }
  }

  /** The state `u` as the render side takes it: its tick, how long one lasts in seconds, and its bodies. */
  predicate Shows(snapshot: Snapshot, u: Update, rate: byte) {
    snapshot.tick == u.tick && snapshot.tickDuration * rate as real == 1.0 && snapshot.bodies == u.bodies
  }

  /** `characters` name each player's entity and character, in the order of `players`. */
  predicate Names(characters: seq<PlayerCharacter>, players: seq<MatchPlayer>) {
    && |characters| == |players|
    && forall i :: 0 <= i < |players| ==>
         characters[i].entity == players[i].entity && characters[i].character == players[i].character
  }

  /**
   What a frame is lent: each of the view's recent states, in order, and the characters of every player
   of its Match once, in Session order, or of none with no Match told of.
   */
  ghost predicate Lent(c: Cache, v: View, rate: byte) {
    && |c.updates| == |v.recent|
    && (forall i :: 0 <= i < |v.recent| ==> Shows(c.updates[i], v.recent[i], rate))
    && (v.matchStart.None? ==> c.characters == [])
    && (v.matchStart.Some? ==>
          exists players :: multiset(players) == multiset(v.matchStart.value.players) && InSessionOrder(players)
                            && Names(c.characters, players))
  }

  lemma CurrentIsLent(c: Cache, v: View, rate: byte)
    requires rate > 0 && Current(c, v, rate)
    ensures Lent(c, v, rate)
  {
    hide BySession;
    forall i | 0 <= i < |v.recent| ensures Shows(c.updates[i], v.recent[i], rate) {
      assert c.updates[i] == Convert(v.recent[i], rate);
    }
    if v.matchStart.Some? {
      var players := BySession(v.matchStart.value.players);
      BySessionSorts(v.matchStart.value.players);
      assert Names(c.characters, players);
    }
  }

  /** Whether each frame of a run is lent what the view of the moment holds. */
  ghost predicate EveryFrameLent(s: System, events: seq<Event>, rate: byte)
    decreases |events|
  {
    events == [] ||
    (&& (s.view.accepted.Some? ==> s.view.accepted.value.tickRateHz > 0)
     && var s' := Step(s, events[0]);
        && (events[0].Frame? ==> Lent(s'.cache, s.view, rate))
        && EveryFrameLent(s', events[1..], rate))
  }

  lemma {:induction false} FramesFrom(s: System, events: seq<Event>, rate: byte, k: nat)
    requires rate > 0 && Behind(s, rate, k)
    requires forall i :: 0 <= i < |events| ==> FixedRate(events[i], rate)
    ensures EveryFrameLent(s, events, rate)
    decreases |events|
  {
    hide Lent;
    if events != [] {
      match events[0] {
        case Message(m) =>
          var k' := MessageKeeps(s, m, rate, k);
          FramesFrom(Step(s, events[0]), events[1..], rate, k');
        case Frame =>
          FrameKeeps(s, rate, k);
          CurrentIsLent(Step(s, events[0]).cache, s.view, rate);
          FramesFrom(Step(s, events[0]), events[1..], rate, 0);
      }
    }
  }

  /**
   Along every run of messages, in any order, and of frames that skip any of the views between them,
   each frame is lent the updates and characters of the view.
   */
  lemma CacheIsConversion(viewer: bool, events: seq<Event>, rate: byte)
    requires rate > 0 && forall i :: 0 <= i < |events| ==> FixedRate(events[i], rate)
    ensures EveryFrameLent(Start(viewer), events, rate)
  {
    StartBehind(viewer, rate);
    FramesFrom(Start(viewer), events, rate, 0);
  }

  // ---------------------------------------------------------------- the Match end

  /** Who won, as the render side names players: the winner's entity, where its Session is one of the Match's. */
  datatype ShownEnd = ShownEnd(winner: Option<nat>)

  method MatchEndOf(v: View) returns (shown: Option<ShownEnd>)
    ensures shown.Some? <==> v.matchEnd.Some?
    ensures ViewOk(v) && v.inMatch ==> shown.None?
    ensures shown.Some? ==>
              (shown.value.winner.Some? <==>
                 && v.matchEnd.value.winner.Some? && v.matchStart.Some?
                 && SomeonePlays(v.matchStart.value.players, v.matchEnd.value.winner.value))
    ensures shown.Some? && shown.value.winner.Some? ==>
              exists i :: 0 <= i < |v.matchStart.value.players|
                && v.matchStart.value.players[i].session == v.matchEnd.value.winner.value
                && v.matchStart.value.players[i].entity == shown.value.winner.value
                && forall j :: 0 <= j < i ==>
                     v.matchStart.value.players[j].session != v.matchEnd.value.winner.value
  {
    if v.matchEnd.None? { return None; }
    var winner := v.matchEnd.value.winner;
    if winner.Some? && v.matchStart.Some? {
      var players := v.matchStart.value.players;
      var i := 0;
      while i < |players|
        invariant i <= |players|
        invariant forall j :: 0 <= j < i ==> players[j].session != winner.value
      {
        if players[i].session == winner.value { return Some(ShownEnd(Some(players[i].entity))); }
        i := i + 1;
      }
    }
    return Some(ShownEnd(None));
  }
}

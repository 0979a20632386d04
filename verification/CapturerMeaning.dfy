/**
 What the records captured under a Match say: each entrant's Join, then everything told of an entrant,
 in order, at its tick, of the very players it was told of.
 */
module CapturerMeaning {
  import opened Common
  import opened CaptureFormat
  import opened CaptureWriter
  import opened Capturer
  import CapturerOrder

  // ---------------------------------------------------------------- numbers and whose they are

  predicate NumberedAt(players: map<nat, byte>, entrants: seq<Entrant>, i: nat)
    requires i < |entrants|
  {
    entrants[i].entity in players && players[entrants[i].entity] == i + 1
  }

  predicate Placed(players: map<nat, byte>, entrants: seq<Entrant>, k: nat) {
    k in players ==> 1 <= players[k] <= |entrants| && entrants[players[k] - 1].entity == k
  }

  /** Each entrant has its place as its number. */
  ghost predicate PlayersAre(players: map<nat, byte>, entrants: seq<Entrant>) {
    && |players| == |entrants|
    && (forall i :: 0 <= i < |entrants| ==> NumberedAt(players, entrants, i))
    && (forall k :: Placed(players, entrants, k))
  }

  predicate SessionAt(sessions: map<nat, byte>, entrants: seq<Entrant>, i: nat)
    requires i < |entrants|
  {
    entrants[i].session in sessions
  }

  predicate SessionPlaced(sessions: map<nat, byte>, entrants: seq<Entrant>, k: nat) {
    k in sessions ==> 1 <= sessions[k] <= |entrants| && entrants[sessions[k] - 1].session == k
  }

  /** Each Session has the number of an entrant of its own. */
  ghost predicate SessionsAre(sessions: map<nat, byte>, entrants: seq<Entrant>) {
    && (forall i :: 0 <= i < |entrants| ==> SessionAt(sessions, entrants, i))
    && (forall k :: SessionPlaced(sessions, entrants, k))
  }

  ghost predicate Roster(players: map<nat, byte>, sessions: map<nat, byte>, entrants: seq<Entrant>) {
    |entrants| <= 255 && PlayersAre(players, entrants) && SessionsAre(sessions, entrants)
  }

  predicate Distinct(entrants: seq<Entrant>) {
    forall i, j :: 0 <= i < j < |entrants| ==> entrants[i].entity != entrants[j].entity
  }

  lemma NextNumbered(players: map<nat, byte>, before: seq<Entrant>, e: Entrant, i: nat)
    requires |before| < 255 && i <= |before| && e.entity !in players
    requires i < |before| ==> NumberedAt(players, before, i)
    ensures NumberedAt(FirstKept(players, e.entity, |before| + 1), before + [e], i)
  {}

  lemma NextPlaced(players: map<nat, byte>, before: seq<Entrant>, e: Entrant, k: nat)
    requires |before| < 255 && e.entity !in players && Placed(players, before, k)
    ensures Placed(FirstKept(players, e.entity, |before| + 1), before + [e], k)
  {}

  lemma PlayersGrow(players: map<nat, byte>, before: seq<Entrant>, e: Entrant)
    requires |before| < 255 && PlayersAre(players, before)
    requires forall i :: 0 <= i < |before| ==> before[i].entity != e.entity
    ensures PlayersAre(FirstKept(players, e.entity, |before| + 1), before + [e])
  {
    var all, after := before + [e], FirstKept(players, e.entity, |before| + 1);
    assert e.entity !in players by { assert Placed(players, before, e.entity); }
    CapturerOrder.FirstKeptGrows(players, e.entity, |before| + 1);
    hide FirstKept, NumberedAt, Placed;
    forall i | 0 <= i < |all| ensures NumberedAt(after, all, i) { NextNumbered(players, before, e, i); }
    forall k ensures Placed(after, all, k) {
      assert Placed(players, before, k);
      NextPlaced(players, before, e, k);
    }
  }

  lemma SessionsGrow(sessions: map<nat, byte>, before: seq<Entrant>, e: Entrant)
    requires |before| < 255 && SessionsAre(sessions, before)
    ensures SessionsAre(FirstKept(sessions, e.session, |before| + 1), before + [e])
  {
    var all, after := before + [e], FirstKept(sessions, e.session, |before| + 1);
    forall i | 0 <= i < |all| ensures SessionAt(after, all, i) {
      if i < |before| { assert SessionAt(sessions, before, i) && all[i] == before[i]; }
    }
    forall k ensures SessionPlaced(after, all, k) {
      assert SessionPlaced(sessions, before, k);
    }
  }

  lemma Another(entrants: seq<Entrant>, n: nat)
    requires n < |entrants| && Distinct(entrants)
    ensures entrants[..n + 1] == entrants[..n] + [entrants[n]]
    ensures forall i :: 0 <= i < n ==> entrants[..n][i].entity != entrants[n].entity
  {}

  lemma RosterGrows(players: map<nat, byte>, sessions: map<nat, byte>, entrants: seq<Entrant>, n: nat)
    requires n < |entrants| <= 255 && Distinct(entrants) && Roster(players, sessions, entrants[..n])
    ensures var e, number := entrants[n], (|players| + 1) % 256;
      && number == n + 1
      && Roster(FirstKept(players, e.entity, number), FirstKept(sessions, e.session, number), entrants[..n + 1])
  {
    Count(players, entrants[..n]);
    hide PlayersAre, SessionsAre, FirstKept, Distinct;
    Another(entrants, n);
    PlayersGrow(players, entrants[..n], entrants[n]);
    SessionsGrow(sessions, entrants[..n], entrants[n]);
  }

  lemma Count(players: map<nat, byte>, entrants: seq<Entrant>)
    requires PlayersAre(players, entrants)
    ensures |players| == |entrants|
  {}

  // ---------------------------------------------------------------- what a record tells

  datatype What =
    | Commanded(entity: nat, seen: int, input: PlayerInput)
    | Left(entity: nat)
    | Died(victim: nat, killer: nat)
    | Ended(winner: Option<nat>)

  datatype Happening = Happening(tick: int, what: What)

  function EntityOf(entrants: seq<Entrant>, player: byte): nat {
    if 1 <= player <= |entrants| then entrants[player - 1].entity else 0
  }

  function SessionOf(entrants: seq<Entrant>, player: byte): nat {
    if 1 <= player <= |entrants| then entrants[player - 1].session else 0
  }

  /** An event read back, its players those who joined under their numbers, its tick counted from the first. */
  function TellsOf(entrants: seq<Entrant>, first: Tick, at: EventAt): Happening {
    Happening(first + at.offset,
      match at.event
      case Command(p, seen, _, input) => Commanded(EntityOf(entrants, p), first + seen, input)
      case Leave(p) => Left(EntityOf(entrants, p))
      case Death(v, k) => Died(EntityOf(entrants, v), EntityOf(entrants, k))
      case MatchEnd(w) => Ended(if w.Some? then Some(SessionOf(entrants, w.value)) else None))
  }

  predicate Entered(entrants: seq<Entrant>, entity: nat) {
    exists i :: 0 <= i < |entrants| && entrants[i].entity == entity
  }

  predicate PlayedBy(entrants: seq<Entrant>, session: nat) {
    exists i :: 0 <= i < |entrants| && entrants[i].session == session
  }

  /** What an input tells of the Match's entrants, if it does. */
  function HappenedBy(entrants: seq<Entrant>, i: Input): Option<Happening> {
    match i
    case RunCommand(tick, entity, seen, input) =>
      if Entered(entrants, entity) then Some(Happening(tick, Commanded(entity, seen, input))) else None
    case PlayerLeaves(tick, entity) => if Entered(entrants, entity) then Some(Happening(tick, Left(entity))) else None
    case PlayerDies(tick, victim, killer) =>
      if Entered(entrants, victim) then Some(Happening(tick, Died(victim, killer))) else None
    case EndMatch(tick, winner) =>
      Some(Happening(tick, Ended(if winner.Some? && PlayedBy(entrants, winner.value) then winner else None)))
    case _ => None
  }

  /** Within what an offset can say, and killed by an entrant. */
  predicate Sayable(entrants: seq<Entrant>, first: Tick, i: Input) {
    && (i.RunCommand? || i.PlayerLeaves? || i.PlayerDies? || i.EndMatch?)
    && first <= i.tick <= first + 0xFFFF_FFFF
    && (i.RunCommand? ==> -0x8000_0000 <= i.seenTick - first <= 0x7FFF_FFFF)
    && (i.PlayerDies? ==> Entered(entrants, i.killer))
  }

  lemma EnteredIff(players: map<nat, byte>, sessions: map<nat, byte>, entrants: seq<Entrant>, k: nat)
    requires Roster(players, sessions, entrants)
    ensures Entered(entrants, k) <==> k in players
    ensures k in players ==> players[k] != 0 && EntityOf(entrants, players[k]) == k
    ensures PlayedBy(entrants, k) <==> k in sessions
    ensures k in sessions ==> SessionOf(entrants, sessions[k]) == k
  {
    assert Placed(players, entrants, k) && SessionPlaced(sessions, entrants, k);
    forall i | 0 <= i < |entrants| ensures entrants[i].entity in players && entrants[i].session in sessions {
      assert NumberedAt(players, entrants, i) && SessionAt(sessions, entrants, i);
    }
    if k in players { assert entrants[players[k] - 1].entity == k; }
    if k in sessions { assert entrants[sessions[k] - 1].session == k; }
  }

  /** Whatever is told of an entrant is recorded, and its record tells just that; nothing else is recorded. */
  lemma RecordTellsWhatHappened(st: State, entrants: seq<Entrant>, i: Input)
    requires Roster(st.players, st.sessions, entrants) && Sayable(entrants, st.firstTick, i)
    ensures EventOf(st, i).Some? <==> HappenedBy(entrants, i).Some?
    ensures EventOf(st, i).Some? ==>
              Some(TellsOf(entrants, st.firstTick, EventOf(st, i).value)) == HappenedBy(entrants, i)
  {
    hide Roster, Entered, PlayedBy, EntityOf, SessionOf;
    match i {
      case RunCommand(_, entity, _, _) => EnteredIff(st.players, st.sessions, entrants, entity);
      case PlayerLeaves(_, entity) => EnteredIff(st.players, st.sessions, entrants, entity);
      case PlayerDies(_, victim, killer) =>
        EnteredIff(st.players, st.sessions, entrants, victim);
        EnteredIff(st.players, st.sessions, entrants, killer);
      case EndMatch(_, winner) =>
        if winner.Some? { EnteredIff(st.players, st.sessions, entrants, winner.value); }
    }
  }

  /** A tick out of what an offset can say is the nearest it can. */
  lemma OffsetsAreNearest(st: State, i: Input)
    requires EventOf(st, i).Some?
    ensures var offset := EventOf(st, i).value.offset;
      && (i.tick < st.firstTick ==> offset == 0)
      && (st.firstTick <= i.tick <= st.firstTick + 0xFFFF_FFFF ==> offset == i.tick - st.firstTick)
      && (i.tick > st.firstTick + 0xFFFF_FFFF ==> offset == 0xFFFF_FFFF)
    ensures i.RunCommand? ==>
              var seen := EventOf(st, i).value.event.seenOffset;
              && (i.seenTick - st.firstTick < -0x8000_0000 ==> seen == -0x8000_0000)
              && (-0x8000_0000 <= i.seenTick - st.firstTick <= 0x7FFF_FFFF ==> seen == i.seenTick - st.firstTick)
              && (i.seenTick - st.firstTick > 0x7FFF_FFFF ==> seen == 0x7FFF_FFFF)
  {}

  // ---------------------------------------------------------------- a Match's records

  /** Nothing of the Match was refused: every record encoded, and its capture was not told to stop. */
  predicate Unrefused(st: State) { !Barred(st) && !st.broken }

  lemma PushSends(st: State, bytes: seq<byte>, r: Record, st': State)
    requires st' == Tell(st, CallPush(st.match_, bytes)).(
                      sent := if Barred(st) then st.sent else st.sent[st.match_ := SentOf(st, st.match_) + [r]])
    ensures Barred(st') == Barred(st)
    ensures !Barred(st') ==> SentOf(st', st.match_) == SentOf(st, st.match_) + [r]
  {
    CapturerOrder.Told(st, CallPush(st.match_, bytes));
    assert Sim(st') == Sim(Tell(st, CallPush(st.match_, bytes)));
  }

  lemma QueuedSends(codec: Codec, st: State, r: Record)
    ensures var st' := Queued(codec, st, r);
      && st'.players == st.players && st'.sessions == st.sessions && st'.firstTick == st.firstTick
      && st'.match_ == st.match_ && st'.open == st.open
      && (Unrefused(st') ==> Unrefused(st) && SentOf(st', st.match_) == SentOf(st, st.match_) + [r])
  {
    hide Encode, Barred, SentOf, Sim, CalledAll;
    match Encode(codec, r) {
      case Err(Broken) =>
      case Err(TooLong) => StopBars(st);
      case Ok(bytes) => PushSends(st, bytes, r, Queued(codec, st, r));
    }
  }

  lemma StopBars(st: State)
    ensures Barred(Tell(st, CallStop(st.match_, RecordTooLong)))
  {
    CapturerOrder.Told(st, CallStop(st.match_, RecordTooLong));
  }

  function JoinsOf(entrants: seq<Entrant>): seq<Record>
    requires |entrants| <= 255
  {
    seq(|entrants|, i requires 0 <= i < |entrants| => CapturerOrder.JoinOf(entrants[i], i + 1))
  }

  lemma {:induction false} JoinsSent(codec: Codec, st: State, entrants: seq<Entrant>, n: nat)
    requires n <= |entrants| <= 255 && Distinct(entrants) && Roster(st.players, st.sessions, entrants[..n])
    ensures var st' := JoinAll(codec, st, entrants[n..]);
      && Roster(st'.players, st'.sessions, entrants) && st'.firstTick == st.firstTick
      && st'.match_ == st.match_ && st'.open == st.open
      && (Unrefused(st') ==>
            Unrefused(st) && SentOf(st', st.match_) == SentOf(st, st.match_) + JoinsOf(entrants)[n..])
    decreases |entrants| - n
  {
    hide Roster, Barred, Queued, Distinct, SentOf;
    if n == |entrants| {
      assert entrants[..n] == entrants && entrants[n..] == [] && JoinsOf(entrants)[n..] == [];
      assert SentOf(st, st.match_) + [] == SentOf(st, st.match_);
    } else {
      var e := entrants[n];
      RosterGrows(st.players, st.sessions, entrants, n);
      var joined := CapturerOrder.Joined(st, e);
      NumbersAside(st, e);
      QueuedSends(codec, joined, CapturerOrder.JoinOf(e, n + 1));
      var next := JoinOne(codec, st, e);
      assert next == Queued(codec, joined, CapturerOrder.JoinOf(e, n + 1));
      assert entrants[n..][0] == e && entrants[n..][1..] == entrants[n + 1..];
      JoinsSent(codec, next, entrants, n + 1);
      JoinsNext(entrants, n, SentOf(st, st.match_));
    }
  }

  lemma NumbersAside(st: State, e: Entrant)
    ensures Unrefused(CapturerOrder.Joined(st, e)) == Unrefused(st)
    ensures SentOf(CapturerOrder.Joined(st, e), st.match_) == SentOf(st, st.match_)
  {
    assert Sim(CapturerOrder.Joined(st, e)) == Sim(st);
  }

  lemma JoinsNext(entrants: seq<Entrant>, n: nat, sent: seq<Record>)
    requires n < |entrants| <= 255
    ensures (sent + [CapturerOrder.JoinOf(entrants[n], n + 1)]) + JoinsOf(entrants)[n + 1..]
            == sent + JoinsOf(entrants)[n..]
  {
    assert JoinsOf(entrants)[n..] == [JoinsOf(entrants)[n]] + JoinsOf(entrants)[n + 1..];
  }

  /** Inputs one after another. */
  function Go(codec: Codec, st: State, inputs: seq<Input>): State
    decreases |inputs|
  {
    if inputs == [] then st else Do(codec, Go(codec, st, inputs[..|inputs| - 1]), inputs[|inputs| - 1])
  }

  /** The records' events, each read back. */
  function Told(entrants: seq<Entrant>, first: Tick, records: seq<Record>): seq<Happening>
    decreases |records|
  {
    if records == [] then []
    else
      var last := records[|records| - 1];
      Told(entrants, first, records[..|records| - 1])
      + if last.EventRecord? then [TellsOf(entrants, first, last.at)] else []
  }

  /** All that the inputs tell of the entrants, in order. */
  function Happened(entrants: seq<Entrant>, inputs: seq<Input>): seq<Happening>
    decreases |inputs|
  {
    if inputs == [] then []
    else
      var last := HappenedBy(entrants, inputs[|inputs| - 1]);
      Happened(entrants, inputs[..|inputs| - 1]) + if last.Some? then [last.value] else []
  }

  predicate AllSayable(entrants: seq<Entrant>, first: Tick, inputs: seq<Input>) {
    forall k :: 0 <= k < |inputs| ==> Sayable(entrants, first, inputs[k]) && !inputs[k].EndMatch?
  }

  function RecordsOf(st: State, i: Input): seq<Record> {
    if EventOf(st, i).Some? then [EventRecord(EventOf(st, i).value)] else []
  }

  lemma SayableIsEvent(entrants: seq<Entrant>, first: Tick, i: Input)
    requires Sayable(entrants, first, i)
    ensures !i.StartMatch? && !i.Finish?
  {}

  /** One more event in the Match: its record, if it has one, comes last. */
  lemma EventSends(codec: Codec, st: State, entrants: seq<Entrant>, i: Input)
    requires Roster(st.players, st.sessions, entrants) && Sayable(entrants, st.firstTick, i)
    requires st.open && !i.EndMatch?
    ensures var st' := Do(codec, st, i);
      && st'.players == st.players && st'.sessions == st.sessions && st'.firstTick == st.firstTick
      && st'.match_ == st.match_ && st'.open
      && (Unrefused(st') ==> Unrefused(st) && SentOf(st', st.match_) == SentOf(st, st.match_) + RecordsOf(st, i))
  {
    hide Roster, EventOf, Queued, Barred, Sayable, SentOf;
    SayableIsEvent(entrants, st.firstTick, i);
    if EventOf(st, i).Some? {
      QueuedSends(codec, st, EventRecord(EventOf(st, i).value));
      TickAside(Queued(codec, st, EventRecord(EventOf(st, i).value)), i.tick);
    } else {
      assert SentOf(st, st.match_) + [] == SentOf(st, st.match_);
    }
  }

  lemma TickAside(st: State, tick: Tick)
    ensures Unrefused(st.(lastTick := tick)) == Unrefused(st)
    ensures SentOf(st.(lastTick := tick), st.match_) == SentOf(st, st.match_)
  {
    assert Sim(st.(lastTick := tick)) == Sim(st);
  }

  lemma ToldSnoc(entrants: seq<Entrant>, first: Tick, records: seq<Record>, r: Record)
    ensures Told(entrants, first, records + [r]) ==
            Told(entrants, first, records) + if r.EventRecord? then [TellsOf(entrants, first, r.at)] else []
  {
    assert (records + [r])[..|records|] == records;
  }

  lemma {:induction false} EventsTold(codec: Codec, st: State, entrants: seq<Entrant>, inputs: seq<Input>)
    requires Roster(st.players, st.sessions, entrants) && st.open && AllSayable(entrants, st.firstTick, inputs)
    ensures var st' := Go(codec, st, inputs);
      && st'.players == st.players && st'.sessions == st.sessions && st'.firstTick == st.firstTick
      && st'.match_ == st.match_ && st'.open
      && (Unrefused(st') ==>
            && Unrefused(st)
            && SentOf(st, st.match_) <= SentOf(st', st.match_)
            && Told(entrants, st.firstTick, SentOf(st', st.match_))
               == Told(entrants, st.firstTick, SentOf(st, st.match_)) + Happened(entrants, inputs))
    decreases |inputs|
  {
    hide Roster, Sayable, TellsOf, HappenedBy, EventOf, Do, Barred;
    var told := Told(entrants, st.firstTick, SentOf(st, st.match_));
    if inputs == [] {
      assert told + [] == told;
    } else {
      var i, rest := inputs[|inputs| - 1], inputs[..|inputs| - 1];
      EventsTold(codec, st, entrants, rest);
      var before := Go(codec, st, rest);
      EventSends(codec, before, entrants, i);
      RecordTellsWhatHappened(before, entrants, i);
      if EventOf(before, i).Some? {
        var r := EventRecord(EventOf(before, i).value);
        ToldSnoc(entrants, st.firstTick, SentOf(before, st.match_), r);
        Regroup(told, Happened(entrants, rest), [TellsOf(entrants, st.firstTick, r.at)]);
      } else {
        Regroup(told, Happened(entrants, rest), []);
        assert SentOf(before, st.match_) + [] == SentOf(before, st.match_);
        assert Happened(entrants, rest) + [] == Happened(entrants, rest);
      }
    }
  }

  lemma Regroup<T>(a: seq<T>, b: seq<T>, c: seq<T>)
    ensures (a + b) + c == a + (b + c)
  {}

  lemma {:induction false} JoinsTellNothing(entrants: seq<Entrant>, first: Tick, records: seq<Record>)
    requires forall i :: 0 <= i < |records| ==> records[i].JoinRecord?
    ensures Told(entrants, first, records) == []
    decreases |records|
  {
    if records != [] { JoinsTellNothing(entrants, first, records[..|records| - 1]); }
  }

  /**
   A Match's capture, as long as nothing of it is refused, is one Join for each entrant, numbered in
   order, and then tells, of the very players and at the very ticks, all that happened to them, in order.
   */
  lemma CaptureTellsTheMatch(codec: Codec, st: State, m: MatchId, entrants: seq<Entrant>, first: Tick, startedMs: int,
                             inputs: seq<Input>)
    requires |entrants| <= 255 && Distinct(entrants)
    requires EncodeHeader(codec, st.base.(match_ := m, startedMs := startedMs)).Ok?
    requires SentOf(st, m) == [] && AllSayable(entrants, first, inputs)
    ensures var begun := Do(codec, st, StartMatch(false, m, entrants, first, startedMs));
      var st' := Go(codec, begun, inputs);
      Unrefused(st') ==>
        && |SentOf(begun, m)| == |entrants|
        && (forall k :: 0 <= k < |entrants| ==>
              SentOf(begun, m)[k] == JoinRecord(0, k + 1, Join(entrants[k].session, entrants[k].character,
                                                               entrants[k].spawn)))
        && SentOf(begun, m) <= SentOf(st', m)
        && Told(entrants, first, SentOf(st', m)) == Happened(entrants, inputs)
  {
    hide Roster, Sayable, TellsOf, HappenedBy, Happened, Barred, EncodeHeader;
    var header := st.base.(match_ := m, startedMs := startedMs);
    var bytes := EncodeHeader(codec, header).value;
    var ready := Capturer.Opened(Begun(Unopened(st), m, first), m, header, bytes);
    var begun := Do(codec, st, StartMatch(false, m, entrants, first, startedMs));
    assert entrants[0..] == entrants && entrants[..0] == [];
    assert begun == JoinAll(codec, ready, entrants);
    NoRoster();
    JoinsSent(codec, ready, entrants, 0);
    EventsTold(codec, begun, entrants, inputs);
    assert JoinsOf(entrants)[0..] == JoinsOf(entrants) && SentOf(ready, m) == [];
    assert [] + JoinsOf(entrants) == JoinsOf(entrants);
    JoinsTellNothing(entrants, first, JoinsOf(entrants));
    hide Told, JoinsOf, JoinAll, Go;
    JoinsOutright(entrants);
    assert [] + Happened(entrants, inputs) == Happened(entrants, inputs);
  }

  lemma JoinsOutright(entrants: seq<Entrant>)
    requires |entrants| <= 255
    ensures |JoinsOf(entrants)| == |entrants|
    ensures forall k :: 0 <= k < |entrants| ==>
              JoinsOf(entrants)[k] == JoinRecord(0, k + 1, Join(entrants[k].session, entrants[k].character,
                                                                entrants[k].spawn))
  {}

  lemma NoRoster()
    ensures Roster(map[], map[], [])
  {}

  // ---------------------------------------------------------------- whose header a file has

  lemma QueuedAside(codec: Codec, st: State, r: Record)
    ensures Queued(codec, st, r).headers == st.headers && Queued(codec, st, r).base == st.base
  {
    hide Encode, Barred, SentOf;
  }

  lemma {:induction false} JoinsAside(codec: Codec, st: State, entrants: seq<Entrant>)
    ensures JoinAll(codec, st, entrants).headers == st.headers && JoinAll(codec, st, entrants).base == st.base
    decreases |entrants|
  {
    hide Queued;
    if entrants != [] {
      var e := entrants[0];
      var numbered := st.(players := FirstKept(st.players, e.entity, NumberOf(st)),
                          sessions := FirstKept(st.sessions, e.session, NumberOf(st)));
      QueuedAside(codec, numbered, JoinRecord(0, NumberOf(st), Join(e.session, e.character, e.spawn)));
      JoinsAside(codec, JoinOne(codec, st, e), entrants[1..]);
    }
  }

  /** A header is its Match's: the server's own but for the Match's ID and when it started. */
  lemma StartedNames(codec: Codec, st: State, m: MatchId, entrants: seq<Entrant>, first: Tick, startedMs: int)
    ensures var st', header := Do(codec, st, StartMatch(false, m, entrants, first, startedMs)),
                               st.base.(match_ := m, startedMs := startedMs);
      && st'.base == st.base
      && st'.headers == if EncodeHeader(codec, header).Ok? then st.headers[m := header] else st.headers
  {
    hide EncodeHeader, Queued;
    var header := st.base.(match_ := m, startedMs := startedMs);
    if EncodeHeader(codec, header).Ok? {
      JoinsAside(codec, Capturer.Opened(Begun(Unopened(st), m, first), m, header, EncodeHeader(codec, header).value),
                 entrants);
    }
  }

  lemma EventAside(codec: Codec, st: State, i: Input)
    requires !i.StartMatch?
    ensures Do(codec, st, i).headers == st.headers && Do(codec, st, i).base == st.base
  {
    hide EventOf, Queued;
    if st.open && EventOf(st, i).Some? { QueuedAside(codec, st, EventRecord(EventOf(st, i).value)); }
  }

  /** Whether one of `inputs` starts the Match `m` at `startedMs`. */
  predicate StartedAt(inputs: seq<Input>, m: MatchId, startedMs: int) {
    exists k :: 0 <= k < |inputs| && inputs[k].StartMatch? && !inputs[k].halted && inputs[k].match_ == m
      && inputs[k].startedMs == startedMs
  }

  /** Over every run, a Match's header is the server's own, with the Match's ID and the time it was started at. */
  lemma {:induction false} HeadersNameTheirMatch(codec: Codec, st: State, inputs: seq<Input>, m: MatchId)
    requires CapturerOrder.DoAll(codec, st, inputs).Some?
    requires m in CapturerOrder.DoAll(codec, st, inputs).value.headers && m !in st.headers
    ensures var h := CapturerOrder.DoAll(codec, st, inputs).value.headers[m];
      && h == st.base.(match_ := m, startedMs := h.startedMs) && StartedAt(inputs, m, h.startedMs)
    decreases |inputs|
  {
    hide Do, CapturerOrder.Proper;
    HeadersNamed(codec, st, inputs, m);
  }

  lemma {:induction false} HeadersNamed(codec: Codec, st: State, inputs: seq<Input>, m: MatchId)
    requires CapturerOrder.DoAll(codec, st, inputs).Some?
    requires m in CapturerOrder.DoAll(codec, st, inputs).value.headers
    ensures var h := CapturerOrder.DoAll(codec, st, inputs).value.headers[m];
      || (m in st.headers && h == st.headers[m])
      || (h == st.base.(match_ := m, startedMs := h.startedMs) && StartedAt(inputs, m, h.startedMs))
    decreases |inputs|
  {
    hide Do, CapturerOrder.Proper;
    if inputs != [] {
      var i, rest := inputs[0], inputs[1..];
      var next := Do(codec, st, i);
      HeadersNamed(codec, next, rest, m);
      var h := CapturerOrder.DoAll(codec, next, rest).value.headers[m];
      if StartedAt(rest, m, h.startedMs) { StartedLater(inputs, m, h.startedMs); }
      if i.StartMatch? && !i.halted {
        StartedNames(codec, st, i.match_, i.entrants, i.first, i.startedMs);
      } else if i.StartMatch? {
        HaltedAside(codec, st, i);
      } else {
        EventAside(codec, st, i);
      }
    }
  }

  lemma HaltedAside(codec: Codec, st: State, i: Input)
    requires i.StartMatch? && i.halted
    ensures Do(codec, st, i).headers == st.headers && Do(codec, st, i).base == st.base
  {}

  lemma StartedLater(inputs: seq<Input>, m: MatchId, startedMs: int)
    requires inputs != [] && StartedAt(inputs[1..], m, startedMs)
    ensures StartedAt(inputs, m, startedMs)
  {
    var k :| 0 <= k < |inputs[1..]| && inputs[1..][k].StartMatch? && !inputs[1..][k].halted
      && inputs[1..][k].match_ == m && inputs[1..][k].startedMs == startedMs;
    assert inputs[k + 1] == inputs[1..][k];
  }

  // ---------------------------------------------------------------- when files are opened and closed

  /** The calls an input makes. */
  function CallsMade(codec: Codec, st: State, i: Input): seq<Call>
    requires |st.calls| <= |Do(codec, st, i).calls|
  {
    Do(codec, st, i).calls[|st.calls|..]
  }

  lemma OneCallMore(before: seq<Call>, after: seq<Call>, c: Call)
    requires before <= after
    ensures before <= after + [c] && (after + [c])[|before|..] == after[|before|..] + [c]
  {}

  lemma QueuedCalls(codec: Codec, st: State, r: Record)
    ensures st.calls <= Queued(codec, st, r).calls && Queued(codec, st, r).open == st.open
    ensures Queued(codec, st, r).match_ == st.match_
    ensures forall c :: c in Queued(codec, st, r).calls[|st.calls|..] ==> c.CallPush? || c.CallStop?
    ensures Encode(codec, r) == Err(TooLong) ==>
              CallStop(st.match_, RecordTooLong) in Queued(codec, st, r).calls[|st.calls|..]
    ensures Encode(codec, r) == Err(Broken) ==> Queued(codec, st, r) == st.(broken := true)
  {
    hide Encode, Barred, SentOf;
    match Encode(codec, r) {
      case Err(Broken) =>
      case Err(TooLong) => OneCallMore(st.calls, st.calls, CallStop(st.match_, RecordTooLong));
      case Ok(bytes) => OneCallMore(st.calls, st.calls, CallPush(st.match_, bytes));
    }
  }

  /** What one input makes of the file open: closed or not, and the writer finished or not. */
  predicate Closes(codec: Codec, st: State, i: Input, closed: bool, open: bool, finished: bool) {
    var st' := Do(codec, st, i);
    && st.calls <= st'.calls && st'.open == open
    && (CallClose(st.match_) in CallsMade(codec, st, i) <==> closed)
    && (CallFinish in CallsMade(codec, st, i) <==> finished)
  }

  lemma EventCalls(codec: Codec, st: State, i: Input)
    requires i.RunCommand? || i.PlayerLeaves? || i.PlayerDies?
    ensures Closes(codec, st, i, false, st.open, false)
  {
    hide EventOf, Queued;
    if st.open && EventOf(st, i).Some? { QueuedCalls(codec, st, EventRecord(EventOf(st, i).value)); }
  }

  lemma EndCalls(codec: Codec, st: State, i: Input)
    requires i.EndMatch?
    ensures Closes(codec, st, i, st.open, false, false)
  {
    EndIsTold(st, i);
    hide EventOf, Queued;
    var queued := Queued(codec, st, EventRecord(EventOf(st, i).value));
    QueuedCalls(codec, st, EventRecord(EventOf(st, i).value));
    OneCallMore(st.calls, queued.calls, CallClose(st.match_));
  }

  lemma HaltCalls(codec: Codec, st: State, i: Input)
    requires (i.StartMatch? && i.halted) || i.Finish?
    ensures Closes(codec, st, i, st.open && !i.Finish?, false, i.Finish?)
  {
    OneCallMore(st.calls, st.calls, CallClose(st.match_));
    OneCallMore(st.calls, st.calls, CallFinish);
  }

  /** A Match's file is closed when it ends, when the next starts, and then only; and none is open past any of these. */
  lemma FilesAreClosed(codec: Codec, st: State, i: Input)
    requires !i.StartMatch? || i.halted
    ensures st.calls <= Do(codec, st, i).calls
    ensures CallClose(st.match_) in CallsMade(codec, st, i) <==> st.open && (i.EndMatch? || i.StartMatch?)
    ensures i.EndMatch? || i.StartMatch? || i.Finish? ==> !Do(codec, st, i).open
    ensures i.RunCommand? || i.PlayerLeaves? || i.PlayerDies? ==> Do(codec, st, i).open == st.open
    ensures CallFinish in CallsMade(codec, st, i) <==> i.Finish?
  {
    hide Do, CallsMade;
    match i {
      case EndMatch(_, _) => EndCalls(codec, st, i);
      case StartMatch(_, _, _, _, _) => HaltCalls(codec, st, i);
      case Finish => HaltCalls(codec, st, i);
      case _ => EventCalls(codec, st, i);
    }
  }

  lemma EndIsTold(st: State, i: Input)
    requires i.EndMatch?
    ensures EventOf(st, i).Some?
  {}

  /** A Match started closes the file of one still open before it begins its own. */
  lemma StartClosesTheLast(codec: Codec, st: State, m: MatchId, entrants: seq<Entrant>, first: Tick, startedMs: int)
    ensures var st' := Do(codec, st, StartMatch(false, m, entrants, first, startedMs));
      && st'.open && st'.match_ == m && st'.firstTick == first
      && (if st.open then st.calls + [CallClose(st.match_), CallBegin(m)] else st.calls + [CallBegin(m)]) <= st'.calls
  {
    hide EncodeHeader, Queued;
    var header := st.base.(match_ := m, startedMs := startedMs);
    var begun := Begun(Unopened(st), m, first);
    if EncodeHeader(codec, header).Ok? {
      JoinsCalls(codec, Capturer.Opened(begun, m, header, EncodeHeader(codec, header).value), entrants);
    }
  }

  lemma {:induction false} JoinsCalls(codec: Codec, st: State, entrants: seq<Entrant>)
    ensures var st' := JoinAll(codec, st, entrants);
      && st.calls <= st'.calls && st'.open == st.open && st'.match_ == st.match_ && st'.firstTick == st.firstTick
    decreases |entrants|
  {
    hide Queued, Roster;
    if entrants != [] {
      var e := entrants[0];
      var joined := st.(players := FirstKept(st.players, e.entity, NumberOf(st)),
                        sessions := FirstKept(st.sessions, e.session, NumberOf(st)));
      var r := JoinRecord(0, NumberOf(st), Join(e.session, e.character, e.spawn));
      QueuedCalls(codec, joined, r);
      QueuedSends(codec, joined, r);
      JoinsCalls(codec, JoinOne(codec, st, e), entrants[1..]);
    }
  }

  // ---------------------------------------------------------------- the runtime's failure

  predicate Uncarried(codec: Codec, r: Record) { codec.encode(ToWire(r)).None? }

  lemma QueuedBreaks(codec: Codec, st: State, r: Record)
    ensures Queued(codec, st, r).broken <==> st.broken || Uncarried(codec, r)
  {
    hide Barred, SentOf;
  }

  function JoinOfEntrant(e: Entrant, player: byte): Record {
    JoinRecord(0, player, Join(e.session, e.character, e.spawn))
  }

  lemma {:induction false} JoinsBreak(codec: Codec, st: State, entrants: seq<Entrant>)
    ensures st.broken ==> JoinAll(codec, st, entrants).broken
    ensures !st.broken && JoinAll(codec, st, entrants).broken ==>
              exists k, player: byte :: 0 <= k < |entrants| && Uncarried(codec, JoinOfEntrant(entrants[k], player))
    decreases |entrants|
  {
    hide Queued, Uncarried;
    if entrants != [] {
      var e, player := entrants[0], NumberOf(st);
      var joined := st.(players := FirstKept(st.players, e.entity, player),
                        sessions := FirstKept(st.sessions, e.session, player));
      QueuedBreaks(codec, joined, JoinOfEntrant(e, player));
      JoinsBreak(codec, JoinOne(codec, st, e), entrants[1..]);
      if !st.broken && JoinAll(codec, st, entrants).broken && !Uncarried(codec, JoinOfEntrant(e, player)) {
        var k, number: byte :|
          0 <= k < |entrants[1..]| && Uncarried(codec, JoinOfEntrant(entrants[1..][k], number));
        assert entrants[k + 1] == entrants[1..][k];
      }
    }
  }

  lemma EventBreaks(codec: Codec, st: State, i: Input)
    requires !st.broken && !i.StartMatch?
    ensures Do(codec, st, i).broken <==>
              st.open && EventOf(st, i).Some? && Uncarried(codec, EventRecord(EventOf(st, i).value))
  {
    hide Queued, Uncarried;
    if EventOf(st, i).Some? { QueuedBreaks(codec, st, EventRecord(EventOf(st, i).value)); }
  }

  lemma StartBreaks(codec: Codec, st: State, i: Input)
    requires !st.broken && i.StartMatch? && !i.halted
    ensures var header := HeaderRecord(st.base.(match_ := i.match_, startedMs := i.startedMs));
      && (Uncarried(codec, header) ==> Do(codec, st, i).broken)
      && (!Uncarried(codec, header) && Do(codec, st, i).broken ==>
            exists k, player: byte ::
              0 <= k < |i.entrants| && Uncarried(codec, JoinOfEntrant(i.entrants[k], player)))
  {
    hide JoinAll, EventOf;
    var header, begun := HeaderOf(Unopened(st), i.match_, i.startedMs), Begun(Unopened(st), i.match_, i.first);
    if EncodeHeader(codec, header).Ok? {
      JoinsBreak(codec, Opened(begun, i.match_, header, EncodeHeader(codec, header).value), i.entrants);
    }
  }

  /**
   An event fails the runtime exactly when the protocol cannot carry its record. A Match start does when
   it cannot carry the header, and else only when it cannot carry some entrant's Join.
   */
  lemma BreaksIff(codec: Codec, st: State, i: Input)
    requires !st.broken
    ensures !i.StartMatch? ==>
              (Do(codec, st, i).broken <==>
                 st.open && EventOf(st, i).Some? && Uncarried(codec, EventRecord(EventOf(st, i).value)))
    ensures i.StartMatch? && i.halted ==> !Do(codec, st, i).broken
    ensures i.StartMatch? && !i.halted ==>
              var header := HeaderRecord(st.base.(match_ := i.match_, startedMs := i.startedMs));
              && (Uncarried(codec, header) ==> Do(codec, st, i).broken)
              && (!Uncarried(codec, header) && Do(codec, st, i).broken ==>
                    exists k, player: byte ::
                      0 <= k < |i.entrants| && Uncarried(codec, JoinOfEntrant(i.entrants[k], player)))
  {
    hide Uncarried;
    if !i.StartMatch? {
      EventBreaks(codec, st, i);
    } else if !i.halted {
      hide Do;
      StartBreaks(codec, st, i);
    }
  }

  lemma {:induction false} NeverBroken(codec: Codec, st: State, inputs: seq<Input>)
    requires !st.broken && forall r :: !Uncarried(codec, r)
    ensures !Go(codec, st, inputs).broken
    decreases |inputs|
  {
    hide Do, Uncarried;
    if inputs != [] {
      NeverBroken(codec, st, inputs[..|inputs| - 1]);
      BreaksIff(codec, Go(codec, st, inputs[..|inputs| - 1]), inputs[|inputs| - 1]);
    }
  }

  /** While the protocol carries every record, nothing a new Capturer is told fails the runtime. */
  lemma NewNeverBroken(codec: Codec, base: Header, inputs: seq<Input>)
    requires forall r :: !Uncarried(codec, r)
    ensures !Go(codec, Initial(base), inputs).broken
  {
    hide Go, Uncarried;
    NeverBroken(codec, Initial(base), inputs);
  }
}

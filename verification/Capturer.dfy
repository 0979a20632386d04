/**
 The Capturer: the Simulation thread's calls, turned into each Match's records and handed to the
 writer.  What it hands over is kept beside it: `sent` holds, under each Match, the records pushed
 before its capture was told to stop, which are all the writer can keep.
 */
module Capturer {
  import opened Common
  import opened CaptureFormat
  import opened CaptureWriter

  /** A tick, as far as one fits the signed difference that offsets are taken from. */
  type Tick = x: int | 0 <= x < 0x8000_0000_0000_0000

  datatype Entrant = Entrant(entity: nat, session: nat, character: string, spawn: Vec3)

  datatype State = Snapshot(
    base: Header,
    open: bool, match_: MatchId, firstTick: Tick, players: map<nat, byte>, sessions: map<nat, byte>,
    broken: bool,      // a record the protocol could not carry: the runtime's failure
    calls: seq<Call>,  // on the writer, in order
    // What was handed over, and the tick of the Match's last event.
    headers: map<MatchId, Header>, sent: map<MatchId, seq<Record>>, lastTick: Tick)

  function Initial(base: Header): State {
    Snapshot(base, false, NIL, 0, map[], map[], false, [], map[], map[], 0)
  }

  // ---------------------------------------------------------------- the calls made

  /** What a list of calls comes to, and whether each was in order. */
  function CalledAll(calls: seq<Call>): Calls {
    if calls == [] then NO_CALLS else Called(CalledAll(calls[..|calls| - 1]), calls[|calls| - 1])
  }

  predicate AllInOrder(calls: seq<Call>) {
    calls == [] ||
    (AllInOrder(calls[..|calls| - 1]) && InOrder(CalledAll(calls[..|calls| - 1]), calls[|calls| - 1]))
  }

  function Sim(st: State): Calls { CalledAll(st.calls) }

  function Tell(st: State, c: Call): State { st.(calls := st.calls + [c]) }

  predicate Barred(st: State) { st.match_ in Sim(st).barred }

  function SentOf(st: State, m: MatchId): seq<Record> {
    if m in st.sent then st.sent[m] else []
  }

  // ---------------------------------------------------------------- records

  /** A record with no bytes: the server's own bug is kept, one too long stops the capture. */
  function Unencoded(st: State, e: EncodeError): State {
    match e
    case Broken => st.(broken := true)
    case TooLong => Tell(st, CallStop(st.match_, RecordTooLong))
  }

  function Queued(codec: Codec, st: State, r: Record): State {
    match Encode(codec, r)
    case Err(e) => Unencoded(st, e)
    case Ok(bytes) =>
      var sent := if Barred(st) then st.sent else st.sent[st.match_ := SentOf(st, st.match_) + [r]];
      Tell(st, CallPush(st.match_, bytes)).(sent := sent)
  }

  function PlayerOf(st: State, entity: nat): byte {
    if entity in st.players then st.players[entity] else 0
  }

  function Clamp(x: int, low: int, high: int): int
    requires low <= high
  {
    if x < low then low else if x > high then high else x
  }

  function OffsetOf(st: State, tick: Tick): u32 { Clamp(tick - st.firstTick, 0, 0xFFFF_FFFF) }

  function SeenOffset(st: State, seenTick: Tick): int {
    Clamp(seenTick - st.firstTick, -0x8000_0000, 0x7FFF_FFFF)
  }

  // ---------------------------------------------------------------- inputs

  datatype Input =
      // `halted` is the captures' health as StartMatch reads it: stopped, or not.
    | StartMatch(halted: bool, match_: MatchId, entrants: seq<Entrant>, first: Tick, startedMs: int)
    | RunCommand(tick: Tick, entity: nat, seenTick: Tick, input: PlayerInput)
    | PlayerLeaves(tick: Tick, entity: nat)
    | PlayerDies(tick: Tick, victim: nat, killer: nat)
    | EndMatch(tick: Tick, winner: Option<nat>)
    | Finish

  function NumberOf(st: State): byte { (|st.players| + 1) % 256 }

  function FirstKept(numbers: map<nat, byte>, key: nat, value: byte): map<nat, byte> {
    if key in numbers then numbers else numbers[key := value]
  }

  function JoinOne(codec: Codec, st: State, e: Entrant): State {
    var player := NumberOf(st);
    Queued(codec,
          st.(players := FirstKept(st.players, e.entity, player),
              sessions := FirstKept(st.sessions, e.session, player)),
          JoinRecord(0, player, Join(e.session, e.character, e.spawn)))
  }

  function JoinAll(codec: Codec, st: State, entrants: seq<Entrant>): State
    decreases |entrants|
  {
    if entrants == [] then st else JoinAll(codec, JoinOne(codec, st, entrants[0]), entrants[1..])
  }

  function Unopened(st: State): State {
    if st.open then Tell(st, CallClose(st.match_)).(open := false) else st
  }

  function Begun(st: State, m: MatchId, first: Tick): State {
    Tell(st, CallBegin(m)).(match_ := m, open := true, firstTick := first, players := map[], sessions := map[],
                            lastTick := first)
  }

  function HeaderOf(st: State, m: MatchId, startedMs: int): Header {
    st.base.(match_ := m, startedMs := startedMs)
  }

  function Opened(st: State, m: MatchId, header: Header, bytes: seq<byte>): State {
    Tell(st, CallOpen(m, bytes)).(headers := st.headers[m := header])
  }

  function Started(codec: Codec, st: State, m: MatchId, entrants: seq<Entrant>, first: Tick, startedMs: int): State {
    var header, begun := HeaderOf(st, m, startedMs), Begun(st, m, first);
    match EncodeHeader(codec, header)
    case Err(e) => Unencoded(begun, e)
    case Ok(bytes) => JoinAll(codec, Opened(begun, m, header, bytes), entrants)
  }

  /** The event an input records, if it records one: a player unknown has none, but a killer unknown is 0. */
  function EventOf(st: State, i: Input): Option<EventAt> {
    match i
    case RunCommand(tick, entity, seen, input) =>
      if PlayerOf(st, entity) == 0 then None
      else Some(EventAt(OffsetOf(st, tick), Command(PlayerOf(st, entity), SeenOffset(st, seen), 0, input)))
    case PlayerLeaves(tick, entity) =>
      if PlayerOf(st, entity) == 0 then None else Some(EventAt(OffsetOf(st, tick), Leave(PlayerOf(st, entity))))
    case PlayerDies(tick, victim, killer) =>
      if PlayerOf(st, victim) == 0 then None
      else Some(EventAt(OffsetOf(st, tick), Death(PlayerOf(st, victim), PlayerOf(st, killer))))
    case EndMatch(tick, winner) =>
      var winning := if winner.Some? && winner.value in st.sessions then Some(st.sessions[winner.value]) else None;
      Some(EventAt(OffsetOf(st, tick), MatchEnd(winning)))
    case _ => None
  }

  function Ended(st: State): State {
    Tell(st, CallClose(st.match_)).(open := false, players := map[], sessions := map[])
  }

  /** One event's record queued, and its tick remembered. */
  function Recorded(codec: Codec, st: State, i: Input): State
    requires EventOf(st, i).Some?
  {
    Queued(codec, st, EventRecord(EventOf(st, i).value)).(lastTick := i.tick)
  }

  function Do(codec: Codec, st: State, i: Input): State {
    match i
    case StartMatch(halted, m, entrants, first, startedMs) =>
      if halted then Unopened(st) else Started(codec, Unopened(st), m, entrants, first, startedMs)
    case Finish => Tell(st, CallFinish).(open := false)
    case _ =>
      if !st.open || EventOf(st, i).None? then st
      else if i.EndMatch? then Ended(Recorded(codec, st, i)) else Recorded(codec, st, i)
  }

  /** The Capturer's own object. */
  class CapturerObject {
    const codec: Codec
    const base: Header
    var open: bool
    var match_: MatchId
    var firstTick: Tick
    var players: map<nat, byte>
    var sessions: map<nat, byte>
    var broken: bool
    var calls: seq<Call>
    ghost var headers: map<MatchId, Header>
    ghost var sent: map<MatchId, seq<Record>>
    ghost var lastTick: Tick

    ghost function State(): State
      reads this
    {
      Snapshot(base, open, match_, firstTick, players, sessions, broken, calls, headers, sent, lastTick)
    }

    constructor (codec: Codec, base: Header)
      ensures State() == Initial(base) && this.codec == codec
    {
      this.codec, this.base := codec, base;
      open, match_, firstTick, players, sessions, broken, calls := false, NIL, 0, map[], map[], false, [];
      headers, sent, lastTick := map[], map[], 0;
    }

    method Admit(encoded: Result<seq<byte>, EncodeError>) returns (admitted: Option<seq<byte>>)
      modifies this
      ensures encoded.Ok? ==> admitted == Some(encoded.value) && State() == old(State())
      ensures encoded.Err? ==> admitted == None && State() == Unencoded(old(State()), encoded.error)
    {
      match encoded
      case Ok(bytes) => admitted := Some(bytes);
      case Err(Broken) =>
        broken := true;
        admitted := None;
      case Err(TooLong) =>
        // Were it written, a reader would stop at it, and lose all that follows.
        calls := calls + [CallStop(match_, RecordTooLong)];
        admitted := None;
    }

    method Queue(r: Record)
      modifies this
      ensures State() == Queued(codec, old(State()), r)
    {
      var admitted := Admit(Encode(codec, r));
      if admitted.Some? {
        sent := Queued(codec, State(), r).sent;
        calls := calls + [CallPush(match_, admitted.value)];
      }
    }

    method JoinPlayer(e: Entrant)
      modifies this
      ensures State() == JoinOne(codec, old(State()), e)
    {
      var player := (|players| + 1) % 256;
      if e.entity !in players { players := players[e.entity := player]; }
      if e.session !in sessions { sessions := sessions[e.session := player]; }
      Queue(JoinRecord(0, player, Join(e.session, e.character, e.spawn)));
    }

    method JoinPlayers(entrants: seq<Entrant>)
      modifies this
      ensures State() == JoinAll(codec, old(State()), entrants)
    {
      var i := 0;
      assert entrants[0..] == entrants;
      while i < |entrants|
        invariant i <= |entrants|
        invariant JoinAll(codec, State(), entrants[i..]) == JoinAll(codec, old(State()), entrants)
      {
        assert entrants[i..][1..] == entrants[i + 1..];
        JoinPlayer(entrants[i]);
        i := i + 1;
      }
    }

    method CloseOpen()
      modifies this
      ensures State() == Unopened(old(State()))
    {
      if open {
        calls := calls + [CallClose(match_)];
        open := false;
      }
    }

    method StartMatch(halted: bool, m: MatchId, entrants: seq<Entrant>, first: Tick, startedMs: int)
      modifies this
      ensures State() == Do(codec, old(State()), Input.StartMatch(halted, m, entrants, first, startedMs))
    {
      CloseOpen();
      if halted { return; }
      match_, open, firstTick, lastTick := m, true, first, first;
      calls := calls + [CallBegin(m)];
      players, sessions := map[], map[];
      assert State() == Begun(Unopened(old(State())), m, first);
      var header := base.(match_ := m, startedMs := startedMs);
      var encoded := Admit(EncodeHeader(codec, header));
      if encoded.None? { return; }
      calls := calls + [CallOpen(m, encoded.value)];
      headers := headers[m := header];
      JoinPlayers(entrants);
    }

    method RunCommand(tick: Tick, entity: nat, seenTick: Tick, input: PlayerInput)
      modifies this
      ensures State() == Do(codec, old(State()), Input.RunCommand(tick, entity, seenTick, input))
    {
      var player := if entity in players then players[entity] else 0;
      if !open || player == 0 { return; }
      var seen := Clamp(seenTick - firstTick, -0x8000_0000, 0x7FFF_FFFF);
      var offset := Clamp(tick - firstTick, 0, 0xFFFF_FFFF);
      Queue(EventRecord(EventAt(offset, Command(player, seen, 0, input))));
      lastTick := tick;
    }

    method PlayerLeaves(tick: Tick, entity: nat)
      modifies this
      ensures State() == Do(codec, old(State()), Input.PlayerLeaves(tick, entity))
    {
      var player := if entity in players then players[entity] else 0;
      if !open || player == 0 { return; }
      Queue(EventRecord(EventAt(Clamp(tick - firstTick, 0, 0xFFFF_FFFF), Leave(player))));
      lastTick := tick;
    }

    method PlayerDies(tick: Tick, victim: nat, killer: nat)
      modifies this
      ensures State() == Do(codec, old(State()), Input.PlayerDies(tick, victim, killer))
    {
      var dead := if victim in players then players[victim] else 0;
      if !open || dead == 0 { return; }
      var slayer := if killer in players then players[killer] else 0;
      Queue(EventRecord(EventAt(Clamp(tick - firstTick, 0, 0xFFFF_FFFF), Death(dead, slayer))));
      lastTick := tick;
    }

    method EndMatch(tick: Tick, winner: Option<nat>)
      modifies this
      ensures State() == Do(codec, old(State()), Input.EndMatch(tick, winner))
    {
      if !open { return; }
      var winning: Option<byte> := None;
      if winner.Some? && winner.value in sessions { winning := Some(sessions[winner.value]); }
      Queue(EventRecord(EventAt(Clamp(tick - firstTick, 0, 0xFFFF_FFFF), MatchEnd(winning))));
      lastTick := tick;
      calls := calls + [CallClose(match_)];
      open, players, sessions := false, map[], map[];
    }

    method Finish()
      modifies this
      ensures State() == Do(codec, old(State()), Input.Finish)
    {
      calls := calls + [CallFinish];
      open := false;
    }
  }
}

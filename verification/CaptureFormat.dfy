/**
 A Match capture's file: its magic, its format version, then each record's payload after its
 length in one byte, the header first.  Reading holds the records to the format's order and drops
 a last record cut short.  The protocol's own encoding of one record is a parameter (`Codec`).
 */
module CaptureFormat {
  import opened Common

  datatype Vec3 = Vec3(x: real, y: real, z: real)

  datatype Header = Header(
    match_: nat, engineVersion: string, serverPack: seq<byte>, clientPack: seq<byte>,
    tickRateHz: byte, startedMs: int)

  datatype Join = Join(session: nat, character: string, spawn: Vec3)

  datatype PlayerInput = PlayerInput(
    direction: Vec3, sprint: bool, yaw: real, pitch: real, fire: bool, reload: bool, ads: bool,
    seenFraction: real)

  datatype Event =
    | Command(player: byte, seenOffset: int, seenTick: u32, input: PlayerInput)
    | Leave(player: byte)
    | Death(victim: byte, killer: byte)
    | MatchEnd(winner: Option<byte>)

  datatype EventAt = EventAt(offset: u32, event: Event)

  datatype Record =
    | HeaderRecord(header: Header)
    | JoinRecord(joinOffset: u32, player: byte, join: Join)
    | EventRecord(at: EventAt)

  datatype Capture = Capture(header: Header, joins: seq<Join>, events: seq<EventAt>, torn: bool)

  // ---------------------------------------------------------------- the Link's conversions

  datatype Wire =
    | HeaderWire(header: Header)
    | JoinWire(offset: u32, player: byte, join: Join)
    | CommandWire(offset: u32, player: byte, seenOffset: int, input: PlayerInput)
    | LeaveWire(offset: u32, player: byte)
    | DeathWire(offset: u32, victim: byte, killer: byte)
    | MatchEndWire(offset: u32, winner: byte)

  /** A command's Seen tick does not travel (its seen offset does), and a Draw travels as winner 0. */
  function ToWire(r: Record): Wire {
    match r
    case HeaderRecord(h) => HeaderWire(h)
    case JoinRecord(o, p, j) => JoinWire(o, p, j)
    case EventRecord(at) =>
      match at.event
      case Command(p, so, _, i) => CommandWire(at.offset, p, so, i)
      case Leave(p) => LeaveWire(at.offset, p)
      case Death(v, k) => DeathWire(at.offset, v, k)
      case MatchEnd(w) => MatchEndWire(at.offset, if w.Some? then w.value else 0)
  }

  function FromWire(w: Wire): Record {
    match w
    case HeaderWire(h) => HeaderRecord(h)
    case JoinWire(o, p, j) => JoinRecord(o, p, j)
    case CommandWire(o, p, so, i) => EventRecord(EventAt(o, Command(p, so, 0, i)))
    case LeaveWire(o, p) => EventRecord(EventAt(o, Leave(p)))
    case DeathWire(o, v, k) => EventRecord(EventAt(o, Death(v, k)))
    case MatchEndWire(o, n) => EventRecord(EventAt(o, MatchEnd(if n == 0 then None else Some(n))))
  }

  /** Whether the Link's conversions give `r` back. */
  predicate Carried(r: Record) {
    r.EventRecord? ==>
      && (r.at.event.Command? ==> r.at.event.seenTick == 0)
      && r.at.event != MatchEnd(Some(0))
  }

  lemma WireRoundTrip(r: Record)
    ensures FromWire(ToWire(r)) == r <==> Carried(r)
    ensures Carried(FromWire(ToWire(r)))
  {}

  /** The protocol's encoder and decoder of one record, whose internals are not modelled. */
  datatype Codec = Codec(encode: Wire -> Option<seq<byte>>, decode: seq<byte> -> Option<Wire>)

  /** What the protocol promises: a payload decodes to the record it was encoded from. */
  ghost predicate Faithful(codec: Codec) {
    forall w, p :: codec.encode(w) == Some(p) ==> codec.decode(p) == Some(w)
  }

  function Decode(codec: Codec, payload: seq<byte>): Option<Record> {
    var w := codec.decode(payload);
    if w.Some? then Some(FromWire(w.value)) else None
  }

  // ---------------------------------------------------------------- encoding

  /** Broken: a field the protocol cannot carry.  TooLong: a payload no frame holds. */
  datatype EncodeError = Broken | TooLong

  const MAX_FRAME_PAYLOAD := 255
  const MAGIC: seq<byte> := [0x41, 0x55, 0x47, 0x43, 0x41, 0x50, 0x0D, 0x0A]
  const FORMAT_VERSION: byte := 4

  function Frame(payload: seq<byte>): seq<byte>
    requires |payload| <= MAX_FRAME_PAYLOAD
  {
    [|payload| as byte] + payload
  }

  function Framed(payload: Option<seq<byte>>): Result<seq<byte>, EncodeError> {
    if payload.None? then Err(Broken)
    else if |payload.value| > MAX_FRAME_PAYLOAD then Err(TooLong)
    else Ok(Frame(payload.value))
  }

  /** One Join or event as it is on disk. */
  function Encode(codec: Codec, r: Record): Result<seq<byte>, EncodeError> {
    Framed(codec.encode(ToWire(r)))
  }

  /** What a file starts with: the magic, the format version, then the header. */
  function EncodeHeader(codec: Codec, h: Header): Result<seq<byte>, EncodeError> {
    var frame := Encode(codec, HeaderRecord(h));
    if frame.Err? then frame else Ok(MAGIC + [FORMAT_VERSION] + frame.value)
  }

  /** Each of `rs` as it is on disk, or the first one's error that has one. */
  function EncodeAll(codec: Codec, rs: seq<Record>): Result<seq<seq<byte>>, EncodeError> {
    if rs == [] then Ok([])
    else
      var first := Encode(codec, rs[0]);
      if first.Err? then Err(first.error)
      else
        var rest := EncodeAll(codec, rs[1..]);
        if rest.Err? then rest else Ok([first.value] + rest.value)
  }

  function JoinRecords(joins: seq<Join>): seq<Record> {
    seq(|joins|, i requires 0 <= i < |joins| => JoinRecord(0, ((i + 1) % 256) as byte, joins[i]))
  }

  function EventRecords(events: seq<EventAt>): seq<Record> {
    seq(|events|, i requires 0 <= i < |events| => EventRecord(events[i]))
  }

  /** A capture's records after its header; a player's number is one byte wide. */
  function RecordsOf(c: Capture): seq<Record> {
    JoinRecords(c.joins) + EventRecords(c.events)
  }

  function CaptureBytes(codec: Codec, c: Capture): Result<seq<byte>, EncodeError> {
    var header := EncodeHeader(codec, c.header);
    if header.Err? then header
    else
      var pieces := EncodeAll(codec, RecordsOf(c));
      if pieces.Err? then Err(pieces.error) else Ok(header.value + Concat(pieces.value))
  }

  lemma {:induction false} EncodeAllAppend(codec: Codec, a: seq<Record>, b: seq<Record>)
    ensures EncodeAll(codec, a).Err? ==> EncodeAll(codec, a + b) == EncodeAll(codec, a)
    ensures EncodeAll(codec, a).Ok? && EncodeAll(codec, b).Ok? ==>
              EncodeAll(codec, a + b) == Ok(EncodeAll(codec, a).value + EncodeAll(codec, b).value)
    ensures EncodeAll(codec, a).Ok? && EncodeAll(codec, b).Err? ==>
              EncodeAll(codec, a + b) == Err(EncodeAll(codec, b).error)
  {
    if a == [] {
      assert a + b == b;
      if EncodeAll(codec, b).Ok? { assert [] + EncodeAll(codec, b).value == EncodeAll(codec, b).value; }
    } else {
      assert (a + b)[1..] == a[1..] + b;
      EncodeAllAppend(codec, a[1..], b);
      var first, rest, last := Encode(codec, a[0]), EncodeAll(codec, a[1..]), EncodeAll(codec, b);
      if first.Ok? && rest.Ok? && last.Ok? {
        assert [first.value] + (rest.value + last.value) == ([first.value] + rest.value) + last.value;
      }
    }
  }

  /** Writes a capture whole: nothing is written unless every piece encodes. */
  method WriteCapture(codec: Codec, c: Capture) returns (written: Result<seq<byte>, EncodeError>)
    ensures written == CaptureBytes(codec, c)
  {
    var header := EncodeHeader(codec, c.header);
    if header.Err? { return header; }
    var pieces := [];
    var i := 0;
    while i < |c.joins|
      invariant i <= |c.joins|
      invariant EncodeAll(codec, JoinRecords(c.joins)[..i]) == Ok(pieces)
    {
      var join := Encode(codec, JoinRecord(0, ((i + 1) % 256) as byte, c.joins[i]));
      EncodeAllStep(codec, JoinRecords(c.joins), i, RecordsOf(c), i);
      if join.Err? { return join; }
      pieces := pieces + [join.value];
      i := i + 1;
    }
    assert JoinRecords(c.joins)[..i] == JoinRecords(c.joins) == RecordsOf(c)[..|c.joins|];
    var k := 0;
    while k < |c.events|
      invariant k <= |c.events|
      invariant EncodeAll(codec, RecordsOf(c)[..|c.joins| + k]) == Ok(pieces)
    {
      var event := Encode(codec, EventRecord(c.events[k]));
      EncodeAllStep(codec, RecordsOf(c), |c.joins| + k, RecordsOf(c), |c.joins| + k);
      if event.Err? { return event; }
      pieces := pieces + [event.value];
      k := k + 1;
    }
    assert RecordsOf(c)[..|c.joins| + k] == RecordsOf(c);
    written := Ok(header.value + Concat(pieces));
  }

  lemma EncodeOne(codec: Codec, r: Record)
    ensures Encode(codec, r).Ok? ==> EncodeAll(codec, [r]) == Ok([Encode(codec, r).value])
    ensures Encode(codec, r).Err? ==> EncodeAll(codec, [r]) == Err(Encode(codec, r).error)
  {
    assert [r][1..] == [];
    if Encode(codec, r).Ok? { assert [Encode(codec, r).value] + [] == [Encode(codec, r).value]; }
  }

  /** One more record encoded, and what its error makes of any longer list starting alike. */
  lemma EncodeAllStep(codec: Codec, rs: seq<Record>, i: nat, all: seq<Record>, n: nat)
    requires i < |rs| && n < |all| && rs[..i + 1] == all[..n + 1]
    requires EncodeAll(codec, rs[..i]).Ok?
    ensures Encode(codec, rs[i]).Ok? ==>
              EncodeAll(codec, rs[..i + 1]) == Ok(EncodeAll(codec, rs[..i]).value + [Encode(codec, rs[i]).value])
    ensures Encode(codec, rs[i]).Err? ==> EncodeAll(codec, all) == Err(Encode(codec, rs[i]).error)
  {
    assert rs[..i + 1] == rs[..i] + [rs[i]];
    EncodeAllAppend(codec, rs[..i], [rs[i]]);
    EncodeOne(codec, rs[i]);
    assert all == all[..n + 1] + all[n + 1..];
    EncodeAllAppend(codec, all[..n + 1], all[n + 1..]);
  }

  // ---------------------------------------------------------------- the format's order

  /** What the reader remembers of the records before: the fields of RecordOrder. */
  datatype Order = Order(joins: nat, events: bool, lastOffset: u32, ended: bool)

  const START := Order(0, false, 0, false)

  predicate Known(o: Order, p: byte) { 1 <= p <= o.joins }

  predicate KnowsPlayers(o: Order, e: Event) {
    match e
    case Command(p, _, _, _) => Known(o, p)
    case Leave(p) => Known(o, p)
    case Death(v, k) => Known(o, v) && Known(o, k)
    case MatchEnd(w) => w.Some? ==> Known(o, w.value)
  }

  predicate Admits(o: Order, r: Record) {
    match r
    case HeaderRecord(_) => false
    case JoinRecord(offset, player, _) => !o.events && offset == 0 && player == o.joins + 1
    case EventRecord(at) => !o.ended && at.offset >= o.lastOffset && KnowsPlayers(o, at.event)
  }

  function After(o: Order, r: Record): Order
    requires Admits(o, r)
  {
    match r
    case JoinRecord(_, _, _) => o.(joins := o.joins + 1)
    case EventRecord(at) => o.(events := true, lastOffset := at.offset, ended := at.event.MatchEnd?)
  }

  /** Whether every record may follow those before it. */
  predicate AdmitsAll(o: Order, rs: seq<Record>)
    decreases |rs|
  {
    rs == [] || (Admits(o, rs[0]) && AdmitsAll(After(o, rs[0]), rs[1..]))
  }

  /** The reader's own object, updated record by record. */
  class RecordOrder {
    var joins: nat
    var events: bool
    var lastOffset: u32
    var ended: bool

    function State(): Order
      reads this
    {
      Order(joins, events, lastOffset, ended)
    }

    constructor ()
      ensures State() == START
    {
      joins, events, lastOffset, ended := 0, false, 0, false;
    }

    method Follows(offset: u32, known: bool) returns (ok: bool)
      modifies this
      ensures ok == (!old(ended) && offset >= old(lastOffset) && known)
      ensures ok ==> State() == old(State()).(events := true, lastOffset := offset)
      ensures !ok ==> State() == old(State())
    {
      if ended || offset < lastOffset || !known { return false; }
      events, lastOffset := true, offset;
      return true;
    }

    method Admit(r: Record) returns (ok: bool)
      modifies this
      ensures ok == Admits(old(State()), r)
      ensures ok ==> State() == After(old(State()), r)
    {
      match r
      case HeaderRecord(_) => ok := false;
      case JoinRecord(offset, player, _) =>
        ok := !events && offset == 0 && player == joins + 1;
        if ok { joins := joins + 1; }
      case EventRecord(at) =>
        var known := KnowsPlayers(State(), at.event);
        if at.event.MatchEnd? {
          if !known { return false; }
          ok := Follows(at.offset, true);
          ended := true;
        } else {
          ok := Follows(at.offset, known);
        }
    }
  }

  // ---------------------------------------------------------------- reading

  /** A file's bytes, and where, if anywhere, reading it fails. */
  datatype Stream = Stream(bytes: seq<byte>, failsAt: Option<nat>)

  datatype ReadError = Unreadable | NotACapture | Unsupported(version: Option<byte>) | Malformed

  predicate Fails(s: Stream) { s.failsAt.Some? && s.failsAt.value <= |s.bytes| }

  /** Whether asking for `n` bytes at `pos` runs into the stream's failure. */
  predicate Bad(s: Stream, pos: nat, n: nat) { Fails(s) && pos + n > s.failsAt.value }

  datatype FrameRead = Read(payload: seq<byte>) | End | Torn | BadFrame

  function ReadFrame(s: Stream, pos: nat): (r: FrameRead)
    requires pos <= |s.bytes|
    ensures r.Read? ==> pos + 1 + |r.payload| <= |s.bytes|
  {
    if Bad(s, pos, 1) then BadFrame
    else if pos == |s.bytes| then End
    else
      var length := s.bytes[pos];
      if Bad(s, pos + 1, length) then BadFrame
      else if pos + 1 + length > |s.bytes| then Torn
      else Read(s.bytes[pos + 1..pos + 1 + length])
  }

  datatype CaptureFile = CaptureFile(header: Header, records: seq<Record>, torn: bool)

  /** The records from `pos` on, each admitted after those `order` remembers. */
  function ReadRecords(codec: Codec, s: Stream, pos: nat, order: Order): Result<(seq<Record>, bool), ReadError>
    requires pos <= |s.bytes|
    decreases |s.bytes| - pos
  {
    match ReadFrame(s, pos)
    case End => Ok(([], false))
    case BadFrame => Err(Unreadable)
    case Torn => Ok(([], true))
    case Read(payload) =>
      var record := Decode(codec, payload);
      if record.None? || !Admits(order, record.value) then Err(Malformed)
      else
        ReadAfter([record.value], ReadRecords(codec, s, pos + 1 + |payload|, After(order, record.value)))
  }

  /** What reading gives when `before` was read ahead of `rest`. */
  function ReadAfter(before: seq<Record>, rest: Result<(seq<Record>, bool), ReadError>)
    : Result<(seq<Record>, bool), ReadError>
  {
    if rest.Err? then rest else Ok((before + rest.value.0, rest.value.1))
  }

  lemma ReadAfterNone(rest: Result<(seq<Record>, bool), ReadError>)
    ensures ReadAfter([], rest) == rest
  {
    if rest.Ok? { assert [] + rest.value.0 == rest.value.0; }
  }

  lemma ReadAfterAppend(before: seq<Record>, r: Record, rest: Result<(seq<Record>, bool), ReadError>)
    ensures ReadAfter(before + [r], rest) == ReadAfter(before, ReadAfter([r], rest))
  {
    if rest.Ok? { assert before + ([r] + rest.value.0) == before + [r] + rest.value.0; }
  }

  /** The header and where the records after it start. */
  function ReadStart(codec: Codec, s: Stream): (r: Result<(Header, nat), ReadError>)
    ensures r.Ok? ==> r.value.1 <= |s.bytes|
  {
    if Bad(s, 0, |MAGIC|) then Err(Unreadable)
    else if !(MAGIC <= s.bytes) then Err(NotACapture)
    else if Bad(s, |MAGIC|, 1) then Err(Unreadable)
    else if |s.bytes| == |MAGIC| then Err(Unsupported(None))
    else if s.bytes[|MAGIC|] != FORMAT_VERSION then Err(Unsupported(Some(s.bytes[|MAGIC|])))
    else
      var frame := ReadFrame(s, |MAGIC| + 1);
      if frame.BadFrame? then Err(Unreadable)
      else if !frame.Read? then Err(Unsupported(None))
      else
        var record := Decode(codec, frame.payload);
        if record.None? || !record.value.HeaderRecord? then Err(Unsupported(None))
        else Ok((record.value.header, |MAGIC| + 2 + |frame.payload|))
  }

  function CaptureFileOf(codec: Codec, s: Stream): Result<CaptureFile, ReadError> {
    var start := ReadStart(codec, s);
    if start.Err? then Err(start.error)
    else
      var rest := ReadRecords(codec, s, start.value.1, START);
      if rest.Err? then Err(rest.error) else Ok(CaptureFile(start.value.0, rest.value.0, rest.value.1))
  }

  /** Reads the capture `s`, record by record. */
  method ReadCaptureFile(codec: Codec, s: Stream) returns (file: Result<CaptureFile, ReadError>)
    ensures file == CaptureFileOf(codec, s)
  {
    var start := ReadStart(codec, s);
    if start.Err? { return Err(start.error); }
    var order := new RecordOrder();
    var records: seq<Record> := [];
    var pos := start.value.1;
    ReadAfterNone(ReadRecords(codec, s, pos, START));
    while true
      invariant pos <= |s.bytes|
      invariant fresh(order)
      invariant
        var rest := ReadRecords(codec, s, pos, order.State());
        ReadRecords(codec, s, start.value.1, START) == ReadAfter(records, rest)
      decreases |s.bytes| - pos
    {
      var frame := ReadFrame(s, pos);
      match frame
      case End =>
        assert records + [] == records;
        return Ok(CaptureFile(start.value.0, records, false));
      case BadFrame => return Err(Unreadable);
      case Torn =>
        assert records + [] == records;
        return Ok(CaptureFile(start.value.0, records, true));
      case Read(payload) =>
        var record := Decode(codec, payload);
        if record.None? { return Err(Malformed); }
        var admitted := order.Admit(record.value);
        if !admitted { return Err(Malformed); }
        ReadAfterAppend(records, record.value, ReadRecords(codec, s, pos + 1 + |payload|, order.State()));
        records := records + [record.value];
        pos := pos + 1 + |payload|;
    }
  }

  function JoinsIn(rs: seq<Record>): seq<Join> {
    if rs == [] then []
    else
      var n := |rs| - 1;
      JoinsIn(rs[..n]) + if rs[n].JoinRecord? then [rs[n].join] else []
  }

  function EventsIn(rs: seq<Record>): seq<EventAt> {
    if rs == [] then []
    else
      var n := |rs| - 1;
      EventsIn(rs[..n]) + if rs[n].EventRecord? then [rs[n].at] else []
  }

  function CaptureOf(codec: Codec, s: Stream): Result<Capture, ReadError> {
    var file := CaptureFileOf(codec, s);
    if file.Err? then Err(file.error)
    else Ok(Capture(file.value.header, JoinsIn(file.value.records), EventsIn(file.value.records), file.value.torn))
  }

  /** The whole capture `s` holds, or why it does not read. */
  method ReadCapture(codec: Codec, s: Stream) returns (capture: Result<Capture, ReadError>)
    ensures capture == CaptureOf(codec, s)
  {
    var file := ReadCaptureFile(codec, s);
    if file.Err? { return Err(file.error); }
    var rs := file.value.records;
    var joins: seq<Join>, events: seq<EventAt> := [], [];
    var i := 0;
    while i < |rs|
      invariant i <= |rs|
      invariant joins == JoinsIn(rs[..i]) && events == EventsIn(rs[..i])
    {
      assert rs[..i + 1][..i] == rs[..i];
      if rs[i].JoinRecord? {
        joins := joins + [rs[i].join];
      } else if rs[i].EventRecord? {
        events := events + [rs[i].at];
      }
      i := i + 1;
    }
    assert rs[..|rs|] == rs;
    return Ok(Capture(file.value.header, joins, events, file.value.torn));
  }
}

/**
 What reading a capture's file gives: for a file cut at any byte, the longest prefix of whole
 records; for a whole one, the capture written, exactly when it is well ordered; for a stream that
 fails, never a capture.
 */
module CaptureReading {
  import opened Common
  import opened CaptureFormat

  // ---------------------------------------------------------------- a file cut at any byte

  /** A record as it comes back through the Link. */
  function Returned(r: Record): Record { FromWire(ToWire(r)) }

  function ReturnedAll(rs: seq<Record>): (q: seq<Record>)
    ensures |q| == |rs| && forall i :: 0 <= i < |rs| ==> q[i] == Returned(rs[i])
  {
    seq(|rs|, i requires 0 <= i < |rs| => Returned(rs[i]))
  }

  /** How many of `pieces` lie whole in the first `n` bytes. */
  function Whole(pieces: seq<seq<byte>>, n: nat): (k: nat)
    requires n <= |Concat(pieces)|
    ensures k <= |pieces|
    ensures |Concat(pieces[..k])| <= n
    ensures k < |pieces| ==> n < |Concat(pieces[..k + 1])|
    ensures k == |pieces| ==> n == |Concat(pieces)|
  {
    if pieces == [] then 0
    else if n < |pieces[0]| then
      assert pieces[..1] == [pieces[0]] && Concat([pieces[0]]) == pieces[0];
      0
    else
      var rest := Whole(pieces[1..], n - |pieces[0]|);
      assert pieces[..rest + 1][1..] == pieces[1..][..rest];
      assert rest + 1 < |pieces| ==> pieces[..rest + 2][1..] == pieces[1..][..rest + 1];
      rest + 1
  }

  /** The records a cut at `n` bytes past the header leaves whole, read in order. */
  function ReadAtCut(order: Order, rs: seq<Record>, pieces: seq<seq<byte>>, n: nat)
    : Result<(seq<Record>, bool), ReadError>
    requires |pieces| == |rs| && n <= |Concat(pieces)|
  {
    var k := Whole(pieces, n);
    if AdmitsAll(order, ReturnedAll(rs[..k])) then Ok((ReturnedAll(rs[..k]), n != |Concat(pieces[..k])|))
    else Err(Malformed)
  }

  lemma {:induction false} EncodedCount(codec: Codec, rs: seq<Record>)
    requires EncodeAll(codec, rs).Ok?
    ensures |EncodeAll(codec, rs).value| == |rs|
  {
    if rs != [] { EncodedCount(codec, rs[1..]); }
  }

  lemma EncodedHead(codec: Codec, rs: seq<Record>, pieces: seq<seq<byte>>)
    requires EncodeAll(codec, rs) == Ok(pieces) && rs != []
    ensures pieces != [] && Encode(codec, rs[0]) == Ok(pieces[0])
    ensures EncodeAll(codec, rs[1..]) == Ok(pieces[1..])
  {
    var rest := EncodeAll(codec, rs[1..]).value;
    assert ([pieces[0]] + rest)[1..] == rest;
  }

  lemma LengthFirst(codec: Codec, r: Record)
    requires Encode(codec, r).Ok?
    ensures var frame := Encode(codec, r).value; frame != [] && frame[0] == |frame| - 1
  {}

  /** A whole frame is one record read, then the rest. */
  lemma ReadWholeFrame(codec: Codec, s: Stream, pos: nat, next: nat, order: Order, r: Record)
    requires pos <= |s.bytes| && ReadFrame(s, pos).Read? && next == pos + 1 + |ReadFrame(s, pos).payload|
    requires Decode(codec, ReadFrame(s, pos).payload) == Some(r)
    ensures next <= |s.bytes|
    ensures !Admits(order, r) ==> ReadRecords(codec, s, pos, order) == Err(Malformed)
    ensures Admits(order, r) ==>
              ReadRecords(codec, s, pos, order) == ReadAfter([r], ReadRecords(codec, s, next, After(order, r)))
  {}

  /** The same, a frame at a time. */
  function ReadPieces(order: Order, rs: seq<Record>, pieces: seq<seq<byte>>, n: nat)
    : Result<(seq<Record>, bool), ReadError>
    requires |pieces| == |rs| && n <= |Concat(pieces)|
    decreases |rs|
  {
    if rs == [] || n < |pieces[0]| then Ok(([], n != 0))
    else if !Admits(order, Returned(rs[0])) then Err(Malformed)
    else ReadAfter([Returned(rs[0])],
                   ReadPieces(After(order, Returned(rs[0])), rs[1..], pieces[1..], n - |pieces[0]|))
  }

  lemma {:induction false} PiecesAtCut(order: Order, rs: seq<Record>, pieces: seq<seq<byte>>, n: nat)
    requires |pieces| == |rs| && n <= |Concat(pieces)|
    ensures ReadPieces(order, rs, pieces, n) == ReadAtCut(order, rs, pieces, n)
    decreases |rs|
  {
    if rs == [] || n < |pieces[0]| {
      CutNothing(order, rs, pieces, n);
    } else {
      CutStep(order, rs, pieces, n);
      if Admits(order, Returned(rs[0])) {
        PiecesAtCut(After(order, Returned(rs[0])), rs[1..], pieces[1..], n - |pieces[0]|);
      }
    }
  }

  lemma {:induction false} RecordsAtCut(
    codec: Codec, s: Stream, before: seq<byte>, rs: seq<Record>, pieces: seq<seq<byte>>, n: nat, order: Order)
    requires Faithful(codec) && EncodeAll(codec, rs) == Ok(pieces)
    requires n <= |Concat(pieces)|
    requires s == Stream(before + Concat(pieces)[..n], None)
    ensures |pieces| == |rs|
    ensures ReadRecords(codec, s, |before|, order) == ReadPieces(order, rs, pieces, n)
    decreases |rs|
  {
    hide ReadFrame, Decode, Encode, Admits, ReadAfter, Returned, Faithful;
    EncodedCount(codec, rs);
    if rs == [] || n < |pieces[0]| {
      if rs != [] {
        EncodedHead(codec, rs, pieces);
        LengthFirst(codec, rs[0]);
      }
      CutInFirst(before, pieces, n);
    } else {
      EncodedHead(codec, rs, pieces);
      CutPastFirst(codec, before, rs[0], pieces, n);
      var past, r := before + pieces[0], Returned(rs[0]);
      ReadWholeFrame(codec, s, |before|, |past|, order, r);
      if Admits(order, r) {
        RecordsAtCut(codec, s, past, rs[1..], pieces[1..], n - |pieces[0]|, After(order, r));
      }
    }
  }

  /** A cut inside the next frame leaves nothing, or a torn record. */
  lemma CutInFirst(before: seq<byte>, pieces: seq<seq<byte>>, n: nat)
    requires n <= |Concat(pieces)|
    requires pieces == [] || (n < |pieces[0]| && pieces[0][0] as int == |pieces[0]| - 1)
    ensures ReadFrame(Stream(before + Concat(pieces)[..n], None), |before|) == if n == 0 then End else Torn
  {
    if n > 0 {
      assert (before + Concat(pieces)[..n])[|before|] == Concat(pieces)[0] == pieces[0][0];
    }
  }

  lemma TakePast(before: seq<byte>, first: seq<byte>, rest: seq<byte>, n: nat)
    requires |first| <= n <= |first| + |rest|
    ensures before + (first + rest)[..n] == before + first + rest[..n - |first|]
  {}

  /** A cut past the next frame leaves it whole, and the bytes after it as a cut of the rest. */
  lemma CutPastFirst(codec: Codec, before: seq<byte>, r: Record, pieces: seq<seq<byte>>, n: nat)
    requires Faithful(codec) && pieces != [] && Encode(codec, r) == Ok(pieces[0])
    requires |pieces[0]| <= n <= |Concat(pieces)|
    ensures
      var s := Stream(before + Concat(pieces)[..n], None);
      && s.bytes == before + pieces[0] + Concat(pieces[1..])[..n - |pieces[0]|]
      && ReadFrame(s, |before|).Read?
      && 1 + |ReadFrame(s, |before|).payload| == |pieces[0]|
      && Decode(codec, ReadFrame(s, |before|).payload) == Some(Returned(r))
  {
    var rest := Concat(pieces[1..]);
    TakePast(before, pieces[0], rest, n);
    FrameReads(codec, before, r, pieces[0], rest[..n - |pieces[0]|]);
  }

  /** A record's frame reads back as its payload, wherever it lies. */
  lemma FrameReads(codec: Codec, before: seq<byte>, r: Record, frame: seq<byte>, rest: seq<byte>)
    requires Encode(codec, r) == Ok(frame)
    ensures ReadFrame(Stream(before + frame + rest, None), |before|) == Read(codec.encode(ToWire(r)).value)
    ensures 1 + |codec.encode(ToWire(r)).value| == |frame|
  {
    var payload := codec.encode(ToWire(r)).value;
    var bytes := before + frame + rest;
    assert bytes[|before|] == frame[0] == |payload|;
    assert bytes[|before| + 1..|before| + 1 + |payload|] == payload;
  }

  lemma AdmitsCons(order: Order, q: Record, qs: seq<Record>)
    ensures AdmitsAll(order, [q] + qs) <==> Admits(order, q) && AdmitsAll(After(order, q), qs)
  {
    assert ([q] + qs)[1..] == qs;
  }

  lemma ReturnedCons(rs: seq<Record>, k: nat)
    requires k < |rs|
    ensures ReturnedAll(rs[..k + 1]) == [Returned(rs[0])] + ReturnedAll(rs[1..][..k])
  {}

  lemma BoundaryCons(pieces: seq<seq<byte>>, k: nat)
    requires k < |pieces|
    ensures |Concat(pieces[..k + 1])| == |pieces[0]| + |Concat(pieces[1..][..k])|
  {
    assert pieces[..k + 1][1..] == pieces[1..][..k];
  }

  lemma CutNothing(order: Order, rs: seq<Record>, pieces: seq<seq<byte>>, n: nat)
    requires |pieces| == |rs| && n <= |Concat(pieces)|
    requires pieces == [] || n < |pieces[0]|
    ensures ReadAtCut(order, rs, pieces, n) == Ok(([], n != 0))
  {
    assert rs[..0] == [] && pieces[..0] == [];
  }

  lemma CutStep(order: Order, rs: seq<Record>, pieces: seq<seq<byte>>, n: nat)
    requires |pieces| == |rs| > 0 && |pieces[0]| <= n <= |Concat(pieces)|
    ensures ReadAtCut(order, rs, pieces, n) ==
            if !Admits(order, Returned(rs[0])) then Err(Malformed)
            else ReadAfter([Returned(rs[0])],
              ReadAtCut(After(order, Returned(rs[0])), rs[1..], pieces[1..], n - |pieces[0]|))
  {
    var k := Whole(pieces[1..], n - |pieces[0]|);
    assert Whole(pieces, n) == k + 1;
    ReturnedCons(rs, k);
    BoundaryCons(pieces, k);
    AdmitsCons(order, Returned(rs[0]), ReturnedAll(rs[1..][..k]));
  }

  lemma StartReads(codec: Codec, h: Header, rest: seq<byte>)
    requires Faithful(codec) && EncodeHeader(codec, h).Ok?
    ensures ReadStart(codec, Stream(EncodeHeader(codec, h).value + rest, None))
            == Ok((h, |EncodeHeader(codec, h).value|))
  {
    var head := EncodeHeader(codec, h).value;
    var payload := codec.encode(ToWire(HeaderRecord(h))).value;
    var s := Stream(head + rest, None);
    assert MAGIC <= s.bytes;
    assert s.bytes[|MAGIC|] == FORMAT_VERSION && s.bytes[|MAGIC| + 1] == |payload|;
    assert s.bytes[|MAGIC| + 2..|MAGIC| + 2 + |payload|] == payload;
  }

  /**
   A file cut at any byte at or past its header reads back as its header and the longest prefix of
   whole records, torn exactly when the cut is not on a frame's boundary; it is refused only when
   those whole records are themselves out of the format's order.
   */
  lemma CutFileReadsBack(codec: Codec, h: Header, rs: seq<Record>, n: nat)
    requires Faithful(codec) && EncodeHeader(codec, h).Ok? && EncodeAll(codec, rs).Ok?
    requires n <= |Concat(EncodeAll(codec, rs).value)|
    ensures |EncodeAll(codec, rs).value| == |rs|
    ensures
      var head, pieces := EncodeHeader(codec, h).value, EncodeAll(codec, rs).value;
      var k := Whole(pieces, n);
      CaptureFileOf(codec, Stream(head + Concat(pieces)[..n], None)) ==
      if AdmitsAll(START, ReturnedAll(rs[..k]))
      then Ok(CaptureFile(h, ReturnedAll(rs[..k]), n != |Concat(pieces[..k])|))
      else Err(Malformed)
  {
    var head, pieces := EncodeHeader(codec, h).value, EncodeAll(codec, rs).value;
    StartReads(codec, h, Concat(pieces)[..n]);
    RecordsAtCut(codec, Stream(head + Concat(pieces)[..n], None), head, rs, pieces, n, START);
    PiecesAtCut(START, rs, pieces, n);
  }

  /** A file cut inside its magic is no capture; cut later but inside its header, it has no header. */
  lemma CutHeaderIsRefused(codec: Codec, h: Header, n: nat)
    requires EncodeHeader(codec, h).Ok? && n < |EncodeHeader(codec, h).value|
    ensures CaptureOf(codec, Stream(EncodeHeader(codec, h).value[..n], None))
            == Err(if n < |MAGIC| then NotACapture else Unsupported(None))
  {
    var s := Stream(EncodeHeader(codec, h).value[..n], None);
    var payload := codec.encode(ToWire(HeaderRecord(h))).value;
    if n >= |MAGIC| {
      assert MAGIC <= s.bytes;
      if n > |MAGIC| + 1 { assert s.bytes[|MAGIC| + 1] == |payload|; }
    }
  }

  // ---------------------------------------------------------------- a stream that fails

  lemma {:induction false} FailingRecordsNeverRead(codec: Codec, s: Stream, pos: nat, order: Order)
    requires Fails(s) && pos <= |s.bytes|
    ensures ReadRecords(codec, s, pos, order).Err?
    decreases |s.bytes| - pos
  {
    match ReadFrame(s, pos) {
      case Read(payload) =>
        var record := Decode(codec, payload);
        if record.Some? && Admits(order, record.value) {
          FailingRecordsNeverRead(codec, s, pos + 1 + |payload|, After(order, record.value));
        }
      case _ =>
    }
  }

  /** A stream that fails, wherever it does, is never a whole or a torn capture. */
  lemma FailingStreamNeverReads(codec: Codec, s: Stream)
    requires Fails(s)
    ensures CaptureOf(codec, s).Err?
  {
    var start := ReadStart(codec, s);
    if start.Ok? { FailingRecordsNeverRead(codec, s, start.value.1, START); }
  }

  // ---------------------------------------------------------------- the format's order, outright

  predicate Names(joins: nat, e: Event) { KnowsPlayers(Order(joins, true, 0, false), e) }

  /** Events in offset order from `last` on, each of players 1 to `joins`, nothing past a Match end. */
  predicate EventsOrdered(joins: nat, last: u32, es: seq<EventAt>) {
    && (forall i :: 0 <= i < |es| ==> last <= es[i].offset && Names(joins, es[i].event))
    && (forall i, j :: 0 <= i < j < |es| ==> es[i].offset <= es[j].offset)
    && (forall i :: 0 <= i < |es| - 1 ==> !es[i].event.MatchEnd?)
  }

  predicate WellOrdered(c: Capture) {
    |c.joins| <= 255 && EventsOrdered(|c.joins|, 0, c.events)
  }

  lemma {:induction false} EventsAdmittedIff(o: Order, es: seq<EventAt>)
    requires !o.ended
    ensures AdmitsAll(o, EventRecords(es)) <==> EventsOrdered(o.joins, o.lastOffset, es)
    decreases |es|
  {
    var rs := EventRecords(es);
    if es != [] {
      assert rs[1..] == EventRecords(es[1..]);
      forall i | 0 < i < |es| ensures es[i] == es[1..][i - 1] {}
      if Admits(o, rs[0]) {
        var o' := After(o, rs[0]);
        if o'.ended {
          if |es| > 1 { assert !Admits(o', rs[1..][0]); }
        } else {
          EventsAdmittedIff(o', es[1..]);
        }
      }
    }
  }

  lemma {:induction false} JoinsAdmittedIff(k: nat, joins: seq<Join>, es: seq<EventAt>)
    requires k <= |joins|
    ensures AdmitsAll(Order(k, false, 0, false), JoinRecords(joins)[k..] + EventRecords(es))
            <==> (k < |joins| ==> |joins| <= 255) && EventsOrdered(|joins|, 0, es)
    decreases |joins| - k
  {
    var o, rs := Order(k, false, 0, false), JoinRecords(joins)[k..] + EventRecords(es);
    if k == |joins| {
      assert rs == EventRecords(es);
      EventsAdmittedIff(o, es);
    } else {
      assert rs[0] == JoinRecord(0, ((k + 1) % 256) as byte, joins[k]);
      assert rs[1..] == JoinRecords(joins)[k + 1..] + EventRecords(es);
      if k < 255 { JoinsAdmittedIff(k + 1, joins, es); }
    }
  }

  /** The reader's record-by-record rule is the format's order. */
  lemma OrderIff(c: Capture)
    ensures AdmitsAll(START, RecordsOf(c)) <==> WellOrdered(c)
  {
    assert JoinRecords(c.joins)[0..] == JoinRecords(c.joins);
    JoinsAdmittedIff(0, c.joins, c.events);
  }

  predicate NoJoins(rs: seq<Record>) { forall i :: 0 <= i < |rs| ==> rs[i].EventRecord? }

  lemma {:induction false} OnlyEventsLeft(o: Order, rs: seq<Record>)
    requires AdmitsAll(o, rs) && o.events
    ensures NoJoins(rs)
    decreases |rs|
  {
    if rs != [] {
      OnlyEventsLeft(After(o, rs[0]), rs[1..]);
      assert rs == [rs[0]] + rs[1..];
    }
  }

  predicate JoinsFrom(k: nat, rs: seq<Record>) {
    forall i :: 0 <= i < |rs| ==> rs[i].JoinRecord? && rs[i].joinOffset == 0 && rs[i].player == k + i + 1
  }

  /** Whatever records are read, those admitted are Joins numbered on at offset 0, and then events alone. */
  lemma {:induction false} JoinsComeFirst(o: Order, rs: seq<Record>) returns (n: nat)
    requires AdmitsAll(o, rs)
    ensures n <= |rs| && JoinsFrom(o.joins, rs[..n]) && NoJoins(rs[n..]) && (o.events ==> n == 0)
    decreases |rs|
  {
    if rs == [] || rs[0].EventRecord? {
      n := 0;
      if rs != [] {
        OnlyEventsLeft(After(o, rs[0]), rs[1..]);
        assert rs == [rs[0]] + rs[1..];
      }
    } else {
      var m := JoinsComeFirst(After(o, rs[0]), rs[1..]);
      n := m + 1;
      assert rs[..n] == [rs[0]] + rs[1..][..m] && rs[n..] == rs[1..][m..];
    }
  }

  ghost predicate JoinsThenEvents(rs: seq<Record>) {
    exists n: nat :: n <= |rs| && JoinsFrom(0, rs[..n]) && NoJoins(rs[n..])
  }

  /** So a Join after an event is refused, as is one whose number is not the next. */
  lemma AdmittedIsJoinsThenEvents(rs: seq<Record>)
    requires AdmitsAll(START, rs)
    ensures JoinsThenEvents(rs)
  {
    hide AdmitsAll, JoinsFrom, NoJoins;
    var n := JoinsComeFirst(START, rs);
  }

  // ---------------------------------------------------------------- round trip

  function ReturnedEvent(e: EventAt): EventAt { Returned(EventRecord(e)).at }

  /** What is left of a capture once through the Link: no Seen ticks, and winner 0 a Draw. */
  function ReturnedCapture(c: Capture): Capture {
    Capture(c.header, c.joins, seq(|c.events|, i requires 0 <= i < |c.events| => ReturnedEvent(c.events[i])), false)
  }

  lemma {:induction false} CollectAppend(a: seq<Record>, b: seq<Record>)
    ensures JoinsIn(a + b) == JoinsIn(a) + JoinsIn(b)
    ensures EventsIn(a + b) == EventsIn(a) + EventsIn(b)
    decreases |b|
  {
    if b == [] {
      assert a + b == a;
    } else {
      var n := |b| - 1;
      assert (a + b)[..|a| + n] == a + b[..n];
      CollectAppend(a, b[..n]);
    }
  }

  lemma {:induction false} CollectJoins(joins: seq<Join>)
    ensures JoinsIn(JoinRecords(joins)) == joins && EventsIn(JoinRecords(joins)) == []
  {
    if joins != [] {
      var n := |joins| - 1;
      assert JoinRecords(joins)[..n] == JoinRecords(joins[..n]);
      CollectJoins(joins[..n]);
    }
  }

  lemma {:induction false} CollectEvents(events: seq<EventAt>)
    ensures JoinsIn(EventRecords(events)) == [] && EventsIn(EventRecords(events)) == events
  {
    if events != [] {
      var n := |events| - 1;
      assert EventRecords(events)[..n] == EventRecords(events[..n]);
      CollectEvents(events[..n]);
    }
  }

  lemma CollectRecords(c: Capture)
    ensures JoinsIn(RecordsOf(c)) == c.joins && EventsIn(RecordsOf(c)) == c.events
  {
    CollectAppend(JoinRecords(c.joins), EventRecords(c.events));
    CollectJoins(c.joins);
    CollectEvents(c.events);
  }

  /** A capture written reads back as what the Link leaves of it, or is refused as out of order. */
  lemma WrittenReadsBack(codec: Codec, c: Capture)
    requires Faithful(codec) && CaptureBytes(codec, c).Ok?
    ensures CaptureOf(codec, Stream(CaptureBytes(codec, c).value, None)) ==
            if WellOrdered(ReturnedCapture(c)) then Ok(ReturnedCapture(c)) else Err(Malformed)
  {
    var rs, q := RecordsOf(c), ReturnedCapture(c);
    WholeFileReadsBack(codec, c.header, rs);
    assert ReturnedAll(rs) == RecordsOf(q);
    OrderIff(q);
    CollectRecords(q);
  }

  lemma WholeFileReadsBack(codec: Codec, h: Header, rs: seq<Record>)
    requires Faithful(codec) && EncodeHeader(codec, h).Ok? && EncodeAll(codec, rs).Ok?
    ensures CaptureFileOf(codec, Stream(EncodeHeader(codec, h).value + Concat(EncodeAll(codec, rs).value), None)) ==
            if AdmitsAll(START, ReturnedAll(rs)) then Ok(CaptureFile(h, ReturnedAll(rs), false)) else Err(Malformed)
  {
    var pieces := EncodeAll(codec, rs).value;
    CutFileReadsBack(codec, h, rs, |Concat(pieces)|);
    WholeOfAll(codec, rs);
    assert Concat(pieces)[..|Concat(pieces)|] == Concat(pieces) && pieces[..|pieces|] == pieces && rs[..|rs|] == rs;
  }

  lemma WholeOfAll(codec: Codec, rs: seq<Record>)
    requires EncodeAll(codec, rs).Ok?
    ensures Whole(EncodeAll(codec, rs).value, |Concat(EncodeAll(codec, rs).value)|) == |rs|
  {
    var pieces := EncodeAll(codec, rs).value;
    EncodedCount(codec, rs);
    var k := Whole(pieces, |Concat(pieces)|);
    if k < |pieces| {
      assert pieces == pieces[..k + 1] + pieces[k + 1..];
      ConcatAppend(pieces[..k + 1], pieces[k + 1..]);
    }
  }

  /**
   A capture round-trips through WriteCapture and ReadCapture exactly when it is well ordered, has
   at most 255 Joins, and holds nothing the Link drops: a Seen tick, or winner 0.
   */
  lemma RoundTripIff(codec: Codec, c: Capture)
    requires Faithful(codec) && CaptureBytes(codec, c).Ok?
    ensures CaptureOf(codec, Stream(CaptureBytes(codec, c).value, None)) == Ok(c.(torn := false)) <==>
            WellOrdered(c) && forall i :: 0 <= i < |c.events| ==> Carried(EventRecord(c.events[i]))
  {
    WrittenReadsBack(codec, c);
    var q := ReturnedCapture(c);
    forall i | 0 <= i < |c.events|
      ensures q.events[i] == c.events[i] <==> Carried(EventRecord(c.events[i]))
    {
      WireRoundTrip(EventRecord(c.events[i]));
    }
    if forall i :: 0 <= i < |c.events| ==> Carried(EventRecord(c.events[i])) {
      assert q.events == c.events;
    }
  }
}

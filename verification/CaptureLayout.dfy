/** A capture file's bytes themselves: what lies where in every capture written, and what the Link drops. */
module CaptureLayout {
  import opened Common
  import opened CaptureFormat

  /** What a record is once the Link has carried it: without a command's Seen tick, and a winner 0 no winner. */
  lemma LinkDrops(r: Record)
    ensures var back := FromWire(ToWire(r));
      match r
      case HeaderRecord(h) => back == r
      case JoinRecord(offset, player, join) => back == r
      case EventRecord(at) =>
        && back.EventRecord? && back.at.offset == at.offset
        && match at.event
           case Command(player, seenOffset, seenTick, input) =>
             back.at.event == Command(player, seenOffset, 0, input)
           case Leave(player) => back == r
           case Death(victim, killer) => back == r
           case MatchEnd(winner) => back.at.event == MatchEnd(if winner == Some(0) then None else winner)
  {}

  /** A frame: the payload's length in one byte, then the payload. */
  predicate FramedAt(b: seq<byte>, at: nat, payload: seq<byte>) {
    && at + 1 + |payload| <= |b| && |payload| <= 255
    && b[at] as nat == |payload| && b[at + 1..at + 1 + |payload|] == payload
  }

  /** A record is encoded exactly when the protocol carries it in no more than 255 bytes. */
  lemma EncodedIff(codec: Codec, r: Record)
    ensures var payload := codec.encode(ToWire(r));
            && (Encode(codec, r).Ok? <==> payload.Some? && |payload.value| <= 255)
            && (Encode(codec, r) == Err(Broken) <==> payload.None?)
            && (Encode(codec, r) == Err(TooLong) <==> payload.Some? && |payload.value| > 255)
            && (Encode(codec, r).Ok? ==> FramedAt(Encode(codec, r).value, 0, payload.value)
                                         && |Encode(codec, r).value| == 1 + |payload.value|)
  {}

  /** Each record that can be encoded takes its payload and one byte more. */
  function FrameSizes(codec: Codec, rs: seq<Record>): nat
    decreases |rs|
  {
    if rs == [] then 0
    else
      var payload := codec.encode(ToWire(rs[|rs| - 1]));
      FrameSizes(codec, rs[..|rs| - 1]) + if payload.Some? then 1 + |payload.value| else 0
  }

  /** The frames of `rs` lie in `b` one after another from `at` on. */
  predicate FramesLie(codec: Codec, rs: seq<Record>, b: seq<byte>, at: nat) {
    forall i :: 0 <= i < |rs| ==>
      && codec.encode(ToWire(rs[i])).Some?
      && FramedAt(b, at + FrameSizes(codec, rs[..i]), codec.encode(ToWire(rs[i])).value)
  }

  lemma {:induction false} EncodedLie(codec: Codec, rs: seq<Record>, pieces: seq<seq<byte>>)
    requires EncodeAll(codec, rs) == Ok(pieces)
    ensures FramesLie(codec, rs, Concat(pieces), 0) && |Concat(pieces)| == FrameSizes(codec, rs)
    decreases |rs|
  {
    hide EncodeAll;
    if rs == [] {
      NoneEncoded(codec, pieces);
    } else {
      var before, last := rs[..|rs| - 1], rs[|rs| - 1];
      assert rs == before + [last];
      EncodeAllAppend(codec, before, [last]);
      EncodeOne(codec, last);
      var frames, frame := EncodeAll(codec, before).value, Encode(codec, last).value;
      EncodedLie(codec, before, frames);
      assert pieces == frames + [frame];
      ConcatAppend(frames, [frame]);
      ConcatOne(frame);
      LastLies(codec, before, last, Concat(frames), frame);
    }
  }

  lemma NoneEncoded(codec: Codec, pieces: seq<seq<byte>>)
    requires EncodeAll(codec, []) == Ok(pieces)
    ensures pieces == []
  {}

  lemma ConcatOne(frame: seq<byte>)
    ensures Concat([frame]) == frame
  {
    assert [frame][1..] == [] && frame + [] == frame;
  }

  lemma LastLies(codec: Codec, before: seq<Record>, last: Record, b: seq<byte>, frame: seq<byte>)
    requires FramesLie(codec, before, b, 0) && |b| == FrameSizes(codec, before)
    requires Encode(codec, last) == Ok(frame)
    ensures FramesLie(codec, before + [last], b + frame, 0)
    ensures |b + frame| == FrameSizes(codec, before + [last])
  {
    var all := before + [last];
    assert all[..|all| - 1] == before;
    forall i | 0 <= i < |all|
      ensures codec.encode(ToWire(all[i])).Some?
      ensures FramedAt(b + frame, FrameSizes(codec, all[..i]), codec.encode(ToWire(all[i])).value)
    {
      if i < |before| {
        assert all[..i] == before[..i] && all[i] == before[i];
        FramedStill(b, frame, FrameSizes(codec, before[..i]), codec.encode(ToWire(all[i])).value);
      }
    }
  }

  lemma FramedStill(b: seq<byte>, more: seq<byte>, at: nat, payload: seq<byte>)
    requires FramedAt(b, at, payload)
    ensures FramedAt(b + more, at, payload)
  {
    assert (b + more)[at + 1..at + 1 + |payload|] == b[at + 1..at + 1 + |payload|];
  }

  lemma FramedLater(lead: seq<byte>, b: seq<byte>, at: nat, payload: seq<byte>)
    requires FramedAt(b, at, payload)
    ensures FramedAt(lead + b, |lead| + at, payload)
  {
    assert (lead + b)[|lead| + at + 1..|lead| + at + 1 + |payload|] == b[at + 1..at + 1 + |payload|];
  }

  /** A capture's records: each Join under the next player number, from 1, at offset 0, then its events. */
  function Recorded(c: Capture): seq<Record> {
    seq(|c.joins|, i requires 0 <= i < |c.joins| => JoinRecord(0, ((i + 1) % 256) as byte, c.joins[i]))
    + seq(|c.events|, i requires 0 <= i < |c.events| => EventRecord(c.events[i]))
  }

  /**
   Every capture written is the magic `AUGCAP` and its line end, format 4, the header's frame, then each
   Join's and each event's, in order, and nothing more.
   */
  lemma WrittenLies(codec: Codec, c: Capture, b: seq<byte>)
    requires CaptureBytes(codec, c) == Ok(b)
    ensures |b| >= 9 && b[..8] == [0x41, 0x55, 0x47, 0x43, 0x41, 0x50, 0x0D, 0x0A] && b[8] == 4
    ensures var header := codec.encode(HeaderWire(c.header));
            && header.Some? && FramedAt(b, 9, header.value)
            && FramesLie(codec, Recorded(c), b, 10 + |header.value|)
            && |b| == 10 + |header.value| + FrameSizes(codec, Recorded(c))
  {
    hide EncodeAll, FrameSizes, FramedAt, Concat;
    var header, pieces := EncodeHeader(codec, c.header).value, EncodeAll(codec, RecordsOf(c)).value;
    var payload := codec.encode(HeaderWire(c.header)).value;
    assert RecordsOf(c) == Recorded(c);
    EncodedLie(codec, Recorded(c), pieces);
    assert header == MAGIC + [FORMAT_VERSION] + ([|payload| as byte] + payload);
    assert b == header + Concat(pieces) && |header| == 10 + |payload|;
    HeaderFramed(header, payload, Concat(pieces));
    forall i | 0 <= i < |Recorded(c)|
      ensures codec.encode(ToWire(Recorded(c)[i])).Some?
      ensures FramedAt(b, |header| + FrameSizes(codec, Recorded(c)[..i]), codec.encode(ToWire(Recorded(c)[i])).value)
    {
      FramedLater(header, Concat(pieces), FrameSizes(codec, Recorded(c)[..i]),
                  codec.encode(ToWire(Recorded(c)[i])).value);
    }
  }

  lemma HeaderFramed(header: seq<byte>, payload: seq<byte>, rest: seq<byte>)
    requires |payload| <= 255 && header == MAGIC + [FORMAT_VERSION] + ([|payload| as byte] + payload)
    ensures FramedAt(header + rest, 9, payload)
    ensures (header + rest)[..8] == [0x41, 0x55, 0x47, 0x43, 0x41, 0x50, 0x0D, 0x0A] && (header + rest)[8] == 4
  {
    assert (header + rest)[10..10 + |payload|] == payload;
  }
}

/**
 Whatever the Capturer hands over, it calls the writer in order, and each Match's records are ones
 the reader admits, one after another, up to the record that stops its capture.
 */
module CapturerOrder {
  import opened Common
  import opened CaptureFormat
  import opened CaptureWriter
  import opened Capturer
  import CaptureReading

  /** What the reader remembers past `rs`. */
  function AfterAll(o: Order, rs: seq<Record>): Order
    requires AdmitsAll(o, rs)
    decreases |rs|
  {
    if rs == [] then o else AfterAll(After(o, rs[0]), rs[1..])
  }

  lemma {:induction false} AdmitsAppend(o: Order, a: seq<Record>, b: seq<Record>)
    ensures AdmitsAll(o, a + b) <==> AdmitsAll(o, a) && AdmitsAll(AfterAll(o, a), b)
    ensures AdmitsAll(o, a + b) ==> AfterAll(o, a + b) == AfterAll(AfterAll(o, a), b)
    decreases |a|
  {
    if a == [] {
      assert a + b == b;
    } else {
      assert (a + b)[1..] == a[1..] + b;
      if Admits(o, a[0]) { AdmitsAppend(After(o, a[0]), a[1..], b); }
    }
  }

  lemma AdmitsSnoc(o: Order, rs: seq<Record>, r: Record)
    requires AdmitsAll(o, rs)
    ensures AdmitsAll(o, rs + [r]) <==> Admits(AfterAll(o, rs), r)
    ensures AdmitsAll(o, rs + [r]) ==> AfterAll(o, rs + [r]) == After(AfterAll(o, rs), r)
  {
    AdmitsAppend(o, rs, [r]);
    assert [r][1..] == [];
  }

  // ---------------------------------------------------------------- the invariant

  /** One Match's records so far: in order for the reader, unchanged by the Link, pushed as encoded. */
  predicate Readable(codec: Codec, rs: seq<Record>, pushed: seq<seq<byte>>) {
    && EncodeAll(codec, rs) == Ok(pushed)
    && AdmitsAll(START, rs)
    && forall i :: 0 <= i < |rs| ==> Carried(rs[i])
  }

  predicate SentOk(codec: Codec, st: State, m: MatchId) {
    var sim := Sim(st);
    && (m in sim.headers <==> m in st.headers)
    && (m in sim.headers ==> EncodeHeader(codec, st.headers[m]) == Ok(sim.headers[m]))
    && (m !in sim.begun ==> m !in sim.headers && SentOf(st, m) == [] && m !in sim.barred)
    && Readable(codec, SentOf(st, m), At(sim.pushed, m))
  }

  /** What the reader will remember past all sent of the Match under way. */
  function Reader(st: State): Order
    requires AdmitsAll(START, SentOf(st, st.match_))
  {
    AfterAll(START, SentOf(st, st.match_))
  }

  predicate Numbered(numbers: map<nat, byte>, count: nat) {
    forall k :: k in numbers ==> 1 <= numbers[k] <= count
  }

  /** Until its capture is told to stop, a Match's players are the reader's and its events go on. */
  predicate LiveWith(barred: bool, o: Order, players: map<nat, byte>, sessions: map<nat, byte>, last: u32) {
    !barred ==>
      && |players| == o.joins && Numbered(players, o.joins) && Numbered(sessions, o.joins)
      && !o.ended && o.lastOffset <= last
  }

  predicate Live(st: State) {
    && AdmitsAll(START, SentOf(st, st.match_))
    && LiveWith(Barred(st), Reader(st), st.players, st.sessions, OffsetOf(st, st.lastTick))
  }

  ghost predicate AllSent(codec: Codec, st: State) { forall m :: SentOk(codec, st, m) }

  predicate Disciplined(st: State) {
    && AllInOrder(st.calls)
    && Sim(st).current == (if st.open then st.match_ else NIL)
    && (st.open ==> st.match_ != NIL && st.match_ in Sim(st).begun && !Sim(st).finished)
  }

  ghost predicate Kept(codec: Codec, st: State) {
    && Disciplined(st)
    && AllSent(codec, st)
    && (st.open ==> Live(st))
  }

  lemma InitialKept(codec: Codec, base: Header)
    ensures Kept(codec, Initial(base))
  {}

  // ---------------------------------------------------------------- what callers must keep to

  /**
   Joins of distinct players beside the `count` there are, no more than a player's byte numbers, none
   the protocol cannot carry.
   */
  predicate JoinsProper(codec: Codec, players: map<nat, byte>, count: nat, entrants: seq<Entrant>) {
    && count + |entrants| <= 255
    && (forall i :: 0 <= i < |entrants| ==> entrants[i].entity !in players)
    && (forall i, j :: 0 <= i < j < |entrants| ==> entrants[i].entity != entrants[j].entity)
    && forall i :: 0 <= i < |entrants| ==> Encode(codec, JoinOf(entrants[i], count + i + 1)) != Err(Broken)
  }

  function JoinOf(e: Entrant, player: byte): Record {
    JoinRecord(0, player, Join(e.session, e.character, e.spawn))
  }

  /**
   A new Match has its own ID and proper Joins, and none follows Finish but on stopped captures;
   ticks do not go back in a Match, and whoever kills in one is an entrant.
   */
  predicate Proper(codec: Codec, st: State, i: Input) {
    match i
    case StartMatch(halted, m, entrants, _, _) =>
      (Sim(st).finished ==> halted) &&
      (!halted ==> m != NIL && m !in Sim(st).begun && JoinsProper(codec, map[], 0, entrants))
    case Finish => true
    case PlayerDies(tick, victim, killer) =>
      st.open ==> tick >= st.lastTick && (victim in st.players ==> killer in st.players)
    case _ => st.open ==> i.tick >= st.lastTick
  }

  // ---------------------------------------------------------------- telling the writer

  lemma Told(st: State, c: Call)
    ensures Sim(Tell(st, c)) == Called(Sim(st), c)
    ensures AllInOrder(Tell(st, c).calls) <==> AllInOrder(st.calls) && InOrder(Sim(st), c)
  {
    assert (st.calls + [c])[..|st.calls|] == st.calls;
  }

  /** An event is admitted next exactly when its offset does not go back and it names known players. */
  lemma EventAdmittedIff(st: State, i: Input)
    requires st.open && Live(st) && !Barred(st) && EventOf(st, i).Some?
    ensures Admits(Reader(st), EventRecord(EventOf(st, i).value)) <==>
            OffsetOf(st, i.tick) >= Reader(st).lastOffset && (i.PlayerDies? ==> i.killer in st.players)
  {}

  lemma EventCarried(st: State, i: Input)
    requires st.open && Live(st) && !Barred(st) && EventOf(st, i).Some?
    ensures Carried(EventRecord(EventOf(st, i).value))
  {}

  lemma ReadableSnoc(codec: Codec, rs: seq<Record>, pushed: seq<seq<byte>>, r: Record)
    requires Readable(codec, rs, pushed) && Encode(codec, r).Ok?
    requires Admits(AfterAll(START, rs), r) && Carried(r)
    ensures Readable(codec, rs + [r], pushed + [Encode(codec, r).value])
  {
    EncodeAllAppend(codec, rs, [r]);
    EncodeOne(codec, r);
    AdmitsSnoc(START, rs, r);
  }

  /** A record queued is pushed, dropped, or the last of its Match. */
  lemma QueueKeeps(codec: Codec, st: State, r: Record)
    requires Disciplined(st) && st.open && AllSent(codec, st) && SentOk(codec, st, st.match_)
    requires !Barred(st) && Encode(codec, r).Ok? ==> Admits(Reader(st), r) && Carried(r)
    ensures var st' := Queued(codec, st, r);
      && Disciplined(st') && AllSent(codec, st') && SentOk(codec, st', st'.match_)
      && Barred(st') == (Barred(st) || Encode(codec, r) == Err(TooLong))
      && (!Barred(st') && Encode(codec, r).Ok? ==> Reader(st') == After(Reader(st), r))
      && (!Barred(st') && Encode(codec, r).Err? ==> Reader(st') == Reader(st))
  {
    var st', m := Queued(codec, st, r), st.match_;
    match Encode(codec, r) {
      case Err(Broken) =>
        assert Sim(st') == Sim(st);
        forall k ensures SentOk(codec, st', k) { assert SentOk(codec, st, k); }
      case Err(TooLong) =>
        Told(st, CallStop(m, RecordTooLong));
        forall k ensures SentOk(codec, st', k) { assert SentOk(codec, st, k); }
      case Ok(bytes) =>
        Told(st, CallPush(m, bytes));
        assert Sim(st') == Called(Sim(st), CallPush(m, bytes));
        forall k ensures SentOk(codec, st', k) {
          assert SentOk(codec, st, k);
          if k == m && !Barred(st) { ReadableSnoc(codec, SentOf(st, m), At(Sim(st).pushed, m), r); }
        }
        assert SentOk(codec, st, m);
        if !Barred(st) { AdmitsSnoc(START, SentOf(st, m), r); }
    }
  }

  // ---------------------------------------------------------------- joins

  /** While Joins go on: no event yet. */
  predicate Joining(st: State) {
    Live(st) && (!Barred(st) ==> !Reader(st).events && Reader(st).lastOffset == 0)
  }

  lemma NumberedNext(numbers: map<nat, byte>, key: nat, count: nat)
    requires Numbered(numbers, count) && count < 255
    ensures Numbered(FirstKept(numbers, key, count + 1), count + 1)
    ensures FirstKept(numbers, key, count + 1).Keys == numbers.Keys + {key}
  {}

  /** A player numbered, before its Join is queued. */
  function Joined(st: State, e: Entrant): State {
    st.(players := FirstKept(st.players, e.entity, NumberOf(st)),
        sessions := FirstKept(st.sessions, e.session, NumberOf(st)))
  }

  lemma FirstKeptGrows(numbers: map<nat, byte>, key: nat, value: byte)
    requires key !in numbers
    ensures |FirstKept(numbers, key, value)| == |numbers| + 1
    ensures FirstKept(numbers, key, value).Keys == numbers.Keys + {key}
  {
    assert FirstKept(numbers, key, value).Keys == numbers.Keys + {key};
    assert |FirstKept(numbers, key, value)| == |numbers.Keys + {key}|;
  }

  lemma JoinedKeeps(st: State, e: Entrant)
    requires Joining(st) && |st.players| <= 254 && e.entity !in st.players
    ensures var st' := Joined(st, e);
      && NumberOf(st) == |st.players| + 1 && |st'.players| == |st.players| + 1
      && st'.players.Keys == st.players.Keys + {e.entity}
      && (!Barred(st) ==> Numbered(st'.players, |st.players| + 1) && Numbered(st'.sessions, |st.players| + 1))
  {
    FirstKeptGrows(st.players, e.entity, NumberOf(st));
    if !Barred(st) {
      NumberedNext(st.players, e.entity, |st.players|);
      NumberedNext(st.sessions, e.session, |st.players|);
    }
  }

  lemma JoinedSent(codec: Codec, st: State, e: Entrant)
    requires Disciplined(st) && AllSent(codec, st)
    ensures Disciplined(Joined(st, e)) && AllSent(codec, Joined(st, e))
  {
    forall m ensures SentOk(codec, Joined(st, e), m) { assert SentOk(codec, st, m); }
  }

  lemma JoinKeeps(codec: Codec, st: State, e: Entrant, st': State)
    requires Kept(codec, st) && st.open && Joining(st)
    requires |st.players| <= 254 && e.entity !in st.players
    requires Encode(codec, JoinOf(e, |st.players| + 1)) != Err(Broken)
    requires st' == JoinOne(codec, st, e)
    ensures Kept(codec, st') && st'.open && Joining(st')
    ensures |st'.players| == |st.players| + 1 && st'.players == FirstKept(st.players, e.entity, NumberOf(st))
  {
    JoinedKeeps(st, e);
    JoinedSent(codec, st, e);
    var joined, join := Joined(st, e), JoinOf(e, |st.players| + 1);
    assert SentOk(codec, joined, joined.match_);
    QueueKeeps(codec, joined, join);
    assert st' == Queued(codec, joined, join);
  }

  lemma JoinsProperRest(codec: Codec, players: map<nat, byte>, count: nat, entrants: seq<Entrant>, n: byte)
    requires entrants != [] && JoinsProper(codec, players, count, entrants)
    ensures count <= 254 && entrants[0].entity !in players
    ensures Encode(codec, JoinOf(entrants[0], count + 1)) != Err(Broken)
    ensures JoinsProper(codec, FirstKept(players, entrants[0].entity, n), count + 1, entrants[1..])
  {
    assert Encode(codec, JoinOf(entrants[0], count + 0 + 1)) != Err(Broken);
    forall i | 0 <= i < |entrants[1..]|
      ensures Encode(codec, JoinOf(entrants[1..][i], count + 1 + i + 1)) != Err(Broken)
    {
      assert Encode(codec, JoinOf(entrants[i + 1], count + (i + 1) + 1)) != Err(Broken);
    }
  }

  lemma {:induction false} JoinsKeep(codec: Codec, st: State, entrants: seq<Entrant>)
    requires Kept(codec, st) && st.open && Joining(st)
    requires JoinsProper(codec, st.players, |st.players|, entrants)
    ensures Kept(codec, JoinAll(codec, st, entrants)) && JoinAll(codec, st, entrants).open
    decreases |entrants|
  {
    if entrants != [] {
      var e := entrants[0];
      JoinsProperRest(codec, st.players, |st.players|, entrants, NumberOf(st));
      var st' := JoinOne(codec, st, e);
      JoinKeeps(codec, st, e, st');
      JoinsKeep(codec, st', entrants[1..]);
    }
  }

  // ---------------------------------------------------------------- each input

  lemma UnopenedKeeps(codec: Codec, st: State)
    requires Kept(codec, st)
    ensures Kept(codec, Unopened(st)) && !Unopened(st).open
    ensures Sim(Unopened(st)).begun == Sim(st).begun && Sim(Unopened(st)).finished == Sim(st).finished
  {
    Told(st, CallClose(st.match_));
    forall m ensures SentOk(codec, Unopened(st), m) { assert SentOk(codec, st, m); }
  }

  lemma BegunKeeps(codec: Codec, st: State, m: MatchId, first: Tick)
    requires Kept(codec, st) && !st.open && !Sim(st).finished && m != NIL && m !in Sim(st).begun
    ensures Kept(codec, Begun(st, m, first)) && Joining(Begun(st, m, first)) && !Barred(Begun(st, m, first))
    ensures m !in Begun(st, m, first).headers && SentOf(Begun(st, m, first), m) == []
  {
    Told(st, CallBegin(m));
    var st' := Begun(st, m, first);
    assert Sim(st') == Called(Sim(st), CallBegin(m));
    assert SentOk(codec, st, m);
    forall k ensures SentOk(codec, st', k) { assert SentOk(codec, st, k); }
  }

  lemma UnencodedKeeps(codec: Codec, st: State, e: EncodeError)
    requires Kept(codec, st) && st.open
    ensures Kept(codec, Unencoded(st, e))
  {
    Told(st, CallStop(st.match_, RecordTooLong));
    forall m ensures SentOk(codec, Unencoded(st, e), m) { assert SentOk(codec, st, m); }
  }

  lemma OpenedKeeps(codec: Codec, st: State, header: Header, bytes: seq<byte>)
    requires Kept(codec, st) && st.open && Joining(st) && !Barred(st)
    requires st.match_ !in st.headers && SentOf(st, st.match_) == [] && EncodeHeader(codec, header) == Ok(bytes)
    ensures var st' := Opened(st, st.match_, header, bytes);
      Kept(codec, st') && st'.open && Joining(st')
  {
    var st' := Opened(st, st.match_, header, bytes);
    Told(st, CallOpen(st.match_, bytes));
    assert Sim(st') == Called(Sim(st), CallOpen(st.match_, bytes));
    assert SentOk(codec, st, st.match_);
    forall m ensures SentOk(codec, st', m) { assert SentOk(codec, st, m); }
  }

  lemma StartKeeps(codec: Codec, st: State, m: MatchId, entrants: seq<Entrant>, first: Tick, startedMs: int)
    requires Kept(codec, st) && !st.open && !Sim(st).finished && m != NIL && m !in Sim(st).begun
    requires JoinsProper(codec, map[], 0, entrants)
    ensures Kept(codec, Started(codec, st, m, entrants, first, startedMs))
  {
    var begun, header := Begun(st, m, first), HeaderOf(st, m, startedMs);
    BegunKeeps(codec, st, m, first);
    match EncodeHeader(codec, header) {
      case Err(e) => UnencodedKeeps(codec, begun, e);
      case Ok(bytes) =>
        OpenedKeeps(codec, begun, header, bytes);
        JoinsKeep(codec, Opened(begun, m, header, bytes), entrants);
    }
  }

  lemma LastTickMoves(codec: Codec, st: State, tick: Tick)
    requires AllSent(codec, st) && Disciplined(st)
    ensures Disciplined(st.(lastTick := tick)) && AllSent(codec, st.(lastTick := tick))
  {
    forall m ensures SentOk(codec, st.(lastTick := tick), m) { assert SentOk(codec, st, m); }
  }

  lemma EventSent(codec: Codec, st: State, i: Input)
    requires Kept(codec, st) && st.open && EventOf(st, i).Some? && Proper(codec, st, i)
    ensures var r, q := EventRecord(EventOf(st, i).value), Queued(codec, st, EventRecord(EventOf(st, i).value));
      && Disciplined(q) && AllSent(codec, q) && SentOk(codec, q, q.match_)
      && Barred(q) == (Barred(st) || Encode(codec, r) == Err(TooLong))
      && (!Barred(q) ==> Admits(Reader(st), r))
      && (!Barred(q) ==> Reader(q) == if Encode(codec, r).Ok? then After(Reader(st), r) else Reader(st))
  {
    assert SentOk(codec, st, st.match_);
    if !Barred(st) {
      EventAdmittedIff(st, i);
      EventCarried(st, i);
    }
    QueueKeeps(codec, st, EventRecord(EventOf(st, i).value));
  }

  lemma EventKeeps(codec: Codec, st: State, i: Input)
    requires Kept(codec, st) && st.open && EventOf(st, i).Some? && Proper(codec, st, i)
    ensures var st' := Recorded(codec, st, i);
      Disciplined(st') && st'.open && AllSent(codec, st') && (!i.EndMatch? ==> Live(st'))
  {
    var q := Queued(codec, st, EventRecord(EventOf(st, i).value));
    EventSent(codec, st, i);
    LastTickMoves(codec, q, i.tick);
    assert AdmitsAll(START, SentOf(q, q.match_));
  }

  lemma EndedKeeps(codec: Codec, st: State)
    requires Disciplined(st) && st.open && AllSent(codec, st)
    ensures Kept(codec, Ended(st))
  {
    Told(st, CallClose(st.match_));
    assert Sim(Ended(st)) == Called(Sim(st), CallClose(st.match_));
    forall m ensures SentOk(codec, Ended(st), m) { assert SentOk(codec, st, m); }
  }

  lemma EventDone(codec: Codec, st: State, i: Input)
    requires Kept(codec, st) && Proper(codec, st, i) && !i.StartMatch? && !i.Finish?
    ensures Kept(codec, Do(codec, st, i))
  {
    if st.open && EventOf(st, i).Some? {
      EventKeeps(codec, st, i);
      if i.EndMatch? { EndedKeeps(codec, Recorded(codec, st, i)); }
    }
  }

  lemma DoKeeps(codec: Codec, st: State, i: Input)
    requires Kept(codec, st) && Proper(codec, st, i)
    ensures Kept(codec, Do(codec, st, i))
  {
    match i {
      case StartMatch(halted, m, entrants, first, startedMs) =>
        UnopenedKeeps(codec, st);
        if !halted { StartKeeps(codec, Unopened(st), m, entrants, first, startedMs); }
      case Finish =>
        Told(st, CallFinish);
        var st' := Do(codec, st, i);
        assert Sim(st') == Called(Sim(st), CallFinish);
        forall m ensures SentOk(codec, st', m) { assert SentOk(codec, st, m); }
      case _ => EventDone(codec, st, i);
    }
  }

  // ---------------------------------------------------------------- runs

  /** What a run of inputs comes to, if each is proper in turn. */
  function DoAll(codec: Codec, st: State, inputs: seq<Input>): Option<State>
    decreases |inputs|
  {
    if inputs == [] then Some(st)
    else if !Proper(codec, st, inputs[0]) then None
    else DoAll(codec, Do(codec, st, inputs[0]), inputs[1..])
  }

  lemma {:induction false} DoAllKeeps(codec: Codec, st: State, inputs: seq<Input>)
    requires Kept(codec, st) && DoAll(codec, st, inputs).Some?
    ensures Kept(codec, DoAll(codec, st, inputs).value)
    decreases |inputs|
  {
    if inputs != [] {
      DoKeeps(codec, st, inputs[0]);
      DoAllKeeps(codec, Do(codec, st, inputs[0]), inputs[1..]);
    }
  }

  /**
   Over any proper run: the writer is called in order, and under each Match are pushed, until its
   capture is told to stop, records the reader admits one by one and the Link gives back unchanged.
   */
  lemma HandedOverInOrder(codec: Codec, base: Header, inputs: seq<Input>, m: MatchId)
    requires DoAll(codec, Initial(base), inputs).Some?
    ensures var st := DoAll(codec, Initial(base), inputs).value;
      && AllInOrder(st.calls)
      && EncodeAll(codec, SentOf(st, m)) == Ok(At(Sim(st).pushed, m))
      && AdmitsAll(START, SentOf(st, m))
      && CaptureReading.ReturnedAll(SentOf(st, m)) == SentOf(st, m)
  {
    InitialKept(codec, base);
    DoAllKeeps(codec, Initial(base), inputs);
    var st := DoAll(codec, Initial(base), inputs).value;
    assert SentOk(codec, st, m);
    forall i | 0 <= i < |SentOf(st, m)| ensures CaptureReading.Returned(SentOf(st, m)[i]) == SentOf(st, m)[i] {
      WireRoundTrip(SentOf(st, m)[i]);
    }
  }

  /** The file of the Match under way, were all that was sent of it written. */
  function FileOf(codec: Codec, st: State): seq<byte>
    requires st.match_ in st.headers && EncodeHeader(codec, st.headers[st.match_]).Ok?
    requires EncodeAll(codec, SentOf(st, st.match_)).Ok?
  {
    EncodeHeader(codec, st.headers[st.match_]).value + Concat(EncodeAll(codec, SentOf(st, st.match_)).value)
  }

  /**
   Where the Capturer is let down: a Death is recorded whoever killed, one who is no entrant as player 0.
   The file then reads back, with that record last, exactly when the killer is an entrant and the offset
   does not go back; else the whole file is refused, not just that record.
   */
  lemma DeathReadsBackIff(codec: Codec, st: State, tick: Tick, victim: nat, killer: nat)
    requires Faithful(codec) && Kept(codec, st) && st.open && !Barred(st) && st.match_ in st.headers
    requires victim in st.players
    requires Encode(codec, EventRecord(EventAt(OffsetOf(st, tick),
                                               Death(PlayerOf(st, victim), PlayerOf(st, killer))))).Ok?
    ensures var st' := Do(codec, st, PlayerDies(tick, victim, killer));
      && EncodeHeader(codec, st.headers[st.match_]).Ok? && st'.match_ == st.match_ && st'.headers == st.headers
      && EncodeAll(codec, SentOf(st', st.match_)).Ok?
      && CaptureFileOf(codec, Stream(FileOf(codec, st'), None)) ==
           if killer in st.players && OffsetOf(st, tick) >= Reader(st).lastOffset
           then Ok(CaptureFile(st.headers[st.match_], SentOf(st', st.match_), false)) else Err(Malformed)
  {
    var i, rs := PlayerDies(tick, victim, killer), SentOf(st, st.match_);
    var r := EventRecord(EventOf(st, i).value);
    assert SentOk(codec, st, st.match_);
    EventAdmittedIff(st, i);
    EncodeAllAppend(codec, rs, [r]);
    EncodeOne(codec, r);
    AdmitsSnoc(START, rs, r);
    assert SentOf(Do(codec, st, i), st.match_) == rs + [r];
    forall k | 0 <= k < |rs + [r]| ensures CaptureReading.Returned((rs + [r])[k]) == (rs + [r])[k] {
      WireRoundTrip((rs + [r])[k]);
    }
    assert CaptureReading.ReturnedAll(rs + [r]) == rs + [r];
    CaptureReading.WholeFileReadsBack(codec, st.headers[st.match_], rs + [r]);
  }

  lemma StrangersKillLosesTheFile(codec: Codec, st: State, tick: Tick, victim: nat, killer: nat)
    requires Faithful(codec) && Kept(codec, st) && st.open && !Barred(st) && st.match_ in st.headers
    requires victim in st.players && killer !in st.players
    requires Encode(codec, EventRecord(EventAt(OffsetOf(st, tick), Death(PlayerOf(st, victim), 0)))).Ok?
    ensures var st' := Do(codec, st, PlayerDies(tick, victim, killer));
      && EncodeHeader(codec, st.headers[st.match_]).Ok? && st'.match_ == st.match_ && st'.headers == st.headers
      && EncodeAll(codec, SentOf(st', st.match_)).Ok?
      && CaptureFileOf(codec, Stream(FileOf(codec, st'), None)) == Err(Malformed)
  {
    hide Kept, Encode, EncodeAll, EncodeHeader, CaptureFileOf, Do, Barred;
    DeathReadsBackIff(codec, st, tick, victim, killer);
  }

  // ---------------------------------------------------------------- one such run

  const VICTIM := Entrant(7, 1, "", Vec3(0.0, 0.0, 0.0))
  const STRANGER: nat := 9

  function AloneInMatch(codec: Codec, base: Header): State {
    Do(codec, Initial(base), StartMatch(false, 1, [VICTIM], 0, 0))
  }

  lemma AloneIsJoined(codec: Codec, base: Header)
    requires EncodeHeader(codec, HeaderOf(Initial(base), 1, 0)).Ok?
    ensures var header := HeaderOf(Initial(base), 1, 0);
      AloneInMatch(codec, base) ==
        JoinOne(codec, Opened(Begun(Initial(base), 1, 0), 1, header, EncodeHeader(codec, header).value), VICTIM)
  {
    hide Encode, EncodeHeader, JoinOne;
    var header := HeaderOf(Initial(base), 1, 0);
    var ready := Opened(Begun(Initial(base), 1, 0), 1, header, EncodeHeader(codec, header).value);
    var joined := JoinOne(codec, ready, VICTIM);
    assert [VICTIM][1..] == [] && JoinAll(codec, joined, []) == joined;
    assert Unopened(Initial(base)) == Initial(base);
  }

  /** The calls of a Match begun and opened, and of one Join pushed: none tells a capture to stop. */
  lemma NothingBarred(m: MatchId, header: seq<byte>, bytes: seq<byte>)
    ensures CalledAll([CallBegin(m), CallOpen(m, header), CallPush(m, bytes)]).barred == {}
  {
    var one, two := [CallBegin(m)], [CallBegin(m), CallOpen(m, header)];
    var calls := [CallBegin(m), CallOpen(m, header), CallPush(m, bytes)];
    assert one[..0] == [] && two[..1] == one && calls[..2] == two;
    assert CalledAll(one) == Called(NO_CALLS, CallBegin(m));
    assert CalledAll(two) == Called(CalledAll(one), CallOpen(m, header));
    assert CalledAll(calls) == Called(CalledAll(two), CallPush(m, bytes));
  }

  /** A Match of one entrant, begun: nothing is refused, and the stranger is none of its players. */
  lemma AloneIsReady(codec: Codec, base: Header)
    requires EncodeHeader(codec, HeaderOf(Initial(base), 1, 0)).Ok? && Encode(codec, JoinOf(VICTIM, 1)).Ok?
    ensures var st := AloneInMatch(codec, base);
      && st.open && st.match_ == 1 && !Barred(st) && 1 in st.headers
      && VICTIM.entity in st.players && STRANGER !in st.players && PlayerOf(st, VICTIM.entity) == 1
      && st.headers[1] == HeaderOf(Initial(base), 1, 0) && OffsetOf(st, 0) == 0
  {
    AloneIsJoined(codec, base);
    hide Encode, EncodeHeader, AloneInMatch, CalledAll;
    var header := EncodeHeader(codec, HeaderOf(Initial(base), 1, 0)).value;
    var bytes := Encode(codec, JoinOf(VICTIM, 1)).value;
    assert AloneInMatch(codec, base).calls == [CallBegin(1), CallOpen(1, header), CallPush(1, bytes)];
    NothingBarred(1, header, bytes);
  }

  lemma AloneIsProper(codec: Codec, base: Header)
    requires Encode(codec, JoinOf(VICTIM, 1)).Ok?
    ensures DoAll(codec, Initial(base), [StartMatch(false, 1, [VICTIM], 0, 0)]) == Some(AloneInMatch(codec, base))
  {
    hide Encode, Do;
    var start := StartMatch(false, 1, [VICTIM], 0, 0);
    assert Proper(codec, Initial(base), start);
    assert [start][1..] == [];
  }

  /** The input that loses a file: a Match of one, and a Death of whom it holds by whom it does not. */
  lemma AStrangerKills(codec: Codec, base: Header)
    requires Faithful(codec) && EncodeHeader(codec, HeaderOf(Initial(base), 1, 0)).Ok?
    requires Encode(codec, JoinOf(VICTIM, 1)).Ok? && Encode(codec, EventRecord(EventAt(0, Death(1, 0)))).Ok?
    ensures var st := Do(codec, AloneInMatch(codec, base), PlayerDies(0, VICTIM.entity, STRANGER));
      && st.match_ in st.headers && EncodeHeader(codec, st.headers[st.match_]).Ok?
      && EncodeAll(codec, SentOf(st, st.match_)).Ok?
      && CaptureFileOf(codec, Stream(FileOf(codec, st), None)) == Err(Malformed)
  {
    hide Encode, EncodeHeader, EncodeAll, CaptureFileOf, Kept, AloneInMatch, Do, Barred;
    AloneIsReady(codec, base);
    AloneIsProper(codec, base);
    InitialKept(codec, base);
    DoAllKeeps(codec, Initial(base), [StartMatch(false, 1, [VICTIM], 0, 0)]);
    StrangersKillLosesTheFile(codec, AloneInMatch(codec, base), 0, VICTIM.entity, STRANGER);
  }
}

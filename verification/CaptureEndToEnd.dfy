/**
 From the Simulation thread's inputs to what a reader gets: the Capturer's calls, the writer's runs
 and the disk's faults between them, and the file read back.
 */
module CaptureEndToEnd {
  import opened Common
  import opened CaptureFormat
  import CaptureReading
  import W = CaptureWriter
  import R = CaptureRuns
  import F = CaptureFates
  import C = Capturer
  import CapturerMeaning
  import CapturerOrder

  /** The Simulation thread's calls among a run's events. */
  function SimCalls(events: seq<R.Event>): seq<W.Call> {
    if events == [] then []
    else (if events[0].Sim? then [events[0].call] else []) + SimCalls(events[1..])
  }

  lemma NextSim(s: R.System, e: R.Event, calls: seq<W.Call>)
    requires R.Can(s, e) && s.sim == C.CalledAll(calls)
    ensures R.Next(s, e).sim == C.CalledAll(calls + if e.Sim? then [e.call] else [])
  {
    if e.Sim? {
      assert (calls + [e.call])[..|calls|] == calls;
    } else {
      assert calls + [] == calls;
    }
  }

  lemma SimCallsStep(events: seq<R.Event>, calls: seq<W.Call>)
    requires events != []
    ensures calls + SimCalls(events) ==
            (calls + if events[0].Sim? then [events[0].call] else []) + SimCalls(events[1..])
  {}

  lemma {:induction false} SimFollows(s: R.System, events: seq<R.Event>, calls: seq<W.Call>)
    requires R.Run(s, events).Some? && s.sim == C.CalledAll(calls)
    ensures R.Run(s, events).value.sim == C.CalledAll(calls + SimCalls(events))
    decreases |events|
  {
    if events == [] {
      assert calls + SimCalls(events) == calls;
    } else {
      NextSim(s, events[0], calls);
      SimCallsStep(events, calls);
      SimFollows(R.Next(s, events[0]), events[1..], calls + if events[0].Sim? then [events[0].call] else []);
    }
  }

  /** More calls only add records, and open each Match's file once. */
  lemma {:induction false} CallsGrow(calls: seq<W.Call>, all: seq<W.Call>, m: W.MatchId)
    requires calls <= all && C.AllInOrder(all)
    ensures W.At(C.CalledAll(calls).pushed, m) <= W.At(C.CalledAll(all).pushed, m)
    ensures m in C.CalledAll(calls).headers ==>
              m in C.CalledAll(all).headers && C.CalledAll(all).headers[m] == C.CalledAll(calls).headers[m]
    decreases |all|
  {
    if calls != all {
      assert calls <= all[..|all| - 1];
      CallsGrow(calls, all[..|all| - 1], m);
    }
  }

  /** Every proper run of inputs, every run of the writer on as many of its calls as were made. */
  ghost predicate Ran(codec: Codec, base: Header, inputs: seq<C.Input>, st: C.State,
                      mode: W.Mode, capacity: nat, events: seq<R.Event>, s: R.System)
  {
    && Faithful(codec)
    && CapturerOrder.DoAll(codec, C.Initial(base), inputs) == Some(st)
    && F.Reaches(mode, capacity, events, s)
    && SimCalls(events) <= st.calls
  }

  lemma HandedOver(codec: Codec, base: Header, inputs: seq<C.Input>, st: C.State,
                   mode: W.Mode, capacity: nat, events: seq<R.Event>, s: R.System, m: W.MatchId)
    requires Ran(codec, base, inputs, st, mode, capacity, events, s)
    ensures s.sim == C.CalledAll(SimCalls(events))
    ensures CapturerOrder.Readable(codec, C.SentOf(st, m), W.At(C.Sim(st).pushed, m))
    ensures W.At(s.sim.pushed, m) <= W.At(C.Sim(st).pushed, m)
    ensures m in s.sim.headers ==>
              m in st.headers && EncodeHeader(codec, st.headers[m]) == Ok(s.sim.headers[m])
  {
    assert [] + SimCalls(events) == SimCalls(events);
    SimFollows(R.Start(mode, capacity), events, []);
    CapturerOrder.InitialKept(codec, base);
    CapturerOrder.DoAllKeeps(codec, C.Initial(base), inputs);
    assert CapturerOrder.SentOk(codec, st, m);
    CallsGrow(SimCalls(events), st.calls, m);
  }

  /** The records a file of `n` bytes past its header holds whole. */
  ghost function WholeRecords(codec: Codec, rs: seq<Record>, n: nat): seq<Record>
    requires EncodeAll(codec, rs).Ok? && n <= |Concat(EncodeAll(codec, rs).value)|
  {
    CaptureReading.EncodedCount(codec, rs);
    rs[..CaptureReading.Whole(EncodeAll(codec, rs).value, n)]
  }

  /** What reading back `file` gives, for a Match whose header is `h` and whose records are `rs`. */
  ghost predicate ReadsAs(codec: Codec, h: Header, rs: seq<Record>, file: seq<byte>)
    requires EncodeHeader(codec, h).Ok? && EncodeAll(codec, rs).Ok?
  {
    var head, pieces := EncodeHeader(codec, h).value, EncodeAll(codec, rs).value;
    var n := |file| - |head|;
    if n < 0 then
      CaptureOf(codec, Stream(file, None)) == Err(if |file| < |MAGIC| then NotACapture else Unsupported(None))
    else
      && n <= |Concat(pieces)|
      && WholeRecords(codec, rs, n) <= rs
      && CaptureFileOf(codec, Stream(file, None)) ==
           Ok(CaptureFile(h, WholeRecords(codec, rs, n), n != |Concat(pieces[..|WholeRecords(codec, rs, n)|])|))
  }

  /** A file that is a cut of readable records reads back as those it holds whole. */
  lemma CutReads(codec: Codec, h: Header, rs: seq<Record>, pushed: seq<seq<byte>>, file: seq<byte>)
    requires Faithful(codec) && EncodeHeader(codec, h).Ok? && CapturerOrder.Readable(codec, rs, pushed)
    requires file <= EncodeHeader(codec, h).value + Concat(pushed)
    ensures ReadsAs(codec, h, rs, file)
  {
    var head := EncodeHeader(codec, h).value;
    var n := |file| - |head|;
    if n < 0 {
      assert file == head[..|file|];
      CaptureReading.CutHeaderIsRefused(codec, h, |file|);
    } else {
      assert file == head + Concat(pushed)[..n];
      CaptureReading.CutFileReadsBack(codec, h, rs, n);
      PrefixReadable(rs, CaptureReading.Whole(pushed, n));
    }
  }

  lemma PrefixReadable(rs: seq<Record>, k: nat)
    requires k <= |rs| && AdmitsAll(START, rs) && forall i :: 0 <= i < |rs| ==> Carried(rs[i])
    ensures AdmitsAll(START, rs[..k]) && CaptureReading.ReturnedAll(rs[..k]) == rs[..k]
  {
    assert rs == rs[..k] + rs[k..];
    CapturerOrder.AdmitsAppend(START, rs[..k], rs[k..]);
    forall i | 0 <= i < k ensures CaptureReading.Returned(rs[i]) == rs[i] { WireRoundTrip(rs[i]); }
  }

  /**
   Whatever the interleaving, the faults and the losses, every Match's file on disk reads back: cut in
   its header it is refused as having none, and else it gives a header that is the server's own with the
   Match's ID and the time it was started at, and an unbroken prefix, in order, of the very records
   captured under it, torn exactly when a fragment follows them.
   */
  lemma FilesReadBack(codec: Codec, base: Header, inputs: seq<C.Input>, st: C.State,
                      mode: W.Mode, capacity: nat, events: seq<R.Event>, s: R.System, m: W.MatchId)
    requires Ran(codec, base, inputs, st, mode, capacity, events, s) && m in s.w.disk
    ensures m in st.headers && EncodeHeader(codec, st.headers[m]).Ok? && EncodeAll(codec, C.SentOf(st, m)).Ok?
    ensures ReadsAs(codec, st.headers[m], C.SentOf(st, m), s.w.disk[m])
    ensures var h := st.headers[m];
      h == base.(match_ := m, startedMs := h.startedMs) && CapturerMeaning.StartedAt(inputs, m, h.startedMs)
  {
    HandedOver(codec, base, inputs, st, mode, capacity, events, s, m);
    F.FilesArePrefixes(mode, capacity, events, s, m);
    CapturerMeaning.HeadersNameTheirMatch(codec, C.Initial(base), inputs, m);
    ConcatPrefix(W.At(s.sim.pushed, m), W.At(C.Sim(st).pushed, m));
    CutReads(codec, st.headers[m], C.SentOf(st, m), W.At(C.Sim(st).pushed, m), s.w.disk[m]);
  }

  /** With every call made and carried out and nothing lost, each file gives back every record captured. */
  lemma NothingLostReadsWhole(codec: Codec, base: Header, inputs: seq<C.Input>, st: C.State,
                              mode: W.Mode, capacity: nat, events: seq<R.Event>, s: R.System, m: W.MatchId)
    requires Ran(codec, base, inputs, st, mode, capacity, events, s) && SimCalls(events) == st.calls
    requires W.Drained(s.w) && s.w.loss.None? && m in st.headers
    ensures m in s.w.disk
    ensures CaptureFileOf(codec, Stream(s.w.disk[m], None)) == Ok(CaptureFile(st.headers[m], C.SentOf(st, m), false))
  {
    HandedOver(codec, base, inputs, st, mode, capacity, events, s, m);
    CapturerOrder.InitialKept(codec, base);
    CapturerOrder.DoAllKeeps(codec, C.Initial(base), inputs);
    assert CapturerOrder.SentOk(codec, st, m);
    F.NothingLostIsComplete(mode, capacity, events, s, m);
    CaptureReading.WholeFileReadsBack(codec, st.headers[m], C.SentOf(st, m));
    CapturerOrder.HandedOverInOrder(codec, base, inputs, m);
  }
}

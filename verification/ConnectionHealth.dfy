/**
 The gauges of every Session's connection, in a fixed set of slots: after any record of samples they
 are what an unbounded table of the Sessions sampled would hold.
 */
module ConnectionHealth {
  import opened Common

  const SLOT_COUNT := 8
  const SESSION_BYTES := 16
  const VALUE_COUNT := 7

  type Session = s: seq<byte> | |s| == SESSION_BYTES witness seq(SESSION_BYTES, _ => 0)

  /** A Session's gauges in base units, None until first measured. */
  type Values = v: seq<Option<real>> | |v| == VALUE_COUNT witness seq(VALUE_COUNT, _ => None)

  datatype Gauges = Gauges(session: Session, values: Values)

  /** Every Session's gauges, one slot each. */
  type Slots = s: seq<Option<Gauges>> | |s| == SLOT_COUNT witness seq(SLOT_COUNT, _ => None)

  /** What the transport says of a connection; negative where it has not measured yet. */
  datatype Stats = Stats(
    pingMs: int, qualityLocal: real, qualityRemote: real, maxJitterUs: int,
    inBytesPerSec: real, outBytesPerSec: real, pendingBytes: int)

  datatype Sample = Sample(session: Option<Session>, stats: Stats)

  function Measured(value: real, perBaseUnit: real): Option<real>
    requires perBaseUnit > 0.0
  {
    if value >= 0.0 then Some(value / perBaseUnit) else None
  }

  /** Each gauge as measured now: what is carried and pending always is. */
  function MeasuredOf(s: Stats): Values {
    [Measured(s.pingMs as real, 1000.0), Measured(s.qualityLocal, 1.0), Measured(s.qualityRemote, 1.0),
     Measured(s.maxJitterUs as real, 1000000.0), Some(s.inBytesPerSec), Some(s.outBytesPerSec),
     Some(s.pendingBytes as real)]
  }

  /** Whether `gauge` shows `value`, measured in so many to a base unit: nothing while it is negative. */
  predicate Shows(gauge: Option<real>, value: real, perBaseUnit: real) {
    if value < 0.0 then gauge.None? else gauge.Some? && gauge.value * perBaseUnit == value
  }

  /** Which statistic each gauge shows, and in what unit: seconds, ratios, bytes a second, bytes. */
  lemma GaugesShow(s: Stats)
    ensures var g := MeasuredOf(s);
      && Shows(g[0], s.pingMs as real, 1000.0) && Shows(g[1], s.qualityLocal, 1.0)
      && Shows(g[2], s.qualityRemote, 1.0) && Shows(g[3], s.maxJitterUs as real, 1000000.0)
      && g[4] == Some(s.inBytesPerSec) && g[5] == Some(s.outBytesPerSec) && g[6] == Some(s.pendingBytes as real)
  {}

  const NOT_MEASURED: Values := [None, None, None, None, None, None, None]

  function Merged(held: Values, measured: Values): Values {
    seq(VALUE_COUNT, i requires 0 <= i < VALUE_COUNT => if measured[i].Some? then measured[i] else held[i])
  }

  // ---------------------------------------------------------------- the table it stands for

  predicate Sampled(samples: seq<Sample>, session: Session) {
    exists i :: 0 <= i < |samples| && samples[i].session == Some(session)
  }

  /** The Sessions and their gauges, were there room for any number. */
  type Table = map<Session, Values>

  function Without(t: Table, samples: seq<Sample>): Table {
    map session | session in t && Sampled(samples, session) :: t[session]
  }

  function Measure(t: Table, session: Session, stats: Stats): Table {
    t[session := Merged(if session in t then t[session] else NOT_MEASURED, MeasuredOf(stats))]
  }

  function MeasureAll(t: Table, samples: seq<Sample>): Table {
    if samples == [] then t
    else
      var n := |samples| - 1;
      var before := MeasureAll(t, samples[..n]);
      if samples[n].session.None? then before else Measure(before, samples[n].session.value, samples[n].stats)
  }

  /** As far as the slots go: a Session with none left for it is passed over. */
  function MeasureIn(t: Table, session: Session, stats: Stats): Table {
    if session in t || |t.Keys| < SLOT_COUNT then Measure(t, session, stats) else t
  }

  function MeasureAllIn(t: Table, samples: seq<Sample>): Table {
    if samples == [] then t
    else
      var n := |samples| - 1;
      var before := MeasureAllIn(t, samples[..n]);
      if samples[n].session.None? then before else MeasureIn(before, samples[n].session.value, samples[n].stats)
  }

  /** Of Sessions without gauges one is measured only while fewer than 8 have them, so there are never more. */
  lemma NeverMoreThanSlots(t: Table, session: Session, stats: Stats)
    requires |t.Keys| <= 8
    ensures |MeasureIn(t, session, stats).Keys| <= 8
    ensures session in MeasureIn(t, session, stats) <==> session in t || |t.Keys| <= 7
    ensures session !in t && |t.Keys| == 8 ==> MeasureIn(t, session, stats) == t
  {
    if session in t {
      assert Measure(t, session, stats).Keys == t.Keys;
    } else {
      assert Measure(t, session, stats).Keys == t.Keys + {session};
    }
  }

  /** The newest value measured of a gauge over a Session's samples. */
  function Newest(history: seq<Stats>, i: nat): Option<real>
    requires i < VALUE_COUNT
  {
    if history == [] then None
    else
      var n := |history| - 1;
      if MeasuredOf(history[n])[i].Some? then MeasuredOf(history[n])[i] else Newest(history[..n], i)
  }

  function MergedFrom(held: Values, history: seq<Stats>): Values {
    if history == [] then held
    else Merged(MergedFrom(held, history[..|history| - 1]), MeasuredOf(history[|history| - 1]))
  }

  lemma {:induction false} MergedIsNewest(history: seq<Stats>, i: nat)
    requires i < VALUE_COUNT
    ensures MergedFrom(NOT_MEASURED, history)[i] == Newest(history, i)
  {
    if history != [] { MergedIsNewest(history[..|history| - 1], i); }
  }

  lemma {:induction false} MergedFromAppend(held: Values, a: seq<Stats>, b: seq<Stats>)
    ensures MergedFrom(held, a + b) == MergedFrom(MergedFrom(held, a), b)
  {
    hide Merged, MeasuredOf;
    if b == [] {
      assert a + b == a;
    } else {
      assert (a + b)[..|a + b| - 1] == a + b[..|b| - 1];
      MergedFromAppend(held, a, b[..|b| - 1]);
    }
  }

  /** What one record's samples say of a Session, in order. */
  function StatsOf(samples: seq<Sample>, session: Session): seq<Stats> {
    if samples == [] then []
    else
      var n := |samples| - 1;
      StatsOf(samples[..n], session) + if samples[n].session == Some(session) then [samples[n].stats] else []
  }

  lemma {:induction false} MeasuredOne(t: Table, samples: seq<Sample>, session: Session)
    ensures session in MeasureAll(t, samples) <==> session in t || StatsOf(samples, session) != []
    ensures session in MeasureAll(t, samples) ==>
              MeasureAll(t, samples)[session]
              == MergedFrom(if session in t then t[session] else NOT_MEASURED, StatsOf(samples, session))
  {
    hide Merged, MeasuredOf;
    if samples != [] {
      var n := |samples| - 1;
      MeasuredOne(t, samples[..n], session);
      var before := StatsOf(samples[..n], session);
      if samples[n].session == Some(session) {
        MergedFromSnoc(if session in t then t[session] else NOT_MEASURED, before, samples[n].stats);
      } else {
        assert StatsOf(samples, session) == before;
      }
    }
  }

  lemma MergedFromSnoc(held: Values, history: seq<Stats>, x: Stats)
    ensures MergedFrom(held, history + [x]) == Merged(MergedFrom(held, history), MeasuredOf(x))
  {
    hide Merged, MeasuredOf;
    assert (history + [x])[..|history|] == history;
  }

  lemma {:induction false} SampledHasStats(samples: seq<Sample>, session: Session)
    ensures Sampled(samples, session) <==> StatsOf(samples, session) != []
  {
    SampledIff(samples, session);
    if samples != [] {
      var n := |samples| - 1;
      SampledHasStats(samples[..n], session);
      SampledIff(samples[..n], session);
    }
  }

  /** The table after every record of samples in turn. */
  function Recorded(records: seq<seq<Sample>>): Table {
    if records == [] then map[]
    else
      var n := |records| - 1;
      MeasureAll(Without(Recorded(records[..n]), records[n]), records[n])
  }

  /** All that was said of a Session since it appeared: since the last record without it. */
  ghost function History(records: seq<seq<Sample>>, session: Session): seq<Stats> {
    if records == [] || !Sampled(records[|records| - 1], session) then []
    else History(records[..|records| - 1], session) + StatsOf(records[|records| - 1], session)
  }

  lemma {:induction false} RecordedIsMerged(records: seq<seq<Sample>>, session: Session)
    ensures session in Recorded(records) <==> records != [] && Sampled(records[|records| - 1], session)
    ensures session in Recorded(records) ==>
              Recorded(records)[session] == MergedFrom(NOT_MEASURED, History(records, session))
  {
    hide Merged, MeasuredOf;
    if records != [] {
      var n := |records| - 1;
      var before, now := History(records[..n], session), StatsOf(records[n], session);
      RecordedIsMerged(records[..n], session);
      MeasuredOne(Without(Recorded(records[..n]), records[n]), records[n], session);
      SampledHasStats(records[n], session);
      MergedFromAppend(NOT_MEASURED, before, now);
      assert [] + now == now;
    }
  }

  /** A Session has gauges while it is sampled, each its newest measured value since it appeared. */
  lemma GaugesAreNewest(records: seq<seq<Sample>>, session: Session, i: nat)
    requires i < VALUE_COUNT
    ensures session in Recorded(records) <==> records != [] && Sampled(records[|records| - 1], session)
    ensures session in Recorded(records) ==> Recorded(records)[session][i] == Newest(History(records, session), i)
  {
    RecordedIsMerged(records, session);
    MergedIsNewest(History(records, session), i);
  }

  // ---------------------------------------------------------------- slots

  predicate InSlot(slots: Slots, i: nat, session: Session) {
    i < SLOT_COUNT && slots[i].Some? && slots[i].value.session == session
  }

  /** No Session has two slots. */
  predicate Apart(slots: Slots) {
    forall i, j :: 0 <= i < j < SLOT_COUNT && slots[i].Some? && slots[j].Some? ==>
      slots[i].value.session != slots[j].value.session
  }

  ghost predicate Held(slots: Slots, session: Session) { exists i :: InSlot(slots, i, session) }

  /** Whether the slots are the table: each Session once, with its gauges. */
  ghost predicate Holds(slots: Slots, t: Table) {
    && Apart(slots)
    && (forall i :: 0 <= i < SLOT_COUNT && slots[i].Some? ==>
          slots[i].value.session in t && t[slots[i].value.session] == slots[i].value.values)
    && (forall session :: session in t ==> Held(slots, session))
  }

  function Sessions(slots: Slots, n: nat): set<Session>
    requires n <= SLOT_COUNT
  {
    if n == 0 then {}
    else Sessions(slots, n - 1) + if slots[n - 1].Some? then {slots[n - 1].value.session} else {}
  }

  lemma {:induction false} NotAmong(slots: Slots, n: nat, session: Session)
    requires n <= SLOT_COUNT && forall i :: 0 <= i < n ==> !InSlot(slots, i, session)
    ensures session !in Sessions(slots, n)
  {
    if n > 0 {
      NotAmong(slots, n - 1, session);
      assert !InSlot(slots, n - 1, session);
    }
  }

  /** Full slots hold as many Sessions as there are slots. */
  lemma {:induction false} FullHoldsAll(slots: Slots, t: Table, n: nat)
    requires n <= SLOT_COUNT && Holds(slots, t) && forall i :: 0 <= i < n ==> slots[i].Some?
    ensures |Sessions(slots, n)| == n && Sessions(slots, n) <= t.Keys
  {
    if n > 0 {
      FullHoldsAll(slots, t, n - 1);
      NotAmong(slots, n - 1, slots[n - 1].value.session);
    }
  }

  lemma SubsetSize<T>(a: set<T>, b: set<T>)
    requires a <= b
    ensures |a| <= |b|
  {
    if a != {} {
      var x :| x in a;
      SubsetSize(a - {x}, b - {x});
    }
  }

  lemma {:induction false} OneFreeHoldsFewer(slots: Slots, n: nat, free: nat)
    requires n <= SLOT_COUNT && (free < n ==> slots[free].None?)
    ensures |Sessions(slots, n)| <= n && (free < n ==> |Sessions(slots, n)| < n)
  {
    if n > 0 { OneFreeHoldsFewer(slots, n - 1, free); }
  }

  lemma {:induction false} SlotAmong(slots: Slots, n: nat, i: nat)
    requires i < n <= SLOT_COUNT && slots[i].Some?
    ensures slots[i].value.session in Sessions(slots, n)
  {
    if i < n - 1 { SlotAmong(slots, n - 1, i); }
  }

  /** A slot is free exactly while fewer Sessions than slots have gauges. */
  lemma RoomIff(slots: Slots, t: Table)
    requires Holds(slots, t)
    ensures (exists i :: 0 <= i < 8 && slots[i].None?) <==> |t.Keys| < 8
  {
    if i :| 0 <= i < SLOT_COUNT && slots[i].None? {
      OneFreeHoldsFewer(slots, SLOT_COUNT, i);
      forall session | session in t.Keys ensures session in Sessions(slots, SLOT_COUNT) {
        assert Held(slots, session);
        var j :| InSlot(slots, j, session);
        SlotAmong(slots, SLOT_COUNT, j);
      }
      SubsetSize(t.Keys, Sessions(slots, SLOT_COUNT));
    } else {
      FullHoldsAll(slots, t, SLOT_COUNT);
      SubsetSize(Sessions(slots, SLOT_COUNT), t.Keys);
    }
  }

  lemma SetHolds(slots: Slots, t: Table, i: nat, session: Session, values: Values)
    requires Holds(slots, t) && i < SLOT_COUNT
    requires InSlot(slots, i, session) || (slots[i].None? && session !in t)
    ensures Holds(slots[i := Some(Gauges(session, values))], t[session := values])
  {
    var slots': Slots, t' := slots[i := Some(Gauges(session, values))], t[session := values];
    forall s | s in t' ensures Held(slots', s) {
      if s == session {
        assert InSlot(slots', i, s);
      } else {
        assert Held(slots, s);
        var j :| InSlot(slots, j, s);
        assert InSlot(slots', j, s);
      }
    }
  }

  function Kept(slots: Slots, samples: seq<Sample>): Slots {
    seq(SLOT_COUNT, i requires 0 <= i < SLOT_COUNT =>
      if slots[i].Some? && !Sampled(samples, slots[i].value.session) then None else slots[i])
  }

  lemma KeptHolds(slots: Slots, t: Table, samples: seq<Sample>)
    requires Holds(slots, t)
    ensures Holds(Kept(slots, samples), Without(t, samples))
  {
    var slots', t' := Kept(slots, samples), Without(t, samples);
    forall s | s in t' ensures Held(slots', s) {
      assert Held(slots, s);
      var i :| InSlot(slots, i, s);
      assert InSlot(slots', i, s);
    }
  }

  function SampledSessions(samples: seq<Sample>): set<Session> {
    if samples == [] then {}
    else
      var n := |samples| - 1;
      SampledSessions(samples[..n]) + if samples[n].session.Some? then {samples[n].session.value} else {}
  }

  /** Every Session sampled is in the table, and none else once the ended are gone. */
  lemma {:induction false} MeasuredKeys(t: Table, samples: seq<Sample>, all: set<Session>)
    requires t.Keys <= all && SampledSessions(samples) <= all
    ensures MeasureAll(t, samples).Keys == t.Keys + SampledSessions(samples)
    ensures MeasureAll(t, samples).Keys <= all
  {
    if samples != [] { MeasuredKeys(t, samples[..|samples| - 1], all); }
  }

  lemma {:induction false} SampledIff(samples: seq<Sample>, session: Session)
    ensures session in SampledSessions(samples) <==> Sampled(samples, session)
  {
    if samples != [] {
      var n := |samples| - 1;
      SampledIff(samples[..n], session);
      if Sampled(samples[..n], session) {
        var i :| 0 <= i < n && samples[..n][i].session == Some(session);
        assert samples[i].session == Some(session);
      }
      if Sampled(samples, session) && samples[n].session != Some(session) {
        var i :| 0 <= i < |samples| && samples[i].session == Some(session);
        assert samples[..n][i].session == Some(session);
      }
    }
  }

  // ---------------------------------------------------------------- the object

  class Sampler {
    const sessions: array<Option<Gauges>>
    ghost var table: Table

    function State(): Slots
      reads this, sessions
      requires sessions.Length == SLOT_COUNT
    {
      sessions[..]
    }

    /** The slots are the table. */
    ghost predicate Valid()
      reads this, sessions
    {
      sessions.Length == SLOT_COUNT && Holds(State(), table)
    }

    constructor ()
      ensures Valid() && table == map[] && fresh(sessions)
    {
      sessions := new Option<Gauges>[SLOT_COUNT](_ => None);
      table := map[];
    }

    /** The slot `session` is in, or else the first that is free, if any is. */
    method SlotOf(session: Session) returns (slot: Option<nat>)
      requires sessions.Length == SLOT_COUNT
      ensures slot.Some? ==> slot.value < SLOT_COUNT
      ensures Held(State(), session) ==> slot.Some? && InSlot(State(), slot.value, session)
      ensures !Held(State(), session) && slot.Some? ==>
                State()[slot.value].None? && forall i :: 0 <= i < slot.value ==> State()[i].Some?
      ensures slot.None? ==> forall i :: 0 <= i < SLOT_COUNT ==> State()[i].Some?
    {
      var free: Option<nat>, i := None, 0;
      while i < SLOT_COUNT
        invariant i <= SLOT_COUNT && forall k :: 0 <= k < i ==> !InSlot(State(), k, session)
        invariant free.Some? ==> free.value < i && sessions[free.value].None?
        invariant forall k :: 0 <= k < (if free.Some? then free.value else i) ==> sessions[k].Some?
      {
        if sessions[i].None? {
          if free.None? { free := Some(i); }
        } else if sessions[i].value.session == session {
          assert InSlot(State(), i, session);
          return Some(i);
        }
        i := i + 1;
      }
      return free;
    }

    method SetGauges(session: Session, stats: Stats)
      requires Valid()
      modifies this`table, sessions
      ensures Valid() && table == MeasureIn(old(table), session, stats)
    {
      var slot := SlotOf(session);
      RoomIff(State(), table);
      assert session in table <==> Held(State(), session);
      if slot.None? { return; }
      var i := slot.value;
      var gauges := Gauges(session, NOT_MEASURED);
      if sessions[i].Some? { gauges := sessions[i].value; }
      var merged := Merged(gauges.values, MeasuredOf(stats));
      SetHolds(State(), table, i, session, merged);
      ghost var next: Slots := State()[i := Some(Gauges(session, merged))];
      sessions[i] := Some(gauges.(values := merged));
      table := Measure(table, session, stats);
      assert State() == next;
    }

    method RemoveEnded(samples: seq<Sample>)
      requires Valid()
      modifies this`table, sessions
      ensures Valid() && table == Without(old(table), samples)
    {
      ghost var before := State();
      var i := 0;
      while i < SLOT_COUNT
        invariant i <= SLOT_COUNT && sessions.Length == SLOT_COUNT && table == old(table)
        invariant forall k :: 0 <= k < i ==> sessions[k] == Kept(before, samples)[k]
        invariant forall k :: i <= k < SLOT_COUNT ==> sessions[k] == before[k]
      {
        if sessions[i].Some? {
          var found := AnyOf(samples, sessions[i].value.session);
          if !found { sessions[i] := None; }
        }
        i := i + 1;
      }
      KeptHolds(before, table, samples);
      table := Without(table, samples);
      assert State() == Kept(before, samples);
    }

    static method AnyOf(samples: seq<Sample>, session: Session) returns (found: bool)
      ensures found == Sampled(samples, session)
    {
      var i := 0;
      while i < |samples|
        invariant i <= |samples| && forall k :: 0 <= k < i ==> samples[k].session != Some(session)
      {
        if samples[i].session == Some(session) { return true; }
        i := i + 1;
      }
      return false;
    }

    /**
     The ended removed first, so that their slots are free, then every sample in turn: with a slot to
     each Session sampled, the table is as it would be without bound.
     */
    method Record(samples: seq<Sample>)
      requires Valid()
      modifies this`table, sessions
      ensures Valid() && table == MeasureAllIn(Without(old(table), samples), samples)
      ensures |SampledSessions(samples)| <= 8 ==>
                table == MeasureAll(Without(old(table), samples), samples) && table.Keys == SampledSessions(samples)
    {
      RemoveEnded(samples);
      hide Holds, Sampled;
      ghost var start := table;
      KeptSampled(old(table), samples);
      var i := 0;
      while i < |samples|
        invariant i <= |samples| && Valid() && table == MeasureAllIn(start, samples[..i])
      {
        MeasureNext(start, samples, i);
        if samples[i].session.Some? { SetGauges(samples[i].session.value, samples[i].stats); }
        i := i + 1;
      }
      assert samples[..i] == samples;
      if |SampledSessions(samples)| <= SLOT_COUNT {
        RoomForAll(start, samples, SampledSessions(samples));
        MeasuredKeys(start, samples, SampledSessions(samples));
      }
    }
  }

  lemma KeptSampled(t: Table, samples: seq<Sample>)
    ensures Without(t, samples).Keys <= SampledSessions(samples)
  {
    forall s | s in Without(t, samples) ensures s in SampledSessions(samples) { SampledIff(samples, s); }
  }

  /** With a slot to each Session, none is passed over. */
  lemma {:induction false} RoomForAll(start: Table, samples: seq<Sample>, all: set<Session>)
    requires start.Keys <= all && SampledSessions(samples) <= all && |all| <= SLOT_COUNT
    ensures MeasureAllIn(start, samples) == MeasureAll(start, samples)
  {
    hide Measure;
    if samples != [] {
      var n := |samples| - 1;
      RoomForAll(start, samples[..n], all);
      MeasuredKeys(start, samples[..n], all);
      if samples[n].session.Some? { RoomForOne(MeasureAll(start, samples[..n]), all, samples[n].session.value); }
    }
  }

  lemma RoomForOne(t: Table, all: set<Session>, session: Session)
    requires t.Keys <= all && session in all && |all| <= SLOT_COUNT
    ensures session in t || |t.Keys| < SLOT_COUNT
  {
    if session !in t { SubsetSize(t.Keys, all - {session}); }
  }

  /** The table over a run of records, as far as the slots go. */
  function RecordedIn(records: seq<seq<Sample>>): Table {
    if records == [] then map[]
    else
      var n := |records| - 1;
      MeasureAllIn(Without(RecordedIn(records[..n]), records[n]), records[n])
  }

  /** While no more Sessions than slots are sampled at once, the slots lose nothing. */
  lemma {:induction false} SlotsLoseNothing(records: seq<seq<Sample>>)
    requires forall i :: 0 <= i < |records| ==> |SampledSessions(records[i])| <= 8
    ensures RecordedIn(records) == Recorded(records)
  {
    hide MeasureAll, MeasureAllIn, Without, SampledSessions;
    if records != [] {
      var n := |records| - 1;
      SlotsLoseNothing(records[..n]);
      KeptSampled(Recorded(records[..n]), records[n]);
      RoomForAll(Without(Recorded(records[..n]), records[n]), records[n], SampledSessions(records[n]));
    }
  }

  /** After each sample, the table has measured it. */
  lemma MeasureNext(start: Table, samples: seq<Sample>, i: nat)
    requires i < |samples|
    ensures MeasureAllIn(start, samples[..i + 1]) ==
            if samples[i].session.None? then MeasureAllIn(start, samples[..i])
            else MeasureIn(MeasureAllIn(start, samples[..i]), samples[i].session.value, samples[i].stats)
  {
    hide MeasureIn;
    assert samples[..i + 1][..i] == samples[..i] && samples[..i + 1][i] == samples[i];
  }
}

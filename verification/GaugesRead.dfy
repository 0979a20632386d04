/**
 From the samples recorded to what a reader gets: each record published whole as it is made, and a read
 at any time, under every interleaving, that gives one single record's gauges.
 */
module GaugesRead {
  import opened Common
  import opened ConnectionHealth
  import opened Seqlock

  /** One record made, and the slots it publishes: they hold the table the records so far come to. */
  method RecordAndPublish(sampler: Sampler, ghost records: seq<seq<Sample>>, samples: seq<Sample>)
    returns (slots: Slots)
    requires sampler.Valid() && sampler.table == RecordedIn(records)
    modifies sampler`table, sampler.sessions
    ensures sampler.Valid() && sampler.table == RecordedIn(records + [samples])
    ensures Holds(slots, RecordedIn(records + [samples]))
  {
    hide Holds, MeasureAll, MeasureAllIn, Without;
    assert (records + [samples])[..|records|] == records;
    sampler.Record(samples);
    slots := sampler.State();
  }

  ghost predicate HoldsRecord(slots: Slots, records: seq<seq<Sample>>, k: nat) {
    k < |records| && Holds(slots, RecordedIn(records[..k + 1]))
  }

  /** Whether each publish a run begins is of the next record. */
  ghost predicate PublishesRecords(s: System, events: seq<Event>, records: seq<seq<Sample>>)
    requires Run(s, events).Some?
    decreases |events|
  {
    events != [] ==>
      && (events[0].PublishBegins? ==> HoldsRecord(events[0].slots, records, |s.published|))
      && PublishesRecords(Step(s, events[0]), events[1..], records)
  }

  ghost predicate OfRecords(s: System, records: seq<seq<Sample>>) {
    && (forall k :: 0 <= k < |s.published| ==> HoldsRecord(s.published[k], records, k))
    && (s.writer.Writing? ==> HoldsRecord(s.writer.slots, records, |s.published|))
  }

  lemma StepOfRecords(s: System, e: Event, records: seq<seq<Sample>>)
    requires OfRecords(s, records) && Can(s, e)
    requires e.PublishBegins? ==> HoldsRecord(e.slots, records, |s.published|)
    ensures OfRecords(Step(s, e), records)
  {
    hide HoldsRecord, Store, Load;
  }

  lemma {:induction false} RunOfRecords(s: System, events: seq<Event>, records: seq<seq<Sample>>)
    requires OfRecords(s, records) && Run(s, events).Some? && PublishesRecords(s, events, records)
    ensures OfRecords(Run(s, events).value, records)
    decreases |events|
  {
    hide OfRecords, HoldsRecord;
    if events != [] {
      StepOfRecords(s, events[0], records);
      RunOfRecords(Step(s, events[0]), events[1..], records);
    }
  }

  // ---------------------------------------------------------------- what the slots show

  lemma {:induction false} ShownIff(slots: Slots, n: nat, g: Gauges)
    requires n <= SLOT_COUNT
    ensures g in Shown(slots, n) <==> exists i :: 0 <= i < n && slots[i] == Some(g)
  {
    if n > 0 { ShownIff(slots, n - 1, g); }
  }

  lemma {:induction false} ShownApart(slots: Slots, n: nat)
    requires n <= SLOT_COUNT && Apart(slots)
    ensures forall j, k :: 0 <= j < k < |Shown(slots, n)| ==> Shown(slots, n)[j].session != Shown(slots, n)[k].session
  {
    if n > 0 {
      ShownApart(slots, n - 1);
      var before := Shown(slots, n - 1);
      if slots[n - 1].Some? {
        forall j | 0 <= j < |before| ensures before[j].session != slots[n - 1].value.session {
          ShownIff(slots, n - 1, before[j]);
          var i :| 0 <= i < n - 1 && slots[i] == Some(before[j]);
        }
      }
    }
  }

  /** Whether `shown` are `t`'s Sessions, each once, with its gauges. */
  ghost predicate ShowsTable(shown: seq<Gauges>, t: Table) {
    && (forall j, k :: 0 <= j < k < |shown| ==> shown[j].session != shown[k].session)
    && (forall j :: 0 <= j < |shown| ==> shown[j].session in t && t[shown[j].session] == shown[j].values)
    && (forall session :: session in t ==> exists j :: 0 <= j < |shown| && shown[j].session == session)
  }

  lemma HeldIsShown(slots: Slots, t: Table)
    requires Holds(slots, t)
    ensures ShowsTable(Shown(slots, SLOT_COUNT), t)
  {
    hide Shown;
    var shown := Shown(slots, SLOT_COUNT);
    ShownApart(slots, SLOT_COUNT);
    forall j | 0 <= j < |shown| ensures shown[j].session in t && t[shown[j].session] == shown[j].values {
      ShownIff(slots, SLOT_COUNT, shown[j]);
    }
    forall session | session in t ensures exists j :: 0 <= j < |shown| && shown[j].session == session {
      assert Held(slots, session);
      var i: nat :| InSlot(slots, i, session);
      ShownIff(slots, SLOT_COUNT, slots[i].value);
    }
  }

  lemma {:induction false} NothingShown(slots: Slots, n: nat)
    requires n <= SLOT_COUNT && forall i :: 0 <= i < SLOT_COUNT ==> slots[i].None?
    ensures Shown(slots, n) == []
  {
    if n > 0 { NothingShown(slots, n - 1); }
  }

  /** Whether the last of `records` samples `session`. */
  predicate InLast(records: seq<seq<Sample>>, session: Session) {
    records != [] && Sampled(records[|records| - 1], session)
  }

  /** Whether `shown` are the Sessions of the last of `records`, each once, each gauge its newest value. */
  ghost predicate ShowsNewest(shown: seq<Gauges>, records: seq<seq<Sample>>) {
    && (forall j, k :: 0 <= j < k < |shown| ==> shown[j].session != shown[k].session)
    && (forall j :: 0 <= j < |shown| ==> InLast(records, shown[j].session))
    && (forall session :: InLast(records, session) ==>
          exists j :: 0 <= j < |shown| && shown[j].session == session)
    && (forall j, i :: 0 <= j < |shown| && 0 <= i < VALUE_COUNT ==>
          shown[j].values[i] == Newest(History(records, shown[j].session), i))
  }

  lemma TableIsNewest(shown: seq<Gauges>, records: seq<seq<Sample>>)
    requires ShowsTable(shown, Recorded(records))
    ensures ShowsNewest(shown, records)
  {
    hide Sampled, Recorded, Newest, History;
    forall session ensures session in Recorded(records) <==> InLast(records, session) {
      GaugesAreNewest(records, session, 0);
    }
    forall j, i | 0 <= j < |shown| && 0 <= i < VALUE_COUNT
      ensures shown[j].values[i] == Newest(History(records, shown[j].session), i)
    {
      GaugesAreNewest(records, shown[j].session, i);
    }
  }

  /** What the newest of the first `n` publishes left shows the newest of the first `n` records. */
  lemma LeftIsNewest(published: seq<Slots>, n: nat, records: seq<seq<Sample>>)
    requires n <= |published| && forall k :: 0 <= k < |published| ==> HoldsRecord(published[k], records, k)
    requires forall k :: 0 <= k < |records| ==> |SampledSessions(records[k])| <= 8
    ensures n <= |records| && ShowsNewest(Shown(Left(published, n), SLOT_COUNT), records[..n])
  {
    hide Shown, Recorded, RecordedIn, SampledSessions, ShowsTable, ShowsNewest, Holds;
    if n == 0 {
      NothingShown(Left(published, 0), SLOT_COUNT);
      NoneIsShown();
      assert records[..0] == [];
    } else {
      assert HoldsRecord(published[n - 1], records, n - 1);
      SlotsLoseNothing(records[..n]);
      HeldIsShown(published[n - 1], RecordedIn(records[..n]));
      TableIsNewest(Shown(published[n - 1], SLOT_COUNT), records[..n]);
    }
  }

  lemma NoneIsShown()
    ensures ShowsNewest([], [])
  {}

  /**
   Whatever way loads and stores interleave, and with no more Sessions sampled at once than there are
   slots, a read that returns gives the Sessions of one single record, each once, each gauge the newest
   value measured since its Session appeared; the record is no older than the newest published when
   the read began.
   */
  lemma ReadIsOneRecord(s0: System, events: seq<Event>, r: nat, records: seq<seq<Sample>>)
    requires Starts(s0) && Run(s0, events).Some? && PublishesRecords(s0, events, records)
    requires forall k :: 0 <= k < |records| ==> |SampledSessions(records[k])| <= 8
    requires var s := Run(s0, events).value; r in s.readers && s.readers[r].Returned?
    ensures var read := Run(s0, events).value.readers[r];
      && read.started <= read.number <= |records|
      && ShowsNewest(read.sessions, records[..read.number])
  {
    RunOfRecords(s0, events, records);
    ReadIsOnePublish(s0, events, r);
    var s := Run(s0, events).value;
    var read := s.readers[r];
    var n := read.number;
    hide Left, Shown, HoldsRecord, SampledSessions, ShowsNewest, Run, PublishesRecords;
    LeftIsNewest(s.published, n, records);
  }
}

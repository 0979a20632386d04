/**
 Every Session's gauges, published whole by one writer and read by any thread: a sequence lock over
 words loaded and stored one at a time, in one order all threads agree on.
 */
module Seqlock {
  import opened Common
  import opened ConnectionHealth

  /** A slot's words: whether it is occupied, then 16 bytes of Session ID, then 7 values. */
  datatype Cell = Cell(occupied: bool, session: Session, values: Values)

  const FIRST_VALUE := 1 + SESSION_BYTES
  const WORDS := FIRST_VALUE + VALUE_COUNT

  type Cells = s: seq<Cell> | |s| == SLOT_COUNT
    witness seq(SLOT_COUNT, _ => Cell(false, seq(SESSION_BYTES, _ => 0), NOT_MEASURED))

  datatype Writer = Between | Writing(slots: Slots, slot: nat, word: nat)

  datatype Reader =
      // About to load the version; `started` is how many publishes were over when the read began.
    | Looping(started: nat)
    | Loading(started: nat, before: nat, slot: nat, word: nat,
              session: seq<byte>, values: seq<Option<real>>, sessions: seq<Gauges>)
      // `number` is how many publishes were over when the version was found unchanged.
    | Returned(started: nat, sessions: seq<Gauges>, number: nat)

  datatype System = System(
    version: nat, cells: Cells, writer: Writer, readers: map<nat, Reader>, published: seq<Slots>)

  datatype Event =
    | PublishBegins(slots: Slots)
    | Stores
    | PublishEnds
    | ReadBegins(reader: nat)
    | LoadsVersion(reader: nat)
    | LoadsWord(reader: nat)
    | ChecksVersion(reader: nat)

  predicate Can(s: System, e: Event) {
    match e
    case PublishBegins(_) => s.writer.Between?
    case Stores => s.writer.Writing? && s.writer.slot < SLOT_COUNT && s.writer.word < WORDS
                   && (s.writer.word > 0 ==> s.writer.slots[s.writer.slot].Some?)
    case PublishEnds => s.writer.Writing? && s.writer.slot == SLOT_COUNT
    case ReadBegins(r) => r in s.readers ==> s.readers[r].Returned?
    case LoadsVersion(r) => r in s.readers && s.readers[r].Looping?
    case LoadsWord(r) => r in s.readers && s.readers[r].Loading? && s.readers[r].slot < SLOT_COUNT
                         && s.readers[r].word < WORDS
                         && (s.readers[r].word == WORDS - 1 ==>
                               |s.readers[r].session| == SESSION_BYTES && |s.readers[r].values| == VALUE_COUNT - 1)
    case ChecksVersion(r) => r in s.readers && s.readers[r].Loading? && s.readers[r].slot == SLOT_COUNT
  }

  function Store(c: Cell, g: Option<Gauges>, word: nat): Cell
    requires word < WORDS && (word > 0 ==> g.Some?)
  {
    if word == 0 then c.(occupied := g.Some?)
    else if word < FIRST_VALUE then c.(session := c.session[word - 1 := g.value.session[word - 1]])
    else c.(values := c.values[word - FIRST_VALUE := g.value.values[word - FIRST_VALUE]])
  }

  /** The word after: nothing more of a slot left unoccupied is stored, nor loaded. */
  function After(occupied: bool, slot: nat, word: nat): (nat, nat) {
    if (word == 0 && !occupied) || word == WORDS - 1 then (slot + 1, 0) else (slot, word + 1)
  }

  function Load(c: Cell, r: Reader): Reader
    requires r.Loading? && r.word < WORDS
    requires r.word == WORDS - 1 ==> |r.session| == SESSION_BYTES && |r.values| == VALUE_COUNT - 1
  {
    var (slot, word) := After(c.occupied, r.slot, r.word);
    var at := r.(slot := slot, word := word);
    if r.word == 0 then at.(session := [], values := [])
    else if r.word < FIRST_VALUE then at.(session := r.session + [c.session[r.word - 1]])
    else
      var values := r.values + [c.values[r.word - FIRST_VALUE]];
      if r.word < WORDS - 1 then at.(values := values)
      else at.(values := values, sessions := r.sessions + [Gauges(r.session, values)])
  }

  function Step(s: System, e: Event): System
    requires Can(s, e)
  {
    match e
    case PublishBegins(slots) => s.(version := s.version + 1, writer := Writing(slots, 0, 0))
    case Stores =>
      var w := s.writer;
      var (slot, word) := After(w.slots[w.slot].Some?, w.slot, w.word);
      s.(cells := s.cells[w.slot := Store(s.cells[w.slot], w.slots[w.slot], w.word)],
         writer := Writing(w.slots, slot, word))
    case PublishEnds => s.(version := s.version + 1, writer := Between, published := s.published + [s.writer.slots])
    case ReadBegins(r) => s.(readers := s.readers[r := Looping(|s.published|)])
    case LoadsVersion(r) =>
      if s.version % 2 != 0 then s
      else s.(readers := s.readers[r := Loading(s.readers[r].started, s.version, 0, 0, [], [], [])])
    case LoadsWord(r) => s.(readers := s.readers[r := Load(s.cells[s.readers[r].slot], s.readers[r])])
    case ChecksVersion(r) =>
      var reading := s.readers[r];
      s.(readers := s.readers[r := if s.version == reading.before
                                   then Returned(reading.started, reading.sessions, |s.published|)
                                   else Looping(reading.started)])
  }

  function Run(s: System, events: seq<Event>): Option<System>
    decreases |events|
  {
    if events == [] then Some(s)
    else if Can(s, events[0]) then Run(Step(s, events[0]), events[1..])
    else None
  }

  predicate Starts(s: System) {
    && s.version == 0 && s.writer.Between? && s.readers == map[] && s.published == []
    && forall i :: 0 <= i < SLOT_COUNT ==> !s.cells[i].occupied
  }

  // ---------------------------------------------------------------- what the words mean

  function Meaning(c: Cell): Option<Gauges> { if c.occupied then Some(Gauges(c.session, c.values)) else None }

  /** The gauges in the first `n` slots, in slot order. */
  function Shown(slots: seq<Option<Gauges>>, n: nat): seq<Gauges>
    requires n <= |slots|
  {
    if n == 0 then []
    else Shown(slots, n - 1) + if slots[n - 1].Some? then [slots[n - 1].value] else []
  }

  function Meanings(cells: Cells): Slots {
    seq(SLOT_COUNT, i requires 0 <= i < SLOT_COUNT => Meaning(cells[i]))
  }

  /** What the newest publish of the first `n` left, or nothing before the first. */
  function Left(published: seq<Slots>, n: nat): Slots
    requires n <= |published|
  {
    if n == 0 then seq(SLOT_COUNT, _ => None) else published[n - 1]
  }

  // ---------------------------------------------------------------- the invariant

  function Clip(x: int, most: nat): nat { if x < 0 then 0 else if x > most then most else x }

  /** How many of a slot's bytes, and of its values, lie before `word`. */
  function BytesBefore(word: nat): nat { Clip(word - 1, SESSION_BYTES) }

  function ValuesBefore(word: nat): nat { Clip(word - FIRST_VALUE, VALUE_COUNT) }

  predicate InPlace(slot: nat, word: nat) { slot <= SLOT_COUNT && word < WORDS && (slot == SLOT_COUNT ==> word == 0) }

  /** A slot stored up to `word`. */
  predicate StoredTo(c: Cell, g: Option<Gauges>, word: nat) {
    word > 0 ==>
      && g.Some? && c.occupied
      && c.session[..BytesBefore(word)] == g.value.session[..BytesBefore(word)]
      && c.values[..ValuesBefore(word)] == g.value.values[..ValuesBefore(word)]
  }

  predicate WriterOk(s: System) {
    match s.writer
    case Between => s.version == 2 * |s.published| && Meanings(s.cells) == Left(s.published, |s.published|)
    case Writing(slots, slot, word) =>
      && s.version == 2 * |s.published| + 1 && InPlace(slot, word)
      && (forall i :: 0 <= i < slot ==> Meaning(s.cells[i]) == slots[i])
      && (slot < SLOT_COUNT ==> StoredTo(s.cells[slot], slots[slot], word))
  }

  /** A slot loaded up to `word` of the words as they are. */
  predicate LoadedTo(c: Cell, r: Reader)
    requires r.Loading?
  {
    r.word > 0 ==>
      c.occupied && r.session == c.session[..BytesBefore(r.word)] && r.values == c.values[..ValuesBefore(r.word)]
  }

  predicate ReadingOk(version: nat, cells: Cells, r: Reader)
    requires r.Loading?
  {
    && r.before % 2 == 0 && 2 * r.started <= r.before <= version && InPlace(r.slot, r.word)
    && (r.word > 0 ==> |r.session| == BytesBefore(r.word) && |r.values| == ValuesBefore(r.word))
    // Until the version moves, nothing stored since it was loaded can have been seen.
    && (r.before == version ==>
          && r.sessions == Shown(Meanings(cells), r.slot)
          && (r.slot < SLOT_COUNT ==> LoadedTo(cells[r.slot], r)))
  }

  predicate ReturnedOk(published: seq<Slots>, r: Reader)
    requires r.Returned?
  {
    r.started <= r.number <= |published| && r.sessions == Shown(Left(published, r.number), SLOT_COUNT)
  }

  predicate ReaderOk(s: System, r: Reader) {
    match r
    case Looping(started) => started <= |s.published|
    case Loading(_, _, _, _, _, _, _) => ReadingOk(s.version, s.cells, r)
    case Returned(_, _, _) => ReturnedOk(s.published, r)
  }

  predicate Inv(s: System) { WriterOk(s) && forall r :: r in s.readers ==> ReaderOk(s, s.readers[r]) }

  lemma StartsInv(s: System)
    requires Starts(s)
    ensures Inv(s)
  {}

  // ---------------------------------------------------------------- each step keeps it

  lemma StoreStores(c: Cell, g: Option<Gauges>, word: nat)
    requires word < WORDS && (word > 0 ==> g.Some?) && StoredTo(c, g, word)
    ensures var c', (slot, next) := Store(c, g, word), After(g.Some?, 0, word);
      if slot == 1 then Meaning(c') == g else StoredTo(c', g, next)
  {
    var c' := Store(c, g, word);
    if word == WORDS - 1 {
      assert c'.session == g.value.session by {
        assert c.session[..SESSION_BYTES] == c.session && g.value.session[..SESSION_BYTES] == g.value.session;
      }
      forall i | 0 <= i < VALUE_COUNT ensures c'.values[i] == g.value.values[i] {
        if i < VALUE_COUNT - 1 {
          assert c.values[..VALUE_COUNT - 1][i] == g.value.values[..VALUE_COUNT - 1][i];
        }
      }
      assert c'.values == g.value.values;
    }
  }

  lemma StoresKeeps(s: System)
    requires Inv(s) && Can(s, Stores)
    ensures Inv(Step(s, Stores))
  {
    var s', w := Step(s, Stores), s.writer;
    StoreStores(s.cells[w.slot], w.slots[w.slot], w.word);
    forall r | r in s'.readers ensures ReaderOk(s', s'.readers[r]) {
      assert ReaderOk(s, s.readers[r]);
    }
  }

  lemma PublishBeginsKeeps(s: System, slots: Slots)
    requires Inv(s) && s.writer.Between?
    ensures Inv(Step(s, PublishBegins(slots)))
  {
    var s' := Step(s, PublishBegins(slots));
    forall r | r in s'.readers ensures ReaderOk(s', s'.readers[r]) { assert ReaderOk(s, s.readers[r]); }
  }

  lemma PublishEndsKeeps(s: System)
    requires Inv(s) && Can(s, PublishEnds)
    ensures Inv(Step(s, PublishEnds))
  {
    var s' := Step(s, PublishEnds);
    assert Meanings(s'.cells) == s.writer.slots;
    forall r | r in s'.readers ensures ReaderOk(s', s'.readers[r]) { assert ReaderOk(s, s.readers[r]); }
  }

  lemma LoadLoads(version: nat, cells: Cells, r: Reader)
    requires r.Loading? && ReadingOk(version, cells, r) && r.slot < SLOT_COUNT
    ensures r.word == WORDS - 1 ==> |r.session| == SESSION_BYTES && |r.values| == VALUE_COUNT - 1
    ensures ReadingOk(version, cells, Load(cells[r.slot], r))
  {
    var c, r' := cells[r.slot], Load(cells[r.slot], r);
    if r.before == version && r.word > 0 {
      if r.word < FIRST_VALUE {
        assert c.session[..r.word] == c.session[..r.word - 1] + [c.session[r.word - 1]];
      } else {
        var k := r.word - FIRST_VALUE;
        assert c.values[..k + 1] == c.values[..k] + [c.values[k]];
      }
      if r.word == WORDS - 1 {
        assert c.session[..SESSION_BYTES] == c.session && c.values[..VALUE_COUNT] == c.values;
      }
    }
  }

  lemma ReaderStepKeeps(s: System, e: Event)
    requires Inv(s) && Can(s, e) && (e.ReadBegins? || e.LoadsVersion? || e.LoadsWord? || e.ChecksVersion?)
    ensures Inv(Step(s, e))
  {
    var s', id := Step(s, e), e.reader;
    if e.LoadsWord? { LoadLoads(s.version, s.cells, s.readers[id]); }
    if e.ChecksVersion? && s.version == s.readers[id].before {
      assert ReaderOk(s, s.readers[id]);
      assert s.writer.Between?;
    }
    forall r | r in s'.readers ensures ReaderOk(s', s'.readers[r]) {
      if r in s.readers { assert ReaderOk(s, s.readers[r]); }
    }
  }

  lemma StepKeeps(s: System, e: Event)
    requires Inv(s) && Can(s, e)
    ensures Inv(Step(s, e))
  {
    match e {
      case PublishBegins(slots) => PublishBeginsKeeps(s, slots);
      case Stores => StoresKeeps(s);
      case PublishEnds => PublishEndsKeeps(s);
      case _ => ReaderStepKeeps(s, e);
    }
  }

  lemma {:induction false} RunKeeps(s: System, events: seq<Event>)
    requires Inv(s) && Run(s, events).Some?
    ensures Inv(Run(s, events).value)
    decreases |events|
  {
    if events != [] {
      StepKeeps(s, events[0]);
      RunKeeps(Step(s, events[0]), events[1..]);
    }
  }

  /**
   Whatever way loads and stores interleave, a read that returns gives exactly the gauges of one
   publish, whole, in slot order: one over by the time it returned, and no older than the newest that
   was over when it began.
   */
  lemma ReadIsOnePublish(s0: System, events: seq<Event>, r: nat)
    requires Starts(s0) && Run(s0, events).Some?
    requires var s := Run(s0, events).value; r in s.readers && s.readers[r].Returned?
    ensures var s := Run(s0, events).value;
      var read := s.readers[r];
      && read.started <= read.number <= |s.published|
      && read.sessions == Shown(Left(s.published, read.number), SLOT_COUNT)
  {
    StartsInv(s0);
    RunKeeps(s0, events);
    var s := Run(s0, events).value;
    assert ReaderOk(s, s.readers[r]);
  }

  // ---------------------------------------------------------------- it is published, and it is read

  predicate OfReader(events: seq<Event>, r: nat) {
    forall i :: 0 <= i < |events| ==>
      || events[i] == ReadBegins(r) || events[i] == LoadsVersion(r)
      || events[i] == LoadsWord(r) || events[i] == ChecksVersion(r)
  }

  predicate OfWriter(events: seq<Event>) {
    forall i :: 0 <= i < |events| ==> events[i].PublishBegins? || events[i].Stores? || events[i].PublishEnds?
  }

  lemma OneThen(s: System, e: Event, rest: seq<Event>)
    requires Can(s, e)
    ensures Run(s, [e] + rest) == Run(Step(s, e), rest)
  {
    assert ([e] + rest)[1..] == rest;
  }

  lemma JustOne(s: System, e: Event)
    requires Can(s, e)
    ensures Run(s, [e]) == Some(Step(s, e))
  {
    assert [e][1..] == [];
  }

  /** A publish begun comes to its end, by the writer's own steps, whatever readers do not do. */
  lemma {:induction false} WritesOut(s: System) returns (events: seq<Event>)
    requires Inv(s) && s.writer.Writing?
    ensures OfWriter(events) && Run(s, events).Some?
    ensures var s' := Run(s, events).value;
      s'.writer.Between? && s'.published == s.published + [s.writer.slots] && s'.readers == s.readers
    decreases SLOT_COUNT - s.writer.slot, WORDS - s.writer.word
  {
    hide Run, ReaderOk;
    if s.writer.slot == SLOT_COUNT {
      events := [PublishEnds];
      JustOne(s, PublishEnds);
    } else {
      StoresKeeps(s);
      var rest := WritesOut(Step(s, Stores));
      OneThen(s, Stores, rest);
      events := [Stores] + rest;
    }
  }

  lemma PublishesOut(s: System, slots: Slots) returns (events: seq<Event>)
    requires Inv(s) && s.writer.Between?
    ensures OfWriter(events) && Run(s, events).Some?
    ensures var s' := Run(s, events).value;
      s'.writer.Between? && s'.published == s.published + [slots] && s'.readers == s.readers
  {
    hide Run, Inv;
    StepKeeps(s, PublishBegins(slots));
    var rest := WritesOut(Step(s, PublishBegins(slots)));
    OneThen(s, PublishBegins(slots), rest);
    events := [PublishBegins(slots)] + rest;
  }

  /** A read that no publish overlaps comes to its end, by its own steps, with what was published last. */
  lemma {:induction false} ReadsOut(s: System, r: nat) returns (events: seq<Event>)
    requires Inv(s) && s.writer.Between? && r in s.readers && s.readers[r].Loading?
    requires s.readers[r].before == s.version
    ensures OfReader(events, r) && Run(s, events).Some?
    ensures var s' := Run(s, events).value;
      && s'.published == s.published && r in s'.readers && s'.readers[r].Returned?
      && s'.readers[r].sessions == Shown(Left(s.published, |s.published|), 8)
    decreases SLOT_COUNT - s.readers[r].slot, WORDS - s.readers[r].word
  {
    hide Run, Shown, Meaning;
    assert ReaderOk(s, s.readers[r]);
    if s.readers[r].slot == SLOT_COUNT {
      events := [ChecksVersion(r)];
      JustOne(s, ChecksVersion(r));
    } else {
      LoadLoads(s.version, s.cells, s.readers[r]);
      ReaderStepKeeps(s, LoadsWord(r));
      var rest := ReadsOut(Step(s, LoadsWord(r)), r);
      OneThen(s, LoadsWord(r), rest);
      events := [LoadsWord(r)] + rest;
    }
  }

  lemma ReadsAll(s: System, r: nat) returns (events: seq<Event>)
    requires Inv(s) && s.writer.Between? && (r in s.readers ==> s.readers[r].Returned?)
    ensures OfReader(events, r) && Run(s, events).Some?
    ensures var s' := Run(s, events).value;
      && s'.published == s.published && r in s'.readers && s'.readers[r].Returned?
      && s'.readers[r].sessions == Shown(Left(s.published, |s.published|), 8)
  {
    hide Run, Shown;
    var begun := Step(s, ReadBegins(r));
    StepKeeps(s, ReadBegins(r));
    var loading := Step(begun, LoadsVersion(r));
    StepKeeps(begun, LoadsVersion(r));
    var rest := ReadsOut(loading, r);
    OneThen(begun, LoadsVersion(r), rest);
    OneThen(s, ReadBegins(r), [LoadsVersion(r)] + rest);
    events := [ReadBegins(r)] + ([LoadsVersion(r)] + rest);
  }

  lemma {:induction false} RunsOn(s: System, a: seq<Event>, b: seq<Event>)
    requires Run(s, a).Some?
    ensures Run(s, a + b) == Run(Run(s, a).value, b)
    decreases |a|
  {
    hide Can, Step;
    if a == [] {
      assert a + b == b;
    } else {
      assert (a + b)[1..] == a[1..] + b;
      RunsOn(Step(s, a[0]), a[1..], b);
    }
  }

  /**
   Whatever has happened before, once no publish is under way the writer can publish any slots by its own
   steps, and a reader with no read under way then read, by its own, just the gauges in them.
   */
  lemma PublishedIsRead(s0: System, before: seq<Event>, slots: Slots, r: nat)
    requires Starts(s0) && Run(s0, before).Some?
    requires var s := Run(s0, before).value; s.writer.Between? && (r in s.readers ==> s.readers[r].Returned?)
    ensures exists publish, read ::
      && OfWriter(publish) && OfReader(read, r) && Run(s0, before + (publish + read)).Some?
      && var s := Run(s0, before + (publish + read)).value;
         && s.published == Run(s0, before).value.published + [slots]
         && r in s.readers && s.readers[r].Returned? && s.readers[r].sessions == Shown(slots, 8)
  {
    hide Run, Inv, Starts, Shown;
    StartsInv(s0);
    RunKeeps(s0, before);
    var s := Run(s0, before).value;
    var publish := PublishesOut(s, slots);
    RunKeeps(s, publish);
    var after := Run(s, publish).value;
    var read := ReadsAll(after, r);
    RunsOn(s, publish, read);
    RunsOn(s0, before, publish + read);
  }
}

/**
 Every run of the Simulation thread's calls and the writer thread's steps, in any interleaving and
 under any pattern of disk faults: what the files hold, what is reported, and what is lost.
 */
module CaptureRuns {
  import opened Common
  import opened CaptureWriter

  datatype Event =
    | Sim(call: Call)
    | WriterTakes
    | WriterHandles(outcome: Outcome)
    | WriterForgets
    | WriterCloses(flushed: nat)
    | WriterSettles

  /** What is still to be carried out of one Match. */
  datatype Ahead = Ahead(opening: Option<seq<byte>>, queued: seq<seq<byte>>, closing: bool)

  const NOTHING := Ahead(None, [], false)

  /** One Match's history: the records its queue accepted, what is ahead, and how its file fared. */
  datatype Book = Book(accepted: seq<seq<byte>>, ahead: Ahead, broken: bool, closed: bool)

  const BLANK := Book([], NOTHING, false, false)

  datatype System = System(w: Writer, sim: Calls, books: map<MatchId, Book>)

  function BookOf(s: System, m: MatchId): Book {
    if m in s.books then s.books[m] else BLANK
  }

  function Accepted(s: System, m: MatchId): seq<seq<byte>> { BookOf(s, m).accepted }

  function Start(mode: Mode, capacity: nat): System {
    System(Fresh(mode, capacity), NO_CALLS, map[])
  }

  ghost predicate Can(s: System, e: Event) {
    match e
    case Sim(c) => InOrder(s.sim, c) && (c.CallFinish? ==> Drained(s.w))
    case WriterTakes => s.w.phase.Idle? && s.w.queue != [] && (s.w.queue[0].RecordItem? ==> s.w.recordsQueued > 0)
    case WriterHandles(o) =>
      Possible(s.w, o) && s.w.phase.item.match_ != NIL && (s.w.fileMatch != NIL ==> s.w.fileMatch in s.w.disk)
    case WriterForgets => s.w.phase.Taken? && s.w.phase.item.CloseItem?
    case WriterCloses(n) =>
      && s.w.phase.Forgotten? && n <= |s.w.unflushed| && s.w.phase.match_ != NIL
      && (s.w.fileMatch != NIL ==> s.w.fileMatch in s.w.disk)
    case WriterSettles => s.w.phase.Handled?
  }

  /** The Match a step is about, and what its book says after it. */
  function Subject(s: System, e: Event): MatchId {
    match e
    case Sim(CallFinish) => NIL
    case Sim(c) => c.match_
    case WriterTakes => NIL
    case WriterHandles(_) => if s.w.phase.Taken? then s.w.phase.item.match_ else NIL
    case WriterForgets => NIL
    case WriterCloses(_) => if s.w.phase.Forgotten? then s.w.phase.match_ else NIL
    case WriterSettles =>
      if s.w.phase.Handled? && s.w.phase.failed.Some? then s.w.phase.item.match_ else NIL
  }

  ghost function Entered(s: System, e: Event): Book
    requires Can(s, e)
  {
    var b := BookOf(s, Subject(s, e));
    match e
    case Sim(CallOpen(_, bytes)) => b.(ahead := b.ahead.(opening := Some(bytes)))
    case Sim(CallPush(m, bytes)) =>
      if Accepts(s.w, m)
      then b.(accepted := b.accepted + [bytes], ahead := b.ahead.(queued := b.ahead.queued + [bytes]))
      else b
    case Sim(CallClose(_)) => b.(ahead := b.ahead.(closing := true))
    case WriterHandles(o) =>
      var ahead := if s.w.phase.item.OpenItem? then b.ahead.(opening := None)
                   else b.ahead.(queued := if b.ahead.queued == [] then [] else b.ahead.queued[1..]);
      b.(ahead := ahead, broken := b.broken || (!PassedOver(s.w, s.w.phase.item) && !o.Whole?))
    case WriterCloses(_) => b.(ahead := b.ahead.(closing := false), closed := true)
    case WriterSettles => b.(ahead := b.ahead.(queued := []))
    case _ => b
  }

  ghost function NextWriter(s: System, e: Event): Writer
    requires Can(s, e)
  {
    match e
    case Sim(c) => Answer(s.w, c)
    case WriterTakes => Take(s.w)
    case WriterHandles(o) => Handle(s.w, o)
    case WriterForgets => Forget(s.w)
    case WriterCloses(n) => CloseFile(s.w, n)
    case WriterSettles => Settle(s.w)
  }

  ghost function Next(s: System, e: Event): System
    requires Can(s, e)
  {
    System(
      NextWriter(s, e),
      if e.Sim? then Called(s.sim, e.call) else s.sim,
      if Subject(s, e) == NIL then s.books else s.books[Subject(s, e) := Entered(s, e)])
  }

  /** Where a run of `events` from `s` leads, if each can happen in turn. */
  ghost function Run(s: System, events: seq<Event>): Option<System>
    decreases |events|
  {
    if events == [] then Some(s)
    else if Can(s, events[0]) then Run(Next(s, events[0]), events[1..])
    else None
  }

  // ---------------------------------------------------------------- queues

  /** What the writer has still to carry out, the item in its hands first. */
  function Pending(w: Writer): seq<Item> {
    match w.phase
    case Taken(item) => [item] + w.queue
    case Forgotten(m, _) => [CloseItem(m)] + w.queue
    case _ => w.queue
  }

  /** The items of `m`, in order. */
  function Mine(items: seq<Item>, m: MatchId): seq<Item> {
    if items == [] then []
    else (if items[0].match_ == m then [items[0]] else []) + Mine(items[1..], m)
  }

  function ItemsOf(m: MatchId, a: Ahead): seq<Item> {
    (if a.opening.Some? then [OpenItem(m, a.opening.value)] else [])
    + seq(|a.queued|, i requires 0 <= i < |a.queued| => RecordItem(m, a.queued[i]))
    + (if a.closing then [CloseItem(m)] else [])
  }

  lemma {:induction false} MineAppend(items: seq<Item>, x: Item, m: MatchId)
    ensures Mine(items + [x], m) == Mine(items, m) + if x.match_ == m then [x] else []
  {
    if items != [] {
      assert (items + [x])[1..] == items[1..] + [x];
      MineAppend(items[1..], x, m);
    } else {
      assert items + [x] == [x] && [x][1..] == [];
    }
  }

  lemma {:induction false} RecordsAppend(items: seq<Item>, x: Item)
    ensures Records(items + [x]) == Records(items) + if x.RecordItem? then 1 else 0
  {
    if items != [] {
      assert (items + [x])[1..] == items[1..] + [x];
      RecordsAppend(items[1..], x);
    } else {
      assert items + [x] == [x] && [x][1..] == [];
    }
  }

  /** The next item of `m` is its open, else its oldest record, else its close. */
  lemma HeadOf(m: MatchId, a: Ahead)
    requires ItemsOf(m, a) != []
    ensures match ItemsOf(m, a)[0] {
              case OpenItem(_, b) => a.opening == Some(b) && ItemsOf(m, a)[1..] == ItemsOf(m, a.(opening := None))
              case RecordItem(_, b) =>
                a.opening.None? && a.queued != [] && a.queued[0] == b
                && ItemsOf(m, a)[1..] == ItemsOf(m, a.(queued := a.queued[1..]))
              case CloseItem(_) => a == Ahead(None, [], true) && ItemsOf(m, a)[1..] == ItemsOf(m, NOTHING)
            }
  {
    if a.opening.Some? {
      assert ItemsOf(m, a)[0] == OpenItem(m, a.opening.value);
    } else if a.queued != [] {
      assert ItemsOf(m, a)[0] == RecordItem(m, a.queued[0]);
    } else {
      assert a.closing && a.queued == [];
    }
  }

  /** From `f` open, each file opens only once the one before is closed. */
  predicate Apart(items: seq<Item>, f: MatchId) {
    items == [] ||
    ((items[0].OpenItem? ==> f == NIL) && Apart(items[1..], FileAfter(items[0], f)))
  }

  /** The file open past `item`, were its file to open. */
  function FileAfter(item: Item, f: MatchId): MatchId {
    match item
    case OpenItem(m, _) => m
    case RecordItem(_, _) => f
    case CloseItem(m) => if m == f then NIL else f
  }

  function EndFile(items: seq<Item>, f: MatchId): MatchId {
    if items == [] then f else EndFile(items[1..], FileAfter(items[0], f))
  }

  lemma {:induction false} ApartAppend(items: seq<Item>, x: Item, f: MatchId)
    requires Apart(items, f) && (x.OpenItem? ==> EndFile(items, f) == NIL)
    ensures Apart(items + [x], f) && EndFile(items + [x], f) == FileAfter(x, EndFile(items, f))
  {
    if items != [] {
      assert (items + [x])[1..] == items[1..] + [x];
      ApartAppend(items[1..], x, FileAfter(items[0], f));
    } else {
      assert items + [x] == [x] && [x][1..] == [];
    }
  }

  /** What would follow a file also follows its failing to open. */
  lemma {:induction false} ApartUnopened(items: seq<Item>, m: MatchId)
    requires Apart(items, m)
    ensures Apart(items, NIL)
    ensures EndFile(items, NIL) == EndFile(items, m) || EndFile(items, NIL) == NIL
  {
    if items != [] && !items[0].OpenItem? && !(items[0].CloseItem? && items[0].match_ == m) {
      ApartUnopened(items[1..], m);
    }
  }

  /** Dropping `m`'s records drops them alone. */
  lemma {:induction false} WithoutOthers(queue: seq<Item>, m: MatchId, f: MatchId)
    ensures forall k :: k != m ==> Mine(Without(queue, m), k) == Mine(queue, k)
    ensures Apart(queue, f) ==> Apart(Without(queue, m), f)
    ensures EndFile(Without(queue, m), f) == EndFile(queue, f)
    ensures Records(Without(queue, m)) <= Records(queue)
  {
    if queue != [] {
      WithoutOthers(queue[1..], m, FileAfter(queue[0], f));
      var rest := Without(queue[1..], m);
      if !RecordOf(queue[0], m) {
        assert ([queue[0]] + rest)[1..] == rest;
      }
    }
  }

  lemma {:induction false} WithoutOwn(queue: seq<Item>, m: MatchId, a: Ahead)
    requires Mine(queue, m) == ItemsOf(m, a)
    ensures Mine(Without(queue, m), m) == ItemsOf(m, a.(queued := []))
  {
    if queue != [] {
      var rest := Without(queue[1..], m);
      if queue[0].match_ != m {
        WithoutOwn(queue[1..], m, a);
        assert ([queue[0]] + rest)[1..] == rest;
      } else {
        HeadOf(m, a);
        assert Mine(queue[1..], m) == ItemsOf(m, a)[1..];
        match queue[0] {
          case OpenItem(_, _) => WithoutOwn(queue[1..], m, a.(opening := None));
          case RecordItem(_, _) => WithoutOwn(queue[1..], m, a.(queued := a.queued[1..]));
          case CloseItem(_) => WithoutOwn(queue[1..], m, NOTHING);
        }
        if !RecordOf(queue[0], m) { assert ([queue[0]] + rest)[1..] == rest; }
      }
    }
  }

  // ---------------------------------------------------------------- the invariant

  /** Everything the state says of one Match. */
  datatype View = View(
    begun: bool, live: bool, barred: bool, header: Option<seq<byte>>, pushed: seq<seq<byte>>, book: Book,
    disk: Option<seq<byte>>, open: bool, unflushed: seq<byte>, stopped: bool, forgotten: bool, failing: bool)

  function ViewOf(s: System, m: MatchId): View {
    View(
      m in s.sim.begun, m == s.sim.current != NIL, m in s.sim.barred,
      if m in s.sim.headers then Some(s.sim.headers[m]) else None,
      At(s.sim.pushed, m), BookOf(s, m),
      if m in s.w.disk then Some(s.w.disk[m]) else None,
      m == s.w.fileMatch != NIL,
      if m == s.w.fileMatch != NIL then s.w.unflushed else [],
      m in s.w.stopped,
      s.w.phase.Forgotten? && s.w.phase.match_ == m,
      s.w.phase.Handled? && s.w.phase.failed.Some? && s.w.phase.item.match_ == m)
  }

  /** All `m`'s file may ever hold: its header, then the records its queue accepted. */
  function Full(v: View): seq<byte>
    requires v.header.Some?
  {
    v.header.value + Concat(v.book.accepted)
  }

  /** The records of `m` whose place in the file has come. */
  function Done(b: Book): seq<seq<byte>>
    requires |b.ahead.queued| <= |b.accepted|
  {
    b.accepted[..|b.accepted| - |b.ahead.queued|]
  }

  predicate Named(v: View) {
    && (!v.begun ==>
          && !v.live && !v.barred && v.header.None? && v.pushed == [] && v.book == BLANK && v.disk.None?
          && !v.open && !v.stopped && !v.forgotten && !v.failing)
    && (v.live && v.barred ==> v.stopped)
    && (v.live ==> !v.book.ahead.closing && !v.book.closed)
    && (v.book.closed ==> v.book.ahead == NOTHING && !v.stopped && !v.open && !v.forgotten && !v.failing)
    && (v.forgotten ==> !v.stopped && v.book.ahead == Ahead(None, [], true))
    && (v.failing ==> v.book.broken && !v.forgotten)
    && (v.book.broken ==> v.header.Some?)
    && (v.header.None? ==> v.book.ahead.opening.None? && v.disk.None?)
    && (v.open ==> v.disk.Some?)
  }

  predicate FileOk(v: View) {
    var b := v.book;
    && |b.ahead.queued| <= |b.accepted| <= |v.pushed|
    && (v.header.Some? ==> b.ahead.opening == if v.disk.None? && !b.broken then v.header else None)
    && (v.header.Some? && v.disk.None? && !b.broken ==> b.accepted == b.ahead.queued)
    && (v.open && !b.broken ==>
          && v.unflushed == [] && b.accepted == Done(b) + b.ahead.queued
          && v.header.Some? && v.disk.Some? && v.disk.value == v.header.value + Concat(Done(b)))
    && (v.disk.Some? ==> v.header.Some? && v.disk.value + v.unflushed <= Full(v))
    && (v.disk.Some? && !v.open && !b.broken ==> b.closed && v.disk.value == Full(v))
    && (b.broken && !v.failing ==> b.ahead.queued == [] && (v.live ==> v.stopped))
  }

  ghost predicate Queues(s: System) {
    && s.w.recordsQueued == Records(s.w.queue) <= s.w.capacity
    && Apart(Pending(s.w), s.w.fileMatch)
    && (EndFile(Pending(s.w), s.w.fileMatch) != NIL ==> EndFile(Pending(s.w), s.w.fileMatch) in s.sim.headers)
    && (!s.sim.finished ==> EndFile(Pending(s.w), s.w.fileMatch) in {NIL, s.sim.current})
  }

  ghost predicate MatchOk(s: System, m: MatchId) {
    && Mine(Pending(s.w), m) == ItemsOf(m, BookOf(s, m).ahead)
    && Named(ViewOf(s, m)) && FileOk(ViewOf(s, m))
  }

  ghost predicate Inv(s: System) {
    && NIL !in s.sim.begun && (s.sim.finished ==> s.sim.current == NIL) && Queues(s)
    && forall m :: MatchOk(s, m)
  }

  lemma Unmoved(s: System, s': System, k: MatchId)
    requires MatchOk(s, k) && ViewOf(s', k) == ViewOf(s, k) && Mine(Pending(s'.w), k) == Mine(Pending(s.w), k)
    ensures MatchOk(s', k)
  {}

  lemma StartInv(mode: Mode, capacity: nat)
    ensures Inv(Start(mode, capacity))
  {
    var s := Start(mode, capacity);
    forall m ensures MatchOk(s, m) {
      assert Mine([], m) == [] == ItemsOf(m, NOTHING);
    }
  }

  // ---------------------------------------------------------------- each step keeps the invariant

  lemma KeepTake(s: System)
    requires Inv(s) && Can(s, WriterTakes)
    ensures Inv(Next(s, WriterTakes))
  {
    var s' := Next(s, WriterTakes);
    assert [s.w.queue[0]] + s.w.queue[1..] == s.w.queue;
    assert Pending(s'.w) == Pending(s.w);
    forall m ensures MatchOk(s', m) {
      assert MatchOk(s, m) && ViewOf(s', m) == ViewOf(s, m);
    }
  }

  lemma KeepForget(s: System)
    requires Inv(s) && Can(s, WriterForgets)
    ensures Inv(Next(s, WriterForgets))
  {
    var s', m := Next(s, WriterForgets), s.w.phase.item.match_;
    assert s.w.phase.item == CloseItem(m);
    assert Pending(s'.w) == Pending(s.w);
    forall k ensures MatchOk(s', k) {
      assert MatchOk(s, k);
      if k == m {
        assert Mine(Pending(s.w), m)[0] == CloseItem(m);
        HeadOf(m, BookOf(s, m).ahead);
        assert ViewOf(s', k) == ViewOf(s, k).(stopped := false, forgotten := true);
      } else {
        assert ViewOf(s', k) == ViewOf(s, k);
      }
    }
  }

  /** The item carried out was its Match's next; the others' are as they were. */
  lemma HeadDone(w: Writer, m: MatchId, a: Ahead)
    requires w.phase.Taken? || w.phase.Forgotten?
    requires Mine(Pending(w), m) == ItemsOf(m, a)
    ensures Pending(w)[1..] == w.queue
    ensures Pending(w)[0].match_ != m ==> Mine(w.queue, m) == ItemsOf(m, a)
    ensures Pending(w)[0].match_ == m ==>
              ItemsOf(m, a) != [] && Pending(w)[0] == ItemsOf(m, a)[0] && Mine(w.queue, m) == ItemsOf(m, a)[1..]
  {}

  function Closed(v: View, n: nat): View
    requires v.open ==> v.disk.Some? && n <= |v.unflushed|
  {
    var v' := v.(book := v.book.(ahead := NOTHING, closed := true), forgotten := false);
    if v.open then v'.(open := false, unflushed := [], disk := Some(v.disk.value + v.unflushed[..n])) else v'
  }

  lemma ViewCloses(v: View, n: nat)
    requires Named(v) && FileOk(v) && v.forgotten && (v.open ==> n <= |v.unflushed|)
    ensures Named(Closed(v, n)) && FileOk(Closed(v, n))
  {
    assert Done(v.book) == v.book.accepted;
  }

  lemma ViewAfterCloses(s: System, n: nat, m: MatchId)
    requires Can(s, WriterCloses(n)) && m == s.w.phase.match_
    requires BookOf(s, m).ahead == Ahead(None, [], true)
    ensures ViewOf(Next(s, WriterCloses(n)), m) == Closed(ViewOf(s, m), n)
  {}

  lemma OwnAfterCloses(s: System, n: nat, m: MatchId)
    requires Can(s, WriterCloses(n)) && MatchOk(s, m) && m == s.w.phase.match_
    ensures MatchOk(Next(s, WriterCloses(n)), m)
  {
    ViewAfterCloses(s, n, m);
    ViewCloses(ViewOf(s, m), n);
    assert Mine(s.w.queue, m) == [] by { HeadDone(s.w, m, BookOf(s, m).ahead); }
  }

  lemma OtherViewCloses(s: System, n: nat, k: MatchId)
    requires Can(s, WriterCloses(n)) && k != s.w.phase.match_
    ensures ViewOf(Next(s, WriterCloses(n)), k) == ViewOf(s, k)
  {}

  lemma OtherAfterCloses(s: System, n: nat, k: MatchId)
    requires Can(s, WriterCloses(n)) && MatchOk(s, k) && k != s.w.phase.match_
    ensures MatchOk(Next(s, WriterCloses(n)), k)
  {
    OtherViewCloses(s, n, k);
    assert Mine(s.w.queue, k) == Mine(Pending(s.w), k) by { HeadDone(s.w, k, BookOf(s, k).ahead); }
  }

  lemma KeepCloses(s: System, n: nat)
    requires Inv(s) && Can(s, WriterCloses(n))
    ensures Inv(Next(s, WriterCloses(n)))
  {
    var s' := Next(s, WriterCloses(n));
    assert Pending(s.w)[1..] == s.w.queue;
    forall k ensures MatchOk(s', k) {
      assert MatchOk(s, k);
      if k == s.w.phase.match_ { OwnAfterCloses(s, n, k); } else { OtherAfterCloses(s, n, k); }
    }
  }

  lemma ViewSettles(v: View, v': View)
    requires Named(v) && FileOk(v) && v.failing
    requires v' == v.(failing := false, stopped := true, book := v.book.(ahead := v.book.ahead.(queued := [])))
    ensures Named(v') && FileOk(v')
  {}

  lemma OwnAfterSettles(s: System, m: MatchId)
    requires Can(s, WriterSettles) && MatchOk(s, m) && m != NIL
    requires s.w.phase.failed.Some? && m == s.w.phase.item.match_
    ensures MatchOk(Next(s, WriterSettles), m)
  {
    WithoutOwn(s.w.queue, m, BookOf(s, m).ahead);
    ViewSettles(ViewOf(s, m), ViewOf(Next(s, WriterSettles), m));
  }

  lemma OtherViewSettles(s: System, k: MatchId)
    requires Can(s, WriterSettles) && (s.w.phase.failed.Some? ==> k != s.w.phase.item.match_)
    ensures ViewOf(Next(s, WriterSettles), k) == ViewOf(s, k)
  {}

  lemma OtherAfterSettles(s: System, k: MatchId)
    requires Can(s, WriterSettles) && MatchOk(s, k)
    requires s.w.phase.failed.Some? ==> k != s.w.phase.item.match_
    ensures MatchOk(Next(s, WriterSettles), k)
  {
    WithoutOthers(s.w.queue, s.w.phase.item.match_, NIL);
    OtherViewSettles(s, k);
    Unmoved(s, Next(s, WriterSettles), k);
  }

  lemma KeepSettles(s: System)
    requires Inv(s) && Can(s, WriterSettles)
    ensures Inv(Next(s, WriterSettles))
  {
    var s' := Next(s, WriterSettles);
    WithoutOthers(s.w.queue, s.w.phase.item.match_, s.w.fileMatch);
    forall k ensures MatchOk(s', k) {
      assert MatchOk(s, k);
      if ViewOf(s, k).failing {
        assert k != NIL;
        OwnAfterSettles(s, k);
      } else {
        OtherAfterSettles(s, k);
      }
    }
  }

  // ---------------------------------------------------------------- opening and writing

  function Opened(v: View, bytes: seq<byte>, o: Outcome): View
    requires o.Partly? ==> o.n <= |bytes|
  {
    v.(book := v.book.(ahead := v.book.ahead.(opening := None), broken := v.book.broken || !o.Whole?),
       failing := !o.Whole?,
       disk := (match o case Abandoned => Some([]) case Partly(n, _) => Some(bytes[..n])
                        case Whole => Some(bytes) case _ => v.disk),
       open := o.Partly? || o.Whole?,
       unflushed := if o.Partly? then bytes[o.n..] else [])
  }

  lemma ViewOpens(v: View, bytes: seq<byte>, o: Outcome)
    requires Named(v) && FileOk(v) && v.book.ahead.opening == Some(bytes) && !v.forgotten
    requires o.Partly? ==> o.n <= |bytes|
    ensures Named(Opened(v, bytes, o)) && FileOk(Opened(v, bytes, o))
  {
    assert v.header == Some(bytes) && v.book.accepted == v.book.ahead.queued;
    assert Done(v.book) == [] && bytes + [] == bytes;
    if o.Partly? { assert bytes[..o.n] + bytes[o.n..] == bytes; }
  }

  function Written(v: View, bytes: seq<byte>, o: Outcome): View
    requires v.disk.Some? && v.book.ahead.queued != [] && (o.Partly? ==> o.n <= |bytes|)
  {
    v.(book := v.book.(ahead := v.book.ahead.(queued := v.book.ahead.queued[1..]),
                       broken := v.book.broken || !o.Whole?),
       failing := !o.Whole?,
       disk := (match o case Partly(n, _) => Some(v.disk.value + bytes[..n])
                        case Whole => Some(v.disk.value + bytes) case _ => v.disk),
       unflushed := if o.Partly? then bytes[o.n..] else v.unflushed)
  }

  lemma ViewWritesWhole(v: View, bytes: seq<byte>)
    requires Named(v) && FileOk(v) && v.open && !v.failing && !v.forgotten && !v.book.broken
    requires v.book.ahead.queued != [] && v.book.ahead.queued[0] == bytes
    ensures Named(Written(v, bytes, Whole)) && FileOk(Written(v, bytes, Whole))
  {
    OneMoreDone(v.book, Written(v, bytes, Whole).book, bytes);
    Joined(v.header.value, Concat(Done(v.book)), bytes, Concat(v.book.accepted));
  }

  lemma ViewWritesFailing(v: View, bytes: seq<byte>, o: Outcome)
    requires Named(v) && FileOk(v) && v.open && !v.failing && !v.forgotten && !v.book.broken
    requires v.book.ahead.queued != [] && v.book.ahead.queued[0] == bytes
    requires !o.Whole? && (o.Partly? ==> o.n <= |bytes|)
    ensures Named(Written(v, bytes, o)) && FileOk(Written(v, bytes, o))
  {
    if o.Partly? {
      var h, done, all := v.header.value, Concat(Done(v.book)), Concat(v.book.accepted);
      assert done + bytes <= all by { OneMoreDone(v.book, Written(v, bytes, o).book, bytes); }
      Fragment(v.disk.value, h, done, bytes, o.n, all);
    }
  }

  /** However much of the next record a write leaves, file and stream hold no more than it. */
  lemma Fragment(file: seq<byte>, head: seq<byte>, done: seq<byte>, next: seq<byte>, n: nat, all: seq<byte>)
    requires file == head + done && done + next <= all && n <= |next|
    ensures file + next[..n] + next[n..] <= head + all
  {
    assert file + next[..n] + next[n..] == head + (done + next);
  }

  lemma ViewWrites(v: View, bytes: seq<byte>, o: Outcome)
    requires Named(v) && FileOk(v) && v.open && !v.failing && !v.forgotten
    requires v.book.ahead.queued != [] && v.book.ahead.queued[0] == bytes
    requires o.Partly? ==> o.n <= |bytes|
    ensures Named(Written(v, bytes, o)) && FileOk(Written(v, bytes, o))
  {
    if o.Whole? { ViewWritesWhole(v, bytes); } else { ViewWritesFailing(v, bytes, o); }
  }

  lemma Joined(head: seq<byte>, done: seq<byte>, next: seq<byte>, all: seq<byte>)
    requires done + next <= all
    ensures head + done + next == head + (done + next) && head + done + next <= head + all
  {}

  lemma OneMoreDone(b: Book, b': Book, bytes: seq<byte>)
    requires b.ahead.queued != [] && b.ahead.queued[0] == bytes && |b.ahead.queued| <= |b.accepted|
    requires b.accepted == Done(b) + b.ahead.queued
    requires b'.accepted == b.accepted && b'.ahead.queued == b.ahead.queued[1..]
    ensures b.accepted == Done(b') + b'.ahead.queued
    ensures Concat(Done(b')) == Concat(Done(b)) + bytes
    ensures Concat(Done(b)) + bytes <= Concat(b.accepted)
  {
    assert Done(b') == Done(b) + [bytes];
    ConcatSnoc(Done(b), bytes);
    assert b.accepted == Done(b') + b'.ahead.queued;
    ConcatAppend(Done(b'), b'.ahead.queued);
  }

  function Passed(v: View): View
    requires v.book.ahead.queued != []
  {
    v.(book := v.book.(ahead := v.book.ahead.(queued := v.book.ahead.queued[1..])))
  }

  lemma ViewPasses(v: View)
    requires Named(v) && FileOk(v) && !v.open && !v.failing && !v.forgotten
    requires v.book.ahead.opening.None? && v.book.ahead.queued != []
    ensures Named(Passed(v)) && FileOk(Passed(v))
  {}

  lemma ViewAfterHandles(s: System, o: Outcome, m: MatchId)
    requires Can(s, WriterHandles(o)) && m == s.w.phase.item.match_
    requires s.w.phase.item.OpenItem? ==> s.w.fileMatch == NIL
    requires s.w.phase.item.RecordItem? ==> BookOf(s, m).ahead.queued != []
    ensures ViewOf(Next(s, WriterHandles(o)), m) ==
            var item, v := s.w.phase.item, ViewOf(s, m);
            if item.OpenItem? then Opened(v, item.bytes, o)
            else if PassedOver(s.w, item) then Passed(v)
            else Written(v, item.bytes, o)
  {}

  lemma OwnAfterHandles(s: System, o: Outcome, m: MatchId)
    requires Can(s, WriterHandles(o)) && MatchOk(s, m) && m == s.w.phase.item.match_
    requires s.w.phase.item.OpenItem? ==> s.w.fileMatch == NIL
    ensures MatchOk(Next(s, WriterHandles(o)), m)
  {
    var item, v := s.w.phase.item, ViewOf(s, m);
    HeadDone(s.w, m, v.book.ahead);
    HeadOf(m, v.book.ahead);
    ViewAfterHandles(s, o, m);
    if item.OpenItem? {
      ViewOpens(v, item.bytes, o);
    } else if PassedOver(s.w, item) {
      ViewPasses(v);
    } else {
      ViewWrites(v, item.bytes, o);
    }
  }

  lemma OtherViewHandles(s: System, o: Outcome, k: MatchId)
    requires Can(s, WriterHandles(o)) && k != s.w.phase.item.match_
    requires s.w.phase.item.OpenItem? ==> s.w.fileMatch == NIL
    ensures ViewOf(Next(s, WriterHandles(o)), k) == ViewOf(s, k)
  {}

  lemma OtherQueueHandles(s: System, o: Outcome, k: MatchId)
    requires Can(s, WriterHandles(o)) && k != s.w.phase.item.match_
    ensures Mine(Pending(Next(s, WriterHandles(o)).w), k) == Mine(Pending(s.w), k)
  {
    assert Pending(s.w)[1..] == s.w.queue;
  }

  lemma OtherAfterHandles(s: System, o: Outcome, k: MatchId)
    requires Can(s, WriterHandles(o)) && MatchOk(s, k) && k != s.w.phase.item.match_
    requires s.w.phase.item.OpenItem? ==> s.w.fileMatch == NIL
    ensures MatchOk(Next(s, WriterHandles(o)), k)
  {
    OtherViewHandles(s, o, k);
    OtherQueueHandles(s, o, k);
    Unmoved(s, Next(s, WriterHandles(o)), k);
  }

  lemma KeepHandles(s: System, o: Outcome)
    requires Inv(s) && Can(s, WriterHandles(o))
    ensures Inv(Next(s, WriterHandles(o)))
  {
    var s', item := Next(s, WriterHandles(o)), s.w.phase.item;
    assert Pending(s.w)[1..] == s.w.queue && Pending(s.w)[0] == item;
    forall k ensures MatchOk(s', k) {
      assert MatchOk(s, k);
      if k == item.match_ { OwnAfterHandles(s, o, k); } else { OtherAfterHandles(s, o, k); }
    }
    if item.OpenItem? { ApartUnopened(s.w.queue, item.match_); }
  }

  // ---------------------------------------------------------------- the Simulation thread's calls

  lemma KeepCall(s: System, c: Call)
    requires Inv(s) && Can(s, Sim(c))
    ensures Inv(Next(s, Sim(c)))
  {
    var s' := Next(s, Sim(c));
    match c {
      case CallBegin(m) => KeepBegin(s, m);
      case CallOpen(m, bytes) => KeepOpen(s, m, bytes);
      case CallPush(m, bytes) => KeepPush(s, m, bytes);
      case CallStop(m, step) => KeepStop(s, m, step);
      case CallClose(m) => KeepClose(s, m);
      case CallFinish =>
        forall k ensures MatchOk(s', k) {
          assert MatchOk(s, k);
          assert ViewOf(s', k) == ViewOf(s, k).(live := false);
        }
    }
  }

  lemma KeepBegin(s: System, m: MatchId)
    requires Inv(s) && Can(s, Sim(CallBegin(m)))
    ensures Inv(Next(s, Sim(CallBegin(m))))
  {
    var s' := Next(s, Sim(CallBegin(m)));
    forall k ensures MatchOk(s', k) {
      assert MatchOk(s, k);
      assert BookOf(s', k) == BookOf(s, k);
      assert ViewOf(s', k) == if k == m then ViewOf(s, k).(begun := true, live := true) else ViewOf(s, k);
    }
  }

  /** An item queued behind the rest. */
  lemma PendingAppend(w: Writer, w': Writer, x: Item)
    requires w'.phase == w.phase && w'.queue == w.queue + [x]
    ensures Pending(w') == Pending(w) + [x]
    ensures forall k :: Mine(Pending(w'), k) == Mine(Pending(w), k) + if x.match_ == k then [x] else []
    ensures Records(w'.queue) == Records(w.queue) + if x.RecordItem? then 1 else 0
  {
    assert Pending(w') == Pending(w) + [x];
    forall k ensures Mine(Pending(w'), k) == Mine(Pending(w), k) + if x.match_ == k then [x] else [] {
      MineAppend(Pending(w), x, k);
    }
    RecordsAppend(w.queue, x);
  }

  lemma KeepOpen(s: System, m: MatchId, bytes: seq<byte>)
    requires Inv(s) && Can(s, Sim(CallOpen(m, bytes)))
    ensures Inv(Next(s, Sim(CallOpen(m, bytes))))
  {
    var s' := Next(s, Sim(CallOpen(m, bytes)));
    PendingAppend(s.w, s'.w, OpenItem(m, bytes));
    ApartAppend(Pending(s.w), OpenItem(m, bytes), s.w.fileMatch);
    forall k ensures MatchOk(s', k) {
      assert MatchOk(s, k);
      var v, v' := ViewOf(s, k), ViewOf(s', k);
      if k == m {
        assert v.book.accepted == [] && v.book.ahead == NOTHING;
        assert v' == v.(header := Some(bytes), book := v.book.(ahead := NOTHING.(opening := Some(bytes))));
      } else {
        assert v' == v;
      }
    }
  }

  lemma ViewPushes(v: View, v': View, bytes: seq<byte>, accepts: bool)
    requires Named(v) && FileOk(v) && v.live && (accepts ==> !v.stopped)
    requires v'.stopped || !v.stopped
    requires var a := v.book.ahead;
             v' == v.(pushed := if v.barred then v.pushed else v.pushed + [bytes], stopped := v'.stopped,
                      book := if accepts then v.book.(accepted := v.book.accepted + [bytes],
                                                      ahead := a.(queued := a.queued + [bytes])) else v.book)
    ensures Named(v') && FileOk(v')
  {
    if accepts {
      assert Done(v'.book) == Done(v.book);
      ConcatSnoc(v.book.accepted, bytes);
    }
  }

  lemma OwnAfterPush(s: System, m: MatchId, bytes: seq<byte>)
    requires Can(s, Sim(CallPush(m, bytes))) && MatchOk(s, m)
    ensures MatchOk(Next(s, Sim(CallPush(m, bytes))), m)
  {
    var s' := Next(s, Sim(CallPush(m, bytes)));
    var v, v' := ViewOf(s, m), ViewOf(s', m);
    ViewPushes(v, v', bytes, Accepts(s.w, m));
    if Accepts(s.w, m) {
      assert Mine(Pending(s'.w), m) == ItemsOf(m, v.book.ahead) + [RecordItem(m, bytes)] by {
        PendingAppend(s.w, s'.w, RecordItem(m, bytes));
      }
      assert ItemsOf(m, v'.book.ahead) == ItemsOf(m, v.book.ahead) + [RecordItem(m, bytes)];
    }
  }

  lemma OtherViewPush(s: System, m: MatchId, bytes: seq<byte>, k: MatchId)
    requires Can(s, Sim(CallPush(m, bytes))) && k != m
    ensures ViewOf(Next(s, Sim(CallPush(m, bytes))), k) == ViewOf(s, k)
  {}

  lemma OtherAfterPush(s: System, m: MatchId, bytes: seq<byte>, k: MatchId)
    requires Can(s, Sim(CallPush(m, bytes))) && MatchOk(s, k) && k != m
    ensures MatchOk(Next(s, Sim(CallPush(m, bytes))), k)
  {
    var s' := Next(s, Sim(CallPush(m, bytes)));
    if Accepts(s.w, m) { PendingAppend(s.w, s'.w, RecordItem(m, bytes)); }
    OtherViewPush(s, m, bytes, k);
    Unmoved(s, s', k);
  }

  lemma KeepPush(s: System, m: MatchId, bytes: seq<byte>)
    requires Inv(s) && Can(s, Sim(CallPush(m, bytes)))
    ensures Inv(Next(s, Sim(CallPush(m, bytes))))
  {
    var s' := Next(s, Sim(CallPush(m, bytes)));
    if Accepts(s.w, m) {
      PendingAppend(s.w, s'.w, RecordItem(m, bytes));
      ApartAppend(Pending(s.w), RecordItem(m, bytes), s.w.fileMatch);
    }
    forall k ensures MatchOk(s', k) {
      assert MatchOk(s, k);
      if k == m { OwnAfterPush(s, m, bytes); } else { OtherAfterPush(s, m, bytes, k); }
    }
  }

  lemma ViewStops(v: View)
    requires Named(v) && FileOk(v) && v.live && v.begun
    ensures Named(v.(stopped := true, barred := true)) && FileOk(v.(stopped := true, barred := true))
  {}

  lemma MatchAfterStop(s: System, m: MatchId, step: CaptureStep, k: MatchId)
    requires Can(s, Sim(CallStop(m, step))) && MatchOk(s, k)
    ensures MatchOk(Next(s, Sim(CallStop(m, step))), k)
  {
    var s' := Next(s, Sim(CallStop(m, step)));
    if k == m {
      ViewStops(ViewOf(s, k));
      assert ViewOf(s', k) == ViewOf(s, k).(stopped := true, barred := true);
    } else {
      assert ViewOf(s', k) == ViewOf(s, k);
    }
  }

  lemma KeepStop(s: System, m: MatchId, step: CaptureStep)
    requires Inv(s) && Can(s, Sim(CallStop(m, step)))
    ensures Inv(Next(s, Sim(CallStop(m, step))))
  {
    var s' := Next(s, Sim(CallStop(m, step)));
    forall k ensures MatchOk(s', k) { assert MatchOk(s, k); MatchAfterStop(s, m, step, k); }
  }

  lemma OwnAfterClose(s: System, m: MatchId)
    requires Can(s, Sim(CallClose(m))) && MatchOk(s, m)
    ensures MatchOk(Next(s, Sim(CallClose(m))), m)
  {
    var s', v := Next(s, Sim(CallClose(m))), ViewOf(s, m);
    PendingAppend(s.w, s'.w, CloseItem(m));
    assert ViewOf(s', m) == v.(live := false, book := v.book.(ahead := v.book.ahead.(closing := true)));
  }

  lemma OtherAfterClose(s: System, m: MatchId, k: MatchId)
    requires Can(s, Sim(CallClose(m))) && MatchOk(s, k) && k != m
    ensures MatchOk(Next(s, Sim(CallClose(m))), k)
  {
    var s' := Next(s, Sim(CallClose(m)));
    PendingAppend(s.w, s'.w, CloseItem(m));
    Unmoved(s, s', k);
  }

  lemma KeepClose(s: System, m: MatchId)
    requires Inv(s) && Can(s, Sim(CallClose(m)))
    ensures Inv(Next(s, Sim(CallClose(m))))
  {
    var s' := Next(s, Sim(CallClose(m)));
    PendingAppend(s.w, s'.w, CloseItem(m));
    ApartAppend(Pending(s.w), CloseItem(m), s.w.fileMatch);
    forall k ensures MatchOk(s', k) {
      assert MatchOk(s, k);
      if k == m { OwnAfterClose(s, m); } else { OtherAfterClose(s, m, k); }
    }
  }
}

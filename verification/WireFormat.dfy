/**
 The byte-level primitives of packs and blobs: little-endian numbers and length-prefixed strings, as
 a writer appends them and a cursor reads them.  A float is its 32 bits.
 */
module WireFormat {
  import opened Common

  type Text = seq<byte>
  type F32 = u32

  datatype Vec3 = Vec3(x: F32, y: F32, z: F32)
  datatype Quat = Quat(x: F32, y: F32, z: F32, w: F32)

  const MAX_STRING := 4096

  /** Whether a float's bits are a finite number's: its exponent is not all ones. */
  predicate IsFinite(bits: F32) { (bits / 0x80_0000) % 0x100 != 0xFF }

  /** Whether a float's bits are of a finite number at least 0: those with no sign, and minus zero. */
  predicate AtLeastZero(bits: F32) { bits < 0x7F80_0000 || bits == 0x8000_0000 }

  const ONE: F32 := 0x3F80_0000

  // ---------------------------------------------------------------- writing

  /** The low `n` bytes of `value`, the lowest first. */
  function LittleEndian(value: nat, n: nat): (bytes: seq<byte>)
    ensures |bytes| == n
  {
    if n == 0 then [] else [(value % 256) as byte] + LittleEndian(value / 256, n - 1)
  }

  function U32(value: u32): seq<byte> { LittleEndian(value, 4) }

  function U64(value: u64): seq<byte> { LittleEndian(value, 8) }

  function Vec3Bytes(v: Vec3): seq<byte> { U32(v.x) + U32(v.y) + U32(v.z) }

  function QuatBytes(q: Quat): seq<byte> { U32(q.x) + U32(q.y) + U32(q.z) + U32(q.w) }

  function TextBytes(t: Text): seq<byte> { U32(|t| % 0x1_0000_0000) + t }

  function Many<T>(write: T -> seq<byte>, xs: seq<T>): seq<byte> {
    if xs == [] then [] else write(xs[0]) + Many(write, xs[1..])
  }

  lemma {:induction false} ManyAppend<T>(write: T -> seq<byte>, a: seq<T>, b: seq<T>)
    ensures Many(write, a + b) == Many(write, a) + Many(write, b)
  {
    if a == [] {
      assert a + b == b;
    } else {
      assert (a + b)[1..] == a[1..] + b;
      ManyAppend(write, a[1..], b);
    }
  }

  lemma ManyUpTo<T>(write: T -> seq<byte>, xs: seq<T>, i: nat)
    requires i < |xs|
    ensures Many(write, xs[..i + 1]) == Many(write, xs[..i]) + write(xs[i])
  {
    assert xs[..i + 1] == xs[..i] + [xs[i]];
    ManyAppend(write, xs[..i], [xs[i]]);
    assert [xs[i]][1..] == [];
  }

  // ---------------------------------------------------------------- reading

  /** What a read from some place gives: nothing, or a value and the place after it. */
  datatype Read<+T> = Missing | Read(value: T, next: nat)
  {
    predicate IsFailure() { Missing? }

    function PropagateFailure<U>(): Read<U>
      requires IsFailure()
    {
      Missing
    }

    function Extract(): (T, nat)
      requires !IsFailure()
    {
      (value, next)
    }
  }

  function ReadBytes(d: seq<byte>, at: nat, n: nat): Read<seq<byte>> {
    if at + n > |d| then Missing else Read(d[at..at + n], at + n)
  }

  function Value(bytes: seq<byte>): nat {
    if bytes == [] then 0 else bytes[0] + 256 * Value(bytes[1..])
  }

  function Pow256(n: nat): nat { if n == 0 then 1 else 256 * Pow256(n - 1) }

  lemma {:induction false} ValueBelow(bytes: seq<byte>)
    ensures Value(bytes) < Pow256(|bytes|)
  {
    if bytes != [] { ValueBelow(bytes[1..]); }
  }

  lemma {:induction false} LittleEndianReads(value: nat, n: nat)
    requires value < Pow256(n)
    ensures Value(LittleEndian(value, n)) == value
  {
    if n > 0 { LittleEndianReads(value / 256, n - 1); }
  }

  lemma Pow256Is()
    ensures Pow256(1) == 0x100 && Pow256(4) == 0x1_0000_0000 && Pow256(8) == 0x1_0000_0000_0000_0000
  {
    assert Pow256(4) == 256 * Pow256(3) && Pow256(3) == 256 * Pow256(2) && Pow256(2) == 256 * Pow256(1);
    assert Pow256(8) == 256 * Pow256(7) && Pow256(7) == 256 * Pow256(6) && Pow256(6) == 256 * Pow256(5);
    assert Pow256(5) == 256 * Pow256(4);
  }

  function ReadU8(d: seq<byte>, at: nat): Read<byte> {
    if at >= |d| then Missing else Read(d[at], at + 1)
  }

  function ReadU32(d: seq<byte>, at: nat): Read<u32> {
    var (bytes, next) :- ReadBytes(d, at, 4);
    ValueBelow(bytes);
    Pow256Is();
    Read(Value(bytes), next)
  }

  function ReadU64(d: seq<byte>, at: nat): Read<u64> {
    var (bytes, next) :- ReadBytes(d, at, 8);
    ValueBelow(bytes);
    Pow256Is();
    Read(Value(bytes), next)
  }

  function ReadVec3(d: seq<byte>, at: nat): Read<Vec3> {
    var (x, p) :- ReadU32(d, at);
    var (y, q) :- ReadU32(d, p);
    var (z, next) :- ReadU32(d, q);
    Read(Vec3(x, y, z), next)
  }

  function ReadQuat(d: seq<byte>, at: nat): Read<Quat> {
    var (x, p) :- ReadU32(d, at);
    var (y, q) :- ReadU32(d, p);
    var (z, r) :- ReadU32(d, q);
    var (w, next) :- ReadU32(d, r);
    Read(Quat(x, y, z, w), next)
  }

  function ReadText(d: seq<byte>, at: nat): Read<Text> {
    var (length, p) :- ReadU32(d, at);
    if length > MAX_STRING then Missing else ReadBytes(d, p, length)
  }

  /** Elements `i` up to `n`, each read where the one before ended. */
  function ReadMany<T>(read: (seq<byte>, nat, nat) -> Read<T>, d: seq<byte>, at: nat, i: nat, n: nat): Read<seq<T>>
    requires i <= n
    decreases n - i
  {
    if i == n then Read([], at)
    else
      var (x, p) :- read(d, at, i);
      var (xs, next) :- ReadMany(read, d, p, i + 1, n);
      Read([x] + xs, next)
  }

  // ---------------------------------------------------------------- what was written reads back

  /** Whether `bytes` lie at a place. */
  predicate At(d: seq<byte>, at: nat, bytes: seq<byte>) {
    at + |bytes| <= |d| && d[at..at + |bytes|] == bytes
  }

  lemma AtSplit(d: seq<byte>, at: nat, a: seq<byte>, b: seq<byte>)
    requires At(d, at, a + b)
    ensures At(d, at, a) && At(d, at + |a|, b)
  {
    assert d[at..at + |a|] == (a + b)[..|a|];
    assert d[at + |a|..at + |a| + |b|] == (a + b)[|a|..];
  }

  lemma AtSplit3(d: seq<byte>, at: nat, a: seq<byte>, b: seq<byte>, c: seq<byte>)
    requires At(d, at, a + b + c)
    ensures At(d, at, a) && At(d, at + |a|, b) && At(d, at + |a| + |b|, c)
  {
    hide At;
    AtSplit(d, at, a + b, c);
    AtSplit(d, at, a, b);
  }

  lemma AtSplit4(d: seq<byte>, at: nat, a: seq<byte>, b: seq<byte>, c: seq<byte>, e: seq<byte>)
    requires At(d, at, a + b + c + e)
    ensures At(d, at, a) && At(d, at + |a|, b) && At(d, at + |a| + |b|, c) && At(d, at + |a| + |b| + |c|, e)
  {
    hide At;
    AtSplit(d, at, a + b + c, e);
    AtSplit3(d, at, a, b, c);
  }

  lemma U32Reads(d: seq<byte>, at: nat, v: u32)
    requires At(d, at, U32(v))
    ensures ReadU32(d, at) == Read(v, at + 4)
  {
    Pow256Is();
    LittleEndianReads(v, 4);
  }

  lemma U64Reads(d: seq<byte>, at: nat, v: u64)
    requires At(d, at, U64(v))
    ensures ReadU64(d, at) == Read(v, at + 8)
  {
    Pow256Is();
    LittleEndianReads(v, 8);
  }

  lemma U8Reads(d: seq<byte>, at: nat, v: byte)
    requires At(d, at, [v])
    ensures ReadU8(d, at) == Read(v, at + 1)
  {
    assert d[at..at + 1][0] == v;
  }

  lemma BytesRead(d: seq<byte>, at: nat, bytes: seq<byte>)
    requires At(d, at, bytes)
    ensures ReadBytes(d, at, |bytes|) == Read(bytes, at + |bytes|)
  {}

  lemma Vec3Reads(d: seq<byte>, at: nat, v: Vec3)
    requires At(d, at, Vec3Bytes(v))
    ensures ReadVec3(d, at) == Read(v, at + 12) && |Vec3Bytes(v)| == 12
  {
    AtSplit3(d, at, U32(v.x), U32(v.y), U32(v.z));
    U32Reads(d, at, v.x);
    U32Reads(d, at + 4, v.y);
    U32Reads(d, at + 8, v.z);
  }

  lemma QuatReads(d: seq<byte>, at: nat, q: Quat)
    requires At(d, at, QuatBytes(q))
    ensures ReadQuat(d, at) == Read(q, at + 16) && |QuatBytes(q)| == 16
  {
    AtSplit4(d, at, U32(q.x), U32(q.y), U32(q.z), U32(q.w));
    U32Reads(d, at, q.x);
    U32Reads(d, at + 4, q.y);
    U32Reads(d, at + 8, q.z);
    U32Reads(d, at + 12, q.w);
  }

  lemma TextReads(d: seq<byte>, at: nat, t: Text)
    requires |t| <= MAX_STRING && At(d, at, TextBytes(t))
    ensures ReadText(d, at) == Read(t, at + 4 + |t|) && |TextBytes(t)| == 4 + |t|
  {
    AtSplit(d, at, U32(|t|), t);
    U32Reads(d, at, |t|);
  }

  // ---------------------------------------------------------------- the bytes themselves

  /** A 32-bit number's bytes at a place, the lowest first. */
  function NumberAt(d: seq<byte>, at: nat): nat
    requires at + 4 <= |d|
  {
    d[at] as nat + 0x100 * (d[at + 1] as nat) + 0x1_0000 * (d[at + 2] as nat) + 0x100_0000 * (d[at + 3] as nat)
  }

  function LongAt(d: seq<byte>, at: nat): nat
    requires at + 8 <= |d|
  {
    NumberAt(d, at) + 0x1_0000_0000 * NumberAt(d, at + 4)
  }

  lemma FourBytes(bytes: seq<byte>)
    requires |bytes| == 4
    ensures Value(bytes) == NumberAt(bytes, 0)
  {
    assert bytes[1..][0] == bytes[1] && bytes[1..][1..] == bytes[2..] && bytes[2..][0] == bytes[2];
    assert bytes[2..][1..] == bytes[3..] && bytes[3..][0] == bytes[3] && bytes[3..][1..] == [];
    assert Value(bytes[3..]) == bytes[3];
    assert Value(bytes[2..]) == bytes[2] + 256 * Value(bytes[3..]);
    assert Value(bytes[1..]) == bytes[1] + 256 * Value(bytes[2..]);
  }

  lemma EightBytes(bytes: seq<byte>)
    requires |bytes| == 8
    ensures Value(bytes) == LongAt(bytes, 0)
  {
    assert bytes[1..][0] == bytes[1] && bytes[1..][1..] == bytes[2..] && bytes[2..][0] == bytes[2];
    assert bytes[2..][1..] == bytes[3..] && bytes[3..][0] == bytes[3] && bytes[3..][1..] == bytes[4..];
    FourBytes(bytes[4..]);
    assert Value(bytes[3..]) == bytes[3] + 256 * Value(bytes[4..]);
    assert Value(bytes[2..]) == bytes[2] + 256 * Value(bytes[3..]);
    assert Value(bytes[1..]) == bytes[1] + 256 * Value(bytes[2..]);
  }

  /** A number's bytes are of that number, the lowest first. */
  lemma NumbersLowestFirst(d: seq<byte>, at: nat, v: u32, w: u64)
    ensures At(d, at, U32(v)) ==> at + 4 <= |d| && NumberAt(d, at) == v
    ensures At(d, at, U64(w)) ==> at + 8 <= |d| && LongAt(d, at) == w
  {
    Pow256Is();
    LittleEndianReads(v, 4);
    LittleEndianReads(w, 8);
    FourBytes(U32(v));
    EightBytes(U64(w));
    hide LittleEndian;
    if At(d, at, U32(v)) {
      assert forall i :: 0 <= i < 4 ==> d[at + i] == d[at..at + 4][i] == U32(v)[i];
    }
    if At(d, at, U64(w)) {
      assert forall i :: 0 <= i < 8 ==> d[at + i] == d[at..at + 8][i] == U64(w)[i];
    }
  }

  /** A vector's and a rotation's parts lie in order, four bytes each. */
  lemma PartsInOrder(d: seq<byte>, at: nat, v: Vec3, q: Quat)
    ensures At(d, at, Vec3Bytes(v)) ==>
              && at + 12 <= |d|
              && NumberAt(d, at) == v.x && NumberAt(d, at + 4) == v.y && NumberAt(d, at + 8) == v.z
    ensures At(d, at, QuatBytes(q)) ==>
              && at + 16 <= |d|
              && NumberAt(d, at) == q.x && NumberAt(d, at + 4) == q.y && NumberAt(d, at + 8) == q.z
              && NumberAt(d, at + 12) == q.w
  {
    hide U32, At, NumberAt;
    if At(d, at, Vec3Bytes(v)) {
      AtSplit3(d, at, U32(v.x), U32(v.y), U32(v.z));
      NumbersIn(d, at, v.x, v.y);
      NumbersIn(d, at + 8, v.z, 0);
    }
    if At(d, at, QuatBytes(q)) {
      AtSplit4(d, at, U32(q.x), U32(q.y), U32(q.z), U32(q.w));
      NumbersIn(d, at, q.x, q.y);
      NumbersIn(d, at + 8, q.z, q.w);
    }
  }

  lemma NumbersIn(d: seq<byte>, at: nat, v: u32, w: u32)
    ensures |U32(v)| == 4 == |U32(w)|
    ensures At(d, at, U32(v)) ==> at + 4 <= |d| && NumberAt(d, at) == v
    ensures At(d, at + 4, U32(w)) ==> at + 8 <= |d| && NumberAt(d, at + 4) == w
  {
    hide NumberAt, At;
    NumbersLowestFirst(d, at, v, 0);
    NumbersLowestFirst(d, at + 4, w, 0);
  }

  /** A string is its length, in four bytes, then its bytes. */
  lemma TextLies(d: seq<byte>, at: nat, t: Text)
    requires |t| < 0x1_0000_0000 && At(d, at, TextBytes(t))
    ensures at + 4 + |t| <= |d| && NumberAt(d, at) == |t| && d[at + 4..at + 4 + |t|] == t
  {
    AtSplit(d, at, U32(|t|), t);
    NumbersLowestFirst(d, at, |t|, 0);
  }

  /** A string is read exactly when its length is no more than 4096 and the data holds it. */
  lemma TextReadIff(d: seq<byte>, at: nat)
    ensures ReadText(d, at).Read? <==>
              at + 4 <= |d| && NumberAt(d, at) <= 4096 && at + 4 + NumberAt(d, at) <= |d|
    ensures ReadText(d, at).Read? ==>
              && ReadText(d, at).value == d[at + 4..at + 4 + NumberAt(d, at)]
              && ReadText(d, at).next == at + 4 + NumberAt(d, at)
  {
    if at + 4 <= |d| {
      FourBytes(d[at..at + 4]);
      assert d[at..at + 4][0] == d[at] && d[at..at + 4][1] == d[at + 1];
      assert d[at..at + 4][2] == d[at + 2] && d[at..at + 4][3] == d[at + 3];
      hide Value;
    }
  }

  /** The bits of no number, or an infinite one: an exponent of all ones, whatever the sign. */
  lemma FiniteIff(bits: F32)
    ensures IsFinite(bits) <==> !(0x7F80_0000 <= bits < 0x8000_0000 || 0xFF80_0000 <= bits < 0x1_0000_0000)
    ensures AtLeastZero(bits) <==> (IsFinite(bits) && bits < 0x8000_0000) || bits == 0x8000_0000
  {}

  /** Whether a reader gives back what a writer wrote of every element it admits, and no other. */
  ghost predicate Inverse<T(!new)>(
    write: T -> seq<byte>, read: (seq<byte>, nat, nat) -> Read<T>, admits: (T, nat) -> bool, fits: T -> bool)
  {
    forall d: seq<byte>, at: nat, i: nat, x: T :: fits(x) && At(d, at, write(x)) ==>
      read(d, at, i) == if admits(x, i) then Read(x, at + |write(x)|) else Missing
  }

  /** Whether each of `xs` is admitted at its place, the first at `i`. */
  predicate AllFrom<T>(admits: (T, nat) -> bool, xs: seq<T>, i: nat)
    decreases |xs|
  {
    xs == [] || (admits(xs[0], i) && AllFrom(admits, xs[1..], i + 1))
  }

  lemma {:induction false} AllFromAt<T>(admits: (T, nat) -> bool, xs: seq<T>, i: nat, k: nat)
    requires AllFrom(admits, xs, i) && k < |xs|
    ensures admits(xs[k], i + k)
    decreases |xs|
  {
    if k > 0 { AllFromAt(admits, xs[1..], i + 1, k - 1); }
  }

  lemma {:induction false} AllFromEach<T>(admits: (T, nat) -> bool, xs: seq<T>, i: nat)
    requires forall k :: 0 <= k < |xs| ==> admits(xs[k], i + k)
    ensures AllFrom(admits, xs, i)
    decreases |xs|
  {
    if xs != [] {
      assert admits(xs[0], i + 0);
      forall k | 0 <= k < |xs[1..]| ensures admits(xs[1..][k], i + 1 + k) {
        assert admits(xs[k + 1], i + (k + 1));
      }
      AllFromEach(admits, xs[1..], i + 1);
    }
  }

  lemma AllFromIff<T>(admits: (T, nat) -> bool, xs: seq<T>)
    ensures AllFrom(admits, xs, 0) <==> forall k :: 0 <= k < |xs| ==> admits(xs[k], k)
  {
    if AllFrom(admits, xs, 0) {
      forall k | 0 <= k < |xs| ensures admits(xs[k], k) { AllFromAt(admits, xs, 0, k); }
    }
    if forall k :: 0 <= k < |xs| ==> admits(xs[k], k) {
      forall k | 0 <= k < |xs| ensures admits(xs[k], 0 + k) { assert admits(xs[k], k); }
      AllFromEach(admits, xs, 0);
    }
  }

  /** A list written reads back exactly when each element is admitted at its place. */
  lemma {:induction false} ManyReads<T(!new)>(
    write: T -> seq<byte>, read: (seq<byte>, nat, nat) -> Read<T>, admits: (T, nat) -> bool, fits: T -> bool,
    d: seq<byte>, at: nat, xs: seq<T>, i: nat, n: nat)
    requires Inverse(write, read, admits, fits) && n == i + |xs|
    requires forall k :: 0 <= k < |xs| ==> fits(xs[k])
    requires At(d, at, Many(write, xs))
    ensures ReadMany(read, d, at, i, n) ==
            if AllFrom(admits, xs, i) then Read(xs, at + |Many(write, xs)|) else Missing
    decreases |xs|
  {
    hide At;
    if xs != [] {
      var first := write(xs[0]);
      AtSplit(d, at, first, Many(write, xs[1..]));
      assert read(d, at, i) == if admits(xs[0], i) then Read(xs[0], at + |first|) else Missing;
      if admits(xs[0], i) {
        ManyReads(write, read, admits, fits, d, at + |first|, xs[1..], i + 1, n);
        assert [xs[0]] + xs[1..] == xs;
      }
    }
  }

  /** Every element read was read from some place: what each read ensures holds of each. */
  lemma {:induction false} ManyHold<T(!new)>(
    read: (seq<byte>, nat, nat) -> Read<T>, holds: (T, nat) -> bool, d: seq<byte>, at: nat, i: nat, n: nat)
    requires i <= n && ReadMany(read, d, at, i, n).Read?
    requires forall at': nat, k: nat :: read(d, at', k).Read? ==> holds(read(d, at', k).value, k)
    ensures var xs := ReadMany(read, d, at, i, n).value; |xs| == n - i && AllFrom(holds, xs, i)
    decreases n - i
  {
    if i < n {
      var first := read(d, at, i);
      ManyHold(read, holds, d, first.next, i + 1, n);
      var rest := ReadMany(read, d, first.next, i + 1, n).value;
      assert ([first.value] + rest)[1..] == rest;
    }
  }

  lemma Join3(a: seq<byte>, x: seq<byte>, y: seq<byte>, z: seq<byte>)
    ensures a + x + y + z == a + (x + y + z)
  {}

  lemma Join4(a: seq<byte>, x: seq<byte>, y: seq<byte>, z: seq<byte>, w: seq<byte>)
    ensures a + x + y + z + w == a + (x + y + z + w)
  {}

  // ---------------------------------------------------------------- the writer and the reader

  class ByteWriter {
    var data: seq<byte>

    constructor ()
      ensures data == []
    {
      data := [];
    }

    method WriteU8(v: byte)
      modifies this
      ensures data == old(data) + [v]
    {
      data := data + [v];
    }

    method WriteNumber(v: nat, n: nat)
      modifies this
      ensures data == old(data) + LittleEndian(v, n)
    {
      var i, rest := 0, v;
      while i < n
        invariant i <= n && data + LittleEndian(rest, n - i) == old(data) + LittleEndian(v, n)
      {
        assert data + ([(rest % 256) as byte] + LittleEndian(rest / 256, n - i - 1))
            == data + [(rest % 256) as byte] + LittleEndian(rest / 256, n - i - 1);
        data := data + [(rest % 256) as byte];
        rest := rest / 256;
        i := i + 1;
      }
      assert data + [] == data;
    }

    method WriteBytes(bytes: seq<byte>)
      modifies this
      ensures data == old(data) + bytes
    {
      data := data + bytes;
    }

    method WriteVec3(v: Vec3)
      modifies this
      ensures data == old(data) + Vec3Bytes(v)
    {
      WriteNumber(v.x, 4);
      WriteNumber(v.y, 4);
      WriteNumber(v.z, 4);
      Join3(old(data), U32(v.x), U32(v.y), U32(v.z));
    }

    method WriteQuat(q: Quat)
      modifies this
      ensures data == old(data) + QuatBytes(q)
    {
      WriteNumber(q.x, 4);
      WriteNumber(q.y, 4);
      WriteNumber(q.z, 4);
      WriteNumber(q.w, 4);
      Join4(old(data), U32(q.x), U32(q.y), U32(q.z), U32(q.w));
    }

    method WriteText(t: Text) returns (fits: bool)
      modifies this
      ensures fits == (|t| <= MAX_STRING)
      ensures data == if fits then old(data) + TextBytes(t) else old(data)
    {
      if |t| > MAX_STRING { return false; }
      assert |t| % 0x1_0000_0000 == |t|;
      hide LittleEndian;
      WriteNumber(|t|, 4);
      WriteBytes(t);
      assert data == old(data) + (U32(|t| % 0x1_0000_0000) + t);
      return true;
    }
  }

  class ByteReader {
    const data: seq<byte>
    var pos: nat

    constructor (data: seq<byte>)
      ensures this.data == data && pos == 0
    {
      this.data, pos := data, 0;
    }

    /** Whether a read did what `f` says of where the cursor was. */
    predicate Did<T(==)>(f: Read<T>, r: Option<T>)
      reads this
    {
      if f.Missing? then r.None? else r == Some(f.value) && pos == f.next
    }

    method NextBytes(n: nat) returns (r: Option<seq<byte>>)
      modifies this
      ensures Did(ReadBytes(data, old(pos), n), r)
    {
      if pos + n > |data| { return None; }
      r := Some(data[pos..pos + n]);
      pos := pos + n;
    }

    method NextU8() returns (r: Option<byte>)
      modifies this
      ensures Did(ReadU8(data, old(pos)), r)
    {
      if pos >= |data| { return None; }
      r := Some(data[pos]);
      pos := pos + 1;
    }

    /** `n` bytes, the lowest first. */
    method NextNumber(n: nat) returns (r: Option<nat>)
      modifies this
      ensures old(pos) + n > |data| ==> r.None?
      ensures old(pos) + n <= |data| ==> r == Some(Value(data[old(pos)..old(pos) + n])) && pos == old(pos) + n
    {
      var bytes := NextBytes(n);
      if bytes.None? { return None; }
      var value: nat, scale: nat, i := 0, 1, 0;
      assert bytes.value[0..] == bytes.value;
      while i < n
        invariant i <= n && pos == old(pos) + n
        invariant value + scale * Value(bytes.value[i..]) == Value(bytes.value)
      {
        NextDigit(value, scale, bytes.value, i);
        value := value + scale * bytes.value[i];
        scale := scale * 256;
        i := i + 1;
      }
      assert Value(bytes.value[i..]) == 0 && scale * 0 == 0;
      return Some(value);
    }

    method NextU32() returns (r: Option<u32>)
      modifies this
      ensures Did(ReadU32(data, old(pos)), r)
    {
      var v := NextNumber(4);
      if v.None? { return None; }
      ValueBelow(data[old(pos)..old(pos) + 4]);
      Pow256Is();
      return Some(v.value);
    }

    method NextU64() returns (r: Option<u64>)
      modifies this
      ensures Did(ReadU64(data, old(pos)), r)
    {
      var v := NextNumber(8);
      if v.None? { return None; }
      ValueBelow(data[old(pos)..old(pos) + 8]);
      Pow256Is();
      return Some(v.value);
    }

    method NextVec3() returns (r: Option<Vec3>)
      modifies this
      ensures Did(ReadVec3(data, old(pos)), r)
    {
      var x := NextU32();
      if x.None? { return None; }
      var y := NextU32();
      if y.None? { return None; }
      var z := NextU32();
      if z.None? { return None; }
      return Some(Vec3(x.value, y.value, z.value));
    }

    method NextQuat() returns (r: Option<Quat>)
      modifies this
      ensures Did(ReadQuat(data, old(pos)), r)
    {
      var x := NextU32();
      if x.None? { return None; }
      var y := NextU32();
      if y.None? { return None; }
      var z := NextU32();
      if z.None? { return None; }
      var w := NextU32();
      if w.None? { return None; }
      return Some(Quat(x.value, y.value, z.value, w.value));
    }

    method NextText() returns (r: Option<Text>)
      modifies this
      ensures Did(ReadText(data, old(pos)), r)
    {
      var length := NextU32();
      if length.None? || length.value > MAX_STRING { return None; }
      r := NextBytes(length.value);
    }
  }

  lemma NextDigit(value: nat, scale: nat, bytes: seq<byte>, i: nat)
    requires i < |bytes|
    ensures value + scale * Value(bytes[i..]) == value + scale * bytes[i] + scale * 256 * Value(bytes[i + 1..])
  {
    assert bytes[i..][1..] == bytes[i + 1..];
    var rest := Value(bytes[i + 1..]);
    assert scale * (bytes[i] + 256 * rest) == scale * bytes[i] + scale * 256 * rest;
  }
}

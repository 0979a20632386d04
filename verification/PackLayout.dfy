/** A pack's bytes themselves: what lies where in every pack written, which packs can be, and which load. */
module PackLayout {
  import opened Common
  import opened WireFormat
  import opened PackFormat
  import opened PackRoundTrip

  /** The bytes of the first `n` entries' data. */
  function DataSize(entries: seq<Entry>, n: nat): nat
    requires n <= |entries|
  {
    if n == 0 then 0 else DataSize(entries, n - 1) + |entries[n - 1].data|
  }

  /** The bytes of the first `n` rows of the index: a type, a length and path, an offset and a size. */
  function RowsSize(entries: seq<Entry>, n: nat): nat
    requires n <= |entries|
  {
    if n == 0 then 0 else RowsSize(entries, n - 1) + 1 + 4 + |entries[n - 1].path| + 8 + 8
  }

  lemma {:induction false} SizesAre(entries: seq<Entry>, n: nat)
    requires n <= |entries|
    ensures |DataOf(entries[..n])| == DataSize(entries, n) && |IndexOf(entries, n)| == RowsSize(entries, n)
    decreases n
  {
    hide OffsetOf, U64;
    if n > 0 {
      SizesAre(entries, n - 1);
      assert entries[..n][..n - 1] == entries[..n - 1];
      RowSize(entries[n - 1], OffsetOf(entries, n - 1));
    }
  }

  lemma RowSize(e: Entry, offset: nat)
    ensures |RowBytes(e, offset)| == 21 + |e.path|
  {}

  // ---------------------------------------------------------------- which can be written

  /** No more than 2^20 entries, each of a path no longer than 4096 bytes. */
  predicate WithinLimits(entries: seq<Entry>) {
    |entries| <= 0x10_0000 && forall i :: 0 <= i < |entries| ==> |entries[i].path| <= 4096
  }

  predicate SamePathTwice(entries: seq<Entry>) {
    exists i, j :: 0 <= i < j < |entries| && entries[i].path == entries[j].path
  }

  /**
   A pack can be written exactly when it is within limits, no path is named twice and its file, of a
   header of 61 bytes, its data, its rows and a trailer of 96, is of no more than 8 GiB. What else
   refuses it says a path is named twice exactly when that is all that could.
   */
  lemma WrittenIff(c: Crypto, entries: seq<Entry>, client: Option<Hash>)
    ensures WritePack(c, entries, client).Ok? <==>
              && WithinLimits(entries) && !SamePathTwice(entries)
              && 61 + DataSize(entries, |entries|) + RowsSize(entries, |entries|) + 96 <= 8589934592
    ensures WritePack(c, entries, client) == Err(DuplicatePath) <==>
              WithinLimits(entries) && SamePathTwice(entries)
  {
    hide IndexOf, DataOf, HeaderBytes, DataSize, RowsSize;
    SizesAre(entries, |entries|);
    assert entries[..|entries|] == entries;
    assert PathsDistinct(entries) <==> !SamePathTwice(entries);
  }

  // ---------------------------------------------------------------- what lies where

  /** The header: the magic `AUGP`, format 7, where the data and the index begin, how many rows, and a client pack. */
  predicate HeaderLies(file: seq<byte>, indexOffset: nat, count: nat, client: Option<Hash>) {
    && |file| >= 61 && file[..4] == [0x41, 0x55, 0x47, 0x50] && NumberAt(file, 4) == 7
    && LongAt(file, 8) == 61 && LongAt(file, 16) == indexOffset && NumberAt(file, 24) == count
    && (client.Some? ==> file[28] == 1 && file[29..61] == client.value)
    && (client.None? ==> file[28] == 0 && forall i :: 29 <= i < 61 ==> file[i] == 0)
  }

  /** A row of the index: the type's number, the path, where its data begins and how much there is. */
  predicate RowLiesAt(file: seq<byte>, at: nat, e: Entry, offset: nat) {
    var path := at + 5 + |e.path|;
    && path + 16 <= |file| && file[at] == e.type_ as byte
    && NumberAt(file, at + 1) == |e.path| && file[at + 5..path] == e.path
    && LongAt(file, path) == offset && LongAt(file, path + 8) == |e.data|
  }

  /** The hash of all before it, then the signature of that hash. */
  predicate TrailerLies(c: Crypto, file: seq<byte>, hashed: nat) {
    && |file| == hashed + 96 && file[hashed..hashed + 32] == c.hash(file[..hashed])
    && file[hashed + 32..] == c.sign(c.hash(file[..hashed]))
  }

  lemma HeaderParts(d: seq<byte>, indexOffset: u64, count: u32, client: Option<Hash>)
    requires |d| >= 61 && d[..61] == HeaderBytes(indexOffset, count, client)
    ensures At(d, 0, MAGIC) && At(d, 4, U32(FORMAT_VERSION)) && At(d, 8, U64(HEADER_SIZE))
    ensures At(d, 16, U64(indexOffset)) && At(d, 24, U32(count)) && At(d, 28, ClientBytes(client))
  {
    hide At, ClientBytes;
    var a, b, c, e, f := MAGIC, U32(FORMAT_VERSION), U64(HEADER_SIZE), U64(indexOffset), U32(count);
    var g := ClientBytes(client);
    assert At(d, 0, a + b + c + e + f + g) by { FrontAt(d, 61); }
    AtSplit(d, 0, a + b + c + e + f, g);
    AtSplit(d, 0, a + b + c + e, f);
    AtSplit(d, 0, a + b + c, e);
    AtSplit(d, 0, a + b, c);
    AtSplit(d, 0, a, b);
  }

  lemma HeaderBytesLie(d: seq<byte>, indexOffset: u64, count: u32, client: Option<Hash>)
    requires |d| >= 61 && d[..61] == HeaderBytes(indexOffset, count, client)
    ensures HeaderLies(d, indexOffset, count, client)
  {
    hide At, ClientBytes, NumberAt, LongAt, U32, U64, HeaderBytes;
    HeaderParts(d, indexOffset, count, client);
    NumbersLowestFirst(d, 4, FORMAT_VERSION, 0);
    NumbersLowestFirst(d, 8, 0, HEADER_SIZE);
    NumbersLowestFirst(d, 16, 0, indexOffset);
    NumbersLowestFirst(d, 24, count, 0);
    ClientLies(d, client);
    FrontIs(d, MAGIC);
  }

  lemma FrontAt(d: seq<byte>, n: nat)
    requires n <= |d|
    ensures At(d, 0, d[..n])
  {}

  lemma FrontIs(d: seq<byte>, bytes: seq<byte>)
    ensures At(d, 0, bytes) ==> |bytes| <= |d| && d[..|bytes|] == bytes
  {}

  lemma ClientLies(d: seq<byte>, client: Option<Hash>)
    requires At(d, 28, ClientBytes(client))
    ensures |d| >= 61 && (client.Some? ==> d[28] == 1 && d[29..61] == client.value)
    ensures client.None? ==> d[28] == 0 && forall i :: 29 <= i < 61 ==> d[i] == 0
  {
    assert d[28..61] == ClientBytes(client) && d[28..61][0] == d[28] && d[28..61][1..] == d[29..61];
    if client.None? {
      forall i | 29 <= i < 61 ensures d[i] == 0 { assert d[28..61][i - 28] == d[i]; }
    }
  }

  lemma RowLiesIn(d: seq<byte>, at: nat, e: Entry, offset: u64)
    requires |e.path| <= MAX_STRING && |e.data| < 0x1_0000_0000_0000_0000 && At(d, at, RowBytes(e, offset))
    ensures RowLiesAt(d, at, e, offset)
  {
    hide At, NumberAt, LongAt, TextBytes, U64, RowBytes;
    var t, p, o, s := [e.type_ as byte], TextBytes(e.path), U64(offset), U64(|e.data|);
    RowParts(e, offset, |e.data|);
    AtSplit4(d, at, t, p, o, s);
    TextLies(d, at + 1, e.path);
    NumbersLowestFirst(d, at + 5 + |e.path|, 0, offset);
    LongSize(offset);
    NumbersLowestFirst(d, at + 13 + |e.path|, 0, |e.data|);
    FirstIs(d, at, e.type_ as byte);
  }

  lemma LongSize(v: u64)
    ensures |U64(v)| == 8
  {}

  lemma FirstIs(d: seq<byte>, at: nat, b: byte)
    requires At(d, at, [b])
    ensures at < |d| && d[at] == b
  {
    assert d[at..at + 1][0] == d[at];
  }

  lemma WithinAt(file: seq<byte>, start: nat, inner: seq<byte>, at: nat, bytes: seq<byte>)
    requires start + |inner| <= |file| && file[start..start + |inner|] == inner && At(inner, at, bytes)
    ensures At(file, start + at, bytes)
  {
    SliceWithin(file, start, inner, at, |bytes|);
  }

  lemma EntryLies(c: Crypto, entries: seq<Entry>, client: Option<Hash>, file: seq<byte>, i: nat)
    requires Honest(c) && WritePack(c, entries, client) == Ok(file) && i < |entries|
    ensures At(file, 61 + DataSize(entries, i), entries[i].data)
    ensures RowLiesAt(file, 61 + DataSize(entries, |entries|) + RowsSize(entries, i), entries[i],
                      61 + DataSize(entries, i))
  {
    hide HeaderBytes, DataOf, IndexOf, DataSize, RowsSize, At, RowLiesAt, PathsDistinct;
    var s := SectionsOf(entries, client);
    SectionsLie(c, entries, client, file, |file| - TRAILER_SIZE);
    SizesAre(entries, |entries|);
    SizesAre(entries, i);
    assert entries[..|entries|] == entries;
    DataLies(entries, i);
    RowLies(entries, i);
    WithinAt(file, 61, s.data, DataSize(entries, i), entries[i].data);
    WithinAt(file, 61 + |s.data|, s.index, RowsSize(entries, i), RowBytes(entries[i], 61 + DataSize(entries, i)));
    RowLiesIn(file, 61 + |s.data| + RowsSize(entries, i), entries[i], 61 + DataSize(entries, i));
  }

  predicate EntriesLie(entries: seq<Entry>, file: seq<byte>) {
    forall i :: 0 <= i < |entries| ==>
      && At(file, 61 + DataSize(entries, i), entries[i].data)
      && RowLiesAt(file, 61 + DataSize(entries, |entries|) + RowsSize(entries, i), entries[i],
                   61 + DataSize(entries, i))
  }

  lemma AllEntriesLie(c: Crypto, entries: seq<Entry>, client: Option<Hash>, file: seq<byte>)
    requires Honest(c) && WritePack(c, entries, client) == Ok(file)
    ensures EntriesLie(entries, file)
  {
    hide WritePack, DataSize, RowsSize, At, RowLiesAt, Honest;
    forall i | 0 <= i < |entries|
      ensures At(file, 61 + DataSize(entries, i), entries[i].data)
      ensures RowLiesAt(file, 61 + DataSize(entries, |entries|) + RowsSize(entries, i), entries[i],
                        61 + DataSize(entries, i))
    {
      EntryLies(c, entries, client, file, i);
    }
  }

  lemma LongEnough(c: Crypto, entries: seq<Entry>, client: Option<Hash>, file: seq<byte>)
    requires Honest(c) && WritePack(c, entries, client) == Ok(file)
    ensures |file| >= TRAILER_SIZE
  {
    hide Validate, HeaderBytes, DataOf, IndexOf;
  }

  lemma FrontLies(c: Crypto, entries: seq<Entry>, client: Option<Hash>, file: seq<byte>)
    requires Honest(c) && WritePack(c, entries, client) == Ok(file)
    ensures HeaderLies(file, 61 + DataSize(entries, |entries|), |entries|, client)
  {
    hide WritePack, Honest, ContentOf, HeaderBytes, DataOf, IndexOf, DataSize, RowsSize, HeaderLies, SamePathTwice;
    WrittenIff(c, entries, client);
    LongEnough(c, entries, client, file);
    SectionsLie(c, entries, client, file, |file| - TRAILER_SIZE);
    SizesAre(entries, |entries|);
    assert entries[..|entries|] == entries;
    HeaderBytesLie(file, 61 + DataSize(entries, |entries|), |entries|, client);
  }

  lemma EndLies(c: Crypto, entries: seq<Entry>, client: Option<Hash>, file: seq<byte>)
    requires Honest(c) && WritePack(c, entries, client) == Ok(file)
    ensures |file| >= 96 && TrailerLies(c, file, |file| - 96)
  {
    hide WritePack, Honest, ContentOf, SectionsOf;
    LongEnough(c, entries, client, file);
    SectionsLie(c, entries, client, file, |file| - TRAILER_SIZE);
  }

  lemma AllSizes(c: Crypto, entries: seq<Entry>, client: Option<Hash>, file: seq<byte>)
    requires Honest(c) && WritePack(c, entries, client) == Ok(file)
    ensures |file| - 96 == 61 + DataSize(entries, |entries|) + RowsSize(entries, |entries|)
  {
    hide WritePack, Honest, ContentOf, HeaderBytes, DataOf, IndexOf, DataSize, RowsSize;
    LongEnough(c, entries, client, file);
    SectionsLie(c, entries, client, file, |file| - TRAILER_SIZE);
    SizesAre(entries, |entries|);
    assert entries[..|entries|] == entries;
  }

  /**
   Every pack written is a header, each entry's data one after another from byte 61, the rows of the
   index in the same order, and a hash and a signature that end it.
   */
  lemma WrittenLies(c: Crypto, entries: seq<Entry>, client: Option<Hash>, file: seq<byte>)
    requires Honest(c) && WritePack(c, entries, client) == Ok(file)
    ensures var indexOffset := 61 + DataSize(entries, |entries|);
      && HeaderLies(file, indexOffset, |entries|, client) && EntriesLie(entries, file)
      && TrailerLies(c, file, indexOffset + RowsSize(entries, |entries|))
  {
    hide WritePack, DataSize, RowsSize, HeaderLies, TrailerLies, EntriesLie, Honest;
    AllEntriesLie(c, entries, client, file);
    FrontLies(c, entries, client, file);
    AllSizes(c, entries, client, file);
    EndLies(c, entries, client, file);
  }

  // ---------------------------------------------------------------- which load

  /**
   What loads is of 157 bytes to 8 GiB, has the magic, the format and the header a pack has, as many
   rows as it says, and a trailer whose hash is its content's and whose signature verifies.
   */
  lemma LoadedMeans(c: Crypto, file: seq<byte>)
    requires Load(c, file).Ok?
    ensures var p := Load(c, file).value; var hashed := |file| - 96;
      && 157 <= |file| <= 8589934592 && p.file == file && |p.index| <= 0x10_0000
      && HeaderLies(file, LongAt(file, 16), |p.index|, p.client) && 61 <= LongAt(file, 16) <= hashed
      && file[hashed..hashed + 32] == c.hash(file[..hashed]) && c.verify(file[hashed + 32..], c.hash(file[..hashed]))
  {
    hide ParseHeader, ParseRows, HeaderLies, NumberAt, LongAt;
    LoadedIsSound(c, file);
    HeaderParsed(file[..HEADER_SIZE], |file| - TRAILER_SIZE);
    HeaderWithin(file, 61);
  }

  lemma HeaderWithin(file: seq<byte>, n: nat)
    requires 61 <= n <= |file|
    ensures LongAt(file[..n], 16) == LongAt(file, 16)
    ensures forall index, count, client :: HeaderLies(file[..n], index, count, client) ==>
              HeaderLies(file, index, count, client)
  {
    assert file[..n][..4] == file[..4] && file[..n][29..61] == file[29..61];
  }

  lemma HeaderParsed(d: seq<byte>, hashed: nat)
    requires |d| == HEADER_SIZE && ParseHeader(d, hashed).Ok?
    ensures var h := ParseHeader(d, hashed).value;
      h.indexOffset == LongAt(d, 16) && HeaderLies(d, h.indexOffset, h.count, h.client)
  {
    hide NumberAt, LongAt;
    ReadAre(d, 4);
    ReadAre(d, 8);
    ReadAre(d, 16);
    ReadAre(d, 24);
    ClientParsed(d);
  }

  lemma ReadAre(d: seq<byte>, at: nat)
    ensures at + 4 <= |d| ==> ReadU32(d, at) == Read(NumberAt(d, at), at + 4)
    ensures at + 8 <= |d| ==> ReadU64(d, at) == Read(LongAt(d, at), at + 8)
  {
    hide Value;
    if at + 4 <= |d| {
      FourBytes(d[at..at + 4]);
      assert d[at..at + 4][0] == d[at] && d[at..at + 4][1] == d[at + 1];
      assert d[at..at + 4][2] == d[at + 2] && d[at..at + 4][3] == d[at + 3];
    }
    if at + 8 <= |d| {
      EightBytes(d[at..at + 8]);
      var eight := d[at..at + 8];
      assert eight[0] == d[at] && eight[1] == d[at + 1] && eight[2] == d[at + 2] && eight[3] == d[at + 3];
      assert eight[4] == d[at + 4] && eight[5] == d[at + 5] && eight[6] == d[at + 6] && eight[7] == d[at + 7];
    }
  }

  lemma ClientParsed(d: seq<byte>)
    requires |d| == HEADER_SIZE && ParseClient(d, 28).Ok?
    ensures var client := ParseClient(d, 28).value;
      && (client.Some? ==> d[28] == 1 && d[29..61] == client.value)
      && (client.None? ==> d[28] == 0 && forall i :: 29 <= i < 61 ==> d[i] == 0)
  {
    if ParseClient(d, 28).value.None? {
      forall i | 29 <= i < 61 ensures d[i] == 0 { assert d[29..61][i - 29] == d[i]; }
    }
  }
}

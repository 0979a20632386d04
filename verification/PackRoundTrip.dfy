/** A pack written loads, and gives back each entry: its type, its path and exactly its data. */
module PackRoundTrip {
  import opened Common
  import opened WireFormat
  import opened PackFormat
  import Blobs

  // ---------------------------------------------------------------- the header

  lemma ClientReads(d: seq<byte>, at: nat, client: Option<Hash>)
    requires At(d, at, ClientBytes(client))
    ensures ParseClient(d, at) == Ok(client)
  {
    var flag: seq<byte>, hash := if client.Some? then [1] else [0], ClientBytes(client)[1..];
    assert ClientBytes(client) == flag + hash;
    AtSplit(d, at, flag, hash);
    U8Reads(d, at, flag[0]);
    BytesRead(d, at + 1, hash);
  }

  lemma HeaderReads(indexOffset: nat, count: nat, client: Option<Hash>, hashed: nat)
    requires HEADER_SIZE <= indexOffset <= hashed < 0x1_0000_0000_0000_0000 && count <= MAX_ENTRIES
    ensures ParseHeader(HeaderBytes(indexOffset, count, client), hashed) == Ok(PackHeader(indexOffset, count, client))
  {
    hide At, ParseClient, ClientBytes;
    var d := HeaderBytes(indexOffset, count, client);
    var a, b, c, e, f := MAGIC, U32(FORMAT_VERSION), U64(HEADER_SIZE), U64(indexOffset), U32(count);
    assert At(d, 0, a + b + c + e + f + ClientBytes(client)) by { WholeAt(d); }
    AtSplit(d, 0, a + b + c + e + f, ClientBytes(client));
    AtSplit(d, 0, a + b + c + e, f);
    AtSplit(d, 0, a + b + c, e);
    AtSplit(d, 0, a + b, c);
    AtSplit(d, 0, a, b);
    BytesRead(d, 0, MAGIC);
    U32Reads(d, 4, FORMAT_VERSION);
    U64Reads(d, 8, HEADER_SIZE);
    U64Reads(d, 16, indexOffset);
    U32Reads(d, 24, count);
    ClientReads(d, 28, client);
  }

  lemma WholeAt(d: seq<byte>)
    ensures At(d, 0, d)
  {}

  // ---------------------------------------------------------------- the index

  /** The index entry of the `i`-th entry written. */
  function Indexed(entries: seq<Entry>, i: nat): PackEntry
    requires i < |entries|
  {
    PackEntry(entries[i].type_, OffsetOf(entries, i), |entries[i].data|, entries[i].path)
  }

  function AllIndexed(entries: seq<Entry>, n: nat): (index: seq<PackEntry>)
    requires n <= |entries|
    ensures |index| == n && forall i :: 0 <= i < n ==> index[i] == Indexed(entries, i)
  {
    seq(n, i requires 0 <= i < n => Indexed(entries, i))
  }

  lemma RowParts(e: Entry, offset: u64, size: u64)
    requires size == |e.data|
    ensures RowBytes(e, offset) == [e.type_ as byte] + TextBytes(e.path) + U64(offset) + U64(size)
    ensures |TextBytes(e.path)| == 4 + |e.path| && |RowBytes(e, offset)| == 21 + |e.path|
  {
    hide LittleEndian, Wrapped;
    WrappedIs(offset);
    WrappedIs(size);
  }

  lemma WrappedIs(x: u64)
    ensures Wrapped(x) == x
  {}

  lemma RowFields(d: seq<byte>, at: nat, e: Entry, offset: u64, size: u64)
    requires |e.path| <= MAX_STRING && size == |e.data| && At(d, at, RowBytes(e, offset))
    ensures var p := at + 5 + |e.path|;
      && ReadU8(d, at) == Read(e.type_ as byte, at + 1) && ReadText(d, at + 1) == Read(e.path, p)
      && ReadU64(d, p) == Read(offset, p + 8) && ReadU64(d, p + 8) == Read(size, p + 16)
      && |RowBytes(e, offset)| == 21 + |e.path|
  {
    hide At, ReadText, TextBytes, ReadU64, ReadU8, RowBytes, LittleEndian;
    var t, p, o, s := [e.type_ as byte], TextBytes(e.path), U64(offset), U64(size);
    RowParts(e, offset, size);
    AtSplit4(d, at, t, p, o, s);
    U8Reads(d, at, e.type_ as byte);
    TextReads(d, at + |t|, e.path);
    U64Reads(d, at + |t| + |p|, offset);
    U64Reads(d, at + |t| + |p| + |o|, size);
  }

  lemma RowReads(d: seq<byte>, at: nat, e: Entry, offset: nat, dataEnd: nat)
    requires |e.path| <= MAX_STRING && At(d, at, RowBytes(e, offset))
    requires HEADER_SIZE <= offset && offset + |e.data| <= dataEnd < 0x1_0000_0000_0000_0000
    ensures ParseRow(d, at, dataEnd) ==
            Ok((PackEntry(e.type_, offset, |e.data|, e.path), at + |RowBytes(e, offset)|))
  {
    hide At, ReadText, ReadU64, ReadU8, RowBytes;
    RowFields(d, at, e, offset, |e.data|);
  }

  lemma {:induction false} DataGrows(entries: seq<Entry>, i: nat, n: nat)
    requires i <= n <= |entries|
    ensures DataOf(entries[..i]) <= DataOf(entries[..n])
    decreases n
  {
    if i < n {
      DataGrows(entries, i, n - 1);
      assert entries[..n][..n - 1] == entries[..n - 1];
    }
  }

  /** An entry's data lies where its offset says, before all that follows. */
  lemma DataLies(entries: seq<Entry>, i: nat)
    requires i < |entries|
    ensures OffsetOf(entries, i) + |entries[i].data| <= OffsetOf(entries, |entries|)
    ensures At(DataOf(entries), OffsetOf(entries, i) - HEADER_SIZE, entries[i].data)
  {
    DataGrows(entries, i + 1, |entries|);
    assert entries[..i + 1][..i] == entries[..i] && entries[..|entries|] == entries;
    var upTo := DataOf(entries[..i + 1]);
    assert upTo == DataOf(entries[..i]) + entries[i].data;
    assert DataOf(entries)[..|upTo|] == upTo;
  }

  lemma {:induction false} IndexGrows(entries: seq<Entry>, i: nat, n: nat)
    requires i <= n <= |entries|
    ensures IndexOf(entries, i) <= IndexOf(entries, n)
    decreases n
  {
    if i < n { IndexGrows(entries, i, n - 1); }
  }

  lemma RowLies(entries: seq<Entry>, i: nat)
    requires i < |entries|
    ensures At(IndexOf(entries, |entries|), |IndexOf(entries, i)|, RowBytes(entries[i], OffsetOf(entries, i)))
    ensures |IndexOf(entries, i + 1)| == |IndexOf(entries, i)| + |RowBytes(entries[i], OffsetOf(entries, i))|
  {
    IndexGrows(entries, i + 1, |entries|);
    var upTo := IndexOf(entries, i + 1);
    assert IndexOf(entries, |entries|)[..|upTo|] == upTo;
  }

  lemma NotNamed(entries: seq<Entry>, i: nat)
    requires i < |entries| && PathsDistinct(entries)
    ensures !Names(AllIndexed(entries, i), entries[i].path)
  {}

  /** Reading from the `i`-th row on, the rows before it read. */
  function RowsFrom(entries: seq<Entry>, i: nat, dataEnd: nat): Result<seq<PackEntry>, LoadError>
    requires i <= |entries|
  {
    ParseRows(IndexOf(entries, |entries|), |IndexOf(entries, i)|, dataEnd, |entries|, AllIndexed(entries, i))
  }

  lemma RowStep(entries: seq<Entry>, i: nat, dataEnd: nat)
    requires i < |entries| && PathsShort(entries) && PathsDistinct(entries)
    requires dataEnd == OffsetOf(entries, |entries|) < 0x1_0000_0000_0000_0000
    ensures RowsFrom(entries, i, dataEnd) == RowsFrom(entries, i + 1, dataEnd)
  {
    hide ParseRow, RowBytes, IndexOf, OffsetOf, At;
    RowLies(entries, i);
    DataLies(entries, i);
    assert OffsetOf(entries, i) >= HEADER_SIZE by { OffsetPastHeader(entries, i); }
    RowReads(IndexOf(entries, |entries|), |IndexOf(entries, i)|, entries[i], OffsetOf(entries, i), dataEnd);
    NotNamed(entries, i);
    assert AllIndexed(entries, i + 1) == AllIndexed(entries, i) + [Indexed(entries, i)];
  }

  lemma OffsetPastHeader(entries: seq<Entry>, i: nat)
    requires i <= |entries|
    ensures OffsetOf(entries, i) >= HEADER_SIZE
  {}

  lemma {:induction false} RowsRead(entries: seq<Entry>, i: nat, dataEnd: nat)
    requires i <= |entries| && PathsShort(entries) && PathsDistinct(entries)
    requires dataEnd == OffsetOf(entries, |entries|) < 0x1_0000_0000_0000_0000
    ensures RowsFrom(entries, i, dataEnd) == Ok(AllIndexed(entries, |entries|))
    decreases |entries| - i
  {
    hide OffsetOf, IndexOf, PathsShort, PathsDistinct;
    if i < |entries| {
      RowStep(entries, i, dataEnd);
      RowsRead(entries, i + 1, dataEnd);
    }
  }

  // ---------------------------------------------------------------- a whole pack

  /** Whether a pack holds just these entries: each one's type and path, and exactly its data. */
  predicate HoldsEntries(p: Pack, entries: seq<Entry>) {
    |p.index| == |entries| && forall i :: 0 <= i < |entries| ==> HoldsEntry(p, p.index[i], entries[i])
  }

  predicate HoldsEntry(p: Pack, at: PackEntry, e: Entry) {
    && at.type_ == e.type_ && at.path == e.path && at.offset + at.size <= |p.file|
    && BlobBytes(p, at) == e.data
  }

  lemma SectionsLie(c: Crypto, entries: seq<Entry>, client: Option<Hash>, file: seq<byte>, hashed: nat)
    requires Honest(c) && WritePack(c, entries, client) == Ok(file) && hashed == |file| - TRAILER_SIZE
    ensures var s := SectionsOf(entries, client);
      && HEADER_SIZE + |s.data| + |s.index| == hashed && |file| <= MAX_PACK_SIZE
      && file[..HEADER_SIZE] == s.header && file[..hashed] == ContentOf(s)
      && file[HEADER_SIZE..HEADER_SIZE + |s.data|] == s.data && file[HEADER_SIZE + |s.data|..hashed] == s.index
      && file[hashed..hashed + HASH_SIZE] == c.hash(ContentOf(s))
      && file[hashed + HASH_SIZE..] == c.sign(c.hash(ContentOf(s)))
  {
    hide Validate, PathsShort, HeaderBytes, DataOf, IndexOf;
    var s := SectionsOf(entries, client);
    Slices(s.header, s.data, s.index, c.hash(ContentOf(s)), c.sign(c.hash(ContentOf(s))), file);
  }

  lemma Slices(a: seq<byte>, b: seq<byte>, i: seq<byte>, h: seq<byte>, g: seq<byte>, file: seq<byte>)
    requires file == a + b + i + (h + g)
    ensures file[..|a|] == a && file[|a|..|a| + |b|] == b && file[|a| + |b|..|a| + |b| + |i|] == i
    ensures file[..|a| + |b| + |i|] == a + b + i
    ensures file[|a| + |b| + |i|..|a| + |b| + |i| + |h|] == h && file[|a| + |b| + |i| + |h|..] == g
  {}

  /**
   Every pack that can be written loads, names the same client pack, and holds the entries written in
   their order, each path's slice exactly its data.
   */
  lemma WrittenLoads(c: Crypto, entries: seq<Entry>, client: Option<Hash>)
    requires Honest(c) && WritePack(c, entries, client).Ok?
    ensures var file := WritePack(c, entries, client).value;
      && Load(c, file).Ok? && Load(c, file).value.client == client
      && HoldsEntries(Load(c, file).value, entries)
  {
    hide HeaderBytes, DataOf, IndexOf, ParseHeader, ParseRows, HoldsEntry;
    var file, s := WritePack(c, entries, client).value, SectionsOf(entries, client);
    var hashed, dataEnd := |file| - TRAILER_SIZE, OffsetOf(entries, |entries|);
    SectionsLie(c, entries, client, file, hashed);
    assert entries[..|entries|] == entries && dataEnd == HEADER_SIZE + |s.data|;
    HeaderReads(dataEnd, |entries|, client, hashed);
    assert IndexOf(entries, 0) == [] by { NoIndex(entries); }
    assert AllIndexed(entries, 0) == [];
    RowsRead(entries, 0, dataEnd);
    assert Load(c, file) == Ok(Pack(file, AllIndexed(entries, |entries|), client));
    EntriesHeld(Pack(file, AllIndexed(entries, |entries|), client), entries);
  }

  lemma NoIndex(entries: seq<Entry>)
    ensures IndexOf(entries, 0) == []
  {}

  lemma EntriesHeld(p: Pack, entries: seq<Entry>)
    requires p.index == AllIndexed(entries, |entries|)
    requires HEADER_SIZE + |DataOf(entries)| <= |p.file|
    requires p.file[HEADER_SIZE..HEADER_SIZE + |DataOf(entries)|] == DataOf(entries)
    ensures HoldsEntries(p, entries)
  {
    forall i | 0 <= i < |entries| ensures HoldsEntry(p, p.index[i], entries[i]) {
      EntryHeld(p, entries, i);
    }
  }

  lemma EntryHeld(p: Pack, entries: seq<Entry>, i: nat)
    requires i < |entries| && HEADER_SIZE + |DataOf(entries)| <= |p.file|
    requires p.file[HEADER_SIZE..HEADER_SIZE + |DataOf(entries)|] == DataOf(entries)
    ensures HoldsEntry(p, Indexed(entries, i), entries[i])
  {
    hide DataOf;
    assert entries[..|entries|] == entries;
    DataLies(entries, i);
    SliceWithin(p.file, HEADER_SIZE, DataOf(entries), OffsetOf(entries, i) - HEADER_SIZE, |entries[i].data|);
  }

  lemma SliceWithin(file: seq<byte>, start: nat, data: seq<byte>, at: nat, n: nat)
    requires start + |data| <= |file| && file[start..start + |data|] == data && at + n <= |data|
    ensures file[start + at..start + at + n] == data[at..at + n]
  {
    var slice, wanted := file[start + at..start + at + n], data[at..at + n];
    forall k | 0 <= k < n ensures slice[k] == wanted[k] {
      assert file[start..start + |data|][at + k] == data[at + k];
    }
  }

  // ---------------------------------------------------------------- finding an entry

  datatype ResolveError = NotFound | TypeMismatch | CorruptBlob

  function FindFrom(index: seq<PackEntry>, path: Text, expected: AssetType, i: nat): Result<PackEntry, ResolveError>
    requires i <= |index|
    decreases |index| - i
  {
    if i == |index| then Err(NotFound)
    else if index[i].path != path then FindFrom(index, path, expected, i + 1)
    else if index[i].type_ != expected then Err(TypeMismatch)
    else Ok(index[i])
  }

  method FindIndexEntry(index: seq<PackEntry>, path: Text, expected: AssetType)
    returns (found: Result<PackEntry, ResolveError>)
    ensures found == FindFrom(index, path, expected, 0)
  {
    var i := 0;
    while i < |index|
      invariant i <= |index| && FindFrom(index, path, expected, 0) == FindFrom(index, path, expected, i)
    {
      if index[i].path == path {
        return if index[i].type_ != expected then Err(TypeMismatch) else Ok(index[i]);
      }
      i := i + 1;
    }
    return Err(NotFound);
  }

  /** Where paths are distinct, a path finds its own entry, and only a path named is found. */
  lemma {:induction false} FindsOwn(index: seq<PackEntry>, path: Text, expected: AssetType, i: nat, k: nat)
    requires i <= k < |index| && index[k].path == path
    requires forall j :: i <= j < k ==> index[j].path != path
    ensures FindFrom(index, path, expected, i) == if index[k].type_ == expected then Ok(index[k]) else Err(TypeMismatch)
    decreases k - i
  {
    if i < k { FindsOwn(index, path, expected, i + 1, k); }
  }

  lemma {:induction false} FindsNone(index: seq<PackEntry>, path: Text, expected: AssetType, i: nat)
    requires i <= |index|
    ensures FindFrom(index, path, expected, i) == Err(NotFound)
            <==> forall k :: i <= k < |index| ==> index[k].path != path
    decreases |index| - i
  {
    if i < |index| && index[i].path != path { FindsNone(index, path, expected, i + 1); }
  }

  function Resolve<T>(p: Pack, path: Text, expected: AssetType, decode: seq<byte> -> Option<T>)
    : Result<T, ResolveError>
  {
    var found := FindFrom(p.index, path, expected, 0);
    if found.Err? then Err(found.error)
    else if found.value.offset + found.value.size > |p.file| then Err(CorruptBlob)
    else
      var value := decode(BlobBytes(p, found.value));
      if value.None? then Err(CorruptBlob) else Ok(value.value)
  }

  /** Each path written resolves, as its own type, to its own data decoded, and as no other type. */
  lemma WrittenResolves<T>(
    c: Crypto, entries: seq<Entry>, client: Option<Hash>, i: nat, expected: AssetType, decode: seq<byte> -> Option<T>)
    requires Honest(c) && WritePack(c, entries, client).Ok? && i < |entries|
    ensures Load(c, WritePack(c, entries, client).value).Ok?
    ensures Resolve(Load(c, WritePack(c, entries, client).value).value, entries[i].path, expected, decode) ==
            if entries[i].type_ != expected then Err(TypeMismatch)
            else if decode(entries[i].data).None? then Err(CorruptBlob) else Ok(decode(entries[i].data).value)
  {
    hide WritePack, Load;
    WrittenLoads(c, entries, client);
    var p := Load(c, WritePack(c, entries, client).value).value;
    assert PathsDistinct(entries) by { WrittenDistinct(c, entries, client); }
    assert HoldsEntry(p, p.index[i], entries[i]);
    forall j | 0 <= j < i ensures p.index[j].path != entries[i].path {
      assert HoldsEntry(p, p.index[j], entries[j]);
    }
    FindsOwn(p.index, entries[i].path, expected, 0, i);
  }

  lemma WrittenDistinct(c: Crypto, entries: seq<Entry>, client: Option<Hash>)
    requires WritePack(c, entries, client).Ok?
    ensures PathsDistinct(entries)
  {}

  /** From a mesh, of type 0, to a pack and back: itself, exactly when it is triangles of its own points. */
  lemma PackedMeshResolves(c: Crypto, entries: seq<Entry>, client: Option<Hash>, i: nat, m: Blobs.Mesh)
    requires Honest(c) && WritePack(c, entries, client).Ok? && i < |entries|
    requires entries[i].type_ == 0 && Blobs.EncodeMesh(m) == Ok(entries[i].data)
    ensures Load(c, WritePack(c, entries, client).value).Ok?
    ensures Resolve(Load(c, WritePack(c, entries, client).value).value, entries[i].path, 0, Blobs.DecodeMesh) ==
            if Blobs.Triangles(m) then Ok(m) else Err(CorruptBlob)
  {
    hide WritePack, Load, Resolve, Blobs.DecodeMesh, Blobs.EncodeMesh, Blobs.Triangles;
    WrittenResolves(c, entries, client, i, 0, Blobs.DecodeMesh);
    Blobs.MeshRoundTrip(m);
  }

  /** From a scene, of type 6, to a pack and back: it resolves to itself exactly when parents come before children. */
  lemma PackedSceneResolves(c: Crypto, entries: seq<Entry>, client: Option<Hash>, i: nat, nodes: seq<Blobs.Node>)
    requires Honest(c) && WritePack(c, entries, client).Ok? && i < |entries|
    requires entries[i].type_ == 6 && Blobs.EncodeScene(nodes) == Ok(entries[i].data)
    ensures Load(c, WritePack(c, entries, client).value).Ok?
    ensures Resolve(Load(c, WritePack(c, entries, client).value).value, entries[i].path, 6, Blobs.DecodeScene) ==
            if Blobs.SceneOrdered(nodes) then Ok(nodes) else Err(CorruptBlob)
  {
    hide WritePack, Load, Resolve, Blobs.DecodeScene, Blobs.EncodeScene, Blobs.SceneOrdered;
    WrittenResolves(c, entries, client, i, 6, Blobs.DecodeScene);
    Blobs.SceneRoundTrip(nodes);
  }
}

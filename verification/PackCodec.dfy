/**
 Writing and reading a pack as it runs: paths sorted to find two alike, sections filled entry by entry,
 and a header and an index read by a cursor.
 */
module PackCodec {
  import opened Common
  import opened WireFormat
  import opened PackFormat

  // ---------------------------------------------------------------- sorted paths

  /** Byte by byte, a prefix first. */
  predicate Less(a: Text, b: Text) {
    if b == [] then false
    else if a == [] then true
    else if a[0] != b[0] then a[0] < b[0]
    else Less(a[1..], b[1..])
  }

  lemma {:induction false} LessOrEqualOrMore(a: Text, b: Text)
    ensures Less(a, b) || a == b || Less(b, a)
    ensures !(Less(a, b) && Less(b, a)) && !(a == b && Less(a, b))
  {
    if a != [] && b != [] && a[0] == b[0] {
      LessOrEqualOrMore(a[1..], b[1..]);
      assert a == [a[0]] + a[1..] && b == [b[0]] + b[1..];
    }
  }

  lemma {:induction false} LessThrough(a: Text, b: Text, c: Text)
    requires !Less(b, a) && !Less(c, b)
    ensures !Less(c, a) && (a == c ==> b == a)
  {
    if a != [] && b != [] && c != [] && a[0] == b[0] == c[0] {
      LessThrough(a[1..], b[1..], c[1..]);
      assert a == [a[0]] + a[1..] && b == [b[0]] + b[1..] && c == [c[0]] + c[1..];
    }
  }

  predicate NoneLess(paths: seq<Text>, p: Text) { forall i :: 0 <= i < |paths| ==> !Less(paths[i], p) }

  predicate Ascending(paths: seq<Text>) {
    paths == [] || (NoneLess(paths[1..], paths[0]) && Ascending(paths[1..]))
  }

  function Insert(p: Text, sorted: seq<Text>): seq<Text> {
    if sorted == [] || !Less(sorted[0], p) then [p] + sorted else [sorted[0]] + Insert(p, sorted[1..])
  }

  function Sorted(paths: seq<Text>): seq<Text> {
    if paths == [] then [] else Insert(paths[0], Sorted(paths[1..]))
  }

  lemma {:induction false} InsertSorts(p: Text, sorted: seq<Text>, low: Text)
    requires Ascending(sorted) && NoneLess(sorted, low) && !Less(p, low)
    ensures Ascending(Insert(p, sorted)) && NoneLess(Insert(p, sorted), low)
    ensures multiset(Insert(p, sorted)) == multiset(sorted) + multiset{p}
  {
    if sorted == [] || !Less(sorted[0], p) {
      assert ([p] + sorted)[1..] == sorted;
      forall i | 0 <= i < |sorted| ensures !Less(sorted[i], p) {
        if i > 0 {
          assert sorted[1..][i - 1] == sorted[i];
          LessThrough(p, sorted[0], sorted[i]);
        }
      }
    } else {
      LessOrEqualOrMore(sorted[0], p);
      InsertSorts(p, sorted[1..], sorted[0]);
      var rest := Insert(p, sorted[1..]);
      assert ([sorted[0]] + rest)[1..] == rest;
      assert sorted == [sorted[0]] + sorted[1..];
      forall i | 0 <= i < |rest| ensures !Less(rest[i], low) {
        LessThrough(low, sorted[0], rest[i]);
      }
    }
  }

  lemma {:induction false} SortedSorts(paths: seq<Text>)
    ensures Ascending(Sorted(paths)) && multiset(Sorted(paths)) == multiset(paths)
  {
    if paths != [] {
      SortedSorts(paths[1..]);
      NothingLessThanEmpty(Sorted(paths[1..]));
      InsertSorts(paths[0], Sorted(paths[1..]), []);
      assert paths == [paths[0]] + paths[1..];
    }
  }

  lemma NothingLessThanEmpty(paths: seq<Text>)
    ensures NoneLess(paths, [])
  {}

  predicate Distinct(paths: seq<Text>) {
    forall i, j :: 0 <= i < j < |paths| ==> paths[i] != paths[j]
  }

  predicate NoPair(paths: seq<Text>) {
    forall i :: 0 <= i < |paths| - 1 ==> paths[i] != paths[i + 1]
  }

  predicate Once(paths: multiset<Text>) { forall p :: p in paths ==> paths[p] <= 1 }

  lemma OnceCons(first: Text, rest: multiset<Text>)
    ensures Once(multiset{first} + rest) <==> Once(rest) && first !in rest
  {
    var all := multiset{first} + rest;
    if Once(all) {
      assert first in all;
      forall p | p in rest ensures rest[p] <= 1 { assert p in all; }
    }
  }

  lemma {:induction false} DistinctOnce(paths: seq<Text>)
    ensures Distinct(paths) <==> Once(multiset(paths))
  {
    if paths != [] {
      var first, rest := paths[0], paths[1..];
      assert paths == [first] + rest;
      DistinctOnce(rest);
      DistinctCons(first, rest);
      OnceCons(first, multiset(rest));
      assert multiset(paths) == multiset{first} + multiset(rest);
    }
  }

  lemma DistinctCons(first: Text, rest: seq<Text>)
    ensures Distinct([first] + rest) <==> Distinct(rest) && first !in rest
  {
    var all := [first] + rest;
    if Distinct(all) {
      forall i, j | 0 <= i < j < |rest| ensures rest[i] != rest[j] { assert all[i + 1] != all[j + 1]; }
      forall i | 0 <= i < |rest| ensures rest[i] != first { assert all[0] != all[i + 1]; }
    }
  }

  /** Two alike anywhere are two alike side by side, once sorted. */
  lemma {:induction false} SortedPairs(sorted: seq<Text>)
    requires Ascending(sorted)
    ensures NoPair(sorted) <==> Distinct(sorted)
  {
    if |sorted| > 1 {
      var first, rest := sorted[0], sorted[1..];
      assert sorted == [first] + rest;
      SortedPairs(rest);
      DistinctCons(first, rest);
      assert NoPair(sorted) <==> NoPair(rest) && first != rest[0] by { PairCons(first, rest); }
      if first != rest[0] {
        forall i | 0 <= i < |rest| ensures rest[i] != first {
          if i > 0 {
            assert rest[1..][i - 1] == rest[i];
            LessThrough(first, rest[0], rest[i]);
          }
        }
      }
    }
  }

  lemma PairCons(first: Text, rest: seq<Text>)
    requires rest != []
    ensures NoPair([first] + rest) <==> NoPair(rest) && first != rest[0]
  {
    var all := [first] + rest;
    if NoPair(all) {
      assert all[0] != all[1];
      forall i | 0 <= i < |rest| - 1 ensures rest[i] != rest[i + 1] { assert all[i + 1] != all[i + 2]; }
    }
  }

  function PathsOf(entries: seq<Entry>): (paths: seq<Text>)
    ensures |paths| == |entries| && forall i :: 0 <= i < |entries| ==> paths[i] == entries[i].path
  {
    seq(|entries|, i requires 0 <= i < |entries| => entries[i].path)
  }

  /** Two paths alike are found among neighbours, once sorted, exactly when there are any. */
  lemma PairsFound(entries: seq<Entry>)
    ensures NoPair(Sorted(PathsOf(entries))) <==> PathsDistinct(entries)
  {
    var paths := PathsOf(entries);
    SortedSorts(paths);
    SortedPairs(Sorted(paths));
    DistinctOnce(paths);
    DistinctOnce(Sorted(paths));
  }

  method ValidateEntries(entries: seq<Entry>) returns (error: Option<WriteError>)
    ensures error == Validate(entries)
  {
    if |entries| > MAX_ENTRIES { return Some(TooLarge); }
    var i := 0;
    while i < |entries|
      invariant i <= |entries| && forall k :: 0 <= k < i ==> |entries[k].path| <= MAX_STRING
    {
      if |entries[i].path| > MAX_STRING { return Some(TooLarge); }
      i := i + 1;
    }
    var paths := Sorted(PathsOf(entries));
    PairsFound(entries);
    var k := 0;
    while k + 1 < |paths|
      invariant forall j :: 0 <= j < k && j + 1 < |paths| ==> paths[j] != paths[j + 1]
      decreases |paths| - k
    {
      if paths[k] == paths[k + 1] { return Some(DuplicatePath); }
      k := k + 1;
    }
    return None;
  }

  // ---------------------------------------------------------------- sections

  lemma DataUpTo(entries: seq<Entry>, i: nat)
    requires i < |entries|
    ensures DataOf(entries[..i + 1]) == DataOf(entries[..i]) + entries[i].data
    ensures OffsetOf(entries, i + 1) == OffsetOf(entries, i) + |entries[i].data|
  {
    assert entries[..i + 1][..i] == entries[..i];
  }

  method WriteRow(writer: ByteWriter, e: Entry, offset: nat) returns (ok: bool)
    modifies writer
    ensures ok == (|e.path| <= MAX_STRING) && (ok ==> writer.data == old(writer.data) + RowBytes(e, offset))
  {
    hide TextBytes, LittleEndian, Wrapped;
    writer.WriteU8(e.type_ as byte);
    ok := writer.WriteText(e.path);
    if !ok { return; }
    writer.WriteNumber(Wrapped(offset), 8);
    writer.WriteNumber(Wrapped(|e.data|), 8);
    Join4(old(writer.data), [e.type_ as byte], TextBytes(e.path), U64(Wrapped(offset)), U64(Wrapped(|e.data|)));
  }

  method WriteHeader(indexOffset: nat, count: nat, client: Option<Hash>) returns (header: seq<byte>)
    ensures header == HeaderBytes(indexOffset, count, client)
  {
    hide LittleEndian, Wrapped;
    var writer := new ByteWriter();
    writer.WriteBytes(MAGIC);
    writer.WriteNumber(FORMAT_VERSION, 4);
    writer.WriteNumber(HEADER_SIZE, 8);
    writer.WriteNumber(Wrapped(indexOffset), 8);
    writer.WriteNumber(count % 0x1_0000_0000, 4);
    assert writer.data == MAGIC + U32(FORMAT_VERSION) + U64(HEADER_SIZE) + U64(Wrapped(indexOffset))
                          + U32(count % 0x1_0000_0000);
    ghost var before := writer.data;
    writer.WriteU8(if client.Some? then 1 else 0);
    writer.WriteBytes(if client.Some? then client.value else seq(HASH_SIZE, _ => 0));
    assert writer.data == before + ClientBytes(client);
    return writer.data;
  }

  method WriteData(entries: seq<Entry>) returns (data: seq<byte>, offsets: seq<nat>, end: nat)
    ensures data == DataOf(entries) && end == OffsetOf(entries, |entries|)
    ensures |offsets| == |entries| && forall k :: 0 <= k < |entries| ==> offsets[k] == OffsetOf(entries, k)
  {
    var writer := new ByteWriter();
    var i := 0;
    offsets, end := [], HEADER_SIZE;
    while i < |entries|
      invariant i <= |entries| && |offsets| == i && end == OffsetOf(entries, i)
      invariant writer.data == DataOf(entries[..i])
      invariant forall k :: 0 <= k < i ==> offsets[k] == OffsetOf(entries, k)
    {
      DataUpTo(entries, i);
      offsets := offsets + [end];
      writer.WriteBytes(entries[i].data);
      end := end + |entries[i].data|;
      i := i + 1;
    }
    assert entries[..i] == entries;
    return writer.data, offsets, end;
  }

  method WriteIndex(entries: seq<Entry>, offsets: seq<nat>) returns (index: Option<seq<byte>>)
    requires |offsets| == |entries| && forall k :: 0 <= k < |entries| ==> offsets[k] == OffsetOf(entries, k)
    ensures index == if PathsShort(entries) then Some(IndexOf(entries, |entries|)) else None
  {
    hide OffsetOf, RowBytes;
    var writer := new ByteWriter();
    var k := 0;
    while k < |entries|
      invariant k <= |entries| && writer.data == IndexOf(entries, k)
      invariant forall j :: 0 <= j < k ==> |entries[j].path| <= MAX_STRING
    {
      var ok := WriteRow(writer, entries[k], offsets[k]);
      if !ok { return None; }
      k := k + 1;
    }
    return Some(writer.data);
  }

  method BuildPackSections(entries: seq<Entry>, client: Option<Hash>) returns (built: Result<Sections, WriteError>)
    ensures built == Build(entries, client)
  {
    hide DataOf, IndexOf, OffsetOf, HeaderBytes;
    var data, offsets, end := WriteData(entries);
    var index := WriteIndex(entries, offsets);
    if index.None? { return Err(TooLarge); }
    var header := WriteHeader(end, |entries|, client);
    if |header| + |data| + |index.value| + TRAILER_SIZE > MAX_PACK_SIZE { return Err(TooLarge); }
    return Ok(Sections(header, data, index.value));
  }

  // ---------------------------------------------------------------- parsing

  method ParsePackHeader(bytes: seq<byte>, hashed: nat) returns (header: Result<PackHeader, LoadError>)
    ensures header == ParseHeader(bytes, hashed)
  {
    hide ReadU32, ReadU64;
    var reader := new ByteReader(bytes);
    var magic := reader.NextBytes(|MAGIC|);
    if magic != Some(MAGIC) { return Err(BadMagic); }
    var version := reader.NextU32();
    if version.None? { return Err(Truncated); }
    assert reader.pos == 8 by { U32Moves(bytes, 4); }
    if version.value != FORMAT_VERSION { return Err(UnsupportedVersion(version.value)); }
    var dataOffset := reader.NextU64();
    if dataOffset.None? { return Err(Truncated); }
    assert reader.pos == 16 by { U64Moves(bytes, 8); }
    var indexOffset := reader.NextU64();
    if indexOffset.None? { return Err(Truncated); }
    assert reader.pos == 24 by { U64Moves(bytes, 16); }
    var count := reader.NextU32();
    if count.None? { return Err(Truncated); }
    assert reader.pos == 28 by { U32Moves(bytes, 24); }
    // The data section always starts right after the header.
    if dataOffset.value != HEADER_SIZE { return Err(Truncated); }
    if indexOffset.value < HEADER_SIZE || indexOffset.value > hashed { return Err(Truncated); }
    if count.value > MAX_ENTRIES { return Err(Truncated); }
    var client := ParseClientPack(reader);
    if client.Err? { return Err(client.error); }
    return Ok(PackHeader(indexOffset.value, count.value, client.value));
  }

  lemma U32Moves(d: seq<byte>, at: nat)
    requires ReadU32(d, at).Read?
    ensures ReadU32(d, at).next == at + 4
  {}

  lemma U64Moves(d: seq<byte>, at: nat)
    requires ReadU64(d, at).Read?
    ensures ReadU64(d, at).next == at + 8
  {}

  method ParseClientPack(reader: ByteReader) returns (client: Result<Option<Hash>, LoadError>)
    modifies reader
    ensures client == ParseClient(reader.data, old(reader.pos))
  {
    var flags := reader.NextU8();
    if flags.None? { return Err(Truncated); }
    var bytes := reader.NextBytes(HASH_SIZE);
    if bytes.None? { return Err(Truncated); }
    var i := 0;
    while i < HASH_SIZE && bytes.value[i] == 0
      invariant i <= HASH_SIZE && forall k :: 0 <= k < i ==> bytes.value[k] == 0
    {
      i := i + 1;
    }
    if flags.value > 1 || (flags.value == 0 && i < HASH_SIZE) { return Err(Truncated); }
    return Ok(if flags.value == 1 then Some(bytes.value) else None);
  }

  method ParsePackRow(reader: ByteReader, dataEnd: nat) returns (row: Result<PackEntry, LoadError>)
    modifies reader
    ensures var r := ParseRow(reader.data, old(reader.pos), dataEnd);
      if r.Err? then row == Err(r.error) else row == Ok(r.value.0) && reader.pos == r.value.1
  {
    hide ReadText, ReadU64;
    var type_ := reader.NextU8();
    if type_.None? || type_.value > 16 { return Err(InvalidIndex); }
    var path := reader.NextText();
    if path.None? { return Err(Truncated); }
    ghost var p := reader.pos;
    var offset := reader.NextU64();
    if offset.None? { return Err(Truncated); }
    assert reader.pos == p + 8 by { U64Moves(reader.data, p); }
    var size := reader.NextU64();
    if size.None? { return Err(Truncated); }
    if offset.value < HEADER_SIZE || offset.value > dataEnd || size.value > dataEnd - offset.value {
      return Err(Truncated);
    }
    return Ok(PackEntry(type_.value, offset.value, size.value, path.value));
  }

  method AnyNamed(index: seq<PackEntry>, path: Text) returns (any: bool)
    ensures any == Names(index, path)
  {
    var i := 0;
    while i < |index|
      invariant i <= |index| && forall k :: 0 <= k < i ==> index[k].path != path
    {
      if index[i].path == path { return true; }
      i := i + 1;
    }
    return false;
  }

  method ParsePackIndex(bytes: seq<byte>, dataEnd: nat, count: nat) returns (index: Result<seq<PackEntry>, LoadError>)
    ensures index == ParseRows(bytes, 0, dataEnd, count, [])
  {
    hide ParseRow, Names;
    var reader := new ByteReader(bytes);
    var found: seq<PackEntry>, i := [], 0;
    while i < count
      invariant i == |found| <= count && reader.data == bytes
      invariant ParseRows(bytes, 0, dataEnd, count, []) == ParseRows(bytes, reader.pos, dataEnd, count, found)
    {
      var row := ParsePackRow(reader, dataEnd);
      if row.Err? { return Err(row.error); }
      var named := AnyNamed(found, row.value.path);
      if named { return Err(InvalidIndex); }
      found := found + [row.value];
      i := i + 1;
    }
    return Ok(found);
  }
}

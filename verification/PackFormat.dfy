/**
 A pack: header, every entry's data, the index of where each lies, then a hash of all that and a
 signature of the hash.
 */
module PackFormat {
  import opened Common
  import opened WireFormat

  /** One of the 17 kinds of asset, by the number a pack gives it. */
  type AssetType = x: int | 0 <= x <= 16

  const MAGIC: seq<byte> := [0x41, 0x55, 0x47, 0x50]
  const FORMAT_VERSION: u32 := 7
  const HASH_SIZE := 32
  const SIGNATURE_SIZE := 64
  const HEADER_SIZE := 4 + 4 + 8 + 8 + 4 + 1 + HASH_SIZE
  const TRAILER_SIZE := HASH_SIZE + SIGNATURE_SIZE
  const MAX_ENTRIES := 0x10_0000
  const MAX_PACK_SIZE := 8 * 1024 * 1024 * 1024

  type Hash = h: seq<byte> | |h| == HASH_SIZE witness seq(HASH_SIZE, _ => 0)

  datatype Entry = Entry(type_: AssetType, path: Text, data: seq<byte>)

  // ---------------------------------------------------------------- writing

  datatype WriteError = DuplicatePath | TooLarge

  predicate PathsShort(entries: seq<Entry>) {
    forall i :: 0 <= i < |entries| ==> |entries[i].path| <= MAX_STRING
  }

  predicate PathsDistinct(entries: seq<Entry>) {
    forall i, j :: 0 <= i < j < |entries| ==> entries[i].path != entries[j].path
  }

  function Validate(entries: seq<Entry>): Option<WriteError> {
    if |entries| > MAX_ENTRIES || !PathsShort(entries) then Some(TooLarge)
    else if !PathsDistinct(entries) then Some(DuplicatePath)
    else None
  }

  /** The data of `entries`, one after another. */
  function DataOf(entries: seq<Entry>): seq<byte> {
    if entries == [] then [] else DataOf(entries[..|entries| - 1]) + entries[|entries| - 1].data
  }

  /** Where the `i`-th entry's data starts. */
  function OffsetOf(entries: seq<Entry>, i: nat): nat
    requires i <= |entries|
  {
    HEADER_SIZE + |DataOf(entries[..i])|
  }

  /** A number as 64 bits keep it. */
  function Wrapped(x: nat): u64 { x % 0x1_0000_0000_0000_0000 }

  function RowBytes(e: Entry, offset: nat): seq<byte> {
    [e.type_ as byte] + TextBytes(e.path) + U64(Wrapped(offset)) + U64(Wrapped(|e.data|))
  }

  function IndexOf(entries: seq<Entry>, n: nat): seq<byte>
    requires n <= |entries|
  {
    if n == 0 then [] else IndexOf(entries, n - 1) + RowBytes(entries[n - 1], OffsetOf(entries, n - 1))
  }

  function ClientBytes(client: Option<Hash>): seq<byte> {
    if client.Some? then [1] + client.value else [0] + seq(HASH_SIZE, _ => 0)
  }

  function HeaderBytes(indexOffset: nat, count: nat, client: Option<Hash>): (bytes: seq<byte>)
    ensures |bytes| == HEADER_SIZE
  {
    MAGIC + U32(FORMAT_VERSION) + U64(HEADER_SIZE) + U64(Wrapped(indexOffset)) + U32(count % 0x1_0000_0000)
    + ClientBytes(client)
  }

  datatype Sections = Sections(header: seq<byte>, data: seq<byte>, index: seq<byte>)

  function SectionsOf(entries: seq<Entry>, client: Option<Hash>): Sections {
    Sections(HeaderBytes(OffsetOf(entries, |entries|), |entries|, client), DataOf(entries),
             IndexOf(entries, |entries|))
  }

  function TotalSize(s: Sections): nat { |s.header| + |s.data| + |s.index| + TRAILER_SIZE }

  function Build(entries: seq<Entry>, client: Option<Hash>): Result<Sections, WriteError> {
    if !PathsShort(entries) || TotalSize(SectionsOf(entries, client)) > MAX_PACK_SIZE then Err(TooLarge)
    else Ok(SectionsOf(entries, client))
  }

  /** The hash and signature functions, of which only what follows is known. */
  datatype Crypto = Crypto(
    hash: seq<byte> -> Hash, sign: seq<byte> -> seq<byte>, verify: (seq<byte>, seq<byte>) -> bool)

  /** A signature is of its size, and verifies against what was signed. */
  ghost predicate Honest(c: Crypto) {
    forall h :: |c.sign(h)| == SIGNATURE_SIZE && c.verify(c.sign(h), h)
  }

  function ContentOf(s: Sections): seq<byte> { s.header + s.data + s.index }

  function WritePack(c: Crypto, entries: seq<Entry>, client: Option<Hash>): Result<seq<byte>, WriteError> {
    if Validate(entries).Some? then Err(Validate(entries).value)
    else
      var sections := Build(entries, client);
      if sections.Err? then Err(sections.error)
      else
        var content := ContentOf(sections.value);
        Ok(content + (c.hash(content) + c.sign(c.hash(content))))
  }

  // ---------------------------------------------------------------- reading

  datatype LoadError =
    | BadMagic | UnsupportedVersion(version: u32) | Truncated | InvalidIndex | HashMismatch | SignatureInvalid

  datatype PackHeader = PackHeader(indexOffset: nat, count: nat, client: Option<Hash>)

  function AllZero(bytes: seq<byte>): bool { forall i :: 0 <= i < |bytes| ==> bytes[i] == 0 }

  /** The flags, and the hash they may name: no other flag, and no hash without its flag. */
  function ParseClient(d: seq<byte>, at: nat): Result<Option<Hash>, LoadError> {
    var flags := ReadU8(d, at);
    var bytes := ReadBytes(d, at + 1, HASH_SIZE);
    if flags.Missing? || bytes.Missing? then Err(Truncated)
    else if flags.value > 1 || (flags.value == 0 && !AllZero(bytes.value)) then Err(Truncated)
    else Ok(if flags.value == 1 then Some(bytes.value) else None)
  }

  /** `hashed` is the file's length less its trailer. */
  function ParseHeader(d: seq<byte>, hashed: nat): (header: Result<PackHeader, LoadError>)
    ensures header.Ok? ==> HEADER_SIZE <= header.value.indexOffset <= hashed && header.value.count <= MAX_ENTRIES
  {
    var magic := ReadBytes(d, 0, |MAGIC|);
    if magic.Missing? || magic.value != MAGIC then Err(BadMagic)
    else
      var version := ReadU32(d, 4);
      if version.Missing? then Err(Truncated)
      else if version.value != FORMAT_VERSION then Err(UnsupportedVersion(version.value))
      else
        var dataOffset, indexOffset, count := ReadU64(d, 8), ReadU64(d, 16), ReadU32(d, 24);
        if dataOffset.Missing? || indexOffset.Missing? || count.Missing? then Err(Truncated)
        else if dataOffset.value != HEADER_SIZE then Err(Truncated)
        else if indexOffset.value < HEADER_SIZE || indexOffset.value > hashed then Err(Truncated)
        else if count.value > MAX_ENTRIES then Err(Truncated)
        else
          var client := ParseClient(d, 28);
          if client.Err? then Err(client.error) else Ok(PackHeader(indexOffset.value, count.value, client.value))
  }

  datatype PackEntry = PackEntry(type_: AssetType, offset: nat, size: nat, path: Text)

  /** One row, whose slice must lie in the data before `dataEnd`. */
  function ParseRow(d: seq<byte>, at: nat, dataEnd: nat): Result<(PackEntry, nat), LoadError> {
    var type_ := ReadU8(d, at);
    if type_.Missing? || type_.value > 16 then Err(InvalidIndex)
    else
      var path := ReadText(d, type_.next);
      if path.Missing? then Err(Truncated)
      else
        var offset, size := ReadU64(d, path.next), ReadU64(d, path.next + 8);
        if offset.Missing? || size.Missing? then Err(Truncated)
        else if offset.value < HEADER_SIZE || offset.value > dataEnd || size.value > dataEnd - offset.value then
          Err(Truncated)
        else Ok((PackEntry(type_.value, offset.value, size.value, path.value), size.next))
  }

  predicate Names(index: seq<PackEntry>, path: Text) {
    exists i :: 0 <= i < |index| && index[i].path == path
  }

  /** The rows up to the `n`-th, after those `found`, none of a path found before. */
  function ParseRows(d: seq<byte>, at: nat, dataEnd: nat, n: nat, found: seq<PackEntry>)
    : Result<seq<PackEntry>, LoadError>
    requires |found| <= n
    decreases n - |found|
  {
    if |found| == n then Ok(found)
    else
      var row := ParseRow(d, at, dataEnd);
      if row.Err? then Err(row.error)
      else if Names(found, row.value.0.path) then Err(InvalidIndex)
      else ParseRows(d, row.value.1, dataEnd, n, found + [row.value.0])
  }

  datatype Pack = Pack(file: seq<byte>, index: seq<PackEntry>, client: Option<Hash>)

  function Load(c: Crypto, file: seq<byte>): Result<Pack, LoadError> {
    if |file| < HEADER_SIZE + TRAILER_SIZE || |file| > MAX_PACK_SIZE then Err(Truncated)
    else
      var hashed := |file| - TRAILER_SIZE;
      var header := ParseHeader(file[..HEADER_SIZE], hashed);
      if header.Err? then Err(header.error)
      else
        var hash, signature := file[hashed..hashed + HASH_SIZE], file[hashed + HASH_SIZE..];
        if c.hash(file[..hashed]) != hash then Err(HashMismatch)
        else if !c.verify(signature, hash) then Err(SignatureInvalid)
        else
          var rows := file[header.value.indexOffset..hashed];
          var index := ParseRows(rows, 0, header.value.indexOffset, header.value.count, []);
          if index.Err? then Err(index.error) else Ok(Pack(file, index.value, header.value.client))
  }

  // ---------------------------------------------------------------- any index accepted

  predicate InData(e: PackEntry, dataEnd: nat) { HEADER_SIZE <= e.offset && e.offset + e.size <= dataEnd }

  predicate IndexSound(index: seq<PackEntry>, dataEnd: nat) {
    && (forall i :: 0 <= i < |index| ==> InData(index[i], dataEnd))
    && forall i, j :: 0 <= i < j < |index| ==> index[i].path != index[j].path
  }

  lemma {:induction false} RowsSound(d: seq<byte>, at: nat, dataEnd: nat, n: nat, found: seq<PackEntry>)
    requires |found| <= n && IndexSound(found, dataEnd) && ParseRows(d, at, dataEnd, n, found).Ok?
    ensures var index := ParseRows(d, at, dataEnd, n, found).value;
      |index| == n && found <= index && IndexSound(index, dataEnd)
    decreases n - |found|
  {
    if |found| < n {
      var row := ParseRow(d, at, dataEnd).value;
      RowsSound(d, row.1, dataEnd, n, found + [row.0]);
    }
  }

  /** The entry's own bytes of a pack. */
  function BlobBytes(p: Pack, e: PackEntry): seq<byte>
    requires e.offset + e.size <= |p.file|
  {
    p.file[e.offset..e.offset + e.size]
  }

  /**
   Whatever the bytes, a pack loaded names each path once, and each entry's slice lies in the data
   section: past the header, and before the index where the header has it start.
   */
  lemma LoadedIsSound(c: Crypto, file: seq<byte>)
    requires Load(c, file).Ok?
    ensures |file| >= HEADER_SIZE + TRAILER_SIZE
    ensures var header := ParseHeader(file[..HEADER_SIZE], |file| - TRAILER_SIZE);
      && header.Ok? && header.value.indexOffset <= |file| - TRAILER_SIZE
      && |Load(c, file).value.index| == header.value.count
      && IndexSound(Load(c, file).value.index, header.value.indexOffset)
    ensures Load(c, file).value.file == file
    ensures c.hash(file[..|file| - TRAILER_SIZE]) == file[|file| - TRAILER_SIZE..|file| - SIGNATURE_SIZE]
  {
    var hashed := |file| - TRAILER_SIZE;
    var header := ParseHeader(file[..HEADER_SIZE], hashed).value;
    RowsSound(file[header.indexOffset..hashed], 0, header.indexOffset, header.count, []);
  }
}

/** The encoders and decoders of the smaller blobs, as they append to a writer and move a reader's cursor. */
module AssetCodecs {
  import opened Common
  import opened WireFormat
  import opened Blobs
  import opened AssetBlobs
  import opened BlobCodecs

  /** Every byte not read yet, consumed. */
  method NextRest(reader: ByteReader) returns (rest: seq<byte>)
    modifies reader
    ensures rest == Rest(reader.data, old(reader.pos))
    ensures old(reader.pos) <= |reader.data| ==> reader.pos == |reader.data|
  {
    rest := if reader.pos <= |reader.data| then reader.data[reader.pos..] else [];
    reader.pos := |reader.data|;
  }

  // ---------------------------------------------------------------- decoding

  method DecodeHitboxBlob(blob: seq<byte>) returns (hitbox: Option<Hitbox>)
    ensures hitbox == DecodeHitbox(blob)
  {
    hide DecodeMesh;
    var reader := new ByteReader(blob);
    var part := reader.NextU8();
    if part.None? || PartOf(part.value).None? { return None; }
    var joint := reader.NextText();
    if joint.None? { return None; }
    var rest := NextRest(reader);
    var mesh := DecodeMeshBlob(rest);
    if mesh.None? { return None; }
    return Some(Hitbox(PartOf(part.value).value, joint.value, mesh.value));
  }

  method DecodeContact(reader: ByteReader, i: nat) returns (contact: Option<FootContact>)
    modifies reader
    ensures reader.Did(ReadContact(reader.data, old(reader.pos), i), contact)
  {
    hide ReadU32, ValidRatio;
    var foot := reader.NextU8();
    if foot.None? { return None; }
    var ratio := reader.NextU32();
    if ratio.None? || foot.value > 1 || !ValidRatio(ratio.value) { return None; }
    return Some(FootContact(if foot.value == 0 then LeftFoot else RightFoot, ratio.value));
  }

  method DecodeContacts(reader: ByteReader, n: nat) returns (contacts: Option<seq<FootContact>>)
    modifies reader
    ensures reader.Did(ReadMany(ReadContact, reader.data, old(reader.pos), 0, n), contacts)
  {
    hide ReadContact;
    ghost var all := ReadMany(ReadContact, reader.data, reader.pos, 0, n);
    var xs: seq<FootContact>, i := [], 0;
    PastNone(all);
    while i < n
      invariant i <= n && Past(xs, ReadMany(ReadContact, reader.data, reader.pos, i, n)) == all
    {
      PastStep(xs, ReadContact, reader.data, reader.pos, i, n);
      var contact := DecodeContact(reader, i);
      if contact.None? { return None; }
      xs := xs + [contact.value];
      i := i + 1;
    }
    PastAll(xs, ReadContact, reader.data, reader.pos, n);
    return Some(xs);
  }

  method DecodeClipBlob(blob: seq<byte>) returns (clip: Option<Clip>)
    ensures clip == DecodeClip(blob)
  {
    hide ReadU32, ReadMany, AtLeastZero;
    var reader := new ByteReader(blob);
    var stride := reader.NextU32();
    if stride.None? { return None; }
    var n := reader.NextU8();
    if n.None? || !AtLeastZero(stride.value) { return None; }
    var contacts := DecodeContacts(reader, n.value);
    if contacts.None? { return None; }
    var archive := NextRest(reader);
    if |archive| > MAX_ARCHIVE_BYTES { return None; }
    return Some(Clip(stride.value, contacts.value, archive));
  }

  method DecodeAudioBlob(blob: seq<byte>) returns (sound: Option<Audio>)
    ensures sound == DecodeAudio(blob)
  {
    hide ReadU32, ReadBytes;
    var reader := new ByteReader(blob);
    var rate := reader.NextU32();
    if rate.None? { return None; }
    var bits := reader.NextU8();
    if bits.None? { return None; }
    var size := reader.NextU32();
    if size.None? || size.value > MAX_AUDIO_BYTES || !PcmWidth(bits.value) { return None; }
    if size.value % (bits.value / 8) != 0 { return None; }
    var samples := reader.NextBytes(size.value);
    if samples.None? { return None; }
    return Some(Audio(rate.value, bits.value, samples.value));
  }

  method DecodeVariants(reader: ByteReader, n: nat) returns (variants: Option<seq<Text>>)
    modifies reader
    ensures reader.Did(ReadMany(ReadVariant, reader.data, old(reader.pos), 0, n), variants)
  {
    hide ReadText;
    ghost var all := ReadMany(ReadVariant, reader.data, reader.pos, 0, n);
    var xs: seq<Text>, i := [], 0;
    PastNone(all);
    while i < n
      invariant i <= n && Past(xs, ReadMany(ReadVariant, reader.data, reader.pos, i, n)) == all
    {
      PastStep(xs, ReadVariant, reader.data, reader.pos, i, n);
      var variant := reader.NextText();
      if variant.None? { return None; }
      xs := xs + [variant.value];
      i := i + 1;
    }
    PastAll(xs, ReadVariant, reader.data, reader.pos, n);
    return Some(xs);
  }

  method DecodeCueSoundBlob(blob: seq<byte>) returns (sound: Option<CueSound>)
    ensures sound == DecodeCueSound(blob)
  {
    hide ReadU32, ReadMany, IsFinite;
    var reader := new ByteReader(blob);
    var gain := reader.NextU32();
    if gain.None? { return None; }
    var n := reader.NextU32();
    if n.None? || !IsFinite(gain.value) || n.value == 0 || n.value > MAX_CUE_VARIANTS { return None; }
    var variants := DecodeVariants(reader, n.value);
    if variants.None? { return None; }
    return Some(CueSound(gain.value, variants.value));
  }

  method DecodeWeaponSocketBlob(blob: seq<byte>) returns (socket: Option<WeaponSocket>)
    ensures socket == DecodeWeaponSocket(blob)
  {
    hide ReadText, ReadVec3, ReadQuat;
    var reader := new ByteReader(blob);
    var right := reader.NextText();
    if right.None? { return None; }
    var translation := reader.NextVec3();
    if translation.None? { return None; }
    var rotation := reader.NextQuat();
    if rotation.None? { return None; }
    var left := reader.NextText();
    if left.None? { return None; }
    return Some(WeaponSocket(right.value, translation.value, rotation.value, left.value));
  }

  // ---------------------------------------------------------------- encoding

  method EncodeHitboxBlob(h: Hitbox) returns (blob: Result<seq<byte>, EncodeError>)
    ensures blob == EncodeHitbox(h)
  {
    hide EncodeMesh, TextBytes;
    var mesh := EncodeMeshBlob(h.mesh);
    if mesh.Err? { return mesh; }
    var writer := new ByteWriter();
    writer.WriteU8(PartByte(h.part));
    assert writer.data == [PartByte(h.part)];
    var ok := writer.WriteText(h.joint);
    if !ok { return Err(TooLarge); }
    writer.WriteBytes(mesh.value);
    return Ok(writer.data);
  }

  method WriteContacts(writer: ByteWriter, contacts: seq<FootContact>)
    modifies writer
    ensures writer.data == old(writer.data) + Many(ContactBytes, contacts)
  {
    hide Many, LittleEndian;
    ghost var head := writer.data;
    AppendNone(head, ContactBytes, contacts);
    var i := 0;
    while i < |contacts|
      invariant i <= |contacts| && writer.data == head + Many(ContactBytes, contacts[..i])
    {
      AppendNext(head, ContactBytes, contacts, i);
      ghost var before := writer.data;
      writer.WriteU8(FootByte(contacts[i].foot));
      writer.WriteNumber(contacts[i].ratio, 4);
      Regroup(before, [FootByte(contacts[i].foot)], U32(contacts[i].ratio));
      i := i + 1;
    }
  }

  method EncodeClipBlob(c: Clip) returns (blob: Result<seq<byte>, EncodeError>)
    ensures blob == EncodeClip(c)
  {
    hide AtLeastZero, ValidRatio, Many, LittleEndian;
    if |c.archive| > MAX_ARCHIVE_BYTES || |c.contacts| > MAX_FOOT_CONTACTS { return Err(TooLarge); }
    if !AtLeastZero(c.strideLength) || exists i :: 0 <= i < |c.contacts| && !ValidRatio(c.contacts[i].ratio) {
      return Err(InvalidAnimation);
    }
    var writer := new ByteWriter();
    writer.WriteNumber(c.strideLength, 4);
    assert writer.data == U32(c.strideLength);
    writer.WriteU8(|c.contacts|);
    WriteContacts(writer, c.contacts);
    writer.WriteBytes(c.archive);
    return Ok(writer.data);
  }

  method EncodeAudioBlob(a: Audio) returns (blob: Result<seq<byte>, EncodeError>)
    ensures blob == EncodeAudio(a)
  {
    hide LittleEndian;
    if |a.samples| > MAX_AUDIO_BYTES { return Err(TooLarge); }
    if !PcmWidth(a.bitsPerSample) { return Err(UnsupportedSampleWidth); }
    if |a.samples| % (a.bitsPerSample / 8) != 0 { return Err(PartialSample); }
    var writer := new ByteWriter();
    writer.WriteNumber(a.sampleRate, 4);
    assert writer.data == U32(a.sampleRate);
    writer.WriteU8(a.bitsPerSample);
    writer.WriteNumber(|a.samples|, 4);
    writer.WriteBytes(a.samples);
    return Ok(writer.data);
  }

  method WriteVariants(writer: ByteWriter, variants: seq<Text>) returns (ok: bool)
    modifies writer
    ensures ok <==> forall i :: 0 <= i < |variants| ==> Short(variants[i])
    ensures ok ==> writer.data == old(writer.data) + Many(TextBytes, variants)
  {
    hide Many, TextBytes;
    ghost var head := writer.data;
    AppendNone(head, TextBytes, variants);
    var i := 0;
    ok := true;
    while i < |variants|
      invariant i <= |variants| && writer.data == head + Many(TextBytes, variants[..i])
      invariant forall k :: 0 <= k < i ==> Short(variants[k])
      invariant ok
    {
      AppendNext(head, TextBytes, variants, i);
      ok := writer.WriteText(variants[i]);
      if !ok { break; }
      i := i + 1;
    }
  }

  method EncodeCueSoundBlob(c: CueSound) returns (blob: Result<seq<byte>, EncodeError>)
    ensures blob == EncodeCueSound(c)
  {
    hide IsFinite, Many, LittleEndian;
    if c.variants == [] || !IsFinite(c.gainDb) { return Err(InvalidCueSound); }
    if |c.variants| > MAX_CUE_VARIANTS { return Err(TooLarge); }
    var writer := new ByteWriter();
    writer.WriteNumber(c.gainDb, 4);
    assert writer.data == U32(c.gainDb);
    writer.WriteNumber(|c.variants|, 4);
    var ok := WriteVariants(writer, c.variants);
    if !ok { return Err(TooLarge); }
    return Ok(writer.data);
  }

  method EncodeWeaponSocketBlob(s: WeaponSocket) returns (blob: Result<seq<byte>, EncodeError>)
    ensures blob == EncodeWeaponSocket(s)
  {
    hide TextBytes, Vec3Bytes, QuatBytes;
    var writer := new ByteWriter();
    var right := writer.WriteText(s.rightHand);
    if !right { return Err(TooLarge); }
    assert writer.data == TextBytes(s.rightHand);
    writer.WriteVec3(s.translation);
    writer.WriteQuat(s.rotation);
    var left := writer.WriteText(s.leftHand);
    if !left { return Err(TooLarge); }
    return Ok(writer.data);
  }
}

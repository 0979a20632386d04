/** The smaller blobs of a pack: hitboxes, clips, sounds, cues and weapon sockets. */
module AssetBlobs {
  import opened Common
  import opened WireFormat
  import opened Blobs

  /** What follows a place, to the end. */
  function Rest(d: seq<byte>, at: nat): seq<byte> { if at <= |d| then d[at..] else [] }

  lemma RestIs(d: seq<byte>, head: seq<byte>, tail: seq<byte>)
    requires d == head + tail
    ensures Rest(d, |head|) == tail && At(d, 0, head)
  {}

  // ---------------------------------------------------------------- hitboxes

  datatype BodyPart = BodyHead | BodyTorso | BodyLimb

  function PartByte(p: BodyPart): byte {
    match p
    case BodyHead => 0
    case BodyTorso => 1
    case BodyLimb => 2
  }

  function PartOf(b: byte): Option<BodyPart> {
    if b == 0 then Some(BodyHead) else if b == 1 then Some(BodyTorso) else if b == 2 then Some(BodyLimb) else None
  }

  datatype Hitbox = Hitbox(part: BodyPart, joint: Text, mesh: Mesh)

  function EncodeHitbox(h: Hitbox): Result<seq<byte>, EncodeError> {
    var mesh := EncodeMesh(h.mesh);
    if mesh.Err? then mesh
    else if !Short(h.joint) then Err(TooLarge)
    else Ok([PartByte(h.part)] + TextBytes(h.joint) + mesh.value)
  }

  /** The part and the Joint's name: the mesh blob is all the rest. */
  function ReadHitboxHead(d: seq<byte>, at: nat): Read<(BodyPart, Text)> {
    var (part, p) :- ReadU8(d, at);
    if PartOf(part).None? then Missing
    else
      var (joint, next) :- ReadText(d, p);
      Read((PartOf(part).value, joint), next)
  }

  function DecodeHitbox(blob: seq<byte>): Option<Hitbox> {
    var head := ReadHitboxHead(blob, 0);
    if head.Missing? then None
    else
      var mesh := DecodeMesh(Rest(blob, head.next));
      if mesh.None? then None else Some(Hitbox(head.value.0, head.value.1, mesh.value))
  }

  /** A hitbox encoded decodes to itself exactly when its mesh is triangles of its own points. */
  lemma HitboxRoundTrip(h: Hitbox)
    requires EncodeHitbox(h).Ok?
    ensures DecodeHitbox(EncodeHitbox(h).value) == if Triangles(h.mesh) then Some(h) else None
  {
    hide At, EncodeMesh, DecodeMesh, Triangles;
    var d, head := EncodeHitbox(h).value, [PartByte(h.part)] + TextBytes(h.joint);
    RestIs(d, head, EncodeMesh(h.mesh).value);
    AtSplit(d, 0, [PartByte(h.part)], TextBytes(h.joint));
    U8Reads(d, 0, PartByte(h.part));
    TextReads(d, 1, h.joint);
    MeshRoundTrip(h.mesh);
  }

  // ---------------------------------------------------------------- clips

  datatype Foot = LeftFoot | RightFoot

  datatype FootContact = FootContact(foot: Foot, ratio: F32)

  datatype Clip = Clip(strideLength: F32, contacts: seq<FootContact>, archive: seq<byte>)

  /** Finite and from 0 to 1, minus zero among them. */
  predicate ValidRatio(r: F32) { AtLeastZero(r) && (r <= ONE || r == 0x8000_0000) }

  function FootByte(f: Foot): byte { if f.LeftFoot? then 0 else 1 }

  function ContactBytes(c: FootContact): seq<byte> { [FootByte(c.foot)] + U32(c.ratio) }

  predicate AllRatiosValid(cs: seq<FootContact>) { forall i :: 0 <= i < |cs| ==> ValidRatio(cs[i].ratio) }

  function EncodeClip(c: Clip): Result<seq<byte>, EncodeError> {
    if |c.archive| > MAX_ARCHIVE_BYTES || |c.contacts| > MAX_FOOT_CONTACTS then Err(TooLarge)
    else if !AtLeastZero(c.strideLength) || !AllRatiosValid(c.contacts) then Err(InvalidAnimation)
    else Ok(U32(c.strideLength) + [|c.contacts| as byte] + Many(ContactBytes, c.contacts) + c.archive)
  }

  function ReadContact(d: seq<byte>, at: nat, i: nat): Read<FootContact> {
    var (foot, p) :- ReadU8(d, at);
    var (ratio, next) :- ReadU32(d, p);
    if foot > 1 || !ValidRatio(ratio) then Missing
    else Read(FootContact(if foot == 0 then LeftFoot else RightFoot, ratio), next)
  }

  function ReadClipHead(d: seq<byte>, at: nat): Read<(F32, seq<FootContact>)> {
    var (stride, p) :- ReadU32(d, at);
    var (n, q) :- ReadU8(d, p);
    if !AtLeastZero(stride) then Missing
    else
      var (contacts, next) :- ReadMany(ReadContact, d, q, 0, n);
      Read((stride, contacts), next)
  }

  function DecodeClip(blob: seq<byte>): Option<Clip> {
    var head := ReadClipHead(blob, 0);
    if head.Missing? || |Rest(blob, head.next)| > MAX_ARCHIVE_BYTES then None
    else Some(Clip(head.value.0, head.value.1, Rest(blob, head.next)))
  }

  predicate ContactFits(c: FootContact) { ValidRatio(c.ratio) }

  lemma ContactInverse()
    ensures Inverse(ContactBytes, ReadContact, Any(), ContactFits)
  {
    forall d: seq<byte>, at: nat, i: nat, c: FootContact | ContactFits(c) && At(d, at, ContactBytes(c))
      ensures ReadContact(d, at, i) == Read(c, at + |ContactBytes(c)|)
    {
      hide At, ValidRatio;
      AtSplit(d, at, [FootByte(c.foot)], U32(c.ratio));
      U8Reads(d, at, FootByte(c.foot));
      U32Reads(d, at + 1, c.ratio);
    }
  }

  /** Every clip that encodes decodes to itself. */
  lemma ClipRoundTrip(c: Clip)
    requires EncodeClip(c).Ok?
    ensures DecodeClip(EncodeClip(c).value) == Some(c)
  {
    hide At, ValidRatio, AtLeastZero;
    var d, contacts := EncodeClip(c).value, Many(ContactBytes, c.contacts);
    var head := U32(c.strideLength) + [|c.contacts| as byte] + contacts;
    RestIs(d, head, c.archive);
    AtSplit3(d, 0, U32(c.strideLength), [|c.contacts| as byte], contacts);
    U32Reads(d, 0, c.strideLength);
    U8Reads(d, 4, |c.contacts|);
    ContactInverse();
    ManyReads(ContactBytes, ReadContact, Any(), ContactFits, d, 5, c.contacts, 0, |c.contacts|);
    AllFromIff(Any(), c.contacts);
  }

  // ---------------------------------------------------------------- sounds

  datatype Audio = Audio(sampleRate: u32, bitsPerSample: byte, samples: seq<byte>)

  predicate PcmWidth(bits: byte) { bits == 8 || bits == 16 || bits == 24 || bits == 32 }

  function EncodeAudio(a: Audio): Result<seq<byte>, EncodeError> {
    if |a.samples| > MAX_AUDIO_BYTES then Err(TooLarge)
    else if !PcmWidth(a.bitsPerSample) then Err(UnsupportedSampleWidth)
    else if |a.samples| % (a.bitsPerSample / 8) != 0 then Err(PartialSample)
    else Ok(U32(a.sampleRate) + [a.bitsPerSample] + U32(|a.samples|) + a.samples)
  }

  function ReadAudio(d: seq<byte>, at: nat): Read<Audio> {
    var (rate, p) :- ReadU32(d, at);
    var (bits, q) :- ReadU8(d, p);
    var (size, r) :- ReadU32(d, q);
    if size > MAX_AUDIO_BYTES || !PcmWidth(bits) || size % (bits / 8) != 0 then Missing
    else
      var (samples, next) :- ReadBytes(d, r, size);
      Read(Audio(rate, bits, samples), next)
  }

  function DecodeAudio(blob: seq<byte>): Option<Audio> { AsOption(ReadAudio(blob, 0)) }

  /** Whatever the bytes, a sound decoded is whole samples of a PCM width, and no more than a pack may hold. */
  lemma DecodedSoundIsWhole(blob: seq<byte>)
    requires DecodeAudio(blob).Some?
    ensures var a := DecodeAudio(blob).value;
      PcmWidth(a.bitsPerSample) && |a.samples| % (a.bitsPerSample / 8) == 0 && |a.samples| <= MAX_AUDIO_BYTES
    ensures EncodeAudio(DecodeAudio(blob).value).Ok?
  {
    hide Value;
  }

  /** Every sound that encodes decodes to itself. */
  lemma AudioRoundTrip(a: Audio)
    requires EncodeAudio(a).Ok?
    ensures DecodeAudio(EncodeAudio(a).value) == Some(a)
  {
    hide At;
    var d := EncodeAudio(a).value;
    RestIs(d, d, []);
    AtSplit4(d, 0, U32(a.sampleRate), [a.bitsPerSample], U32(|a.samples|), a.samples);
    U32Reads(d, 0, a.sampleRate);
    U8Reads(d, 4, a.bitsPerSample);
    U32Reads(d, 5, |a.samples|);
    BytesRead(d, 9, a.samples);
  }

  datatype CueSound = CueSound(gainDb: F32, variants: seq<Text>)

  function EncodeCueSound(c: CueSound): Result<seq<byte>, EncodeError> {
    if c.variants == [] || !IsFinite(c.gainDb) then Err(InvalidCueSound)
    else if |c.variants| > MAX_CUE_VARIANTS || exists i :: 0 <= i < |c.variants| && !Short(c.variants[i])
    then Err(TooLarge)
    else Ok(U32(c.gainDb) + U32(|c.variants|) + Many(TextBytes, c.variants))
  }

  function ReadVariant(d: seq<byte>, at: nat, i: nat): Read<Text> { ReadText(d, at) }

  function ReadCueSound(d: seq<byte>, at: nat): Read<CueSound> {
    var (gain, p) :- ReadU32(d, at);
    var (n, q) :- ReadU32(d, p);
    if !IsFinite(gain) || n == 0 || n > MAX_CUE_VARIANTS then Missing
    else
      var (variants, next) :- ReadMany(ReadVariant, d, q, 0, n);
      Read(CueSound(gain, variants), next)
  }

  function DecodeCueSound(blob: seq<byte>): Option<CueSound> { AsOption(ReadCueSound(blob, 0)) }

  lemma VariantInverse()
    ensures Inverse(TextBytes, ReadVariant, Any(), Short)
  {
    forall d: seq<byte>, at: nat, i: nat, t: Text | Short(t) && At(d, at, TextBytes(t))
      ensures ReadVariant(d, at, i) == Read(t, at + |TextBytes(t)|)
    {
      TextReads(d, at, t);
    }
  }

  /** Every cue that encodes decodes to itself. */
  lemma CueSoundRoundTrip(c: CueSound)
    requires EncodeCueSound(c).Ok?
    ensures DecodeCueSound(EncodeCueSound(c).value) == Some(c)
  {
    hide At, IsFinite;
    var d := EncodeCueSound(c).value;
    RestIs(d, d, []);
    AtSplit3(d, 0, U32(c.gainDb), U32(|c.variants|), Many(TextBytes, c.variants));
    U32Reads(d, 0, c.gainDb);
    U32Reads(d, 4, |c.variants|);
    VariantInverse();
    ManyReads(TextBytes, ReadVariant, Any(), Short, d, 8, c.variants, 0, |c.variants|);
    AllFromIff(Any(), c.variants);
  }

  // ---------------------------------------------------------------- weapon sockets

  datatype WeaponSocket = WeaponSocket(rightHand: Text, translation: Vec3, rotation: Quat, leftHand: Text)

  function EncodeWeaponSocket(s: WeaponSocket): Result<seq<byte>, EncodeError> {
    if !Short(s.rightHand) || !Short(s.leftHand) then Err(TooLarge)
    else Ok(TextBytes(s.rightHand) + Vec3Bytes(s.translation) + QuatBytes(s.rotation) + TextBytes(s.leftHand))
  }

  function ReadWeaponSocket(d: seq<byte>, at: nat): Read<WeaponSocket> {
    var (right, p) :- ReadText(d, at);
    var (translation, q) :- ReadVec3(d, p);
    var (rotation, r) :- ReadQuat(d, q);
    var (left, next) :- ReadText(d, r);
    Read(WeaponSocket(right, translation, rotation, left), next)
  }

  function DecodeWeaponSocket(blob: seq<byte>): Option<WeaponSocket> { AsOption(ReadWeaponSocket(blob, 0)) }

  /** Every weapon socket that encodes decodes to itself. */
  lemma WeaponSocketRoundTrip(s: WeaponSocket)
    requires EncodeWeaponSocket(s).Ok?
    ensures DecodeWeaponSocket(EncodeWeaponSocket(s).value) == Some(s)
  {
    hide At, ReadText, ReadVec3, ReadQuat, TextBytes, Vec3Bytes, QuatBytes;
    var d := EncodeWeaponSocket(s).value;
    var a, b, c, e := TextBytes(s.rightHand), Vec3Bytes(s.translation), QuatBytes(s.rotation), TextBytes(s.leftHand);
    RestIs(d, d, []);
    AtSplit4(d, 0, a, b, c, e);
    TextReads(d, 0, s.rightHand);
    Vec3Reads(d, |a|, s.translation);
    QuatReads(d, |a| + |b|, s.rotation);
    TextReads(d, |a| + |b| + |c|, s.leftHand);
  }
}

/** Which meshes, skeletons, scenes, hitboxes, clips, sounds, cues and sockets can be encoded, limit by limit. */
module BlobLimits {
  import opened Common
  import opened WireFormat
  import opened Blobs
  import opened AssetBlobs

  /** The bits of a finite number at least 0, or of minus zero. */
  predicate FiniteFromZero(bits: F32) { bits < 0x7F80_0000 || bits == 0x8000_0000 }

  /** The bits of a number from 0 to 1, or of minus zero. */
  predicate FromZeroToOne(bits: F32) { bits <= 0x3F80_0000 || bits == 0x8000_0000 }

  predicate NoLonger(path: Option<Text>) { path.Some? ==> |path.value| <= 4096 }

  lemma MeshEncodesIff(m: Mesh)
    ensures EncodeMesh(m).Ok? <==> |m.points| <= 16_000_000 && |m.indices| <= 48_000_000
    ensures EncodeMesh(m).Err? ==> EncodeMesh(m).error == TooLarge
  {
    hide PointsBytes, IndicesBytes;
  }

  lemma SkeletonEncodesIff(joints: seq<Joint>)
    ensures EncodeSkeleton(joints).Ok? <==>
              |joints| <= 128 && forall i :: 0 <= i < |joints| ==> |joints[i].name| <= 4096
  {
    hide Many;
  }

  predicate NodeWithin(n: Node) {
    && |n.name| <= 4096 && NoLonger(n.mesh) && NoLonger(n.material) && NoLonger(n.collider) && NoLonger(n.hitbox)
    && |n.properties| <= 256
    && forall i :: 0 <= i < |n.properties| ==> |n.properties[i].key| <= 4096 && |n.properties[i].value| <= 4096
  }

  /** A scene of up to a million nodes, each of short names and paths and no more than 256 properties. */
  lemma SceneEncodesIff(nodes: seq<Node>)
    ensures EncodeScene(nodes).Ok? <==>
              |nodes| <= 1_000_000 && forall i :: 0 <= i < |nodes| ==> NodeWithin(nodes[i])
  {
    hide Many;
    forall i | 0 <= i < |nodes| ensures NodeFits(nodes[i]) <==> NodeWithin(nodes[i]) { NodeFitsIff(nodes[i]); }
  }

  lemma NodeFitsIff(n: Node)
    ensures NodeFits(n) <==> NodeWithin(n)
  {
    if NodeWithin(n) {
      forall i | 0 <= i < |n.properties| ensures PropertyFits(n.properties[i]) {}
    }
    if NodeFits(n) {
      forall i | 0 <= i < |n.properties|
        ensures |n.properties[i].key| <= 4096 && |n.properties[i].value| <= 4096
      {
        assert PropertyFits(n.properties[i]);
      }
    }
  }

  /** Which of a node's paths follow, and whether it is a spawn point, each in its own bit. */
  lemma FlagsAre(n: Node)
    ensures FlagsOf(n) as nat == (if n.mesh.Some? then 1 else 0) + (if n.material.Some? then 2 else 0)
                                 + (if n.collider.Some? then 4 else 0) + (if n.hitbox.Some? then 8 else 0)
                                 + (if n.spawnPoint then 16 else 0)
  {}

  lemma HitboxEncodesIff(h: Hitbox)
    ensures EncodeHitbox(h).Ok? <==>
              |h.joint| <= 4096 && |h.mesh.points| <= 16_000_000 && |h.mesh.indices| <= 48_000_000
  {
    hide EncodeMesh;
    MeshEncodesIff(h.mesh);
  }

  /** A clip of an archive to 64 MiB and up to 255 Foot contacts, its stride and their ratios valid. */
  lemma ClipEncodesIff(c: Clip)
    ensures EncodeClip(c) == Err(TooLarge) <==> |c.archive| > 67108864 || |c.contacts| > 255
    ensures EncodeClip(c).Ok? <==>
              && |c.archive| <= 67108864 && |c.contacts| <= 255 && FiniteFromZero(c.strideLength)
              && forall i :: 0 <= i < |c.contacts| ==> FromZeroToOne(c.contacts[i].ratio)
  {
    hide Many;
    forall i | 0 <= i < |c.contacts| ensures ValidRatio(c.contacts[i].ratio) <==> FromZeroToOne(c.contacts[i].ratio) {}
  }

  /** A Foot contact is read exactly when its foot is 0, the left, or 1, and its ratio is from 0 to 1. */
  lemma ContactReadIff(d: seq<byte>, at: nat, i: nat)
    ensures ReadContact(d, at, i).Read? <==>
              at + 5 <= |d| && d[at] <= 1 && FromZeroToOne(NumberAt(d, at + 1))
    ensures ReadContact(d, at, i).Read? ==>
              && ReadContact(d, at, i).next == at + 5
              && ReadContact(d, at, i).value.foot == (if d[at] == 0 then LeftFoot else RightFoot)
              && ReadContact(d, at, i).value.ratio == NumberAt(d, at + 1)
  {
    if at + 5 <= |d| {
      FourBytes(d[at + 1..at + 5]);
      assert d[at + 1..at + 5][0] == d[at + 1] && d[at + 1..at + 5][1] == d[at + 2];
      assert d[at + 1..at + 5][2] == d[at + 3] && d[at + 1..at + 5][3] == d[at + 4];
      hide Value;
    }
  }

  /** A sound of up to 64 MiB of whole samples of 8, 16, 24 or 32 bits; the first rule broken says why not. */
  lemma AudioEncodesIff(a: Audio)
    ensures EncodeAudio(a) == Err(TooLarge) <==> |a.samples| > 67108864
    ensures EncodeAudio(a) == Err(UnsupportedSampleWidth) <==>
              |a.samples| <= 67108864 && a.bitsPerSample !in {8, 16, 24, 32}
    ensures EncodeAudio(a).Ok? <==>
              && |a.samples| <= 67108864 && a.bitsPerSample in {8, 16, 24, 32}
              && |a.samples| % (if a.bitsPerSample == 8 then 1 else if a.bitsPerSample == 16 then 2
                                else if a.bitsPerSample == 24 then 3 else 4) == 0
  {}

  /** A cue of 1 to 255 short variants and a finite gain. */
  lemma CueSoundEncodesIff(c: CueSound)
    ensures EncodeCueSound(c) == Err(InvalidCueSound) <==>
              c.variants == [] || 0x7F80_0000 <= c.gainDb < 0x8000_0000 || c.gainDb >= 0xFF80_0000
    ensures EncodeCueSound(c).Ok? <==>
              && 1 <= |c.variants| <= 255 && (forall i :: 0 <= i < |c.variants| ==> |c.variants[i]| <= 4096)
              && (c.gainDb < 0x7F80_0000 || 0x8000_0000 <= c.gainDb < 0xFF80_0000)
  {
    hide Many, IsFinite;
    FiniteIff(c.gainDb);
  }

  lemma WeaponSocketEncodesIff(s: WeaponSocket)
    ensures EncodeWeaponSocket(s).Ok? <==> |s.rightHand| <= 4096 && |s.leftHand| <= 4096
  {}
}

/**
 The encoders and decoders as they run: loops that append to a writer's buffer, and loops that move a
 reader's cursor and collect what it reads, element by element.
 */
module BlobCodecs {
  import opened Common
  import opened WireFormat
  import opened Blobs

  // ---------------------------------------------------------------- loops over elements

  /** What reading gives when `xs` were read before the rest. */
  function Past<T>(xs: seq<T>, rest: Read<seq<T>>): Read<seq<T>> {
    if rest.Missing? then Missing else Read(xs + rest.value, rest.next)
  }

  lemma PastNone<T>(rest: Read<seq<T>>)
    ensures Past([], rest) == rest
  {
    if rest.Read? { assert [] + rest.value == rest.value; }
  }

  lemma PastStep<T>(xs: seq<T>, read: (seq<byte>, nat, nat) -> Read<T>, d: seq<byte>, at: nat, i: nat, n: nat)
    requires i < n
    ensures read(d, at, i).Missing? ==> Past(xs, ReadMany(read, d, at, i, n)).Missing?
    ensures read(d, at, i).Read? ==>
              Past(xs, ReadMany(read, d, at, i, n))
              == Past(xs + [read(d, at, i).value], ReadMany(read, d, read(d, at, i).next, i + 1, n))
  {
    var first := read(d, at, i);
    if first.Read? {
      var rest := ReadMany(read, d, first.next, i + 1, n);
      if rest.Read? { assert xs + ([first.value] + rest.value) == (xs + [first.value]) + rest.value; }
    }
  }

  lemma PastAll<T>(xs: seq<T>, read: (seq<byte>, nat, nat) -> Read<T>, d: seq<byte>, at: nat, n: nat)
    ensures Past(xs, ReadMany(read, d, at, n, n)) == Read(xs, at)
  {
    assert xs + [] == xs;
  }

  // ---------------------------------------------------------------- decoding

  method DecodePoints(reader: ByteReader) returns (points: Option<seq<Vec3>>)
    modifies reader
    ensures reader.Did(ReadPoints(reader.data, old(reader.pos)), points)
  {
    hide ReadVec3, ReadU32;
    var n := reader.NextU32();
    if n.None? || n.value > MAX_MESH_POINTS { return None; }
    ghost var all := ReadMany(ReadPoint, reader.data, reader.pos, 0, n.value);
    var xs: seq<Vec3>, i := [], 0;
    PastNone(all);
    while i < n.value
      invariant i <= n.value && Past(xs, ReadMany(ReadPoint, reader.data, reader.pos, i, n.value)) == all
    {
      PastStep(xs, ReadPoint, reader.data, reader.pos, i, n.value);
      var point := reader.NextVec3();
      if point.None? { return None; }
      xs := xs + [point.value];
      i := i + 1;
    }
    PastAll(xs, ReadPoint, reader.data, reader.pos, n.value);
    return Some(xs);
  }

  method DecodeIndices(reader: ByteReader, points: nat) returns (indices: Option<seq<u32>>)
    modifies reader
    ensures reader.Did(ReadIndices(points, reader.data, old(reader.pos)), indices)
  {
    var n := reader.NextU32();
    if n.None? || n.value > MAX_MESH_INDICES || n.value % 3 != 0 { return None; }
    ghost var read := ReadIndex(points);
    ghost var all := ReadMany(read, reader.data, reader.pos, 0, n.value);
    var xs: seq<u32>, i := [], 0;
    PastNone(all);
    while i < n.value
      invariant i <= n.value && Past(xs, ReadMany(read, reader.data, reader.pos, i, n.value)) == all
    {
      PastStep(xs, read, reader.data, reader.pos, i, n.value);
      var index := reader.NextU32();
      if index.None? || index.value >= points { return None; }
      xs := xs + [index.value];
      i := i + 1;
    }
    PastAll(xs, read, reader.data, reader.pos, n.value);
    return Some(xs);
  }

  method DecodeMeshBlob(blob: seq<byte>) returns (mesh: Option<Mesh>)
    ensures mesh == DecodeMesh(blob)
  {
    var reader := new ByteReader(blob);
    var points := DecodePoints(reader);
    if points.None? { return None; }
    var indices := DecodeIndices(reader, |points.value|);
    if indices.None? { return None; }
    return Some(Mesh(points.value, indices.value));
  }

  method DecodeTransform(reader: ByteReader) returns (t: Option<Transform>)
    modifies reader
    ensures reader.Did(ReadTransform(reader.data, old(reader.pos)), t)
  {
    var translation := reader.NextVec3();
    if translation.None? { return None; }
    var rotation := reader.NextQuat();
    if rotation.None? { return None; }
    var scale := reader.NextVec3();
    if scale.None? { return None; }
    return Some(Transform(translation.value, rotation.value, scale.value));
  }

  method DecodeJoint(reader: ByteReader, i: nat) returns (joint: Option<Joint>)
    modifies reader
    ensures reader.Did(ReadJoint(reader.data, old(reader.pos), i), joint)
  {
    hide ReadText, ReadTransform, ReadU32;
    var name := reader.NextText();
    if name.None? { return None; }
    var parent := reader.NextU32();
    if parent.None? { return None; }
    var transform := DecodeTransform(reader);
    if transform.None? || (parent.value != NO_PARENT && parent.value >= i) { return None; }
    return Some(Joint(name.value, parent.value, transform.value));
  }

  method DecodeSkeletonBlob(blob: seq<byte>) returns (joints: Option<seq<Joint>>)
    ensures joints == DecodeSkeleton(blob)
  {
    hide ReadJoint, ReadU32;
    var reader := new ByteReader(blob);
    var n := reader.NextU32();
    if n.None? || n.value > MAX_JOINTS { return None; }
    ghost var all := ReadMany(ReadJoint, blob, reader.pos, 0, n.value);
    var xs: seq<Joint>, i := [], 0;
    PastNone(all);
    while i < n.value
      invariant i <= n.value && reader.data == blob
      invariant Past(xs, ReadMany(ReadJoint, blob, reader.pos, i, n.value)) == all
    {
      PastStep(xs, ReadJoint, blob, reader.pos, i, n.value);
      var joint := DecodeJoint(reader, i);
      if joint.None? { return None; }
      xs := xs + [joint.value];
      i := i + 1;
    }
    PastAll(xs, ReadJoint, blob, reader.pos, n.value);
    return Some(xs);
  }

  method DecodeOptional(reader: ByteReader, flags: byte, bit: nat) returns (ok: bool, path: Option<Text>)
    requires bit > 0
    modifies reader
    ensures ok == ReadOptional(reader.data, old(reader.pos), flags, bit).Read?
    ensures ok ==> ReadOptional(reader.data, old(reader.pos), flags, bit) == Read(path, reader.pos)
  {
    if (flags / bit) % 2 == 0 { return true, None; }
    path := reader.NextText();
    ok := path.Some?;
  }

  method DecodeProperty(reader: ByteReader, i: nat) returns (property: Option<Property>)
    modifies reader
    ensures reader.Did(ReadProperty(reader.data, old(reader.pos), i), property)
  {
    var key := reader.NextText();
    if key.None? { return None; }
    var value := reader.NextText();
    if value.None? { return None; }
    return Some(Property(key.value, value.value));
  }

  method DecodeProperties(reader: ByteReader) returns (properties: Option<seq<Property>>)
    modifies reader
    ensures reader.Did(ReadProperties(reader.data, old(reader.pos)), properties)
  {
    hide ReadProperty, ReadU32;
    var n := reader.NextU32();
    if n.None? || n.value > MAX_PROPERTIES { return None; }
    ghost var all := ReadMany(ReadProperty, reader.data, reader.pos, 0, n.value);
    var xs: seq<Property>, i := [], 0;
    PastNone(all);
    while i < n.value
      invariant i <= n.value && Past(xs, ReadMany(ReadProperty, reader.data, reader.pos, i, n.value)) == all
    {
      PastStep(xs, ReadProperty, reader.data, reader.pos, i, n.value);
      var property := DecodeProperty(reader, i);
      if property.None? { return None; }
      xs := xs + [property.value];
      i := i + 1;
    }
    PastAll(xs, ReadProperty, reader.data, reader.pos, n.value);
    return Some(xs);
  }

  method DecodeHead(reader: ByteReader, i: nat) returns (head: Option<Head>)
    modifies reader
    ensures reader.Did(ReadHead(reader.data, old(reader.pos), i), head)
  {
    var name := reader.NextText();
    if name.None? { return None; }
    var parent := reader.NextU32();
    if parent.None? { return None; }
    // A parent of a lower index rules out both forward references and cycles.
    if parent.value != NO_PARENT && parent.value >= i { return None; }
    var transform := DecodeTransform(reader);
    if transform.None? { return None; }
    var flags := reader.NextU8();
    if flags.None? { return None; }
    return Some(Head(name.value, parent.value, transform.value, flags.value));
  }

  method DecodePaths(reader: ByteReader, flags: byte) returns (paths: Option<Paths>)
    modifies reader
    ensures reader.Did(ReadPaths(reader.data, old(reader.pos), flags), paths)
  {
    hide ReadOptional;
    var okMesh, mesh := DecodeOptional(reader, flags, HAS_MESH);
    if !okMesh { return None; }
    var okMaterial, material := DecodeOptional(reader, flags, HAS_MATERIAL);
    if !okMaterial { return None; }
    var okCollider, collider := DecodeOptional(reader, flags, HAS_COLLIDER);
    if !okCollider { return None; }
    var okHitbox, hitbox := DecodeOptional(reader, flags, HAS_HITBOX);
    if !okHitbox { return None; }
    return Some(Paths(mesh, material, collider, hitbox));
  }

  method DecodeSceneNode(reader: ByteReader, i: nat) returns (node: Option<Node>)
    modifies reader
    ensures reader.Did(ReadNode(reader.data, old(reader.pos), i), node)
  {
    hide ReadHead, ReadPaths, ReadProperties;
    var head := DecodeHead(reader, i);
    if head.None? { return None; }
    var paths := DecodePaths(reader, head.value.flags);
    if paths.None? { return None; }
    var properties := DecodeProperties(reader);
    if properties.None? { return None; }
    var h, p := head.value, paths.value;
    return Some(Node(h.name, h.parent, h.transform, p.mesh, p.material, p.collider, p.hitbox,
                     Bit(h.flags, IS_SPAWN_POINT), properties.value));
  }

  method DecodeSceneBlob(blob: seq<byte>) returns (nodes: Option<seq<Node>>)
    ensures nodes == DecodeScene(blob)
  {
    hide ReadNode;
    var reader := new ByteReader(blob);
    var n := reader.NextU32();
    if n.None? || n.value > MAX_SCENE_NODES { return None; }
    ghost var all := ReadMany(ReadNode, blob, reader.pos, 0, n.value);
    var xs: seq<Node>, i := [], 0;
    PastNone(all);
    while i < n.value
      invariant i <= n.value && reader.data == blob
      invariant Past(xs, ReadMany(ReadNode, blob, reader.pos, i, n.value)) == all
    {
      PastStep(xs, ReadNode, blob, reader.pos, i, n.value);
      var node := DecodeSceneNode(reader, i);
      if node.None? { return None; }
      xs := xs + [node.value];
      i := i + 1;
    }
    PastAll(xs, ReadNode, blob, reader.pos, n.value);
    return Some(xs);
  }

  // ---------------------------------------------------------------- encoding

  /** One more element appended after `head`. */
  lemma AppendNext<T>(head: seq<byte>, write: T -> seq<byte>, xs: seq<T>, i: nat)
    requires i < |xs|
    ensures head + Many(write, xs[..i]) + write(xs[i]) == head + Many(write, xs[..i + 1])
  {
    ManyUpTo(write, xs, i);
  }

  lemma AppendNone<T>(head: seq<byte>, write: T -> seq<byte>, xs: seq<T>)
    ensures head + Many(write, xs[..0]) == head
    ensures Many(write, xs[..|xs|]) == Many(write, xs)
  {
    assert xs[..0] == [] && xs[..|xs|] == xs;
  }

  method WritePoints(writer: ByteWriter, m: Mesh)
    requires MeshFits(m)
    modifies writer
    ensures writer.data == old(writer.data) + PointsBytes(m)
  {
    writer.WriteNumber(|m.points|, 4);
    ghost var head := writer.data;
    AppendNone(head, Vec3Bytes, m.points);
    Regroup(old(writer.data), U32(|m.points|), Many(Vec3Bytes, m.points));
    hide Many, Vec3Bytes;
    var i := 0;
    while i < |m.points|
      invariant i <= |m.points| && writer.data == head + Many(Vec3Bytes, m.points[..i])
    {
      AppendNext(head, Vec3Bytes, m.points, i);
      writer.WriteVec3(m.points[i]);
      i := i + 1;
    }
  }

  method WriteIndices(writer: ByteWriter, m: Mesh)
    requires MeshFits(m)
    modifies writer
    ensures writer.data == old(writer.data) + IndicesBytes(m)
  {
    writer.WriteNumber(|m.indices|, 4);
    ghost var head := writer.data;
    AppendNone(head, U32, m.indices);
    Regroup(old(writer.data), U32(|m.indices|), Many(U32, m.indices));
    hide Many;
    var i := 0;
    while i < |m.indices|
      invariant i <= |m.indices| && writer.data == head + Many(U32, m.indices[..i])
    {
      AppendNext(head, U32, m.indices, i);
      writer.WriteNumber(m.indices[i], 4);
      i := i + 1;
    }
  }

  method EncodeMeshBlob(m: Mesh) returns (blob: Result<seq<byte>, EncodeError>)
    ensures blob == EncodeMesh(m)
  {
    if |m.points| > MAX_MESH_POINTS || |m.indices| > MAX_MESH_INDICES { return Err(TooLarge); }
    hide PointsBytes, IndicesBytes;
    var writer := new ByteWriter();
    WritePoints(writer, m);
    WriteIndices(writer, m);
    assert [] + PointsBytes(m) == PointsBytes(m);
    return Ok(writer.data);
  }

  lemma Regroup(a: seq<byte>, b: seq<byte>, c: seq<byte>)
    ensures a + b + c == a + (b + c)
  {}

  method WriteTransform(writer: ByteWriter, t: Transform)
    modifies writer
    ensures writer.data == old(writer.data) + TransformBytes(t)
  {
    writer.WriteVec3(t.translation);
    writer.WriteQuat(t.rotation);
    writer.WriteVec3(t.scale);
    Join3(old(writer.data), Vec3Bytes(t.translation), QuatBytes(t.rotation), Vec3Bytes(t.scale));
  }

  method EncodeJoint(writer: ByteWriter, j: Joint) returns (ok: bool)
    modifies writer
    ensures ok == JointFits(j) && (ok ==> writer.data == old(writer.data) + JointBytes(j))
  {
    ok := writer.WriteText(j.name);
    if !ok { return; }
    writer.WriteNumber(j.parent, 4);
    WriteTransform(writer, j.transform);
    Join3(old(writer.data), TextBytes(j.name), U32(j.parent), TransformBytes(j.transform));
  }

  predicate AllJointsFit(joints: seq<Joint>) { forall i :: 0 <= i < |joints| ==> JointFits(joints[i]) }

  method WriteJoints(writer: ByteWriter, joints: seq<Joint>) returns (ok: bool)
    modifies writer
    ensures ok == AllJointsFit(joints)
    ensures ok ==> writer.data == old(writer.data) + Many(JointBytes, joints)
  {
    hide Many, JointBytes, JointFits;
    ghost var head := writer.data;
    AppendNone(head, JointBytes, joints);
    var i := 0;
    ok := true;
    while i < |joints|
      invariant i <= |joints| && writer.data == head + Many(JointBytes, joints[..i])
      invariant forall k :: 0 <= k < i ==> JointFits(joints[k])
      invariant ok
    {
      AppendNext(head, JointBytes, joints, i);
      ok := EncodeJoint(writer, joints[i]);
      if !ok { break; }
      i := i + 1;
    }
  }

  method EncodeSkeletonBlob(joints: seq<Joint>) returns (blob: Result<seq<byte>, EncodeError>)
    ensures blob == EncodeSkeleton(joints)
  {
    if |joints| > MAX_JOINTS { return Err(TooLarge); }
    hide Many, JointFits;
    var writer := new ByteWriter();
    writer.WriteNumber(|joints|, 4);
    assert writer.data == U32(|joints|);
    var ok := WriteJoints(writer, joints);
    if !ok { return Err(TooLarge); }
    return Ok(writer.data);
  }

  method WriteOptional(writer: ByteWriter, t: Option<Text>) returns (ok: bool)
    modifies writer
    ensures ok == OptionalShort(t) && (ok ==> writer.data == old(writer.data) + OptionalBytes(t))
  {
    if t.None? {
      assert writer.data + [] == writer.data;
      return true;
    }
    ok := writer.WriteText(t.value);
  }

  method WriteHead(writer: ByteWriter, n: Node) returns (ok: bool)
    modifies writer
    ensures ok == Short(n.name) && (ok ==> writer.data == old(writer.data) + HeadBytes(n))
  {
    hide TextBytes, TransformBytes, LittleEndian;
    ok := writer.WriteText(n.name);
    if !ok { return; }
    writer.WriteNumber(n.parent, 4);
    WriteTransform(writer, n.transform);
    var flags := 0;
    if n.mesh.Some? { flags := flags + HAS_MESH; }
    if n.material.Some? { flags := flags + HAS_MATERIAL; }
    if n.collider.Some? { flags := flags + HAS_COLLIDER; }
    if n.hitbox.Some? { flags := flags + HAS_HITBOX; }
    if n.spawnPoint { flags := flags + IS_SPAWN_POINT; }
    writer.WriteU8(flags);
    Join4(old(writer.data), TextBytes(n.name), U32(n.parent), TransformBytes(n.transform), [FlagsOf(n)]);
  }

  method WritePaths(writer: ByteWriter, n: Node) returns (ok: bool)
    modifies writer
    ensures ok == (OptionalShort(n.mesh) && OptionalShort(n.material) && OptionalShort(n.collider)
                   && OptionalShort(n.hitbox))
    ensures ok ==> writer.data == old(writer.data) + PathsBytes(n)
  {
    hide OptionalBytes, OptionalShort;
    ok := WriteOptional(writer, n.mesh);
    if !ok { return; }
    ok := WriteOptional(writer, n.material);
    if !ok { return; }
    ok := WriteOptional(writer, n.collider);
    if !ok { return; }
    ok := WriteOptional(writer, n.hitbox);
    Join4(old(writer.data), OptionalBytes(n.mesh), OptionalBytes(n.material), OptionalBytes(n.collider),
          OptionalBytes(n.hitbox));
  }

  method WriteProperty(writer: ByteWriter, p: Property) returns (ok: bool)
    modifies writer
    ensures ok == PropertyFits(p) && (ok ==> writer.data == old(writer.data) + PropertyBytes(p))
  {
    ok := writer.WriteText(p.key);
    if !ok { return; }
    ok := writer.WriteText(p.value);
    Regroup(old(writer.data), TextBytes(p.key), TextBytes(p.value));
  }

  predicate AllPropertiesFit(ps: seq<Property>) { forall i :: 0 <= i < |ps| ==> PropertyFits(ps[i]) }

  method WritePropertyList(writer: ByteWriter, properties: seq<Property>) returns (ok: bool)
    modifies writer
    ensures ok == AllPropertiesFit(properties)
    ensures ok ==> writer.data == old(writer.data) + Many(PropertyBytes, properties)
  {
    hide Many, PropertyBytes, PropertyFits;
    ghost var head := writer.data;
    AppendNone(head, PropertyBytes, properties);
    var i := 0;
    ok := true;
    while i < |properties|
      invariant i <= |properties| && writer.data == head + Many(PropertyBytes, properties[..i])
      invariant forall k :: 0 <= k < i ==> PropertyFits(properties[k])
      invariant ok
    {
      AppendNext(head, PropertyBytes, properties, i);
      ok := WriteProperty(writer, properties[i]);
      if !ok { break; }
      i := i + 1;
    }
  }

  method WriteProperties(writer: ByteWriter, n: Node) returns (ok: bool)
    modifies writer
    ensures ok == (|n.properties| <= MAX_PROPERTIES && AllPropertiesFit(n.properties))
    ensures ok ==> writer.data == old(writer.data) + PropertiesBytes(n)
  {
    if |n.properties| > MAX_PROPERTIES { return false; }
    assert |n.properties| % 0x1_0000_0000 == |n.properties|;
    hide Many, LittleEndian, PropertyFits;
    writer.WriteNumber(|n.properties|, 4);
    ok := WritePropertyList(writer, n.properties);
    Regroup(old(writer.data), U32(|n.properties|), Many(PropertyBytes, n.properties));
  }

  method EncodeSceneNode(writer: ByteWriter, n: Node) returns (ok: bool)
    modifies writer
    ensures ok == NodeFits(n) && (ok ==> writer.data == old(writer.data) + NodeBytes(n))
  {
    ok := WriteHead(writer, n);
    if !ok { return; }
    ok := WritePaths(writer, n);
    if !ok { return; }
    ok := WriteProperties(writer, n);
    Join3(old(writer.data), HeadBytes(n), PathsBytes(n), PropertiesBytes(n));
  }

  predicate AllNodesFit(nodes: seq<Node>) { forall i :: 0 <= i < |nodes| ==> NodeFits(nodes[i]) }

  /** All of a scene's nodes up to `i`, after its count. */
  function UpTo(head: seq<byte>, nodes: seq<Node>, i: nat): seq<byte>
    requires i <= |nodes|
  {
    head + Many(NodeBytes, nodes[..i])
  }

  lemma UpToEnds(head: seq<byte>, nodes: seq<Node>)
    ensures UpTo(head, nodes, 0) == head && UpTo(head, nodes, |nodes|) == head + Many(NodeBytes, nodes)
  {
    hide NodeBytes;
    AppendNone(head, NodeBytes, nodes);
  }

  lemma UpToNext(head: seq<byte>, nodes: seq<Node>, i: nat)
    requires i < |nodes|
    ensures UpTo(head, nodes, i) + NodeBytes(nodes[i]) == UpTo(head, nodes, i + 1)
  {
    hide NodeBytes;
    AppendNext(head, NodeBytes, nodes, i);
  }

  method WriteNodes(writer: ByteWriter, nodes: seq<Node>) returns (ok: bool)
    modifies writer
    ensures ok == AllNodesFit(nodes)
    ensures ok ==> writer.data == old(writer.data) + Many(NodeBytes, nodes)
  {
    hide Many, NodeBytes, NodeFits, UpTo;
    ghost var head := writer.data;
    UpToEnds(head, nodes);
    var i := 0;
    ok := true;
    while i < |nodes|
      invariant i <= |nodes| && writer.data == UpTo(head, nodes, i)
      invariant forall k :: 0 <= k < i ==> NodeFits(nodes[k])
      invariant ok
    {
      UpToNext(head, nodes, i);
      ok := EncodeSceneNode(writer, nodes[i]);
      if !ok { break; }
      i := i + 1;
    }
  }

  method EncodeSceneBlob(nodes: seq<Node>) returns (blob: Result<seq<byte>, EncodeError>)
    ensures blob == EncodeScene(nodes)
  {
    if |nodes| > MAX_SCENE_NODES { return Err(TooLarge); }
    hide Many, NodeFits;
    var writer := new ByteWriter();
    writer.WriteNumber(|nodes|, 4);
    assert writer.data == U32(|nodes|);
    var ok := WriteNodes(writer, nodes);
    if !ok { return Err(TooLarge); }
    return Ok(writer.data);
  }
}

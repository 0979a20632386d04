/**
 The blobs of a pack: each encoded form of an asset, what decoding it gives back, and what decoding
 arbitrary bytes can give.
 */
module Blobs {
  import opened Common
  import opened WireFormat

  const MAX_MESH_POINTS := 16_000_000
  const MAX_MESH_INDICES := 48_000_000
  const MAX_SCENE_NODES := 1_000_000
  const MAX_PROPERTIES := 256
  const MAX_JOINTS := 128
  const MAX_AUDIO_BYTES := 64 * 1024 * 1024
  const MAX_CUE_VARIANTS := 255
  const MAX_ARCHIVE_BYTES := 64 * 1024 * 1024
  const MAX_FOOT_CONTACTS := 255
  const NO_PARENT: u32 := 0xFFFF_FFFF

  datatype EncodeError = TooLarge | UnsupportedSampleWidth | PartialSample | InvalidCueSound | InvalidAnimation

  predicate Short(t: Text) { |t| <= MAX_STRING }

  function AsOption<T>(r: Read<T>): Option<T> { if r.Missing? then None else Some(r.value) }

  // ---------------------------------------------------------------- meshes

  datatype Mesh = Mesh(points: seq<Vec3>, indices: seq<u32>)

  predicate MeshFits(m: Mesh) { |m.points| <= MAX_MESH_POINTS && |m.indices| <= MAX_MESH_INDICES }

  function PointsBytes(m: Mesh): seq<byte>
    requires MeshFits(m)
  {
    U32(|m.points|) + Many(Vec3Bytes, m.points)
  }

  function IndicesBytes(m: Mesh): seq<byte>
    requires MeshFits(m)
  {
    U32(|m.indices|) + Many(U32, m.indices)
  }

  function EncodeMesh(m: Mesh): Result<seq<byte>, EncodeError> {
    if !MeshFits(m) then Err(TooLarge) else Ok(PointsBytes(m) + IndicesBytes(m))
  }

  function ReadPoint(d: seq<byte>, at: nat, i: nat): Read<Vec3> { ReadVec3(d, at) }

  /** An index, which must be of one of the points. */
  function ReadIndex(points: nat): (seq<byte>, nat, nat) -> Read<u32> {
    (d: seq<byte>, at: nat, i: nat) =>
      var r := ReadU32(d, at);
      if r.Missing? || r.value >= points then Missing else r
  }

  function ReadPoints(d: seq<byte>, at: nat): Read<seq<Vec3>> {
    var (n, p) :- ReadU32(d, at);
    if n > MAX_MESH_POINTS then Missing else ReadMany(ReadPoint, d, p, 0, n)
  }

  function ReadIndices(points: nat, d: seq<byte>, at: nat): Read<seq<u32>> {
    var (n, p) :- ReadU32(d, at);
    if n > MAX_MESH_INDICES || n % 3 != 0 then Missing else ReadMany(ReadIndex(points), d, p, 0, n)
  }

  function ReadMesh(d: seq<byte>, at: nat): Read<Mesh> {
    var (points, p) :- ReadPoints(d, at);
    var (indices, next) :- ReadIndices(|points|, d, p);
    Read(Mesh(points, indices), next)
  }

  function DecodeMesh(blob: seq<byte>): Option<Mesh> { AsOption(ReadMesh(blob, 0)) }

  /** Whether a mesh is a list of triangles of its own points. */
  predicate Triangles(m: Mesh) {
    |m.indices| % 3 == 0 && forall i :: 0 <= i < |m.indices| ==> m.indices[i] < |m.points|
  }

  function Any<T>(): (T, nat) -> bool { (_, _) => true }

  function AnyFits<T>(): T -> bool { _ => true }

  function Below(n: nat): (u32, nat) -> bool { (v, _) => v < n }

  lemma PointInverse()
    ensures Inverse(Vec3Bytes, ReadPoint, Any(), AnyFits())
  {
    forall d: seq<byte>, at: nat, v: Vec3 | At(d, at, Vec3Bytes(v))
      ensures ReadVec3(d, at) == Read(v, at + |Vec3Bytes(v)|)
    {
      Vec3Reads(d, at, v);
    }
  }

  lemma IndexInverse(points: nat)
    ensures Inverse(U32, ReadIndex(points), Below(points), AnyFits())
  {
    forall d: seq<byte>, at: nat, v: u32 | At(d, at, U32(v)) ensures ReadU32(d, at) == Read(v, at + |U32(v)|) {
      U32Reads(d, at, v);
    }
  }

  lemma PointsRead(m: Mesh, d: seq<byte>, at: nat)
    requires MeshFits(m) && At(d, at, PointsBytes(m))
    ensures ReadPoints(d, at) == Read(m.points, at + |PointsBytes(m)|)
  {
    AtSplit(d, at, U32(|m.points|), Many(Vec3Bytes, m.points));
    U32Reads(d, at, |m.points|);
    PointInverse();
    ManyReads(Vec3Bytes, ReadPoint, Any(), AnyFits(), d, at + 4, m.points, 0, |m.points|);
    AllFromIff(Any(), m.points);
  }

  lemma IndicesRead(m: Mesh, d: seq<byte>, at: nat)
    requires MeshFits(m) && At(d, at, IndicesBytes(m))
    ensures ReadIndices(|m.points|, d, at) ==
            if Triangles(m) then Read(m.indices, at + |IndicesBytes(m)|) else Missing
  {
    var n := |m.points|;
    AtSplit(d, at, U32(|m.indices|), Many(U32, m.indices));
    U32Reads(d, at, |m.indices|);
    IndexInverse(n);
    ManyReads(U32, ReadIndex(n), Below(n), AnyFits(), d, at + 4, m.indices, 0, |m.indices|);
    AllFromIff(Below(n), m.indices);
  }

  /** A mesh encoded decodes to itself exactly when it is triangles of its own points. */
  lemma MeshRoundTrip(m: Mesh)
    requires EncodeMesh(m).Ok?
    ensures DecodeMesh(EncodeMesh(m).value) == if Triangles(m) then Some(m) else None
  {
    var d := EncodeMesh(m).value;
    AtSplit(d, 0, PointsBytes(m), IndicesBytes(m));
    PointsRead(m, d, 0);
    IndicesRead(m, d, |PointsBytes(m)|);
  }

  // ---------------------------------------------------------------- transforms

  datatype Transform = Transform(translation: Vec3, rotation: Quat, scale: Vec3)

  function TransformBytes(t: Transform): seq<byte> {
    Vec3Bytes(t.translation) + QuatBytes(t.rotation) + Vec3Bytes(t.scale)
  }

  function ReadTransform(d: seq<byte>, at: nat): Read<Transform> {
    var (translation, p) :- ReadVec3(d, at);
    var (rotation, q) :- ReadQuat(d, p);
    var (scale, next) :- ReadVec3(d, q);
    Read(Transform(translation, rotation, scale), next)
  }

  lemma TransformReads(d: seq<byte>, at: nat, t: Transform)
    requires At(d, at, TransformBytes(t))
    ensures ReadTransform(d, at) == Read(t, at + |TransformBytes(t)|)
  {
    hide At;
    AtSplit3(d, at, Vec3Bytes(t.translation), QuatBytes(t.rotation), Vec3Bytes(t.scale));
    Vec3Reads(d, at, t.translation);
    QuatReads(d, at + 12, t.rotation);
    Vec3Reads(d, at + 28, t.scale);
  }

  /** A parent comes before its children, or there is none. */
  predicate Before(parent: u32, i: nat) { parent == NO_PARENT || parent < i }

  // ---------------------------------------------------------------- skeletons

  datatype Joint = Joint(name: Text, parent: u32, transform: Transform)

  function JointBytes(j: Joint): seq<byte> { TextBytes(j.name) + U32(j.parent) + TransformBytes(j.transform) }

  predicate JointFits(j: Joint) { Short(j.name) }

  function EncodeSkeleton(joints: seq<Joint>): Result<seq<byte>, EncodeError> {
    if |joints| > MAX_JOINTS || exists i :: 0 <= i < |joints| && !JointFits(joints[i]) then Err(TooLarge)
    else Ok(U32(|joints|) + Many(JointBytes, joints))
  }

  function ReadJoint(d: seq<byte>, at: nat, i: nat): Read<Joint> {
    var (name, p) :- ReadText(d, at);
    var (parent, q) :- ReadU32(d, p);
    var (transform, next) :- ReadTransform(d, q);
    if !Before(parent, i) then Missing else Read(Joint(name, parent, transform), next)
  }

  function ReadSkeleton(d: seq<byte>, at: nat): Read<seq<Joint>> {
    var (n, p) :- ReadU32(d, at);
    if n > MAX_JOINTS then Missing else ReadMany(ReadJoint, d, p, 0, n)
  }

  function DecodeSkeleton(blob: seq<byte>): Option<seq<Joint>> { AsOption(ReadSkeleton(blob, 0)) }

  function JointBefore(): (Joint, nat) -> bool { (j: Joint, i: nat) => Before(j.parent, i) }

  lemma JointReads(d: seq<byte>, at: nat, i: nat, j: Joint)
    requires JointFits(j) && At(d, at, JointBytes(j))
    ensures ReadJoint(d, at, i) == if Before(j.parent, i) then Read(j, at + |JointBytes(j)|) else Missing
  {
    hide At, TransformBytes, ReadText, ReadTransform;
    AtSplit3(d, at, TextBytes(j.name), U32(j.parent), TransformBytes(j.transform));
    TextReads(d, at, j.name);
    U32Reads(d, at + 4 + |j.name|, j.parent);
    TransformReads(d, at + 8 + |j.name|, j.transform);
  }

  lemma JointInverse()
    ensures Inverse(JointBytes, ReadJoint, JointBefore(), JointFits)
  {
    forall d: seq<byte>, at: nat, i: nat, j: Joint | JointFits(j) && At(d, at, JointBytes(j))
      ensures ReadJoint(d, at, i) == if Before(j.parent, i) then Read(j, at + |JointBytes(j)|) else Missing
    {
      JointReads(d, at, i, j);
    }
  }

  predicate ParentsFirst(joints: seq<Joint>) {
    forall i :: 0 <= i < |joints| ==> Before(joints[i].parent, i)
  }

  /** A skeleton encoded decodes to itself exactly when it lists parents before children. */
  lemma SkeletonRoundTrip(joints: seq<Joint>)
    requires EncodeSkeleton(joints).Ok?
    ensures DecodeSkeleton(EncodeSkeleton(joints).value) == if ParentsFirst(joints) then Some(joints) else None
  {
    hide JointFits, JointBytes, ReadJoint, Inverse;
    var d := EncodeSkeleton(joints).value;
    AtSplit(d, 0, U32(|joints|), Many(JointBytes, joints));
    U32Reads(d, 0, |joints|);
    JointInverse();
    ManyReads(JointBytes, ReadJoint, JointBefore(), JointFits, d, 4, joints, 0, |joints|);
    AllFromIff(JointBefore(), joints);
  }

  /** Whatever the bytes, a skeleton decoded lists parents before children. */
  lemma SkeletonParentsFirst(blob: seq<byte>)
    requires DecodeSkeleton(blob).Some?
    ensures ParentsFirst(DecodeSkeleton(blob).value) && |DecodeSkeleton(blob).value| <= MAX_JOINTS
  {
    var n := ReadU32(blob, 0);
    ManyHold(ReadJoint, JointBefore(), blob, n.next, 0, n.value);
    AllFromIff(JointBefore(), DecodeSkeleton(blob).value);
  }

  // ---------------------------------------------------------------- scenes

  datatype Property = Property(key: Text, value: Text)

  datatype Node = Node(
    name: Text, parent: u32, transform: Transform,
    mesh: Option<Text>, material: Option<Text>, collider: Option<Text>, hitbox: Option<Text>,
    spawnPoint: bool, properties: seq<Property>)

  const HAS_MESH := 1
  const HAS_MATERIAL := 2
  const HAS_COLLIDER := 4
  const HAS_HITBOX := 8
  const IS_SPAWN_POINT := 16

  predicate Bit(flags: byte, bit: nat)
    requires bit > 0
  {
    (flags / bit) % 2 == 1
  }

  function Flag(set_: bool, bit: nat): nat { if set_ then bit else 0 }

  function FlagsOf(n: Node): byte {
    Flag(n.mesh.Some?, HAS_MESH) + Flag(n.material.Some?, HAS_MATERIAL) + Flag(n.collider.Some?, HAS_COLLIDER)
    + Flag(n.hitbox.Some?, HAS_HITBOX) + Flag(n.spawnPoint, IS_SPAWN_POINT)
  }

  function OptionalBytes(t: Option<Text>): seq<byte> { if t.Some? then TextBytes(t.value) else [] }

  function PropertyBytes(p: Property): seq<byte> { TextBytes(p.key) + TextBytes(p.value) }

  predicate OptionalShort(t: Option<Text>) { t.Some? ==> Short(t.value) }

  predicate PropertyFits(p: Property) { Short(p.key) && Short(p.value) }

  predicate NodeFits(n: Node) {
    && Short(n.name) && OptionalShort(n.mesh) && OptionalShort(n.material) && OptionalShort(n.collider)
    && OptionalShort(n.hitbox) && |n.properties| <= MAX_PROPERTIES
    && forall i :: 0 <= i < |n.properties| ==> PropertyFits(n.properties[i])
  }

  function HeadBytes(n: Node): seq<byte> {
    TextBytes(n.name) + U32(n.parent) + TransformBytes(n.transform) + [FlagsOf(n)]
  }

  function PathsBytes(n: Node): seq<byte> {
    OptionalBytes(n.mesh) + OptionalBytes(n.material) + OptionalBytes(n.collider) + OptionalBytes(n.hitbox)
  }

  function PropertiesBytes(n: Node): seq<byte> {
    U32(|n.properties| % 0x1_0000_0000) + Many(PropertyBytes, n.properties)
  }

  function NodeBytes(n: Node): seq<byte> { HeadBytes(n) + PathsBytes(n) + PropertiesBytes(n) }

  predicate SceneFits(nodes: seq<Node>) {
    |nodes| <= MAX_SCENE_NODES && forall i :: 0 <= i < |nodes| ==> NodeFits(nodes[i])
  }

  function EncodeScene(nodes: seq<Node>): Result<seq<byte>, EncodeError> {
    if !SceneFits(nodes) then Err(TooLarge) else Ok(U32(|nodes|) + Many(NodeBytes, nodes))
  }

  function ReadOptional(d: seq<byte>, at: nat, flags: byte, bit: nat): Read<Option<Text>>
    requires bit > 0
  {
    if !Bit(flags, bit) then Read(None, at)
    else
      var (path, next) :- ReadText(d, at);
      Read(Some(path), next)
  }

  function ReadProperty(d: seq<byte>, at: nat, i: nat): Read<Property> {
    var (key, p) :- ReadText(d, at);
    var (value, next) :- ReadText(d, p);
    Read(Property(key, value), next)
  }

  function ReadProperties(d: seq<byte>, at: nat): Read<seq<Property>> {
    var (n, p) :- ReadU32(d, at);
    if n > MAX_PROPERTIES then Missing else ReadMany(ReadProperty, d, p, 0, n)
  }

  datatype Head = Head(name: Text, parent: u32, transform: Transform, flags: byte)

  function ReadHead(d: seq<byte>, at: nat, i: nat): Read<Head> {
    var (name, p) :- ReadText(d, at);
    var (parent, q) :- ReadU32(d, p);
    if !Before(parent, i) then Missing
    else
      var (transform, r) :- ReadTransform(d, q);
      var (flags, next) :- ReadU8(d, r);
      Read(Head(name, parent, transform, flags), next)
  }

  datatype Paths = Paths(mesh: Option<Text>, material: Option<Text>, collider: Option<Text>, hitbox: Option<Text>)

  function ReadPaths(d: seq<byte>, at: nat, flags: byte): Read<Paths> {
    var (mesh, p) :- ReadOptional(d, at, flags, HAS_MESH);
    var (material, q) :- ReadOptional(d, p, flags, HAS_MATERIAL);
    var (collider, r) :- ReadOptional(d, q, flags, HAS_COLLIDER);
    var (hitbox, next) :- ReadOptional(d, r, flags, HAS_HITBOX);
    Read(Paths(mesh, material, collider, hitbox), next)
  }

  function ReadNode(d: seq<byte>, at: nat, i: nat): Read<Node> {
    var (head, p) :- ReadHead(d, at, i);
    var (paths, q) :- ReadPaths(d, p, head.flags);
    var (properties, next) :- ReadProperties(d, q);
    Read(Node(head.name, head.parent, head.transform, paths.mesh, paths.material, paths.collider, paths.hitbox,
              Bit(head.flags, IS_SPAWN_POINT), properties), next)
  }

  function ReadScene(d: seq<byte>, at: nat): Read<seq<Node>> {
    var (n, p) :- ReadU32(d, at);
    if n > MAX_SCENE_NODES then Missing else ReadMany(ReadNode, d, p, 0, n)
  }

  function DecodeScene(blob: seq<byte>): Option<seq<Node>> { AsOption(ReadScene(blob, 0)) }

  function NodeBefore(): (Node, nat) -> bool { (n: Node, i: nat) => Before(n.parent, i) }

  lemma FlagsRead(n: Node)
    ensures Bit(FlagsOf(n), HAS_MESH) == n.mesh.Some? && Bit(FlagsOf(n), HAS_MATERIAL) == n.material.Some?
    ensures Bit(FlagsOf(n), HAS_COLLIDER) == n.collider.Some? && Bit(FlagsOf(n), HAS_HITBOX) == n.hitbox.Some?
    ensures Bit(FlagsOf(n), IS_SPAWN_POINT) == n.spawnPoint
  {}

  lemma OptionalReads(d: seq<byte>, at: nat, flags: byte, bit: nat, t: Option<Text>)
    requires bit > 0 && OptionalShort(t) && Bit(flags, bit) == t.Some? && At(d, at, OptionalBytes(t))
    ensures ReadOptional(d, at, flags, bit) == Read(t, at + |OptionalBytes(t)|)
  {
    if t.Some? { TextReads(d, at, t.value); }
  }

  lemma HeadReads(d: seq<byte>, at: nat, i: nat, n: Node)
    requires Short(n.name) && At(d, at, HeadBytes(n))
    ensures ReadHead(d, at, i) ==
            if Before(n.parent, i) then Read(Head(n.name, n.parent, n.transform, FlagsOf(n)), at + |HeadBytes(n)|)
            else Missing
  {
    hide At, TransformBytes, ReadText, ReadTransform, FlagsOf;
    var p, q := at + 4 + |n.name|, at + 8 + |n.name|;
    AtSplit4(d, at, TextBytes(n.name), U32(n.parent), TransformBytes(n.transform), [FlagsOf(n)]);
    TextReads(d, at, n.name);
    U32Reads(d, p, n.parent);
    TransformReads(d, q, n.transform);
    U8Reads(d, q + |TransformBytes(n.transform)|, FlagsOf(n));
  }

  lemma PathsRead(d: seq<byte>, at: nat, n: Node)
    requires NodeFits(n) && At(d, at, PathsBytes(n))
    ensures ReadPaths(d, at, FlagsOf(n)) ==
            Read(Paths(n.mesh, n.material, n.collider, n.hitbox), at + |PathsBytes(n)|)
  {
    hide At, OptionalBytes, ReadOptional, Bit, FlagsOf;
    var a, b := OptionalBytes(n.mesh), OptionalBytes(n.material);
    var c, e := OptionalBytes(n.collider), OptionalBytes(n.hitbox);
    FlagsRead(n);
    AtSplit4(d, at, a, b, c, e);
    OptionalReads(d, at, FlagsOf(n), HAS_MESH, n.mesh);
    OptionalReads(d, at + |a|, FlagsOf(n), HAS_MATERIAL, n.material);
    OptionalReads(d, at + |a| + |b|, FlagsOf(n), HAS_COLLIDER, n.collider);
    OptionalReads(d, at + |a| + |b| + |c|, FlagsOf(n), HAS_HITBOX, n.hitbox);
  }

  lemma PropertyInverse()
    ensures Inverse(PropertyBytes, ReadProperty, Any(), PropertyFits)
  {
    forall d: seq<byte>, at: nat, i: nat, p: Property | PropertyFits(p) && At(d, at, PropertyBytes(p))
      ensures ReadProperty(d, at, i) == Read(p, at + |PropertyBytes(p)|)
    {
      AtSplit(d, at, TextBytes(p.key), TextBytes(p.value));
      TextReads(d, at, p.key);
      TextReads(d, at + 4 + |p.key|, p.value);
    }
  }

  lemma PropertiesRead(d: seq<byte>, at: nat, n: Node)
    requires NodeFits(n) && At(d, at, PropertiesBytes(n))
    ensures ReadProperties(d, at) == Read(n.properties, at + |PropertiesBytes(n)|)
  {
    hide At;
    AtSplit(d, at, U32(|n.properties|), Many(PropertyBytes, n.properties));
    U32Reads(d, at, |n.properties|);
    PropertyInverse();
    ManyReads(PropertyBytes, ReadProperty, Any(), PropertyFits, d, at + 4, n.properties, 0, |n.properties|);
    AllFromIff(Any(), n.properties);
  }

  lemma NodeReads(d: seq<byte>, at: nat, i: nat, n: Node)
    requires NodeFits(n) && At(d, at, NodeBytes(n))
    ensures ReadNode(d, at, i) == if Before(n.parent, i) then Read(n, at + |NodeBytes(n)|) else Missing
  {
    hide At, HeadBytes, PathsBytes, PropertiesBytes, ReadHead, ReadPaths, ReadProperties, Bit, FlagsOf;
    AtSplit3(d, at, HeadBytes(n), PathsBytes(n), PropertiesBytes(n));
    HeadReads(d, at, i, n);
    PathsRead(d, at + |HeadBytes(n)|, n);
    PropertiesRead(d, at + |HeadBytes(n)| + |PathsBytes(n)|, n);
    FlagsRead(n);
  }

  lemma NodeInverse()
    ensures Inverse(NodeBytes, ReadNode, NodeBefore(), NodeFits)
  {
    forall d: seq<byte>, at: nat, i: nat, n: Node | NodeFits(n) && At(d, at, NodeBytes(n))
      ensures ReadNode(d, at, i) == if Before(n.parent, i) then Read(n, at + |NodeBytes(n)|) else Missing
    {
      NodeReads(d, at, i, n);
    }
  }

  predicate SceneOrdered(nodes: seq<Node>) {
    forall i :: 0 <= i < |nodes| ==> Before(nodes[i].parent, i)
  }

  /** A scene encoded decodes to itself exactly when it lists parents before children. */
  lemma SceneRoundTrip(nodes: seq<Node>)
    requires EncodeScene(nodes).Ok?
    ensures DecodeScene(EncodeScene(nodes).value) == if SceneOrdered(nodes) then Some(nodes) else None
  {
    hide NodeFits, NodeBytes, ReadNode, Inverse;
    var d := EncodeScene(nodes).value;
    AtSplit(d, 0, U32(|nodes|), Many(NodeBytes, nodes));
    U32Reads(d, 0, |nodes|);
    NodeInverse();
    ManyReads(NodeBytes, ReadNode, NodeBefore(), NodeFits, d, 4, nodes, 0, |nodes|);
    AllFromIff(NodeBefore(), nodes);
  }

  /** Whatever the bytes, a scene decoded lists parents before children. */
  lemma SceneParentsFirst(blob: seq<byte>)
    requires DecodeScene(blob).Some?
    ensures SceneOrdered(DecodeScene(blob).value) && |DecodeScene(blob).value| <= MAX_SCENE_NODES
  {
    var n := ReadU32(blob, 0);
    ManyHold(ReadNode, NodeBefore(), blob, n.next, 0, n.value);
    AllFromIff(NodeBefore(), DecodeScene(blob).value);
  }
}

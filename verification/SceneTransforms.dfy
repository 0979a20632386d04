/**
 Where a scene's nodes are in the world: because parents come before their children, one pass from
 first to last gives each the product of the transforms along the chain from its root.
 */
module SceneTransforms {
  import opened Blobs

  /** A transform as a matrix, of which only the product is needed. */
  datatype Matrices<!M> = Matrices(of: Transform -> M, times: (M, M) -> M)

  /** The nodes from a root down to `i`, each the parent of the next. */
  function Chain(nodes: seq<Node>, i: nat): (chain: seq<nat>)
    requires SceneOrdered(nodes) && i < |nodes|
    ensures chain != [] && chain[|chain| - 1] == i
    ensures forall k :: 0 <= k < |chain| ==> chain[k] < |nodes|
    ensures nodes[chain[0]].parent == NO_PARENT
    ensures forall k :: 0 < k < |chain| ==> nodes[chain[k]].parent == chain[k - 1]
  {
    assert Before(nodes[i].parent, i);
    if nodes[i].parent == NO_PARENT then [i] else Chain(nodes, nodes[i].parent) + [i]
  }

  /** The product of the local transforms along a chain, the root's first. */
  function Product<M>(m: Matrices<M>, nodes: seq<Node>, chain: seq<nat>): M
    requires chain != [] && forall k :: 0 <= k < |chain| ==> chain[k] < |nodes|
  {
    var n := |chain| - 1;
    if n == 0 then m.of(nodes[chain[0]].transform)
    else m.times(Product(m, nodes, chain[..n]), m.of(nodes[chain[n]].transform))
  }

  /** A node's world transform: its chain's product. */
  function World<M>(m: Matrices<M>, nodes: seq<Node>, i: nat): M
    requires SceneOrdered(nodes) && i < |nodes|
  {
    Product(m, nodes, Chain(nodes, i))
  }

  lemma RootProduct<M>(m: Matrices<M>, nodes: seq<Node>, i: nat)
    requires SceneOrdered(nodes) && i < |nodes| && nodes[i].parent == NO_PARENT
    ensures World(m, nodes, i) == m.of(nodes[i].transform)
  {}

  lemma ProductStep<M>(m: Matrices<M>, nodes: seq<Node>, i: nat)
    requires SceneOrdered(nodes) && i < |nodes| && nodes[i].parent != NO_PARENT && nodes[i].parent < i
    ensures World(m, nodes, i) == m.times(World(m, nodes, nodes[i].parent), m.of(nodes[i].transform))
  {
    var chain := Chain(nodes, i);
    assert chain[..|chain| - 1] == Chain(nodes, nodes[i].parent);
  }

  /** One forward pass: each parent's is already done. */
  method ComputeWorldTransforms<M>(m: Matrices<M>, nodes: seq<Node>) returns (world: seq<M>)
    requires SceneOrdered(nodes)
    ensures |world| == |nodes|
    ensures forall i :: 0 <= i < |nodes| ==> world[i] == World(m, nodes, i)
  {
    hide World;
    world := [];
    var i := 0;
    while i < |nodes|
      invariant i <= |nodes| && |world| == i
      invariant forall k :: 0 <= k < i ==> world[k] == World(m, nodes, k)
    {
      var local, parent := m.of(nodes[i].transform), nodes[i].parent;
      assert Before(parent, i);
      if parent == NO_PARENT {
        RootProduct(m, nodes, i);
        world := world + [local];
      } else {
        ProductStep(m, nodes, i);
        world := world + [m.times(world[parent], local)];
      }
      i := i + 1;
    }
  }
}

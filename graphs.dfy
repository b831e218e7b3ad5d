/**
 * The topology builders tpg_star, tpg_path and tpg_3ary_tree. A networkx
 * Graph is modelled by the two things the generators read from it: its node
 * list, in insertion order, and its edge list, in insertion order.
 */
module Graphs {

  type Edge = (nat, nat)

  datatype Graph = Graph(nodes: seq<nat>, edges: seq<Edge>)

  const Empty: Graph := Graph([], [])

  /**
   * nx.Graph.add_edge(u, v): an endpoint that is not a node yet is appended
   * to the node list (u before v); an edge already present in either
   * orientation is not added a second time.
   */
  function AddEdge(g: Graph, u: nat, v: nat): Graph
  {
    var withU := if u in g.nodes then g.nodes else g.nodes + [u];
    var withV := if v in withU then withU else withU + [v];
    Graph(withV, if (u, v) in g.edges || (v, u) in g.edges then g.edges else g.edges + [(u, v)])
  }

  /**
   * add_edge keeps the nodes and edges already there, in their order; the
   * node list gains exactly the missing endpoints and keeps no node twice;
   * the edge list then holds the edge, appended once unless it was present
   * in either orientation.
   */
  lemma AddEdgeKeeps(g: Graph, u: nat, v: nat)
    ensures var r := AddEdge(g, u, v);
      && |g.nodes| <= |r.nodes| && r.nodes[..|g.nodes|] == g.nodes
      && (forall x :: x in r.nodes <==> x in g.nodes || x == u || x == v)
      && (Unique(g.nodes) ==> Unique(r.nodes))
    ensures var r := AddEdge(g, u, v);
      && |g.edges| <= |r.edges| && r.edges[..|g.edges|] == g.edges
      && ((u, v) in r.edges || (v, u) in r.edges)
      && |r.edges| == (if (u, v) in g.edges || (v, u) in g.edges then |g.edges| else |g.edges| + 1)
      && (forall k | |g.edges| <= k < |r.edges| :: r.edges[k] == (u, v))
  {
  }

  /** No node occurs twice, as in the node set of a networkx graph. */
  predicate Unique(nodes: seq<nat>)
  {
    forall i, j | 0 <= i < j < |nodes| :: nodes[i] != nodes[j]
  }

  /** [0, 1, ..., n - 1] */
  function Range(n: nat): (r: seq<nat>)
    ensures |r| == n && forall i | 0 <= i < n :: r[i] == i
  {
    seq(n, i => i)
  }

  /** The nodes of a builder's graph over n nodes: a graph with no edges has none. */
  function BuiltNodes(n: nat): seq<nat>
  {
    if n <= 1 then [] else Range(n)
  }

  /** The number of edges a builder adds for n nodes: n - 1, and none for n <= 1. */
  function TreeEdgeCount(n: nat): nat
  {
    if n == 0 then 0 else n - 1
  }

  /** Adding the edge (u, t) to a graph on nodes 0..t-1 whose edges all end below t. */
  lemma AddEdgeToNext(g: Graph, u: nat, t: nat)
    requires t >= 1 && u < t
    requires g.nodes == BuiltNodes(t)
    requires forall k | 0 <= k < |g.edges| :: g.edges[k].0 < t && g.edges[k].1 < t
    requires t == 1 ==> u == 0
    ensures AddEdge(g, u, t) == Graph(BuiltNodes(t + 1), g.edges + [(u, t)])
  {
    assert (u, t) !in g.edges && (t, u) !in g.edges;
    if t == 1 {
      assert [0] + [1] == Range(2);
    } else {
      assert u in g.nodes by { assert g.nodes[u] == u; }
      assert t !in g.nodes;
      assert g.nodes + [t] == Range(t + 1);
    }
  }

  /** tpg_star: node 0 joined to every other node. */
  method TpgStar(n: nat) returns (g: Graph)
    ensures |g.edges| == TreeEdgeCount(n)
    ensures forall k | 0 <= k < |g.edges| :: g.edges[k] == (0, k + 1)
    ensures g.nodes == BuiltNodes(n)
  {
    g := Empty;
    var i := 1;
    while i < n
      invariant 1 <= i && (i <= n || n <= 1)
      invariant n <= 1 ==> i == 1
      invariant |g.edges| == i - 1
      invariant forall k | 0 <= k < |g.edges| :: g.edges[k] == (0, k + 1)
      invariant g.nodes == BuiltNodes(i)
    {
      AddEdgeToNext(g, 0, i);
      g := AddEdge(g, 0, i);
      i := i + 1;
    }
  }

  /** tpg_path: consecutive nodes joined in a chain. */
  method TpgPath(n: nat) returns (g: Graph)
    ensures |g.edges| == TreeEdgeCount(n)
    ensures forall k | 0 <= k < |g.edges| :: g.edges[k] == (k, k + 1)
    ensures g.nodes == BuiltNodes(n)
  {
    g := Empty;
    if n >= 1 {
      for i := 0 to n - 1
        invariant |g.edges| == i
        invariant forall k | 0 <= k < |g.edges| :: g.edges[k] == (k, k + 1)
        invariant g.nodes == BuiltNodes(i + 1)
      {
        AddEdgeToNext(g, i, i + 1);
        g := AddEdge(g, i, i + 1);
      }
    }
  }

  /** arity ** depth */
  function Pow(b: nat, e: nat): (r: nat)
    ensures b >= 1 ==> r >= 1
  {
    if e == 0 then 1 else b * Pow(b, e - 1)
  }

  function Min(x: int, y: int): int
  {
    if x <= y then x else y
  }

  /** Splitting off a multiple of the divisor: (a*q + i) / a == q + i / a. */
  lemma DivShift(a: nat, q: int, i: nat)
    requires a >= 1
    ensures (a * q + i) / a == q + i / a
  {
    var r := i % a;
    assert i == a * (i / a) + r;
    assert a * q + i == a * (q + i / a) + r by {
      assert a * (q + i / a) == a * q + a * (i / a);
    }
    DivUnique(a * q + i, a, q + i / a, r);
  }

  /** Quotient and remainder are unique. */
  lemma DivUnique(x: int, a: int, quo: int, rem: int)
    requires a >= 1 && 0 <= rem < a && x == a * quo + rem
    ensures x / a == quo
  {
    var q', r' := x / a, x % a;
    assert x == a * q' + r';
    assert a * (quo - q') == r' - rem by {
      assert a * (quo - q') == a * quo - a * q';
    }
    if quo - q' >= 1 {
      assert a * (quo - q') >= a * 1 by { MulMonotone(a, 1, quo - q'); }
    } else if quo - q' <= -1 {
      assert a * (q' - quo) >= a * 1 by { MulMonotone(a, 1, q' - quo); }
    }
  }

  lemma MulMonotone(a: nat, x: int, y: int)
    requires x <= y
    ensures a * x <= a * y
  {
    assert a * y - a * x == a * (y - x);
  }

  /** In a breadth-first numbered tree every edge runs from a smaller to a larger node. */
  lemma TreeEdgesForward(edges: seq<Edge>, arity: nat)
    requires arity >= 1
    requires forall k | 0 <= k < |edges| :: edges[k] == (k / arity, k + 1)
    ensures forall k | 0 <= k < |edges| :: edges[k].0 < edges[k].1 <= |edges|
  {
    forall k | 0 <= k < |edges| ensures edges[k].0 < edges[k].1 {
      DivAtMost(k, arity);
    }
  }

  lemma DivAtMost(k: nat, a: nat)
    requires a >= 1
    ensures k / a <= k
  {
    DivBounds(k, a, k / a);
    MulMonotone(k / a, 1, a);
  }

  /** What k / a == s says about k. */
  lemma DivBounds(k: nat, a: nat, s: nat)
    requires a >= 1 && k / a == s
    ensures a * s <= k < a * s + a
  {
    assert k == a * (k / a) + k % a;
  }

  /**
   * tpg_3ary_tree: nodes are placed layer by layer, layer `depth` holding up
   * to arity ** depth nodes, each joined to a node of the previous layer.
   * The result is the breadth-first numbered tree: the parent of node t is
   * (t - 1) / arity.
   */
  method Tpg3aryTree(n: nat, arity: nat) returns (g: Graph)
    requires arity >= 1 || n <= 1
    ensures |g.edges| == TreeEdgeCount(n)
    ensures forall k | 0 <= k < |g.edges| :: g.edges[k] == (k / arity, k + 1)
    ensures forall k | 0 <= k < |g.edges| :: g.edges[k].0 < g.edges[k].1
    ensures g.nodes == BuiltNodes(n)
  {
    g := Empty;
    var e := 1;
    var depth := 1;
    while e < n
      invariant 1 <= e && depth >= 1
      invariant e <= n || n <= 1
      invariant n <= 1 ==> e == 1
      invariant e >= 2 ==> arity >= 1
      invariant e < n ==> LayerAligned(e, depth, arity)
      invariant TreeSoFar(g, arity, e)
      decreases n - e
    {
      var toAdd := Min(Pow(arity, depth), n - e);
      g := AddLayer(g, e, depth, arity, toAdd);
      LayerNext(n, e, depth, arity);
      e := e + toAdd;
      depth := depth + 1;
    }
    if arity >= 1 {
      TreeEdgesForward(g.edges, arity);
    }
  }

  /** The inner loop of tpg_3ary_tree: `toAdd` nodes from `e` on, each hung off its parent in the previous layer. */
  method AddLayer(g0: Graph, e: nat, depth: nat, arity: nat, toAdd: nat) returns (g: Graph)
    requires depth >= 1 && arity >= 1 && e >= 1
    requires LayerAligned(e, depth, arity)
    requires TreeSoFar(g0, arity, e)
    ensures TreeSoFar(g, arity, e + toAdd)
  {
    g := g0;
    for i := 0 to toAdd
      invariant TreeSoFar(g, arity, e + i)
    {
      LayerChild(g, e, depth, arity, i);
      var source := i / arity + e - Pow(arity, depth - 1);
      var target := e + i;
      g := AddEdge(g, source, target);
    }
  }

  /** The first `t` nodes are built: node k + 1 hangs off k / arity for every earlier edge k. */
  predicate TreeSoFar(g: Graph, arity: nat, t: nat)
  {
    && |g.edges| == t - 1
    && (forall k | 0 <= k < |g.edges| :: arity >= 1 && g.edges[k] == (k / arity, k + 1))
    && g.nodes == BuiltNodes(t)
  }

  /** `e` opens layer `depth`: the nodes before it are the children of the previous layer's predecessors. */
  predicate LayerAligned(e: int, depth: nat, arity: nat)
    requires depth >= 1
  {
    e - 1 == arity * (e - Pow(arity, depth - 1))
  }

  /** Adding the i-th node of the layer opened at `e` keeps the tree shape. */
  lemma LayerChild(g: Graph, e: nat, depth: nat, arity: nat, i: nat)
    requires depth >= 1 && arity >= 1 && e >= 1
    requires LayerAligned(e, depth, arity)
    requires TreeSoFar(g, arity, e + i)
    ensures var source := i / arity + e - Pow(arity, depth - 1);
      source >= 0 && TreeSoFar(AddEdge(g, source, e + i), arity, e + i + 1)
  {
    LayerParent(e, depth, arity, i);
    TreeGrow(g, arity, (e + i - 1) / arity, e + i);
  }

  /** The i-th node of the layer opened at `e` hangs off the node the source computes. */
  lemma LayerParent(e: int, depth: nat, arity: nat, i: nat)
    requires depth >= 1 && arity >= 1 && e >= 1
    requires LayerAligned(e, depth, arity)
    ensures i / arity + e - Pow(arity, depth - 1) == (e + i - 1) / arity
  {
    var layerStart := e - Pow(arity, depth - 1);
    assert arity * layerStart + i == e + i - 1;
    DivShift(arity, layerStart, i);
  }

  /** One step of the inner loop: node t joins its parent (t - 1) / arity. */
  lemma TreeGrow(g: Graph, arity: nat, u: nat, t: nat)
    requires arity >= 1 && t >= 1 && u == (t - 1) / arity
    requires TreeSoFar(g, arity, t)
    ensures TreeSoFar(AddEdge(g, u, t), arity, t + 1)
  {
    DivAtMost(t - 1, arity);
    TreeEdgesForward(g.edges, arity);
    AddEdgeToNext(g, u, t);
  }

  /** After a layer, the next one is aligned unless the tree is complete. */
  lemma LayerNext(n: nat, e: int, depth: nat, arity: nat)
    requires depth >= 1 && arity >= 1 && e < n
    requires LayerAligned(e, depth, arity)
    ensures var e' := e + Min(Pow(arity, depth), n - e);
      e' <= n && e' > e && (e' < n ==> LayerAligned(e', depth + 1, arity))
  {
    LayerStep(e, depth, arity);
  }

  /** A full layer keeps `e - 1 == arity * (start of the previous layer)` true for the next one. */
  lemma LayerStep(e: int, depth: nat, arity: nat)
    requires depth >= 1
    requires LayerAligned(e, depth, arity)
    ensures LayerAligned(e + Pow(arity, depth), depth + 1, arity)
  {
    assert Pow(arity, depth) == arity * Pow(arity, depth - 1);
    assert arity * (e - Pow(arity, depth - 1)) == arity * e - arity * Pow(arity, depth - 1);
  }

  /** The targets of the edges leaving node s. */
  function Children(g: Graph, s: nat): set<nat>
  {
    set k | 0 <= k < |g.edges| && g.edges[k].0 == s :: g.edges[k].1
  }

  /** The numbers lo .. lo + len - 1. */
  function Interval(lo: nat, len: nat): set<nat>
  {
    if len == 0 then {} else Interval(lo, len - 1) + {lo + len - 1}
  }

  lemma {:induction false} IntervalCard(lo: nat, len: nat)
    ensures |Interval(lo, len)| == len
    ensures forall t :: t in Interval(lo, len) <==> lo <= t < lo + len
  {
    if len > 0 {
      IntervalCard(lo, len - 1);
      assert lo + len - 1 !in Interval(lo, len - 1);
    }
  }

  lemma {:induction false} SubsetCard(a: set<nat>, b: set<nat>)
    requires a <= b
    ensures |a| <= |b|
  {
    if a != {} {
      var x :| x in a;
      SubsetCard(a - {x}, b - {x});
    }
  }

  /**
   * In a breadth-first numbered tree of the given arity no node has more
   * than `arity` children: the children of s are among s*arity+1 .. s*arity+arity.
   */
  lemma TreeChildrenBound(g: Graph, arity: nat, s: nat)
    requires arity >= 1
    requires forall k | 0 <= k < |g.edges| :: g.edges[k] == (k / arity, k + 1)
    ensures Children(g, s) <= Interval(s * arity + 1, arity)
    ensures |Children(g, s)| <= arity
  {
    var block := Interval(s * arity + 1, arity);
    IntervalCard(s * arity + 1, arity);
    forall t | t in Children(g, s) ensures t in block {
      ChildInBlock(g, arity, s, t);
    }
    SubsetCard(Children(g, s), block);
  }

  /** A child t of s lies in s*arity+1 .. s*arity+arity. */
  lemma ChildInBlock(g: Graph, arity: nat, s: nat, t: nat)
    requires arity >= 1
    requires forall k | 0 <= k < |g.edges| :: g.edges[k] == (k / arity, k + 1)
    requires t in Children(g, s)
    ensures s * arity + 1 <= t < s * arity + 1 + arity
  {
    var k :| 0 <= k < |g.edges| && g.edges[k].0 == s && g.edges[k].1 == t;
    DivBounds(k, arity, s);
  }

  /** Every node 1..n-1 is the target of exactly one edge, and node 0 of none. */
  lemma TreeTargetsOnce(g: Graph, n: nat, arity: nat, t: nat)
    requires arity >= 1
    requires |g.edges| == TreeEdgeCount(n)
    requires forall k | 0 <= k < |g.edges| :: g.edges[k] == (k / arity, k + 1)
    ensures (set k | 0 <= k < |g.edges| && g.edges[k].1 == t) == if 1 <= t < n then {t - 1} else {}
  {
  }
}

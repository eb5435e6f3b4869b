/**
 The network of the simulator: five nodes, undirected links with integer
 capacities keyed by their sorted endpoint pair, and walks along links.
 The graph the simulator builds is the constant Network.
 */
module Topology {

  /** The five nodes 'A'..'E'. */
  datatype Node = A | B | C | D | E

  /** A route as produced by the shortest-path search: a sequence of nodes. */
  type Path = seq<Node>

  /** The nodes in the order the graph reports them. */
  const Nodes: seq<Node> := [A, B, C, D, E]

  /** Position of a node in the ordering of its one-letter name. */
  function Rank(n: Node): nat {
    match n
    case A => 0
    case B => 1
    case C => 2
    case D => 3
    case E => 4
  }

  /** An undirected link, stored as the sorted pair of its endpoints. */
  datatype Link = Link(lo: Node, hi: Node)

  /** The key under which the hop (u, v) is counted: the pair sorted by name. */
  function Key(u: Node, v: Node): (l: Link)
    ensures (l.lo == u && l.hi == v) || (l.lo == v && l.hi == u)
    ensures Rank(l.lo) <= Rank(l.hi)
  {
    if Rank(u) <= Rank(v) then Link(u, v) else Link(v, u)
  }

  /** A graph: its links, each with its per-slot capacity. */
  type Graph = map<Link, nat>

  /** The graph the simulator builds: six links and their capacities. */
  const Network: Graph :=
    map[Link(A, B) := 100, Link(A, C) := 80, Link(B, D) := 70,
        Link(C, D) := 90, Link(C, E) := 100, Link(D, E) := 60]

  /** u and v are joined by a link of net, in either direction. */
  predicate Adjacent(net: Graph, u: Node, v: Node) {
    Key(u, v) in net
  }

  /** Every consecutive pair of the path is joined by a link. */
  predicate IsWalk(net: Graph, p: Path) {
    forall i :: 0 <= i < |p| - 1 ==> Adjacent(net, p[i], p[i + 1])
  }

  /** p is a walk that starts at u and ends at v. */
  predicate IsPathBetween(net: Graph, p: Path, u: Node, v: Node) {
    |p| >= 1 && p[0] == u && p[|p| - 1] == v && IsWalk(net, p)
  }

  /** The link keys of the path's hops, in order. */
  function Hops(p: Path): (ks: seq<Link>)
    ensures |ks| == if |p| < 2 then 0 else |p| - 1
    ensures forall i :: 0 <= i < |ks| ==> ks[i] == Key(p[i], p[i + 1])
  {
    if |p| < 2 then [] else [Key(p[0], p[1])] + Hops(p[1..])
  }

  /** On a walk every hop key is a link of the graph. */
  lemma WalkHopsAreLinks(net: Graph, p: Path)
    requires IsWalk(net, p)
    ensures forall k :: k in Hops(p) ==> k in net
  {
    var ks := Hops(p);
    forall k | k in ks ensures k in net {
      var i :| 0 <= i < |ks| && ks[i] == k;
      assert Adjacent(net, p[i], p[i + 1]);
    }
  }

  /** Rank tells the nodes apart, so sorting a pair is well defined. */
  lemma RankInjective(u: Node, v: Node)
    ensures Rank(u) == Rank(v) <==> u == v
  {
  }

  /** The hop u->v and the hop v->u are counted under the same key. */
  lemma KeyOrderIndependent(u: Node, v: Node)
    ensures Key(u, v) == Key(v, u)
  {
    RankInjective(u, v);
  }

  /** The graph has exactly the five nodes, each listed once. */
  lemma NodesComplete()
    ensures |Nodes| == 5
    ensures forall n: Node :: n in Nodes
    ensures forall i, j :: 0 <= i < j < |Nodes| ==> Nodes[i] != Nodes[j]
  {
    forall n: Node ensures n in Nodes {
      assert Nodes[Rank(n)] == n;
    }
  }

  /** Every link of Network is stored in sorted form, so the sorted hop key
      finds it; it joins two distinct nodes and has a positive capacity. */
  lemma NetworkWellFormed()
    ensures forall l :: l in Network ==> Key(l.lo, l.hi) == l && l.lo != l.hi && Network[l] > 0
  {
    assert Network.Keys == {Link(A, B), Link(A, C), Link(B, D), Link(C, D), Link(C, E), Link(D, E)};
  }
}

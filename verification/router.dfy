/**
 Routing. The simulator asks a graph library for a shortest path from a
 packet's origin to its destination; that search is outside this model and
 enters it as an oracle. ValidRouter is what the engine relies on of it, and
 ShortestRoute is one router that meets it on Network and is provably
 shortest (no claim is made that it breaks ties as the library does).
 */
module Router {
  import opened Topology

  datatype Option<+T> = None | Some(value: T)

  /** A router: a path for an (origin, destination) pair, or None when the
      search finds none. */
  type RouteFn = (Node, Node) -> Option<Path>

  /** The router answers every pair of distinct nodes with a walk of net from
      the origin to the destination. */
  ghost predicate ValidRouter(net: Graph, route: RouteFn) {
    forall u, v :: u != v ==> route(u, v).Some? && IsPathBetween(net, route(u, v).value, u, v)
  }

  /** The first node of cands that is a neighbour of both u and v. */
  function Relay(net: Graph, u: Node, v: Node, cands: seq<Node>): (r: Option<Node>)
    ensures r.Some? ==> r.value in cands && Adjacent(net, u, r.value) && Adjacent(net, r.value, v)
    ensures r.None? ==> forall w :: w in cands ==> !(Adjacent(net, u, w) && Adjacent(net, w, v))
  {
    if cands == [] then None
    else if Adjacent(net, u, cands[0]) && Adjacent(net, cands[0], v) then Some(cands[0])
    else Relay(net, u, v, cands[1..])
  }

  /** Breadth-first search cut at depth two: the node itself, a direct link,
      or one relay node. What it returns is a walk from u to v no longer than
      any other; it returns None exactly when every walk from u to v has more
      than two hops. */
  function ShortestRoute(net: Graph, u: Node, v: Node): (r: Option<Path>)
    ensures r.Some? ==> IsPathBetween(net, r.value, u, v)
    ensures r.Some? ==> forall q :: IsPathBetween(net, q, u, v) ==> |r.value| <= |q|
    ensures r.None? ==> forall q :: IsPathBetween(net, q, u, v) ==> |q| > 3
  {
    if u == v then Some([u])
    else if Adjacent(net, u, v) then Some([u, v])
    else
      match Relay(net, u, v, Nodes)
      case Some(w) => Some([u, w, v])
      case None =>
        ShortWalks(net, u, v);
        None
  }

  /** What a walk of at most two hops from u to v consists of. */
  lemma ShortWalks(net: Graph, u: Node, v: Node)
    ensures forall q :: IsPathBetween(net, q, u, v) && |q| <= 3 ==>
              || (|q| == 1 && u == v)
              || (|q| == 2 && Adjacent(net, u, v))
              || (|q| == 3 && q[1] in Nodes && Adjacent(net, u, q[1]) && Adjacent(net, q[1], v))
  {
    forall q | IsPathBetween(net, q, u, v) && |q| == 3
      ensures q[1] in Nodes && Adjacent(net, u, q[1]) && Adjacent(net, q[1], v)
    {
      Topology.NodesComplete();
      assert Adjacent(net, q[0], q[1]) && Adjacent(net, q[1], q[2]);
    }
  }

  /** In Network every two nodes are at most two links apart. */
  lemma DiameterTwo(u: Node, v: Node)
    ensures u == v || Adjacent(Network, u, v)
         || exists w :: Adjacent(Network, u, w) && Adjacent(Network, w, v)
  {
    match (u, v)
    case (A, D) => assert Adjacent(Network, u, B) && Adjacent(Network, B, v);
    case (D, A) => assert Adjacent(Network, u, B) && Adjacent(Network, B, v);
    case (A, E) => assert Adjacent(Network, u, C) && Adjacent(Network, C, v);
    case (E, A) => assert Adjacent(Network, u, C) && Adjacent(Network, C, v);
    case (B, C) => assert Adjacent(Network, u, A) && Adjacent(Network, A, v);
    case (C, B) => assert Adjacent(Network, u, A) && Adjacent(Network, A, v);
    case (B, E) => assert Adjacent(Network, u, D) && Adjacent(Network, D, v);
    case (E, B) => assert Adjacent(Network, u, D) && Adjacent(Network, D, v);
    case _ =>
  }

  /** Network is connected: the reference router always finds a path, so it
      meets the engine's router contract. */
  lemma ShortestRouteIsValid()
    ensures forall u, v :: ShortestRoute(Network, u, v).Some?
    ensures ValidRouter(Network, (u, v) => ShortestRoute(Network, u, v))
  {
    forall u, v ensures ShortestRoute(Network, u, v).Some? {
      DiameterTwo(u, v);
      Topology.NodesComplete();
    }
  }

  /** A packet from A to E takes two hops, through C. */
  lemma RouteAToE()
    ensures ShortestRoute(Network, A, E) == Some([A, C, E])
  {
  }
}

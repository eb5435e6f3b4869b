/**
 Load and queue accounting. A Ledger holds the per-slot load of every link
 and the per-node queue of blocked paths; Transmit walks one path hop by hop,
 counting a crossing on each link with spare capacity and, at the first
 saturated link, appending the whole path to the queue of that hop's source
 node and stopping.
 */
module Accountant {
  import opened Topology
  import opened Results

  datatype Ledger = Ledger(loads: map<Link, nat>, queues: map<Node, seq<Path>>)

  /** A load counter for exactly the topology's links and a queue for every node. */
  predicate LedgerShape(net: Graph, g: Ledger) {
    && g.loads.Keys == net.Keys
    && forall n: Node :: n in g.queues
  }

  /** No link carries more than its capacity. */
  predicate WithinCapacity(net: Graph, g: Ledger) {
    forall l :: l in g.loads ==> l in net && g.loads[l] <= net[l]
  }

  /** Every link at load zero: the loads at the start of each slot. */
  function Idle(net: Graph): (loads: map<Link, nat>)
    ensures loads.Keys == net.Keys
    ensures forall l :: l in loads ==> loads[l] == 0
  {
    map l | l in net :: 0
  }

  /** Every queue of g is a prefix of the same node's queue in g': queues
      are only appended to. */
  predicate QueuesGrow(g: Ledger, g': Ledger) {
    forall n :: n in g.queues ==> n in g'.queues && g.queues[n] <= g'.queues[n]
  }

  /** The number of queued paths over all nodes. */
  function Backlog(g: Ledger): nat
    requires forall n: Node :: n in g.queues
  {
    |g.queues[A]| + |g.queues[B]| + |g.queues[C]| + |g.queues[D]| + |g.queues[E]|
  }

  /** g' differs from g in its queues, if at all, by one more entry, path,
      at the end of a single node's queue. */
  predicate QueuesAtMostOneMore(g: Ledger, g': Ledger, path: Path) {
    || g'.queues == g.queues
    || exists n :: n in g.queues && g'.queues == g.queues[n := g.queues[n] + [path]]
  }

  /** Sends one packet along path, starting at hop 0. */
  function Transmit(net: Graph, g: Ledger, path: Path): (r: Result<Ledger>)
    requires LedgerShape(net, g)
    ensures |path| < 2 ==> r == Success(g)
    ensures IsWalk(net, path) ==> r.Success?
    ensures r.Failure? ==> r.fault.UnknownLink? && r.fault.link !in net
    ensures r.Success? ==> LedgerShape(net, r.value) && QueuesGrow(g, r.value)
    ensures r.Success? && WithinCapacity(net, g) ==> WithinCapacity(net, r.value)
  {
    var r := Forward(net, g, path, 0);
    if r.Success? then
      ForwardQueuesAtMostOneMore(net, g, path, 0);
      r
    else r
  }

  /** The loop of Transmit from hop i onward. */
  function Forward(net: Graph, g: Ledger, path: Path, i: nat): (r: Result<Ledger>)
    requires LedgerShape(net, g)
    ensures i + 1 >= |path| ==> r == Success(g)
    ensures (forall j :: i <= j < |path| - 1 ==> Adjacent(net, path[j], path[j + 1])) ==> r.Success?
    ensures r.Failure? ==> r.fault.UnknownLink? && r.fault.link !in net
    ensures r.Success? ==> LedgerShape(net, r.value)
    ensures r.Success? && WithinCapacity(net, g) ==> WithinCapacity(net, r.value)
    decreases |path| - i
  {
    if i + 1 >= |path| then Success(g)
    else
      var l := Key(path[i], path[i + 1]);
      if l !in net then Failure(UnknownLink(l))
      else if g.loads[l] < net[l] then
        Forward(net, g.(loads := g.loads[l := g.loads[l] + 1]), path, i + 1)
      else
        Success(g.(queues := g.queues[path[i] := g.queues[path[i]] + [path]]))
  }

  /** The loads after every link of ks has been crossed once per occurrence. */
  function Crossed(loads: map<Link, nat>, ks: seq<Link>): (m: map<Link, nat>)
    ensures m.Keys == loads.Keys
  {
    map l | l in loads :: loads[l] + multiset(ks)[l]
  }

  /** Hop j of the hop keys ks meets a full link: the load it starts from in g
      plus the crossings the hops before it added reaches the capacity. */
  predicate Saturated(net: Graph, g: Ledger, ks: seq<Link>, j: nat) {
    && j < |ks|
    && ks[j] in net && ks[j] in g.loads
    && g.loads[ks[j]] + multiset(ks[..j])[ks[j]] >= net[ks[j]]
  }

  /** Hop j is the first saturated hop. */
  predicate FirstSaturated(net: Graph, g: Ledger, ks: seq<Link>, j: nat) {
    Saturated(net, g, ks, j) && forall i :: 0 <= i < j ==> !Saturated(net, g, ks, i)
  }

  /** The queues of g with path appended to node n's queue. */
  function Enqueue(g: Ledger, n: Node, path: Path): Ledger
    requires n in g.queues
  {
    g.(queues := g.queues[n := g.queues[n] + [path]])
  }

  lemma CrossedEmpty(loads: map<Link, nat>)
    ensures Crossed(loads, []) == loads
  {
  }

  lemma CrossedSnoc(loads: map<Link, nat>, ks: seq<Link>, i: nat)
    requires i < |ks| && ks[i] in loads
    ensures Crossed(loads, ks[..i + 1]) == Crossed(loads, ks[..i])[ks[i] := Crossed(loads, ks[..i])[ks[i]] + 1]
  {
    assert ks[..i + 1] == ks[..i] + [ks[i]];
  }

  /** Crossing a and then b is crossing a + b. */
  lemma CrossedConcat(loads: map<Link, nat>, a: seq<Link>, b: seq<Link>)
    ensures Crossed(Crossed(loads, a), b) == Crossed(loads, a + b)
  {
    assert multiset(a + b) == multiset(a) + multiset(b);
  }

  /** A hop occurs once more in the whole hop list than before its own position. */
  lemma OccursBefore(ks: seq<Link>, j: nat)
    requires j < |ks|
    ensures multiset(ks[..j])[ks[j]] + 1 <= multiset(ks)[ks[j]]
  {
    assert ks == ks[..j] + [ks[j]] + ks[j + 1..];
    assert multiset(ks) == multiset(ks[..j]) + multiset([ks[j]]) + multiset(ks[j + 1..]);
  }

  /** r is the effect Transmit must have on g from hop i onward: if no hop
      from i on is saturated, all hops are crossed; if hop j >= i is the first
      saturated one, the hops before it are crossed and path is queued at path[j]. */
  ghost predicate EffectFrom(net: Graph, g: Ledger, path: Path, i: nat, r: Result<Ledger>)
    requires LedgerShape(net, g)
  {
    var ks := Hops(path);
    && r.Success?
    && ((forall j :: i <= j < |ks| ==> !Saturated(net, g, ks, j)) ==>
          r.value == g.(loads := Crossed(g.loads, ks)))
    && (forall j :: i <= j && FirstSaturated(net, g, ks, j) ==>
          r.value == Enqueue(g.(loads := Crossed(g.loads, ks[..j])), path[j], path))
  }

  lemma EffectFromUnsaturatedHop(net: Graph, g: Ledger, path: Path, i: nat, r: Result<Ledger>)
    requires LedgerShape(net, g)
    requires !Saturated(net, g, Hops(path), i)
    requires EffectFrom(net, g, path, i + 1, r)
    ensures EffectFrom(net, g, path, i, r)
  {
  }

  lemma EffectFromSaturatedHop(net: Graph, g: Ledger, path: Path, i: nat)
    requires LedgerShape(net, g) && i + 1 < |path|
    requires FirstSaturated(net, g, Hops(path), i)
    ensures EffectFrom(net, g, path, i, Success(Enqueue(g.(loads := Crossed(g.loads, Hops(path)[..i])), path[i], path)))
  {
    var ks := Hops(path);
    assert !(forall j :: i <= j < |ks| ==> !Saturated(net, g, ks, j));
    assert forall j :: i <= j && FirstSaturated(net, g, ks, j) ==> j == i;
  }

  lemma EffectFromEnd(net: Graph, g: Ledger, path: Path, i: nat)
    requires LedgerShape(net, g) && i == |Hops(path)|
    ensures EffectFrom(net, g, path, i, Success(g.(loads := Crossed(g.loads, Hops(path)[..i]))))
  {
    assert Hops(path)[..i] == Hops(path);
  }

  /** One crossing of an unsaturated hop i moves the loop on to hop i + 1
      with the crossings of the first i + 1 hops. */
  lemma ForwardCrosses(net: Graph, g: Ledger, path: Path, i: nat)
    requires LedgerShape(net, g) && IsWalk(net, path) && i + 1 < |path|
    requires !Saturated(net, g, Hops(path), i)
    ensures Forward(net, g.(loads := Crossed(g.loads, Hops(path)[..i])), path, i)
         == Forward(net, g.(loads := Crossed(g.loads, Hops(path)[..i + 1])), path, i + 1)
  {
    var ks := Hops(path);
    var g0 := g.(loads := Crossed(g.loads, ks[..i]));
    assert Adjacent(net, path[i], path[i + 1]);
    CrossedSnoc(g.loads, ks, i);
    assert Room(net, g0, ks[i]);
    ForwardCrossesOne(net, g0, path, i);
  }

  /** At the first saturated hop i the loop queues the path and stops. */
  lemma ForwardBlocks(net: Graph, g: Ledger, path: Path, i: nat)
    requires LedgerShape(net, g) && IsWalk(net, path) && i + 1 < |path|
    requires Saturated(net, g, Hops(path), i)
    ensures var g' := g.(loads := Crossed(g.loads, Hops(path)[..i]));
            Forward(net, g', path, i) == Success(Enqueue(g', path[i], path))
  {
    assert Adjacent(net, path[i], path[i + 1]);
  }

  /** The loop of Transmit from hop i onward, started on the loads that the
      first i hops produced, has the effect the whole of Transmit must have. */
  lemma {:induction false} ForwardEffect(net: Graph, g: Ledger, path: Path, i: nat)
    requires LedgerShape(net, g) && IsWalk(net, path)
    requires i <= |Hops(path)|
    requires forall j :: 0 <= j < i ==> !Saturated(net, g, Hops(path), j)
    ensures EffectFrom(net, g, path, i, Forward(net, g.(loads := Crossed(g.loads, Hops(path)[..i])), path, i))
    decreases |path| - i
  {
    if i + 1 >= |path| {
      EffectFromEnd(net, g, path, i);
    } else if !Saturated(net, g, Hops(path), i) {
      ForwardCrosses(net, g, path, i);
      assert forall j :: 0 <= j < i + 1 ==> !Saturated(net, g, Hops(path), j) by {
        forall j | 0 <= j < i + 1 ensures !Saturated(net, g, Hops(path), j) {
          if j < i {
          }
        }
      }
      ForwardEffect(net, g, path, i + 1);
      EffectFromUnsaturatedHop(net, g, path, i, Forward(net, g.(loads := Crossed(g.loads, Hops(path)[..i + 1])), path, i + 1));
    } else {
      ForwardBlocks(net, g, path, i);
      EffectFromSaturatedHop(net, g, path, i);
    }
  }

  /** The exact effect of sending a packet along a walk with k hops. Either no
      hop is saturated, and every hop's link gains one crossing (once per
      occurrence) while the queues stay as they are; or hop j is the first
      saturated one, and exactly the links of hops 0..j-1 gain their
      crossings, the link of hop j and those after it are untouched, and the
      path is appended to the queue of path[j] alone. */
  lemma TransmitEffect(net: Graph, g: Ledger, path: Path)
    requires LedgerShape(net, g) && IsWalk(net, path)
    ensures var ks := Hops(path);
            var r := Transmit(net, g, path);
            && r.Success?
            && ((forall j :: 0 <= j < |ks| ==> !Saturated(net, g, ks, j)) ==>
                  r.value == g.(loads := Crossed(g.loads, ks)))
            && (forall j :: 0 <= j && FirstSaturated(net, g, ks, j) ==>
                  r.value == Enqueue(g.(loads := Crossed(g.loads, ks[..j])), path[j], path))
  {
    var ks := Hops(path);
    assert ks[..0] == [];
    CrossedEmpty(g.loads);
    assert g.(loads := Crossed(g.loads, ks[..0])) == g;
    ForwardEffect(net, g, path, 0);
    assert EffectFrom(net, g, path, 0, Transmit(net, g, path));
  }

  /** The link l has spare capacity in g. */
  predicate Room(net: Graph, g: Ledger, l: Link) {
    l in g.loads && l in net && g.loads[l] < net[l]
  }

  /** No link occurs twice among the path's hops, as on every shortest path. */
  predicate DistinctHops(path: Path) {
    var ks := Hops(path);
    forall i, j :: 0 <= i < j < |ks| ==> ks[i] != ks[j]
  }

  lemma {:induction false} DistinctCount(s: seq<Link>, x: Link)
    requires forall i, j :: 0 <= i < j < |s| ==> s[i] != s[j]
    ensures multiset(s)[x] == if x in s then 1 else 0
  {
    if s != [] {
      assert s == [s[0]] + s[1..];
      DistinctCount(s[1..], x);
    }
  }

  /** Crossing links that are all distinct adds one to each of them. */
  lemma CrossedDistinct(loads: map<Link, nat>, ks: seq<Link>)
    requires forall i, j :: 0 <= i < j < |ks| ==> ks[i] != ks[j]
    ensures forall l :: l in loads ==> Crossed(loads, ks)[l] == loads[l] + (if l in ks then 1 else 0)
  {
    forall l | l in loads ensures Crossed(loads, ks)[l] == loads[l] + (if l in ks then 1 else 0) {
      DistinctCount(ks, l);
    }
  }

  /** On a path that crosses no link twice, a hop is saturated exactly when
      its link is already full in g. */
  lemma SaturatedIsFull(net: Graph, g: Ledger, path: Path)
    requires LedgerShape(net, g) && IsWalk(net, path) && DistinctHops(path)
    ensures forall j :: 0 <= j < |Hops(path)| ==> (Saturated(net, g, Hops(path), j) <==> !Room(net, g, Hops(path)[j]))
  {
    var ks := Hops(path);
    WalkHopsAreLinks(net, path);
    forall j | 0 <= j < |ks|
      ensures Saturated(net, g, ks, j) <==> !Room(net, g, ks[j])
    {
      assert ks[j] in ks;
      DistinctCount(ks[..j], ks[j]);
    }
  }

  /** A path that crosses no link twice, each link below capacity: every
      link of the path gains exactly one and the queues are unchanged. */
  lemma SimplePathDelivered(net: Graph, g: Ledger, path: Path)
    requires LedgerShape(net, g) && IsWalk(net, path) && DistinctHops(path)
    requires forall j :: 0 <= j < |Hops(path)| ==> Room(net, g, Hops(path)[j])
    ensures Transmit(net, g, path).Success?
    ensures Transmit(net, g, path).value.queues == g.queues
    ensures forall l :: l in g.loads ==>
              Transmit(net, g, path).value.loads[l] == g.loads[l] + (if l in Hops(path) then 1 else 0)
  {
    var ks := Hops(path);
    TransmitEffect(net, g, path);
    SaturatedIsFull(net, g, path);
    assert forall j :: 0 <= j < |ks| ==> !Saturated(net, g, ks, j);
    CrossedDistinct(g.loads, ks);
  }

  /** A path that crosses no link twice whose hop j is the first with a full
      link: exactly the links of hops 0..j-1 gain one, and the whole path is
      appended to the queue of path[j] and no other. */
  lemma SimplePathBlocked(net: Graph, g: Ledger, path: Path, j: nat)
    requires LedgerShape(net, g) && IsWalk(net, path) && DistinctHops(path)
    requires j < |Hops(path)| && !Room(net, g, Hops(path)[j])
    requires forall i :: 0 <= i < j ==> Room(net, g, Hops(path)[i])
    ensures Transmit(net, g, path).Success?
    ensures Transmit(net, g, path).value.queues == g.queues[path[j] := g.queues[path[j]] + [path]]
    ensures forall l :: l in g.loads ==>
              Transmit(net, g, path).value.loads[l] == g.loads[l] + (if l in Hops(path)[..j] then 1 else 0)
  {
    var ks := Hops(path);
    TransmitEffect(net, g, path);
    SaturatedIsFull(net, g, path);
    assert FirstSaturated(net, g, ks, j);
    CrossedDistinct(g.loads, ks[..j]);
  }

  /** Loads never depend on the queues: two ledgers with the same loads
      succeed or fail alike on the same path and end with the same loads. */
  lemma {:induction false} ForwardIgnoresQueues(net: Graph, g1: Ledger, g2: Ledger, path: Path, i: nat)
    requires LedgerShape(net, g1) && LedgerShape(net, g2) && g1.loads == g2.loads
    ensures SameLoads(Forward(net, g1, path, i), Forward(net, g2, path, i))
    decreases |path| - i
  {
    if i + 1 < |path| && Room(net, g1, Key(path[i], path[i + 1])) {
      var l := Key(path[i], path[i + 1]);
      CrossingKeepsShape(net, g1, l);
      CrossingKeepsShape(net, g2, l);
      ForwardIgnoresQueues(net, g1.(loads := g1.loads[l := g1.loads[l] + 1]), g2.(loads := g2.loads[l := g2.loads[l] + 1]), path, i + 1);
      ForwardCrossesAlike(net, g1, g2, path, i);
    } else {
      ForwardStopsAlike(net, g1, g2, path, i);
    }
  }

  /** A hop with spare capacity is crossed and the loop moves on. */
  lemma ForwardCrossesOne(net: Graph, g: Ledger, path: Path, i: nat)
    requires LedgerShape(net, g) && i + 1 < |path| && Room(net, g, Key(path[i], path[i + 1]))
    ensures var l := Key(path[i], path[i + 1]);
            Forward(net, g, path, i) == Forward(net, g.(loads := g.loads[l := g.loads[l] + 1]), path, i + 1)
  {
  }

  /** One more crossing of a link keeps the ledger's shape. */
  lemma CrossingKeepsShape(net: Graph, g: Ledger, l: Link)
    requires LedgerShape(net, g) && l in net
    ensures LedgerShape(net, g.(loads := g.loads[l := g.loads[l] + 1]))
  {
    assert g.loads[l := g.loads[l] + 1].Keys == g.loads.Keys;
  }

  /** Crossing hop i on equal loads leads to equal loads, so the loop
      continues alike if it continued alike from hop i + 1. */
  lemma ForwardCrossesAlike(net: Graph, g1: Ledger, g2: Ledger, path: Path, i: nat)
    requires LedgerShape(net, g1) && LedgerShape(net, g2) && g1.loads == g2.loads
    requires i + 1 < |path| && Room(net, g1, Key(path[i], path[i + 1]))
    requires var l := Key(path[i], path[i + 1]);
             SameLoads(Forward(net, g1.(loads := g1.loads[l := g1.loads[l] + 1]), path, i + 1),
                       Forward(net, g2.(loads := g2.loads[l := g2.loads[l] + 1]), path, i + 1))
    ensures SameLoads(Forward(net, g1, path, i), Forward(net, g2, path, i))
  {
    ForwardCrossesOne(net, g1, path, i);
    ForwardCrossesOne(net, g2, path, i);
  }

  /** Where the hop loop stops at hop i, it stops alike on equal loads. */
  lemma ForwardStopsAlike(net: Graph, g1: Ledger, g2: Ledger, path: Path, i: nat)
    requires LedgerShape(net, g1) && LedgerShape(net, g2) && g1.loads == g2.loads
    requires i + 1 < |path| ==> !Room(net, g1, Key(path[i], path[i + 1]))
    ensures SameLoads(Forward(net, g1, path, i), Forward(net, g2, path, i))
  {
  }

  /** Both results succeed or fail alike, and successes carry the same loads. */
  predicate SameLoads(r1: Result<Ledger>, r2: Result<Ledger>) {
    r1.Success? == r2.Success? && (r1.Success? ==> r1.value.loads == r2.value.loads)
  }

  lemma TransmitIgnoresQueues(net: Graph, g1: Ledger, g2: Ledger, path: Path)
    requires LedgerShape(net, g1) && LedgerShape(net, g2) && g1.loads == g2.loads
    ensures Transmit(net, g1, path).Success? == Transmit(net, g2, path).Success?
    ensures Transmit(net, g1, path).Success? ==> Transmit(net, g1, path).value.loads == Transmit(net, g2, path).value.loads
  {
    ForwardIgnoresQueues(net, g1, g2, path, 0);
    assert SameLoads(Transmit(net, g1, path), Transmit(net, g2, path));
  }

  /** A one-hop packet over a link: below capacity it adds one to that link's
      load and queues nothing; at capacity it leaves the load alone and adds
      exactly one entry, to the sending node's queue. Sending it the other way
      round counts on the same link. */
  lemma SingleHop(net: Graph, g: Ledger, u: Node, v: Node)
    requires LedgerShape(net, g) && Adjacent(net, u, v)
    ensures var l := Key(u, v);
            var r := Transmit(net, g, [u, v]);
            && r.Success?
            && (g.loads[l] < net[l] ==> r.value == g.(loads := g.loads[l := g.loads[l] + 1]))
            && (g.loads[l] >= net[l] ==> r.value == g.(queues := g.queues[u := g.queues[u] + [[u, v]]]))
    ensures Transmit(net, g, [v, u]).Success? && Transmit(net, g, [v, u]).value.loads == Transmit(net, g, [u, v]).value.loads
  {
    KeyOrderIndependent(u, v);
  }

  /** Transmit adds at most one queue entry, the path itself, to a single
      node, whether or not the path is a walk. */
  lemma {:induction false} ForwardQueuesAtMostOneMore(net: Graph, g: Ledger, path: Path, i: nat)
    requires LedgerShape(net, g) && Forward(net, g, path, i).Success?
    ensures QueuesAtMostOneMore(g, Forward(net, g, path, i).value, path)
    decreases |path| - i
  {
    if i + 1 < |path| {
      var l := Key(path[i], path[i + 1]);
      if g.loads[l] < net[l] {
        var h := g.(loads := g.loads[l := g.loads[l] + 1]);
        assert Forward(net, g, path, i) == Forward(net, h, path, i + 1);
        ForwardQueuesAtMostOneMore(net, h, path, i + 1);
      }
    }
  }

  /** One more entry at one node raises the backlog by at most one. */
  lemma BacklogAtMostOneMore(g: Ledger, g': Ledger, path: Path)
    requires forall n: Node :: n in g.queues
    requires QueuesAtMostOneMore(g, g', path)
    ensures forall n: Node :: n in g'.queues
    ensures Backlog(g) <= Backlog(g') <= Backlog(g) + 1
  {
  }

  /** A successful Transmit leaves the backlog unchanged or one larger. */
  lemma TransmitBacklog(net: Graph, g: Ledger, path: Path)
    requires LedgerShape(net, g) && Transmit(net, g, path).Success?
    ensures QueuesAtMostOneMore(g, Transmit(net, g, path).value, path)
    ensures Backlog(g) <= Backlog(Transmit(net, g, path).value) <= Backlog(g) + 1
  {
    ForwardQueuesAtMostOneMore(net, g, path, 0);
    BacklogAtMostOneMore(g, Transmit(net, g, path).value, path);
  }
}

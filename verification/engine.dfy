/**
 The simulation engine: the simulator's state, its intended initial value,
 packet generation for one slot, the step that processes a slot, and the
 read-only views of loads and queues.

 The graph library's shortest-path search enters as a router oracle and the
 ambient random generator as a stream of draws, both passed to Step.
 */
module Engine {
  import opened Topology
  import opened Results
  import opened Schedule
  import opened Router
  import opened Accountant

  /** The simulator object: its graph, its slot table (labels in order with
      their rates), the slot cursor, and the loads and queues. */
  datatype Simulator = Simulator(net: Graph, slots: seq<Slot>, cursor: nat, ledger: Ledger)

  /** The shape every simulator keeps: a non-empty schedule, a cursor inside
      it, a load counter per link and a queue per node. */
  predicate WellFormed(s: Simulator) {
    && 0 < |s.slots|
    && s.cursor < |s.slots|
    && LedgerShape(s.net, s.ledger)
  }

  /** WellFormed, and no link above its capacity. */
  predicate Valid(s: Simulator) {
    WellFormed(s) && WithinCapacity(s.net, s.ledger)
  }

  /** The state the constructor sets up. (The constructor is spelled with
      single underscores in the source, so Python never calls it; this is the
      state it was evidently meant to create.) */
  function Init(): (s: Simulator)
    ensures Valid(s)
    ensures s.net == Network && s.slots == Slots && s.cursor == 0
    ensures forall l :: l in s.ledger.loads ==> s.ledger.loads[l] == 0
    ensures forall n: Node :: s.ledger.queues[n] == []
  {
    Simulator(Network, Slots, 0,
              Ledger(Idle(Network), EmptyQueues()))
  }

  /** An empty queue for every node. */
  function EmptyQueues(): (q: map<Node, seq<Path>>)
    ensures forall n: Node :: n in q && q[n] == []
  {
    Topology.NodesComplete();
    map n | n in Nodes :: []
  }

  /** One generated packet. */
  datatype Packet = Packet(origin: Node, dest: Node)

  /** The candidate destinations of a packet from n: every other node, in
      graph order. */
  function Others(n: Node): (c: seq<Node>)
    ensures |c| == 4
    ensures n !in c
    ensures forall m :: m != n ==> m in c
  {
    Topology.NodesComplete();
    Without(Nodes, n)
  }

  function Without(ns: seq<Node>, n: Node): (c: seq<Node>)
    ensures forall m :: m in c <==> m in ns && m != n
    ensures |c| == |ns| - multiset(ns)[n]
  {
    if ns == [] then []
    else
      assert ns == [ns[0]] + ns[1..];
      (if ns[0] == n then [] else [ns[0]]) + Without(ns[1..], n)
  }

  /** The candidate that the draw selects. */
  function Choose(cands: seq<Node>, draw: nat): (d: Node)
    requires |cands| > 0
    ensures d in cands
  {
    cands[draw % |cands|]
  }

  /** The count packets node n originates, the i-th with destination chosen
      by draw(k + i). */
  function Emit(n: Node, count: nat, draw: nat -> nat, k: nat): (ps: seq<Packet>)
    ensures |ps| == count
    ensures forall i :: 0 <= i < |ps| ==> ps[i].origin == n && ps[i].dest != n
    ensures forall m :: Originated(ps, m) == if m == n then count else 0
    decreases count
  {
    if count == 0 then []
    else
      var rest := Emit(n, count - 1, draw, k + 1);
      var d := Choose(Others(n), draw(k));
      assert d != n;
      var p := Packet(n, d);
      OriginatedCons(p, rest);
      PrependKeepsEndpoints(p, rest, n);
      [p] + rest
  }

  /** The number of packets that originate at n. */
  function Originated(ps: seq<Packet>, n: Node): nat {
    if ps == [] then 0 else (if ps[0].origin == n then 1 else 0) + Originated(ps[1..], n)
  }

  /** Prepending a packet from n to others from n, none addressed to n. */
  lemma PrependKeepsEndpoints(p: Packet, ps: seq<Packet>, n: Node)
    requires p.origin == n && p.dest != n
    requires forall i :: 0 <= i < |ps| ==> ps[i].origin == n && ps[i].dest != n
    ensures forall i :: 0 <= i < |[p] + ps| ==> ([p] + ps)[i].origin == n && ([p] + ps)[i].dest != n
  {
  }

  /** Prepending a packet adds one to its origin's count and nothing else. */
  lemma OriginatedCons(p: Packet, ps: seq<Packet>)
    ensures forall m :: Originated([p] + ps, m) == (if p.origin == m then 1 else 0) + Originated(ps, m)
  {
    assert ([p] + ps)[1..] == ps;
  }

  lemma {:induction false} OriginatedAppend(a: seq<Packet>, b: seq<Packet>, n: Node)
    ensures Originated(a + b, n) == Originated(a, n) + Originated(b, n)
  {
    if a == [] {
      assert a + b == b;
    } else {
      assert (a + b)[1..] == a[1..] + b;
      OriginatedAppend(a[1..], b, n);
    }
  }

  /** All packets of a slot, node by node in the order of the rate table,
      draws numbered from k on. */
  function Generate(rates: seq<(Node, nat)>, draw: nat -> nat, k: nat): (ps: seq<Packet>)
    ensures |ps| == TotalRate(rates)
    ensures forall i :: 0 <= i < |ps| ==> ps[i].origin != ps[i].dest
    ensures forall n :: Originated(ps, n) == RateOf(rates, n)
  {
    if rates == [] then []
    else
      var first := Emit(rates[0].0, rates[0].1, draw, k);
      var rest := Generate(rates[1..], draw, k + rates[0].1);
      ConcatPackets(first, rest);
      first + rest
  }

  /** Concatenating two packet lists adds their counts per origin and keeps
      every packet's endpoints distinct. */
  lemma ConcatPackets(a: seq<Packet>, b: seq<Packet>)
    ensures forall n :: Originated(a + b, n) == Originated(a, n) + Originated(b, n)
    ensures (forall i :: 0 <= i < |a| ==> a[i].origin != a[i].dest)
         && (forall i :: 0 <= i < |b| ==> b[i].origin != b[i].dest)
        ==> forall i :: 0 <= i < |a + b| ==> (a + b)[i].origin != (a + b)[i].dest
  {
    forall n ensures Originated(a + b, n) == Originated(a, n) + Originated(b, n) {
      OriginatedAppend(a, b, n);
    }
  }

  /** Routes and transmits the packets in order. A missing route or an
      unknown link ends the whole step. */
  function Deliver(net: Graph, g: Ledger, route: RouteFn, ps: seq<Packet>): (r: Result<Ledger>)
    requires LedgerShape(net, g)
    ensures r.Success? ==> LedgerShape(net, r.value) && QueuesGrow(g, r.value)
    ensures r.Success? && WithinCapacity(net, g) ==> WithinCapacity(net, r.value)
    ensures r.Failure? && r.fault.NoRoute? ==> route(r.fault.origin, r.fault.dest).None?
    ensures r.Failure? && r.fault.UnknownLink? ==> r.fault.link !in net
    ensures ValidRouter(net, route) && (forall i :: 0 <= i < |ps| ==> ps[i].origin != ps[i].dest)
            ==> r.Success?
    decreases |ps|
  {
    if ps == [] then Success(g)
    else
      match route(ps[0].origin, ps[0].dest)
      case None => Failure(NoRoute(ps[0].origin, ps[0].dest))
      case Some(p) =>
        match Transmit(net, g, p)
        case Failure(f) => Failure(f)
        case Success(g') => Deliver(net, g', route, ps[1..])
  }

  /** Processes the slot under the cursor: all loads back to zero, every
      packet of the slot generated, routed and transmitted, the cursor moved
      on; the result carries the label of the slot processed. */
  function Step(s: Simulator, route: RouteFn, draw: nat -> nat): (r: Result<(Simulator, string)>)
    requires WellFormed(s)
    ensures r.Success? ==>
              var (s', time) := r.value;
              && time == s.slots[s.cursor].time
              && s'.cursor == Advance(|s.slots|, s.cursor)
              && s'.net == s.net && s'.slots == s.slots
              && Valid(s')
              && QueuesGrow(s.ledger, s'.ledger)
    ensures ValidRouter(s.net, route) ==> r.Success?
  {
    var slot := s.slots[s.cursor];
    var ps := Generate(slot.rates, draw, 0);
    match Deliver(s.net, s.ledger.(loads := Idle(s.net)), route, ps)
    case Failure(f) => Failure(f)
    case Success(g) => Success((s.(ledger := g, cursor := Advance(|s.slots|, s.cursor)), slot.time))
  }

  /** The per-link loads of the slot just processed, every link included. */
  function LinkLoads(s: Simulator): (m: map<Link, nat>)
    requires WellFormed(s)
    ensures m.Keys == s.net.Keys
    ensures forall l :: l in m ==> m[l] == s.ledger.loads[l]
    ensures Valid(s) ==> forall l :: l in m ==> m[l] <= s.net[l]
  {
    s.ledger.loads
  }

  /** The number of queued paths at every node. */
  function QueueLengths(s: Simulator): (m: map<Node, nat>)
    requires WellFormed(s)
    ensures forall n: Node :: n in m && m[n] == |s.ledger.queues[n]|
  {
    map n | n in s.ledger.queues :: |s.ledger.queues[n]|
  }

  /** Runs one Step per element of draws, each step with its own draws. */
  function Simulate(s: Simulator, route: RouteFn, draws: seq<nat -> nat>): (r: Result<(Simulator, seq<string>)>)
    requires WellFormed(s)
    ensures r.Success? ==> |r.value.1| == |draws| && Ran(s, r.value.0, r.value.1)
    ensures ValidRouter(s.net, route) ==> r.Success?
    decreases |draws|
  {
    if draws == [] then Success((s, []))
    else
      match Step(s, route, draws[0])
      case Failure(f) => Failure(f)
      case Success((s1, t)) =>
        match Simulate(s1, route, draws[1..])
        case Failure(f) => Failure(f)
        case Success((s2, ts)) =>
          RunsCompose(s, s1, t, s2, ts);
          Success((s2, [t] + ts))
  }

  /** s' and times are what |times| steps from s leave behind and report. */
  ghost predicate Ran(s: Simulator, s': Simulator, times: seq<string>)
    requires WellFormed(s)
  {
    && s'.cursor == AdvanceBy(|s.slots|, s.cursor, |times|)
    && s'.net == s.net && s'.slots == s.slots
    && WellFormed(s')
    && (forall i :: 0 <= i < |times| ==> times[i] == s.slots[AdvanceBy(|s.slots|, s.cursor, i)].time)
    && QueuesGrow(s.ledger, s'.ledger)
  }

  /** One step followed by a run is a run. */
  lemma RunsCompose(s: Simulator, s1: Simulator, t: string, s2: Simulator, ts: seq<string>)
    requires WellFormed(s) && WellFormed(s1)
    requires Ran(s, s1, [t])
    requires Ran(s1, s2, ts)
    ensures Ran(s, s2, [t] + ts)
  {
    var size := |s.slots|;
    forall i | 0 <= i <= |ts|
      ensures AdvanceBy(size, s1.cursor, i) == AdvanceBy(size, s.cursor, i + 1)
    {
      AdvanceByCompose(size, s.cursor, 1, i);
    }
    QueuesGrowTransitive(s.ledger, s1.ledger, s2.ledger);
  }

  lemma QueuesGrowTransitive(g1: Ledger, g2: Ledger, g3: Ledger)
    requires QueuesGrow(g1, g2) && QueuesGrow(g2, g3)
    ensures QueuesGrow(g1, g3)
  {
    forall n | n in g1.queues ensures g1.queues[n] <= g3.queues[n] {
      var q1, q2, q3 := g1.queues[n], g2.queues[n], g3.queues[n];
      assert q1 == q2[..|q1|] && q2 == q3[..|q2|];
      assert q1 == q3[..|q1|];
    }
  }

  /** Delivering n packets queues at most n paths. */
  lemma {:induction false} DeliverBacklog(net: Graph, g: Ledger, route: RouteFn, ps: seq<Packet>)
    requires LedgerShape(net, g) && Deliver(net, g, route, ps).Success?
    ensures Backlog(g) <= Backlog(Deliver(net, g, route, ps).value) <= Backlog(g) + |ps|
    decreases |ps|
  {
    if ps != [] {
      var p := route(ps[0].origin, ps[0].dest).value;
      var g' := Transmit(net, g, p).value;
      TransmitBacklog(net, g, p);
      DeliverBacklog(net, g', route, ps[1..]);
    }
  }

  /** A step queues at most as many paths as the slot generates packets,
      and never removes any. */
  lemma StepBacklog(s: Simulator, route: RouteFn, draw: nat -> nat)
    requires WellFormed(s) && Step(s, route, draw).Success?
    ensures var s' := Step(s, route, draw).value.0;
            Backlog(s.ledger) <= Backlog(s'.ledger) <= Backlog(s.ledger) + TotalRate(s.slots[s.cursor].rates)
  {
    var ps := Generate(s.slots[s.cursor].rates, draw, 0);
    DeliverBacklog(s.net, s.ledger.(loads := Idle(s.net)), route, ps);
  }

  /** The loads Deliver leaves behind do not depend on the queues it starts from. */
  lemma {:induction false} DeliverIgnoresQueues(net: Graph, g1: Ledger, g2: Ledger, route: RouteFn, ps: seq<Packet>)
    requires LedgerShape(net, g1) && LedgerShape(net, g2) && g1.loads == g2.loads
    ensures Deliver(net, g1, route, ps).Success? == Deliver(net, g2, route, ps).Success?
    ensures Deliver(net, g1, route, ps).Success? ==>
              Deliver(net, g1, route, ps).value.loads == Deliver(net, g2, route, ps).value.loads
    decreases |ps|
  {
    if ps != [] {
      match route(ps[0].origin, ps[0].dest)
      case None =>
      case Some(p) =>
        TransmitIgnoresQueues(net, g1, g2, p);
        if Transmit(net, g1, p).Success? {
          DeliverIgnoresQueues(net, Transmit(net, g1, p).value, Transmit(net, g2, p).value, route, ps[1..]);
        }
    }
  }

  /** The link keys of every hop of every packet's route, packet after
      packet: the crossings a slot asks of the links. */
  function RoutedHops(route: RouteFn, ps: seq<Packet>): seq<Link> {
    if ps == [] then []
    else
      (match route(ps[0].origin, ps[0].dest)
       case None => []
       case Some(p) => Hops(p)) + RoutedHops(route, ps[1..])
  }

  /** Every packet is routed and transmitted: when the routes of all packets
      together cross no link more often than its spare capacity allows,
      delivery succeeds, each link's load grows by the number of times the
      routes cross it, and no queue changes. */
  lemma {:induction false} DeliverUncongested(net: Graph, g: Ledger, route: RouteFn, ps: seq<Packet>)
    requires LedgerShape(net, g) && ValidRouter(net, route)
    requires forall i :: 0 <= i < |ps| ==> ps[i].origin != ps[i].dest
    requires forall l :: l in net ==> g.loads[l] + multiset(RoutedHops(route, ps))[l] <= net[l]
    ensures Deliver(net, g, route, ps) == Success(g.(loads := Crossed(g.loads, RoutedHops(route, ps))))
    decreases |ps|
  {
    if ps == [] {
      CrossedEmpty(g.loads);
    } else {
      var p := route(ps[0].origin, ps[0].dest).value;
      var rest := RoutedHops(route, ps[1..]);
      assert RoutedHops(route, ps) == Hops(p) + rest;
      TransmitUncongested(net, g, p, rest);
      DeliverUncongested(net, g.(loads := Crossed(g.loads, Hops(p))), route, ps[1..]);
      CrossedConcat(g.loads, Hops(p), rest);
    }
  }

  /** One packet of an uncongested slot: its walk meets no full link, so
      every hop is crossed, and the crossings still to come fit what is left. */
  lemma TransmitUncongested(net: Graph, g: Ledger, p: Path, rest: seq<Link>)
    requires LedgerShape(net, g) && IsWalk(net, p)
    requires forall l :: l in net ==> g.loads[l] + multiset(Hops(p) + rest)[l] <= net[l]
    ensures Transmit(net, g, p) == Success(g.(loads := Crossed(g.loads, Hops(p))))
    ensures forall l :: l in net ==> Crossed(g.loads, Hops(p))[l] + multiset(rest)[l] <= net[l]
  {
    var ks := Hops(p);
    assert multiset(ks + rest) == multiset(ks) + multiset(rest);
    WalkHopsAreLinks(net, p);
    forall j | 0 <= j < |ks| ensures !Saturated(net, g, ks, j) {
      OccursBefore(ks, j);
    }
    TransmitEffect(net, g, p);
  }

  /** A step whose packets' routes fit the capacities leaves every link
      carrying exactly the number of times those routes cross it, and the
      queues as they were. */
  lemma StepUncongested(s: Simulator, route: RouteFn, draw: nat -> nat)
    requires WellFormed(s) && ValidRouter(s.net, route)
    requires forall l :: l in s.net ==>
               multiset(RoutedHops(route, Generate(s.slots[s.cursor].rates, draw, 0)))[l] <= s.net[l]
    ensures Step(s, route, draw).Success?
    ensures var s' := Step(s, route, draw).value.0;
            var ks := RoutedHops(route, Generate(s.slots[s.cursor].rates, draw, 0));
            && s'.ledger.queues == s.ledger.queues
            && forall l :: l in s.net ==> s'.ledger.loads[l] == multiset(ks)[l]
  {
    var ps := Generate(s.slots[s.cursor].rates, draw, 0);
    var g := s.ledger.(loads := Idle(s.net));
    DeliverUncongested(s.net, g, route, ps);
  }

  /** Loads are reset at the start of every step: two simulators at the same
      slot end the step with the same loads, whatever loads and queues they
      carried before. */
  lemma StepLoadsForgetThePast(s1: Simulator, s2: Simulator, route: RouteFn, draw: nat -> nat)
    requires WellFormed(s1) && WellFormed(s2)
    requires s1.net == s2.net && s1.slots == s2.slots && s1.cursor == s2.cursor
    ensures Step(s1, route, draw).Success? == Step(s2, route, draw).Success?
    ensures Step(s1, route, draw).Success? ==>
              Step(s1, route, draw).value.0.ledger.loads == Step(s2, route, draw).value.0.ledger.loads
  {
    var ps := Generate(s1.slots[s1.cursor].rates, draw, 0);
    DeliverIgnoresQueues(s1.net, s1.ledger.(loads := Idle(s1.net)), s2.ledger.(loads := Idle(s2.net)), route, ps);
  }

  /** The reported queue lengths never go down across a step. */
  lemma QueueLengthsNeverShrink(s: Simulator, route: RouteFn, draw: nat -> nat)
    requires WellFormed(s) && Step(s, route, draw).Success?
    ensures var s' := Step(s, route, draw).value.0;
            forall n: Node :: QueueLengths(s)[n] <= QueueLengths(s')[n]
  {
    var s' := Step(s, route, draw).value.0;
    forall n: Node ensures QueueLengths(s)[n] <= QueueLengths(s')[n] {
      assert s.ledger.queues[n] <= s'.ledger.queues[n];
    }
  }

  /** After as many steps as the schedule has slots, the cursor is back at
      the slot it started from. */
  lemma FullRoundReturns(s: Simulator, s': Simulator, times: seq<string>)
    requires WellFormed(s) && Ran(s, s', times) && |times| == |s.slots|
    ensures s'.cursor == s.cursor
  {
    FullCycle(|s.slots|, s.cursor);
  }

  /** The labels a run reports repeat with the schedule's period. */
  lemma RunRepeats(s: Simulator, s': Simulator, times: seq<string>)
    requires WellFormed(s) && Ran(s, s', times)
    ensures forall i :: 0 <= i && i + |s.slots| < |times| ==> times[i + |s.slots|] == times[i]
  {
    forall i | 0 <= i && i + |s.slots| < |times| ensures times[i + |s.slots|] == times[i] {
      Periodic(|s.slots|, s.cursor, i);
    }
  }

  /** A run of one full round that starts at the first slot reports every
      slot's label once, in schedule order, and ends at the first slot. */
  lemma RoundFromStart(s: Simulator, s': Simulator, times: seq<string>)
    requires WellFormed(s) && s.cursor == 0
    requires Ran(s, s', times) && |times| == |s.slots|
    ensures forall i :: 0 <= i < |times| ==> times[i] == s.slots[i].time
    ensures s'.cursor == 0
  {
    forall i | 0 <= i < |times| ensures times[i] == s.slots[i].time {
      AdvanceByWraps(|s.slots|, 0, i);
    }
    FullCycle(|s.slots|, 0);
  }

  /** From the initial state's slot table and cursor, a run of four steps
      (as Simulate reports one) processes "08:00", "08:15", "08:30", "08:45"
      in that order and leaves the cursor at the first slot again. */
  lemma FirstRound(s: Simulator, s': Simulator, times: seq<string>)
    requires WellFormed(s) && s.slots == Slots && s.cursor == 0
    requires Ran(s, s', times) && |times| == 4
    ensures times[0] == "08:00" && times[1] == "08:15" && times[2] == "08:30" && times[3] == "08:45"
    ensures s'.cursor == 0
  {
    RoundFromStart(s, s', times);
  }

  /** In a rate table that names each node once, in graph order, a node's
      rate is the entry at its position. */
  lemma RateOfTable(rates: seq<(Node, nat)>, n: Node)
    requires |rates| == 5
    requires rates[0].0 == A && rates[1].0 == B && rates[2].0 == C && rates[3].0 == D && rates[4].0 == E
    ensures RateOf(rates, n) == rates[Rank(n)].1
  {
    var r1 := rates[1..];
    var r2 := r1[1..];
    var r3 := r2[1..];
    var r4 := r3[1..];
    assert r4[1..] == [];
    assert RateOf(r4, n) == if n == E then rates[4].1 else 0;
    assert RateOf(r3, n) == (if n == D then rates[3].1 else 0) + RateOf(r4, n);
    assert RateOf(r2, n) == (if n == C then rates[2].1 else 0) + RateOf(r3, n);
    assert RateOf(r1, n) == (if n == B then rates[1].1 else 0) + RateOf(r2, n);
    assert RateOf(rates, n) == (if n == A then rates[0].1 else 0) + RateOf(r1, n);
  }

  /** The reference router's paths never cross a link twice, so the simple
      per-link form of the transmit effect applies to every packet it routes. */
  lemma ShortestRoutesAreSimple(net: Graph, u: Node, v: Node)
    requires ShortestRoute(net, u, v).Some?
    ensures DistinctHops(ShortestRoute(net, u, v).value)
  {
    var p := ShortestRoute(net, u, v).value;
    if |p| == 3 {
      assert p[0] == u && p[2] == v && u != v && !Adjacent(net, u, v);
    }
  }

  /** A simulator object: either bare (none of the simulator's attributes
      set) or carrying a simulator state. */
  datatype Instance = Bare | Built(sim: Simulator)

  /** Constructing the class as written: the method meant as the constructor
      is named with single underscores, so Python's default constructor runs
      instead and sets no attribute. */
  function ConstructAsWritten(): (o: Instance)
    ensures o.Bare?
  {
    Bare
  }

  /** Constructing the class as evidently intended: the constructor body runs. */
  function Construct(): (o: Instance)
    ensures o.Built? && Valid(o.sim) && o.sim.cursor == 0 && o.sim.slots == Slots && o.sim.net == Network
  {
    Built(Init())
  }

  /** The step method called on an object: on a bare object the first
      attribute read fails. */
  function StepInstance(o: Instance, route: RouteFn, draw: nat -> nat): (r: Result<(Instance, string)>)
    requires o.Built? ==> WellFormed(o.sim)
    ensures o.Bare? ==> r == Failure(MissingAttribute)
    ensures o.Built? ==> (r.Success? <==> Step(o.sim, route, draw).Success?)
  {
    match o
    case Bare => Failure(MissingAttribute)
    case Built(s) =>
      match Step(s, route, draw)
      case Failure(f) => Failure(f)
      case Success((s', t)) => Success((Built(s'), t))
  }

  /** As written, the very first step on a freshly constructed simulator fails. */
  lemma FirstStepFailsAsWritten(route: RouteFn, draw: nat -> nat)
    ensures StepInstance(ConstructAsWritten(), route, draw) == Failure(MissingAttribute)
  {
  }

  /** A step on a constructed object succeeds under any valid router,
      reports the slot under the cursor and moves the cursor on. With
      Construct's state (cursor 0, the four-slot table, the six-link graph)
      this is the first step processing "08:00" under, for one, the reference
      router. */
  lemma ConstructedStepSucceeds(s: Simulator, route: RouteFn, draw: nat -> nat)
    requires WellFormed(s) && ValidRouter(s.net, route)
    ensures StepInstance(Built(s), route, draw).Success?
    ensures StepInstance(Built(s), route, draw).value.1 == s.slots[s.cursor].time
    ensures StepInstance(Built(s), route, draw).value.0 == Built(Step(s, route, draw).value.0)
    ensures Step(s, route, draw).value.0.cursor == Advance(|s.slots|, s.cursor)
  {
  }
}

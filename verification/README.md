# Network traffic simulator — a Dafny model of its simulation engine

This project models the simulation engine of the network traffic simulator
(class `NetworkSimulator` in `app.py`). The simulator has five nodes `A`..`E`
and six undirected links, each with an integer capacity. It runs through four
time slots, `08:00`, `08:15`, `08:30` and `08:45`. Each slot gives every node
a number of packets to originate. One `step` does the following:

- It resets every link's load to zero.
- It originates each node's packets, each to a random other node.
- It routes each packet on a shortest path and transmits it.
- It moves the slot cursor on, wrapping after the last slot.
- It returns the label of the slot it processed.

`transmit` walks the path hop by hop. Each link below capacity gets one more
unit of load. At the first saturated link, the whole path is appended to the
queue of that hop's source node, and the walk stops. Queues are never drained.

The model is a functional state machine:

- `topology.dfy` (`Topology`) holds the nodes, the links and their canonical
  sorted key, the capacity map `Network`, walks and hop keys.
- `schedule.dfy` (`Schedule`) holds the slot table `Slots` and the cursor
  arithmetic.
- `router.dfy` (`Router`) holds the router contract `ValidRouter`. It also
  holds a reference router, `ShortestRoute`, which is a breadth-first search
  cut at depth two. It is proved shortest and proved to satisfy the contract
  on `Network`.
- `accountant.dfy` (`Accountant`) holds the `Ledger` (link loads and node
  queues) and `Transmit`.
- `engine.dfy` (`Engine`) holds the `Simulator` record (graph, slot table,
  cursor, ledger). It also holds the intended initial state `Init`, packet
  generation, `Step`, `Simulate` (a run of steps), and the two read-only views
  `LinkLoads` and `QueueLengths`.
- `results.dfy` (`Results`) holds the failures. `UnknownLink` stands for the
  `KeyError` of a hop that is not a link. `NoRoute` stands for the
  shortest-path search finding no path. `MissingAttribute` stands for calling
  `step` on an object whose constructor never ran.

Two parts of `step` are foreign calls, so they are parameters of `Step`:

- The shortest-path search of the graph library is a router oracle
  `(Node, Node) -> Option<Path>`.
- `random.choice` is a stream of draws `nat -> nat`. Packet number k of a
  step goes to the node at index `draw(k) % 4` of the other nodes, listed in
  graph order.

Three points about what the code does:

- A blocked packet's queue entry is the whole path (app.py:51). It is not the
  remaining sub-path.
- A missing route is not caught. It ends the step (`NoRoute`); the packet is
  not dropped. On `Network` this cannot happen, because the graph is
  connected (`Router.ShortestRouteIsValid`).
- Nothing validates the topology or the schedule. Instead, the constants are
  proved well formed (`Topology.NetworkWellFormed`,
  `Schedule.SlotsListEachNodeOnce`).

## Model

| member | source | states |
|---|---|---|
| Topology.Key | app.py:45 | the hop's key holds its two endpoints, the lower-ranked first |
| Topology.KeyOrderIndependent | app.py:45 | the hops u->v and v->u update the same counter: the sorted pair |
| Topology.Hops | app.py:44-45 | a path of k nodes has k-1 hops (none if k < 2), and hop i is the sorted key of path[i], path[i+1] |
| Topology.WalkHopsAreLinks | app.py:45-46 | along a walk of the graph every hop key is a link, so the capacity lookup succeeds |
| Topology.NodesComplete | app.py:20 | the graph has exactly the five nodes, each listed once |
| Topology.NetworkWellFormed | app.py:19-26 | every link is stored under its sorted key, joins two distinct nodes and has a positive capacity |
| Schedule.Advance | app.py:40 | the next cursor stays inside the schedule: one more, or back to 0 after the last slot |
| Schedule.AdvanceByWraps | app.py:40 | within one round, n steps move the cursor n places and wrap past the last slot to the first |
| Schedule.FullCycle | app.py:40 | after as many steps as there are slots the cursor is back where it started |
| Schedule.AdvanceByCompose | app.py:40 | a steps followed by b steps are a + b steps |
| Schedule.Periodic | app.py:40 | the slots visited repeat with period equal to the schedule length |
| Schedule.SlotsListEachNodeOnce | app.py:8-13 | every slot's rate table names the five nodes once each, in graph order |
| Router.Relay | app.py:37 | the relay found is a common neighbour of both ends; none is found only if no candidate is one |
| Router.ShortestRoute | app.py:37 | a route found is a walk from origin to destination no longer than any other walk between them; none is found only when every walk is longer than two hops |
| Router.ShortWalks | app.py:37 | a walk of at most two hops is the node itself, a direct link, or a path through one common neighbour |
| Router.DiameterTwo | app.py:19-26 | in the simulator's graph every two nodes are at most two links apart |
| Router.ShortestRouteIsValid | app.py:37 | the graph is connected: the reference router always finds a path, so it meets the router contract the engine relies on |
| Router.RouteAToE | app.py:37 | a packet from A to E is routed A, C, E |
| Accountant.Idle | app.py:17 | the loads at the start of a slot, and in the constructor: every link of the graph, each at zero |
| Accountant.Transmit | app.py:43-52 | a path of fewer than two nodes changes nothing; a walk never fails; a failure names a hop that is not a link; queues are only appended to; a ledger within capacity stays within capacity |
| Accountant.Forward | app.py:44-52 | the hop loop from hop i on returns the ledger unchanged once no hop is left, succeeds when every remaining hop is a link, fails only on a hop that is not a link, keeps the ledger's shape and keeps every load at or below capacity; that a load rises only while below it is `ForwardCrosses`/`ForwardBlocks`/`ForwardEffect`, and that it only appends to queues is `ForwardQueuesAtMostOneMore` |
| Accountant.TransmitEffect | app.py:44-52 | exact effect: if no hop is saturated, every hop's link gains its crossings and no queue changes; if hop j is the first saturated one, only hops 0..j-1 are counted and the path is appended to the queue of path[j] alone |
| Accountant.ForwardEffect | app.py:44-52 | the hop loop started after i counted hops has the exact effect above |
| Accountant.ForwardCrosses | app.py:47-48 | crossing a hop with spare capacity adds one to its link and moves to the next hop |
| Accountant.ForwardBlocks | app.py:49-52 | at a saturated hop the path is queued at the hop's source node and the loop stops |
| Accountant.SimplePathDelivered | app.py:44-48 | on a path that uses no link twice, with every link below capacity, each link of the path gains exactly one, no other link changes, and queues stay the same |
| Accountant.SimplePathBlocked | app.py:47-52 | on a path that uses no link twice, with hop j the first whose link is full, exactly the links of hops 0..j-1 gain one and path[j]'s queue alone grows by the path |
| Accountant.SaturatedIsFull | app.py:47 | on a path that uses no link twice, a hop is blocked exactly when its link is already full |
| Accountant.SingleHop | app.py:45-52 | a one-hop packet below capacity adds one load and queues nothing; at capacity it leaves the load alone and adds one entry at the sender; both directions count on the same link |
| Accountant.TransmitIgnoresQueues | app.py:46-48 | whether and how loads change does not depend on the queues |
| Accountant.ForwardQueuesAtMostOneMore | app.py:50-52 | the hop loop appends at most one entry, the path itself, to the queue of one node |
| Accountant.TransmitBacklog | app.py:51 | one transmit leaves the total number of queued paths the same or one larger |
| Engine.EmptyQueues | app.py:16 | every node has a queue, and it is empty |
| Engine.Init | app.py:6-17 | the constructor's state: the six-link graph, the four-slot table, cursor 0, every link at load 0, every queue empty, and the invariants hold |
| Engine.Others | app.py:36 | the destinations a node can pick are the four other nodes |
| Engine.Choose | app.py:36 | the chosen destination is one of the candidates |
| Engine.Emit | app.py:35-36 | a node with rate r originates exactly r packets, all from it and none addressed to itself |
| Engine.Generate | app.py:34-36 | a slot's packets number the sum of its rates; each node originates exactly its rate; no packet is addressed to its origin |
| Engine.RateOfTable | app.py:34-35 | in a rate table listing the nodes in graph order, a node's packet count is its own entry |
| Engine.Deliver | app.py:34-38 | delivery keeps loads within capacity and queues append-only; a failure is a packet the router gave no route or a hop that is not a link; it cannot fail under a valid router when no packet is addressed to its origin |
| Engine.TransmitUncongested | app.py:37-38 | a packet whose walk, together with the crossings still to come, fits the spare capacity is transmitted over every hop, and what is left still fits the rest |
| Engine.DeliverUncongested | app.py:34-38 | every packet is routed and transmitted: when all routes together fit the spare capacity, delivery succeeds, each link's load grows by exactly the number of times the routes cross it, and no queue changes |
| Engine.DeliverBacklog | app.py:34-38 | delivering n packets adds at most n queued paths and removes none |
| Engine.DeliverIgnoresQueues | app.py:34-38 | the loads after delivery do not depend on the queues delivery started from |
| Engine.Step | app.py:28-41 | a step reports the label of the slot under the cursor and moves the cursor on with wrap-around; afterwards every link is within capacity, whatever the loads were before; queues only grow; it cannot fail under a valid router |
| Engine.StepUncongested | app.py:31-38 | a step whose packets' routes fit the capacities ends with each link carrying exactly the number of times those routes cross it, counted from zero, and with the queues unchanged |
| Engine.StepBacklog | app.py:34-38 | one step adds at most as many queued paths as the slot originates packets |
| Engine.StepLoadsForgetThePast | app.py:31 | loads are reset each step: two simulators at the same slot end the step with identical loads, whatever loads and queues they had |
| Engine.LinkLoads | app.py:57-58 | the load view has an entry for every link, including idle ones, each the link's current load in the ledger, and none above capacity |
| Engine.QueueLengths | app.py:60-61 | the queue view reports, for every node, the length of its queue |
| Engine.QueueLengthsNeverShrink | app.py:61 | no node's reported queue length goes down across a step |
| Engine.Simulate | app.py:28-41 | n successful steps report n labels, label i being the slot i places after the start, and leave the cursor n places on |
| Engine.RunsCompose | app.py:40-41 | a step followed by a run of steps is a run of steps |
| Engine.QueuesGrowTransitive | app.py:51 | append-only queue growth composes across steps |
| Engine.FullRoundReturns | app.py:40 | a run of as many steps as there are slots ends with the cursor back at its start |
| Engine.RunRepeats | app.py:40-41 | in any run the labels repeat with the schedule's period: the label at step i + (number of slots) equals the one at step i |
| Engine.RoundFromStart | app.py:40-41 | a full round from the first slot reports every slot's label once, in order, and ends at the first slot |
| Engine.FirstRound | app.py:14-15 | from the constructor's cursor and slot table, four steps report 08:00, 08:15, 08:30, 08:45 and end at the first slot |
| Engine.ShortestRoutesAreSimple | app.py:37 | the reference router's paths use no link twice, so the simple-path effect lemmas apply to them |
| Engine.StepInstance | app.py:28-30 | stepping a bare object fails at its first attribute read; stepping a built one succeeds exactly when Step does |
| Engine.FirstStepFailsAsWritten | app.py:5 | as written, the first step on a new simulator fails |
| Engine.Construct | app.py:6-17 | the corrected constructor builds a valid simulator at the first slot of the table over the six-link graph |
| Engine.ConstructedStepSucceeds | app.py:28-41 | a step on a built simulator succeeds under any valid router, reports the slot under the cursor and moves the cursor on |

## Left out

- The Streamlit and Plotly dashboard (app.py:63-154) is left out. It is presentation only; this includes session state, the button, the graph layout, the figure and the tables.
- `get_graph` (app.py:54-55) is not modelled as a separate operation. It returns the graph, which is the `net` field of `Simulator`.
- The tie-breaking of the graph library's shortest-path search is left out. The router is an oracle, and the only things used about it are the contract `ValidRouter` and the reference router `ShortestRoute`. No claim is made that the reference router picks the same path as the library.
- The pseudo-random generator behind `random.choice` is left out. It is the caller-supplied draw stream. Only the fact that a destination is never the origin is proved about the choice.
- Transmit: when a hop is not a link, the source raises `KeyError` after it has already counted the earlier hops, and that partial update persists in the object. The model reports `Failure(UnknownLink)` and drops the partial update. On the simulator's own paths this cannot happen, because they are walks of the graph.
- Step: when routing or transmitting fails partway through a slot, the source keeps the loads and queues already changed and leaves the cursor unmoved. The model returns only the failure.
- Engine.Deliver: the loads after delivery are stated exactly (`DeliverUncongested`, `StepUncongested`) only for slots whose routes fit the spare capacity. When a link fills up partway through a slot, each packet's own effect is exact (`Accountant.TransmitEffect`), but where a later packet stops depends on all earlier packets, and no closed form across the whole slot is stated.
- Object identity is left out. So is aliasing of the dictionaries the getters return: the getters are pure reads of the state.

## Findings

| source | as written | input that shows it | evidently intended | confidence | as-written member | corrected member |
|---|---|---|---|---|---|---|
| app.py:5 | the constructor is named `_init_`, so `NetworkSimulator()` runs the default constructor and sets no attribute | `NetworkSimulator()` followed by `step()`: reading `self.time_keys` fails | a constructor `__init__` that sets up the state of app.py:6-17 | high; not executed | Engine.FirstStepFailsAsWritten | Engine.ConstructedStepSucceeds |

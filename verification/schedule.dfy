/**
 The cyclic traffic schedule: four labelled time slots, each giving every
 node the number of packets it originates during that slot, and the cursor
 arithmetic that walks the slots round and round.
 */
module Schedule {
  import opened Topology

  /** One time slot: its time label and the per-node generation rates, in the
      order the rate table lists them. */
  datatype Slot = Slot(time: string, rates: seq<(Node, nat)>)

  const Slots: seq<Slot> := [
    Slot("08:00", [(A, 50), (B, 30), (C, 40), (D, 20), (E, 60)]),
    Slot("08:15", [(A, 55), (B, 35), (C, 45), (D, 25), (E, 65)]),
    Slot("08:30", [(A, 60), (B, 40), (C, 50), (D, 30), (E, 70)]),
    Slot("08:45", [(A, 55), (B, 35), (C, 45), (D, 25), (E, 65)])
  ]

  /** The cursor after one step over a schedule of `size` slots: the next
      slot, and back to the first after the last. */
  function Advance(size: nat, c: nat): (c': nat)
    requires c < size
    ensures c' < size
    ensures c' == if c == size - 1 then 0 else c + 1
  {
    (c + 1) % size
  }

  /** The cursor after n steps. */
  function AdvanceBy(size: nat, c: nat, n: nat): (c': nat)
    requires c < size
    ensures c' < size
  {
    if n == 0 then c else Advance(size, AdvanceBy(size, c, n - 1))
  }

  /** Within one round, n steps move the cursor n places forward and wrap
      past the last slot back to the first. */
  lemma {:induction false} AdvanceByWraps(size: nat, c: nat, n: nat)
    requires c < size && n <= size
    ensures AdvanceBy(size, c, n) == if c + n < size then c + n else c + n - size
  {
    if n > 0 {
      AdvanceByWraps(size, c, n - 1);
    }
  }

  /** After as many steps as there are slots the cursor is back where it began. */
  lemma FullCycle(size: nat, c: nat)
    requires c < size
    ensures AdvanceBy(size, c, size) == c
  {
    AdvanceByWraps(size, c, size);
  }

  /** Stepping a then b times is stepping a + b times. */
  lemma {:induction false} AdvanceByCompose(size: nat, c: nat, a: nat, b: nat)
    requires c < size
    ensures AdvanceBy(size, AdvanceBy(size, c, a), b) == AdvanceBy(size, c, a + b)
  {
    if b > 0 {
      AdvanceByCompose(size, c, a, b - 1);
    }
  }

  /** The slot sequence the cursor visits repeats with period `size`. */
  lemma Periodic(size: nat, c: nat, n: nat)
    requires c < size
    ensures AdvanceBy(size, c, n + size) == AdvanceBy(size, c, n)
  {
    AdvanceByCompose(size, c, n, size);
    FullCycle(size, AdvanceBy(size, c, n));
  }

  /** Packets node n originates under a rate list (the sum of its entries). */
  function RateOf(rates: seq<(Node, nat)>, n: Node): nat {
    if rates == [] then 0
    else (if rates[0].0 == n then rates[0].1 else 0) + RateOf(rates[1..], n)
  }

  /** Packets originated in total under a rate list. */
  function TotalRate(rates: seq<(Node, nat)>): nat {
    if rates == [] then 0 else rates[0].1 + TotalRate(rates[1..])
  }

  /** Every slot names every node exactly once, so its rate table is a
      function from nodes to rates. */
  lemma SlotsListEachNodeOnce()
    ensures forall k :: 0 <= k < |Slots| ==> |Slots[k].rates| == 5
    ensures forall k, i :: 0 <= k < |Slots| && 0 <= i < 5 ==> Slots[k].rates[i].0 == Nodes[i]
  {
  }
}

/** Stochastic fair queueing by deficit round robin: the state of `StocFairQueue`, the
    steps its methods take, and the invariant that every step keeps. */
module StocFairQueueSpec {
  import opened Packets
  import opened Hashing

  datatype Config = Config(nQueue: nat, quantum: nat, maxsize: nat)

  ghost predicate Valid(c: Config) { c.nQueue >= 1 && c.quantum >= 1 }

  datatype State = State(
    subs: seq<seq<Packet>>,   // FIFO sub-queues
    credits: seq<nat>,
    active: seq<nat>,         // round-robin list of busy sub-queues
    nPackets: nat,
    queuesize: nat)

  function Init(c: Config): State {
    State(seq(c.nQueue, _ => []), seq(c.nQueue, _ => 0), [], 0, 0)
  }

  /** The sub-queue a flow hashes to. */
  function SubQueue(c: Config, flow: nat): (q: nat)
    requires Valid(c)
    ensures q < c.nQueue
  {
    Place(0, flow, c.nQueue)
  }

  /** The hash is additive; with where it puts flow 1 that fixes it. */
  lemma SubQueueAdds(c: Config, f: nat, g: nat)
    requires Valid(c)
    ensures SubQueue(c, 0) == 0 && SubQueue(c, 1) == 7643 % c.nQueue
    ensures SubQueue(c, f + g) == (SubQueue(c, f) + SubQueue(c, g)) % c.nQueue
  {
    hide Place;
    PlaceAdds(0, f, g, c.nQueue);
  }

  /** Two flows share a sub-queue exactly when `nQueue` divides 7643 times their difference. */
  lemma SharedSubQueue(c: Config, f: nat, g: nat)
    requires Valid(c) && f <= g
    ensures SubQueue(c, f) == SubQueue(c, g) <==> 7643 * (g - f) % c.nQueue == 0
  {
    hide Place;
    SharedExactly(0, f, g, c.nQueue);
  }

  /** Flows 0 to `nQueue` - 1 all get sub-queues of their own if and only if 7643 does not divide `nQueue`. */
  lemma SubQueuesSpread(c: Config)
    requires Valid(c)
    ensures (forall f, g :: 0 <= f < g < c.nQueue ==> SubQueue(c, f) != SubQueue(c, g))
            <==> c.nQueue % 7643 != 0
  {
    hide Place;
    SpreadsExactly(0, c.nQueue);
    assert forall f: nat :: Place(0, f, c.nQueue) == SubQueue(c, f);
  }

  // ----- the invariant --------------------------------------------------------------

  ghost predicate Distinct(a: seq<nat>) {
    forall i, j :: 0 <= i < j < |a| ==> a[i] != a[j]
  }

  /** The round-robin list names exactly the non-empty sub-queues, each once. */
  ghost predicate Shape(c: Config, s: State) {
    && Valid(c)
    && |s.subs| == |s.credits| == c.nQueue
    && Distinct(s.active)
    && (forall i :: 0 <= i < |s.active| ==> s.active[i] < c.nQueue && s.subs[s.active[i]] != [])
    && (forall q :: 0 <= q < c.nQueue && s.subs[q] != [] ==> q in s.active)
  }

  function HeadSize(s: State, q: nat): nat
    requires q < |s.subs| && s.subs[q] != []
  {
    s.subs[q][0].size
  }

  /** The front sub-queue can pay for its head packet. */
  predicate Covered(s: State)
    requires s.active != [] && s.active[0] < |s.subs| == |s.credits| && s.subs[s.active[0]] != []
  {
    s.credits[s.active[0]] >= HeadSize(s, s.active[0])
  }

  /** Every sub-queue but the front one has at least a fresh quantum to spend. */
  ghost predicate CreditsOk(c: Config, s: State)
    requires Shape(c, s)
  {
    && (forall i :: 0 < i < |s.active| ==> s.credits[s.active[i]] >= c.quantum)
    && (forall q :: 0 <= q < c.nQueue && q !in s.active ==> s.credits[q] == 0)
  }

  ghost predicate Core(c: Config, s: State) {
    && Shape(c, s)
    && CreditsOk(c, s)
    && (forall q, i :: 0 <= q < c.nQueue && 0 <= i < |s.subs[q]| ==> s.subs[q][i].size >= 1)
    && s.nPackets == |Flat(s.subs)|
    && s.queuesize == Bytes(Flat(s.subs)) <= c.maxsize
    && (s.nPackets > 0 ==> s.active != [])
  }

  /** Between events the front sub-queue is covered, and its head packet is in service. */
  ghost predicate Inv(c: Config, s: State) {
    Core(c, s) && (s.nPackets > 0 ==> Covered(s))
  }

  /** Credits never reach a quantum plus the largest packet. */
  ghost predicate Bounded(c: Config, s: State, max: nat)
    requires Shape(c, s)
  {
    && max >= 1
    && (forall q, i :: 0 <= q < c.nQueue && 0 <= i < |s.subs[q]| ==> s.subs[q][i].size <= max)
    && (forall q :: 0 <= q < c.nQueue ==> s.credits[q] <= c.quantum + max - 1)
  }

  lemma DistinctTail(a: seq<nat>)
    requires Distinct(a) && a != []
    ensures Distinct(a[1..]) && a[0] !in a[1..]
    ensures forall q :: q in a <==> q == a[0] || q in a[1..]
  {}

  // ----- the steps ------------------------------------------------------------------

  /** Send the front sub-queue to the back with another quantum. */
  function Grant(c: Config, s: State): State
    requires Shape(c, s) && s.active != []
  {
    var q := s.active[0];
    s.(active := s.active[1..] + [q], credits := s.credits[q := s.credits[q] + c.quantum])
  }

  /** How far sub-queue `q`'s credits fall short of its head packet. */
  function Shortfall(subs: seq<seq<Packet>>, credits: seq<nat>, q: nat): nat
    requires q < |subs| == |credits|
  {
    if subs[q] != [] && credits[q] < subs[q][0].size then subs[q][0].size - credits[q] else 0
  }

  function Deficit(subs: seq<seq<Packet>>, credits: seq<nat>, n: nat): nat
    requires n <= |subs| == |credits|
  {
    if n == 0 then 0 else Deficit(subs, credits, n - 1) + Shortfall(subs, credits, n - 1)
  }

  function Enqueue(c: Config, s: State, p: Packet): State
    requires Shape(c, s)
  {
    var q := SubQueue(c, p.flow);
    var t := s.(subs := s.subs[q := s.subs[q] + [p]],
                nPackets := s.nPackets + 1, queuesize := s.queuesize + p.size);
    if q in s.active then t
    else t.(active := s.active + [q], credits := s.credits[q := c.quantum])
  }

  function Dequeue(c: Config, s: State): State
    requires Shape(c, s) && s.active != [] && Covered(s)
    requires s.nPackets > 0 && s.queuesize >= HeadSize(s, s.active[0])
  {
    var q := s.active[0];
    var size, rest := HeadSize(s, q), s.subs[q][1..];
    var t := s.(subs := s.subs[q := rest], nPackets := s.nPackets - 1, queuesize := s.queuesize - size);
    if rest == [] then t.(active := s.active[1..], credits := s.credits[q := 0])
    else t.(credits := s.credits[q := s.credits[q] - size])
  }

  /** The packet whose completion is pending. */
  function InService(s: State): Option<Packet> {
    if s.nPackets > 0 && s.active != [] && s.active[0] < |s.subs| && s.subs[s.active[0]] != []
    then Some(s.subs[s.active[0]][0]) else None
  }

  predicate Accepts(c: Config, s: State, p: Packet) {
    s.queuesize + p.size <= c.maxsize
  }

  // ----- the selection loop ---------------------------------------------------------

  lemma {:induction false} DeficitUpdate(subs: seq<seq<Packet>>, credits: seq<nat>, q: nat, x: nat, n: nat)
    requires q < |subs| == |credits| && n <= |subs|
    ensures Deficit(subs, credits[q := x], n) ==
            if q < n then Deficit(subs, credits, n) - Shortfall(subs, credits, q)
                          + Shortfall(subs, credits[q := x], q)
            else Deficit(subs, credits, n)
  {
    if n == 0 {
    } else {
      DeficitUpdate(subs, credits, q, x, n - 1);
    }
  }

  /** The loop terminates: each turn shrinks the total shortfall. */
  lemma GrantProgress(c: Config, s: State)
    requires Shape(c, s) && s.active != [] && !Covered(s)
    ensures Deficit(Grant(c, s).subs, Grant(c, s).credits, |s.subs|)
            < Deficit(s.subs, s.credits, |s.subs|)
  {
    var q := s.active[0];
    DeficitUpdate(s.subs, s.credits, q, s.credits[q] + c.quantum, |s.subs|);
  }

  lemma GrantShape(c: Config, s: State)
    requires Shape(c, s) && s.active != []
    ensures Shape(c, Grant(c, s)) && Grant(c, s).active != []
    ensures forall q :: q in Grant(c, s).active <==> q in s.active
  {}

  /** The service-selection loop: rotate until the front sub-queue is covered. */
  function Settle(c: Config, s: State): State
    requires Shape(c, s) && s.active != []
    decreases Deficit(s.subs, s.credits, |s.subs|)
  {
    if Covered(s) then s
    else
      GrantShape(c, s); GrantProgress(c, s);
      Settle(c, Grant(c, s))
  }

  function Begin(c: Config, s: State): State
    requires Shape(c, s) && (s.nPackets > 0 ==> s.active != [])
  {
    if s.nPackets > 0 then Settle(c, s) else s
  }

  lemma GrantCore(c: Config, s: State)
    requires Core(c, s) && s.active != [] && !Covered(s)
    ensures Core(c, Grant(c, s))
    ensures forall max :: Bounded(c, s, max) ==> Bounded(c, Grant(c, s), max)
  {
    GrantShape(c, s);
    var t := Grant(c, s);
    forall i | 0 < i < |t.active| ensures t.credits[t.active[i]] >= c.quantum {
      if i < |t.active| - 1 {
        assert t.active[i] == s.active[i + 1] && s.active[i + 1] != s.active[0];
      }
    }
  }

  lemma {:induction false} SettleInv(c: Config, s: State)
    requires Core(c, s) && s.active != []
    ensures var t := Settle(c, s);
            && Core(c, t) && t.active != [] && Covered(t)
            && t == s.(active := t.active, credits := t.credits)
            && (forall q :: q in t.active <==> q in s.active)
            && (forall max :: Bounded(c, s, max) ==> Bounded(c, t, max))
    decreases Deficit(s.subs, s.credits, |s.subs|)
  {
    if Covered(s) {
    } else {
      GrantShape(c, s);
      GrantProgress(c, s);
      GrantCore(c, s);
      SettleInv(c, Grant(c, s));
    }
  }

  // ----- every step keeps the invariant ---------------------------------------------

  lemma InitInv(c: Config)
    requires Valid(c)
    ensures Inv(c, Init(c))
  {
    hide Flat;
    var s := Init(c);
    assert forall q :: 0 <= q < c.nQueue ==> s.subs[q] == [];
    FlatEmpty(s.subs);
  }

  lemma {:induction false} FlatBusy(a: seq<seq<Packet>>)
    requires Flat(a) != []
    ensures exists q :: 0 <= q < |a| && a[q] != []
  {
    if a[0] != [] {
    } else {
      FlatBusy(a[1..]);
      var q :| 0 <= q < |a[1..]| && a[1..][q] != [];
      assert a[q + 1] != [];
    }
  }

  lemma EnqueueShape(c: Config, s: State, p: Packet)
    requires Core(c, s) && p.size >= 1
    ensures Shape(c, Enqueue(c, s, p)) && CreditsOk(c, Enqueue(c, s, p))
  {
    hide SubQueue, Flat, Bytes;
    var q, t := SubQueue(c, p.flow), Enqueue(c, s, p);
    if q in s.active {
      forall r | 0 <= r < c.nQueue && t.subs[r] != [] ensures r in t.active {
        assert r == q || s.subs[r] != [];
      }
    } else {
      assert t.active == s.active + [q];
      forall r | 0 <= r < c.nQueue && t.subs[r] != [] ensures r in t.active {
        assert r == q || r in s.active;
      }
    }
  }

  lemma EnqueueSizes(c: Config, s: State, p: Packet)
    requires Core(c, s) && p.size >= 1 && Shape(c, Enqueue(c, s, p))
    ensures var t := Enqueue(c, s, p);
            && (forall q, i :: 0 <= q < c.nQueue && 0 <= i < |t.subs[q]| ==> t.subs[q][i].size >= 1)
            && (forall max :: Bounded(c, s, max) && p.size <= max ==> Bounded(c, t, max))
  {
    hide SubQueue, Flat, Bytes, CreditsOk;
    var t := Enqueue(c, s, p);
    assert forall q, i :: 0 <= q < c.nQueue && 0 <= i < |t.subs[q]| ==>
             t.subs[q][i] == if i < |s.subs[q]| then s.subs[q][i] else p;
  }

  lemma EnqueueCore(c: Config, s: State, p: Packet)
    requires Core(c, s) && p.size >= 1 && Accepts(c, s, p)
    ensures Core(c, Enqueue(c, s, p)) && Enqueue(c, s, p).active != []
    ensures forall max :: Bounded(c, s, max) && p.size <= max ==> Bounded(c, Enqueue(c, s, p), max)
  {
    hide SubQueue, Flat, Bytes, CreditsOk, Bounded;
    EnqueueShape(c, s, p);
    EnqueueSizes(c, s, p);
    AppendFlat(s.subs, SubQueue(c, p.flow), p);
  }

  /** What a completion may rely on. */
  lemma HeadPaid(c: Config, s: State)
    requires Inv(c, s) && s.nPackets > 0
    ensures s.queuesize >= HeadSize(s, s.active[0])
  {
    PopFlat(s.subs, s.active[0]);
  }

  /** The front sub-queue has become empty and leaves the list. */
  lemma FrontLeaves(c: Config, s: State, t: State)
    requires Shape(c, s) && CreditsOk(c, s) && s.active != []
    requires t.active == s.active[1..]
    requires t.subs == s.subs[s.active[0] := []] && t.credits == s.credits[s.active[0] := 0]
    ensures Shape(c, t) && CreditsOk(c, t)
  {}

  /** The front sub-queue stays in front with fewer credits. */
  lemma FrontSpends(c: Config, s: State, t: State)
    requires Shape(c, s) && CreditsOk(c, s) && s.active != []
    requires t.active == s.active && |t.subs| == |t.credits| == c.nQueue && t.subs[s.active[0]] != []
    requires forall q :: 0 <= q < c.nQueue && q != s.active[0] ==>
               t.subs[q] == s.subs[q] && t.credits[q] == s.credits[q]
    ensures Shape(c, t) && CreditsOk(c, t)
  {}

  lemma DequeueShape(c: Config, s: State)
    requires Inv(c, s) && s.nPackets > 0 && s.queuesize >= HeadSize(s, s.active[0])
    ensures Shape(c, Dequeue(c, s)) && CreditsOk(c, Dequeue(c, s))
  {
    if s.subs[s.active[0]][1..] == [] {
      FrontLeaves(c, s, Dequeue(c, s));
    } else {
      FrontSpends(c, s, Dequeue(c, s));
    }
  }

  lemma BusyActive(c: Config, s: State)
    requires Shape(c, s)
    ensures Flat(s.subs) != [] ==> s.active != []
  {
    if Flat(s.subs) != [] {
      FlatBusy(s.subs);
    }
  }

  lemma DequeueSizes(c: Config, s: State)
    requires Inv(c, s) && s.nPackets > 0 && s.queuesize >= HeadSize(s, s.active[0])
    requires Shape(c, Dequeue(c, s))
    ensures var t := Dequeue(c, s);
            && (forall q, i :: 0 <= q < c.nQueue && 0 <= i < |t.subs[q]| ==> t.subs[q][i].size >= 1)
            && (forall max :: Bounded(c, s, max) ==> Bounded(c, t, max))
  {
    hide Flat, Bytes, CreditsOk, Distinct;
    var t, f := Dequeue(c, s), s.active[0];
    assert forall q :: 0 <= q < c.nQueue ==>
             t.subs[q] == if q == f then s.subs[q][1..] else s.subs[q];
    assert forall q, i :: 0 <= q < c.nQueue && 0 <= i < |t.subs[q]| ==>
             t.subs[q][i] == s.subs[q][if q == f then i + 1 else i];
  }

  lemma DequeueCore(c: Config, s: State)
    requires Inv(c, s) && s.nPackets > 0
    ensures s.queuesize >= HeadSize(s, s.active[0]) && Core(c, Dequeue(c, s))
    ensures forall max :: Bounded(c, s, max) ==> Bounded(c, Dequeue(c, s), max)
  {
    hide Flat, Bytes, Bounded, CreditsOk, Distinct;
    HeadPaid(c, s);
    DequeueShape(c, s);
    PopFlat(s.subs, s.active[0]);
    DequeueSizes(c, s);
    BusyActive(c, Dequeue(c, s));
  }

  function Receive(c: Config, s: State, p: Packet): State
    requires Inv(c, s) && p.size >= 1
  {
    if !Accepts(c, s, p) then s
    else
      EnqueueCore(c, s, p);
      if s.nPackets == 0 then Begin(c, Enqueue(c, s, p)) else Enqueue(c, s, p)
  }

  function Complete(c: Config, s: State): State
    requires Inv(c, s) && s.nPackets > 0
  {
    DequeueCore(c, s);
    Begin(c, Dequeue(c, s))
  }

  lemma ReceiveInv(c: Config, s: State, p: Packet)
    requires Inv(c, s) && p.size >= 1
    ensures Inv(c, Receive(c, s, p))
    ensures forall max :: Bounded(c, s, max) && p.size <= max ==> Bounded(c, Receive(c, s, p), max)
  {
    if Accepts(c, s, p) {
      EnqueueCore(c, s, p);
      if s.nPackets == 0 {
        SettleInv(c, Enqueue(c, s, p));
      } else {
        assert s.active[0] in s.active;
      }
    }
  }

  lemma CompleteInv(c: Config, s: State)
    requires Inv(c, s) && s.nPackets > 0
    ensures Inv(c, Complete(c, s))
    ensures forall max :: Bounded(c, s, max) ==> Bounded(c, Complete(c, s), max)
  {
    DequeueCore(c, s);
    if s.nPackets > 1 {
      SettleInv(c, Dequeue(c, s));
    }
  }

  /** A packet is queued exactly when the buffer has room for it; otherwise nothing changes. */
  lemma ReceiveExactly(c: Config, s: State, p: Packet)
    requires Inv(c, s) && p.size >= 1
    ensures if s.queuesize + p.size <= c.maxsize
            then Receive(c, s, p).nPackets == s.nPackets + 1
                 && Receive(c, s, p).queuesize == s.queuesize + p.size
            else Receive(c, s, p) == s
  {
    hide Flat, Bytes, SubQueue;
    if Accepts(c, s, p) {
      EnqueueCore(c, s, p);
      if s.nPackets == 0 {
        SettleInv(c, Enqueue(c, s, p));
      }
    }
  }
}

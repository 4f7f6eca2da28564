/** The flows of `StocFairQueue`: what its hash means for the order within a flow and for
    fairness between flows. */
module StocFairQueueFlows {
  import opened Packets
  import opened StocFairQueueSpec
  import opened StocFairQueueRuns

  /** Packet `p` waits in sub-queue `q` because one of the first `n` events brought it there. */
  ghost predicate Came(c: Config, es: seq<Event>, n: nat, q: nat, p: Packet)
    requires Valid(c)
  {
    SubQueue(c, p.flow) == q && exists k :: 0 <= k < n && k < |es| && es[k] == Arrive(p)
  }

  ghost predicate AllCame(c: Config, es: seq<Event>, n: nat, s: State)
    requires Shape(c, s)
  {
    forall q, i :: 0 <= q < c.nQueue && 0 <= i < |s.subs[q]| ==> Came(c, es, n, q, s.subs[q][i])
  }

  /** Every packet waits in the sub-queue its flow hashes to. */
  lemma {:induction false} RunHomed(c: Config, tr: seq<State>, es: seq<Event>, max: nat, n: nat)
    requires IsRun(c, tr, es, max) && n <= |es| && tr[0] == Init(c)
    ensures Shape(c, tr[n]) && AllCame(c, es, n, tr[n])
  {
    hide Next, Inv, Bounded, Distinct, SubQueue;
    RunInv(c, tr, es, max, n);
    if n == 0 {
    } else {
      RunHomed(c, tr, es, max, n - 1);
      RunStep(c, tr, es, max, n - 1);
      var s, e, t := tr[n - 1], es[n - 1], tr[n];
      forall q, i | 0 <= q < c.nQueue && 0 <= i < |t.subs[q]| ensures Came(c, es, n, q, t.subs[q][i]) {
        StepOrder(c, s, e, q);
        var p, j := t.subs[q][i], |Left(s, e, q)| + i;
        assert p == (Left(s, e, q) + t.subs[q])[j] == (s.subs[q] + Taken(c, s, e, q))[j];
        if j < |s.subs[q]| {
          assert Came(c, es, n - 1, q, s.subs[q][j]);
        } else {
          assert es[n - 1] == Arrive(p);
        }
      }
    }
  }

  // ----- order ----------------------------------------------------------------------

  /** The packets of `f` that found room in the buffer when they arrived. */
  function AcceptedOf(c: Config, tr: seq<State>, es: seq<Event>, f: nat, n: nat): seq<Packet>
    requires n <= |es| < |tr|
  {
    if n == 0 then []
    else
      var s, e := tr[n - 1], es[n - 1];
      AcceptedOf(c, tr, es, f, n - 1) +
      (if e.Arrive? && e.pkt.flow == f && s.queuesize + e.pkt.size <= c.maxsize then [e.pkt] else [])
  }

  /** The packet that an event completes, if it is of flow `f`. */
  function Completed(s: State, e: Event, f: nat): seq<Packet> {
    if e.Completion? && InService(s).Some? && InService(s).value.flow == f then [InService(s).value] else []
  }

  function CompletedOf(tr: seq<State>, es: seq<Event>, f: nat, n: nat): seq<Packet>
    requires n <= |es| < |tr|
  {
    if n == 0 then [] else CompletedOf(tr, es, f, n - 1) + Completed(tr[n - 1], es[n - 1], f)
  }

  /** What leaves the sub-queue of `f` and belongs to `f` is what completes of `f`. */
  lemma LeftOf(c: Config, tr: seq<State>, es: seq<Event>, max: nat, f: nat, n: nat)
    requires IsRun(c, tr, es, max) && n < |es| && tr[0] == Init(c)
    ensures Valid(c) && OfFlow(Left(tr[n], es[n], SubQueue(c, f)), f) == Completed(tr[n], es[n], f)
  {
    hide Next, Bounded, Distinct, SubQueue, Flat, Bytes;
    RunHomed(c, tr, es, max, n);
    RunStep(c, tr, es, max, n);
    var s := tr[n];
    if es[n].Completion? {
      assert InService(s) == Some(s.subs[s.active[0]][0]);
      assert Came(c, es, n, s.active[0], s.subs[s.active[0]][0]);
      OfFlowSingle(s.subs[s.active[0]][0], f);
    }
    OfFlowEmpty(f);
  }

  /** Each flow leaves in the order it arrived, whatever shares its sub-queue: what has completed
      followed by what waits is exactly what found room on arrival. */
  lemma {:induction false} FlowOrder(c: Config, tr: seq<State>, es: seq<Event>, max: nat, f: nat, n: nat)
    requires IsRun(c, tr, es, max) && n <= |es| && tr[0] == Init(c)
    ensures Valid(c) && SubQueue(c, f) < |tr[n].subs|
    ensures CompletedOf(tr, es, f, n) + OfFlow(tr[n].subs[SubQueue(c, f)], f) == AcceptedOf(c, tr, es, f, n)
  {
    hide Next, Inv, Bounded, Distinct, SubQueue, Left, Completed, OfFlow;
    RunInv(c, tr, es, max, n);
    var q := SubQueue(c, f);
    if n == 0 {
      OfFlowEmpty(f);
    } else {
      FlowOrder(c, tr, es, max, f, n - 1);
      RunStep(c, tr, es, max, n - 1);
      LeftOf(c, tr, es, max, f, n - 1);
      var s, e := tr[n - 1], es[n - 1];
      StepOrder(c, s, e, q);
      OfFlowConcat(Left(s, e, q), tr[n].subs[q], f);
      OfFlowConcat(s.subs[q], Taken(c, s, e, q), f);
      OfFlowEmpty(f);
      if e.Arrive? {
        OfFlowSingle(e.pkt, f);
      }
      assert OfFlow(Taken(c, s, e, q), f)
             == if e.Arrive? && e.pkt.flow == f && s.queuesize + e.pkt.size <= c.maxsize then [e.pkt] else [];
      Associative(CompletedOf(tr, es, f, n - 1), Completed(s, e, f), OfFlow(tr[n].subs[q], f));
      Associative(CompletedOf(tr, es, f, n - 1), OfFlow(s.subs[q], f), OfFlow(Taken(c, s, e, q), f));
    }
  }

  // ----- fairness -------------------------------------------------------------------

  /** No other flow that sends hashes to the sub-queue of `f`. */
  ghost predicate Alone(c: Config, es: seq<Event>, f: nat)
    requires Valid(c)
  {
    forall k :: 0 <= k < |es| && es[k].Arrive? && es[k].pkt.flow != f ==>
      SubQueue(c, es[k].pkt.flow) != SubQueue(c, f)
  }

  /** Flows numbered below `nQueue` are all alone, unless 7643 divides `nQueue`. */
  lemma SmallFlowsAlone(c: Config, es: seq<Event>, f: nat)
    requires Valid(c) && c.nQueue % 7643 != 0 && f < c.nQueue
    requires forall k :: 0 <= k < |es| && es[k].Arrive? ==> es[k].pkt.flow < c.nQueue
    ensures Alone(c, es, f)
  {
    hide SubQueue;
    SubQueuesSpread(c);
  }

  /** Bytes of flow `f` completed by events `a` to `b`. */
  function CompletedBytes(tr: seq<State>, es: seq<Event>, f: nat, a: nat, b: nat): nat
    requires a <= b <= |es| < |tr|
    decreases b
  {
    if a == b then 0 else CompletedBytes(tr, es, f, a, b - 1) + Bytes(Completed(tr[b - 1], es[b - 1], f))
  }

  /** A flow that is alone in its sub-queue gets all of its service. */
  lemma ServedIsFlows(c: Config, tr: seq<State>, es: seq<Event>, max: nat, f: nat, n: nat)
    requires IsRun(c, tr, es, max) && n < |es| && tr[0] == Init(c) && Valid(c) && Alone(c, es, f)
    ensures Served(tr[n], es[n], SubQueue(c, f)) == Bytes(Completed(tr[n], es[n], f))
  {
    hide Next, Bounded, Distinct, SubQueue, Flat;
    RunHomed(c, tr, es, max, n);
    RunStep(c, tr, es, max, n);
    var s := tr[n];
    if es[n].Completion? {
      var p := s.subs[s.active[0]][0];
      assert InService(s) == Some(p);
      assert Came(c, es, n, s.active[0], p);
      BytesSingle(p);
    }
  }

  lemma {:induction false} ServedBetweenIsFlows(c: Config, tr: seq<State>, es: seq<Event>, max: nat,
                                                f: nat, a: nat, b: nat)
    requires IsRun(c, tr, es, max) && a <= b <= |es| && tr[0] == Init(c) && Valid(c) && Alone(c, es, f)
    ensures ServedBetween(tr, es, SubQueue(c, f), a, b) == CompletedBytes(tr, es, f, a, b)
    decreases b
  {
    hide IsRun, Served, Completed, SubQueue, Alone;
    if a == b {
    } else {
      ServedBetweenIsFlows(c, tr, es, max, f, a, b - 1);
      ServedIsFlows(c, tr, es, max, f, b - 1);
    }
  }

  /** Flow `f` has a packet waiting or in service in every state from `a` to `b`. */
  ghost predicate FlowBacklogged(c: Config, tr: seq<State>, f: nat, a: nat, b: nat)
    requires Valid(c)
  {
    forall k :: a <= k <= b && k < |tr| ==>
      SubQueue(c, f) < |tr[k].subs| && OfFlow(tr[k].subs[SubQueue(c, f)], f) != []
  }

  lemma BackloggedSubQueue(c: Config, tr: seq<State>, es: seq<Event>, max: nat, f: nat, a: nat, b: nat)
    requires IsRun(c, tr, es, max) && b <= |es| && Valid(c) && FlowBacklogged(c, tr, f, a, b)
    ensures Backlogged(tr, SubQueue(c, f), a, b)
  {
    hide IsRun, SubQueue, Inv, Bounded, Distinct;
    OfFlowEmpty(f);
    forall k | a <= k <= b && k < |tr| ensures SubQueue(c, f) in tr[k].active {
      RunInv(c, tr, es, max, k);
    }
  }

  /** Fairness between flows: two flows that are alone in their sub-queues and stay backlogged
      complete bytes that differ by at most a quantum and two packets less two bytes. */
  lemma FlowFairness(c: Config, tr: seq<State>, es: seq<Event>, max: nat, f: nat, g: nat, a: nat, b: nat)
    requires IsRun(c, tr, es, max) && a <= b <= |es| && tr[0] == Init(c) && Valid(c)
    requires Alone(c, es, f) && Alone(c, es, g)
    requires FlowBacklogged(c, tr, f, a, b) && FlowBacklogged(c, tr, g, a, b)
    ensures var gap := CompletedBytes(tr, es, f, a, b) - CompletedBytes(tr, es, g, a, b);
            -(c.quantum + 2 * (max - 1)) <= gap <= c.quantum + 2 * (max - 1)
  {
    hide IsRun, SubQueue, Alone;
    BackloggedSubQueue(c, tr, es, max, f, a, b);
    BackloggedSubQueue(c, tr, es, max, g, a, b);
    ServedBetweenIsFlows(c, tr, es, max, f, a, b);
    ServedBetweenIsFlows(c, tr, es, max, g, a, b);
    Fairness(c, tr, es, max, SubQueue(c, f), SubQueue(c, g), a, b);
  }

  /** With at most `nQueue` flows, numbered from 0, any two that stay backlogged are treated so,
      unless 7643 divides `nQueue`. */
  lemma SmallFlowFairness(c: Config, tr: seq<State>, es: seq<Event>, max: nat, f: nat, g: nat, a: nat, b: nat)
    requires IsRun(c, tr, es, max) && a <= b <= |es| && tr[0] == Init(c) && Valid(c)
    requires c.nQueue % 7643 != 0 && f < c.nQueue && g < c.nQueue
    requires forall k :: 0 <= k < |es| && es[k].Arrive? ==> es[k].pkt.flow < c.nQueue
    requires FlowBacklogged(c, tr, f, a, b) && FlowBacklogged(c, tr, g, a, b)
    ensures var gap := CompletedBytes(tr, es, f, a, b) - CompletedBytes(tr, es, g, a, b);
            -(c.quantum + 2 * (max - 1)) <= gap <= c.quantum + 2 * (max - 1)
  {
    hide IsRun, Alone, FlowBacklogged, CompletedBytes;
    SmallFlowsAlone(c, es, f);
    SmallFlowsAlone(c, es, g);
    FlowFairness(c, tr, es, max, f, g, a, b);
  }
}

/** What `StocFairQueue` guarantees over whole runs: order, fairness, freedom from starvation. */
module StocFairQueueRuns {
  import opened Packets
  import opened Arithmetic
  import opened StocFairQueueSpec

  datatype Event = Arrive(pkt: Packet) | Completion

  ghost predicate Enabled(s: State, e: Event) {
    match e
    case Arrive(p) => p.size >= 1
    case Completion => s.nPackets > 0
  }

  function Next(c: Config, s: State, e: Event): State
    requires Inv(c, s) && Enabled(s, e)
  {
    match e
    case Arrive(p) => Receive(c, s, p)
    case Completion => Complete(c, s)
  }

  /** A run with packets of at most `max` bytes. `Next` is defined in every state it meets (RunInv). */
  ghost predicate IsRun(c: Config, tr: seq<State>, es: seq<Event>, max: nat) {
    && max >= 1
    && |tr| == |es| + 1
    && Inv(c, tr[0]) && Bounded(c, tr[0], max)
    && forall k :: 0 <= k < |es| ==>
         && Enabled(tr[k], es[k]) && (es[k].Arrive? ==> es[k].pkt.size <= max)
         && (Inv(c, tr[k]) ==> tr[k + 1] == Next(c, tr[k], es[k]))
  }

  lemma {:induction false} RunInv(c: Config, tr: seq<State>, es: seq<Event>, max: nat, n: nat)
    requires IsRun(c, tr, es, max) && n <= |es|
    ensures |tr| == |es| + 1 && Inv(c, tr[n]) && Shape(c, tr[n]) && Bounded(c, tr[n], max)
  {
    hide Bounded, Covered, Receive, Complete, CreditsOk, Flat, Bytes;
    if n == 0 {
    } else {
      RunInv(c, tr, es, max, n - 1);
      match es[n - 1]
      case Arrive(p) => ReceiveInv(c, tr[n - 1], p);
      case Completion => CompleteInv(c, tr[n - 1]);
    }
  }

  /** One step of a run, for the inductions below. */
  lemma RunStep(c: Config, tr: seq<State>, es: seq<Event>, max: nat, n: nat)
    requires IsRun(c, tr, es, max) && n < |es|
    ensures max >= 1 && |tr| == |es| + 1
    ensures Inv(c, tr[n]) && Shape(c, tr[n]) && Bounded(c, tr[n], max)
    ensures Enabled(tr[n], es[n]) && tr[n + 1] == Next(c, tr[n], es[n])
    ensures Shape(c, tr[n + 1])
  {
    hide Inv, Shape, Bounded, Next;
    RunInv(c, tr, es, max, n);
    RunInv(c, tr, es, max, n + 1);
  }

  /** Bytes of sub-queue `q` whose service an event completes. */
  function Served(s: State, e: Event, q: nat): nat {
    if e.Completion? && s.active != [] && s.active[0] == q then SizeOf(InService(s)) else 0
  }

  function ServedBetween(tr: seq<State>, es: seq<Event>, q: nat, a: nat, b: nat): nat
    requires a <= b <= |es| < |tr|
    decreases b
  {
    if a == b then 0 else ServedBetween(tr, es, q, a, b - 1) + Served(tr[b - 1], es[b - 1], q)
  }

  // ----- order ----------------------------------------------------------------------

  function Taken(c: Config, s: State, e: Event, q: nat): seq<Packet>
    requires Valid(c)
  {
    if e.Arrive? && Accepts(c, s, e.pkt) && SubQueue(c, e.pkt.flow) == q then [e.pkt] else []
  }

  function Left(s: State, e: Event, q: nat): seq<Packet> {
    if e.Completion? && s.active != [] && s.active[0] == q then Listed(InService(s)) else []
  }

  lemma BeginKeepsSubs(c: Config, s: State)
    requires Core(c, s)
    ensures Begin(c, s).subs == s.subs
  {
    if s.nPackets > 0 {
      SettleInv(c, s);
    }
  }

  lemma DequeueOrder(c: Config, s: State, q: nat)
    requires Inv(c, s) && s.nPackets > 0 && s.queuesize >= HeadSize(s, s.active[0]) && q < c.nQueue
    ensures |Dequeue(c, s).subs| == c.nQueue
    ensures Left(s, Completion, q) + Dequeue(c, s).subs[q] == s.subs[q]
  {
    hide Flat, Bytes, CreditsOk, Distinct;
    var x := s.subs[s.active[0]];
    assert x == [x[0]] + x[1..];
  }

  lemma EnqueueOrder(c: Config, s: State, p: Packet, q: nat)
    requires Shape(c, s) && q < c.nQueue && Accepts(c, s, p)
    ensures |Enqueue(c, s, p).subs| == c.nQueue
    ensures Enqueue(c, s, p).subs[q] == s.subs[q] + Taken(c, s, Arrive(p), q)
  {
    hide SubQueue, Distinct;
  }

  /** Sub-queues are FIFO: each event takes from the front and adds at the back. */
  lemma StepOrder(c: Config, s: State, e: Event, q: nat)
    requires Inv(c, s) && Enabled(s, e) && q < c.nQueue
    ensures |Next(c, s, e).subs| == c.nQueue
    ensures Left(s, e, q) + Next(c, s, e).subs[q] == s.subs[q] + Taken(c, s, e, q)
  {
    hide Flat, Bytes, SubQueue, CreditsOk, Distinct, Begin, Dequeue, Enqueue;
    match e {
      case Completion =>
        DequeueCore(c, s);
        DequeueOrder(c, s, q);
        BeginKeepsSubs(c, Dequeue(c, s));
      case Arrive(p) =>
        if Accepts(c, s, p) {
          EnqueueCore(c, s, p);
          EnqueueOrder(c, s, p, q);
          BeginKeepsSubs(c, Enqueue(c, s, p));
        }
    }
  }

  function AllTaken(c: Config, tr: seq<State>, es: seq<Event>, q: nat, n: nat): seq<Packet>
    requires Valid(c) && n <= |es| < |tr|
  {
    if n == 0 then [] else AllTaken(c, tr, es, q, n - 1) + Taken(c, tr[n - 1], es[n - 1], q)
  }

  function AllLeft(tr: seq<State>, es: seq<Event>, q: nat, n: nat): seq<Packet>
    requires n <= |es| < |tr|
  {
    if n == 0 then [] else AllLeft(tr, es, q, n - 1) + Left(tr[n - 1], es[n - 1], q)
  }

  /** Whatever a sub-queue accepted has left, in order, or is still waiting, in order. */
  lemma {:induction false} SubQueueOrder(c: Config, tr: seq<State>, es: seq<Event>, max: nat, q: nat, n: nat)
    requires IsRun(c, tr, es, max) && n <= |es| && q < c.nQueue && tr[0] == Init(c)
    ensures |tr[n].subs| == c.nQueue
    ensures AllLeft(tr, es, q, n) + tr[n].subs[q] == AllTaken(c, tr, es, q, n)
  {
    hide Next, Taken, Left, Core, Covered, Bounded;
    RunInv(c, tr, es, max, n);
    if n == 0 {
    } else {
      SubQueueOrder(c, tr, es, max, q, n - 1);
      RunStep(c, tr, es, max, n - 1);
      StepOrder(c, tr[n - 1], es[n - 1], q);
      assert AllLeft(tr, es, q, n) + tr[n].subs[q]
             == AllLeft(tr, es, q, n - 1) + (Left(tr[n - 1], es[n - 1], q) + tr[n].subs[q]);
    }
  }

  // ----- fairness -------------------------------------------------------------------

  /** `i` comes before `j` in the round-robin list. */
  predicate Before(a: seq<nat>, i: nat, j: nat) {
    a != [] && a[0] != j && (a[0] == i || Before(a[1..], i, j))
  }

  /** Lead of `i` over `j`: a grant flips the list order and pays for it with a quantum. */
  function Lead(c: Config, s: State, i: nat, j: nat): int
    requires i < |s.credits| && j < |s.credits|
  {
    (if Before(s.active, i, j) then c.quantum else 0) + s.credits[i] - s.credits[j]
  }

  lemma {:induction false} BeforeAppend(a: seq<nat>, x: nat, i: nat, j: nat)
    requires i != j
    ensures i in a || j in a ==> Before(a + [x], i, j) == Before(a, i, j) || (x == j && j !in a)
    ensures i in a && j !in a ==> Before(a + [x], i, j)
    ensures j in a && i !in a ==> !Before(a + [x], i, j)
  {
    if a == [] {
    } else {
      BeforeAppend(a[1..], x, i, j);
      assert (a + [x])[1..] == a[1..] + [x];
    }
  }

  lemma {:induction false} BeforeMember(a: seq<nat>, i: nat, j: nat)
    requires i != j
    ensures Before(a, i, j) ==> i in a
    ensures i in a && j in a ==> Before(a, i, j) == !Before(a, j, i)
    ensures i in a && j !in a ==> Before(a, i, j)
  {
    if a == [] {
    } else {
      BeforeMember(a[1..], i, j);
    }
  }

  lemma GrantLead(c: Config, s: State, i: nat, j: nat)
    requires Shape(c, s) && s.active != [] && i != j && i in s.active && j in s.active
    ensures i < c.nQueue && j < c.nQueue
    ensures Lead(c, Grant(c, s), i, j) == Lead(c, s, i, j)
  {
    var x, rest := s.active[0], s.active[1..];
    assert s.active == [x] + rest;
    assert x !in rest;
    BeforeAppend(rest, x, i, j);
    BeforeMember(rest, i, j);
  }

  lemma {:induction false} SettleLead(c: Config, s: State, i: nat, j: nat)
    requires Core(c, s) && s.active != [] && i != j && i in s.active && j in s.active
    ensures i < c.nQueue && j < c.nQueue && |Settle(c, s).credits| == c.nQueue
    ensures Lead(c, Settle(c, s), i, j) == Lead(c, s, i, j)
    decreases Deficit(s.subs, s.credits, |s.subs|)
  {
    hide Lead, Flat, Bytes, CreditsOk, Deficit;
    SettleInv(c, s);
    if !Covered(s) {
      GrantShape(c, s);
      GrantProgress(c, s);
      GrantCore(c, s);
      GrantLead(c, s, i, j);
      SettleLead(c, Grant(c, s), i, j);
    } else {
      GrantLead(c, s, i, j);
    }
  }

  lemma DequeueLead(c: Config, s: State, i: nat, j: nat)
    requires Inv(c, s) && s.nPackets > 0 && s.queuesize >= HeadSize(s, s.active[0])
    requires i != j && i < c.nQueue && j < c.nQueue
    requires i in s.active && i in Dequeue(c, s).active && j in s.active && j in Dequeue(c, s).active
    ensures Lead(c, Dequeue(c, s), i, j)
            == Lead(c, s, i, j) - Served(s, Completion, i) + Served(s, Completion, j)
  {}

  lemma EnqueueLead(c: Config, s: State, p: Packet, i: nat, j: nat)
    requires Core(c, s) && i != j && i in s.active && j in s.active
    ensures i < c.nQueue && j < c.nQueue
    ensures Lead(c, Enqueue(c, s, p), i, j) == Lead(c, s, i, j)
  {
    hide Flat, Bytes, SubQueue;
    BeforeAppend(s.active, SubQueue(c, p.flow), i, j);
  }

  lemma BusyCounts(c: Config, s: State)
    requires Core(c, s) && s.active != []
    ensures s.nPackets > 0
  {
    FlatSplit(s.subs, s.active[0]);
  }

  /** The law behind fairness: service moves the lead of one busy sub-queue over
      another byte for byte; grants and arrivals do not move it at all. */
  lemma LeadStep(c: Config, s: State, e: Event, i: nat, j: nat)
    requires Inv(c, s) && Enabled(s, e) && i != j && i < c.nQueue && j < c.nQueue
    requires i in s.active && j in s.active
    requires i in Next(c, s, e).active && j in Next(c, s, e).active
    ensures |Next(c, s, e).credits| == c.nQueue
    ensures Lead(c, Next(c, s, e), i, j) == Lead(c, s, i, j) - Served(s, e, i) + Served(s, e, j)
  {
    hide Flat, Bytes, SubQueue, Lead, CreditsOk, Dequeue, Enqueue;
    match e {
      case Completion =>
        DequeueCore(c, s);
        var t := Dequeue(c, s);
        if t.nPackets > 0 {
          SettleInv(c, t);
          SettleLead(c, t, i, j);
        }
        DequeueLead(c, s, i, j);
      case Arrive(p) =>
        if Accepts(c, s, p) {
          BusyCounts(c, s);
          EnqueueCore(c, s, p);
          EnqueueLead(c, s, p, i, j);
        }
    }
  }

  /** The lead of a busy sub-queue stays in a window of a quantum and two packets less two bytes. */
  lemma LeadRange(c: Config, s: State, i: nat, j: nat, max: nat)
    requires Inv(c, s) && Bounded(c, s, max) && i != j && i in s.active && j in s.active
    ensures i < c.nQueue && j < c.nQueue
    ensures -(max - 1) <= Lead(c, s, i, j) <= c.quantum + max - 1
  {}

  /** Sub-queue `q` is busy in every state from `a` to `b`. */
  ghost predicate Backlogged(tr: seq<State>, q: nat, a: nat, b: nat) {
    forall k :: a <= k <= b && k < |tr| ==> q in tr[k].active
  }

  lemma {:induction false} LeadTracksService(c: Config, tr: seq<State>, es: seq<Event>, max: nat,
                                             i: nat, j: nat, a: nat, b: nat)
    requires IsRun(c, tr, es, max) && a <= b <= |es| && i != j && i < c.nQueue && j < c.nQueue
    requires Backlogged(tr, i, a, b) && Backlogged(tr, j, a, b)
    ensures |tr[a].credits| == |tr[b].credits| == c.nQueue
    ensures Lead(c, tr[b], i, j) == Lead(c, tr[a], i, j)
                                    - ServedBetween(tr, es, i, a, b) + ServedBetween(tr, es, j, a, b)
    decreases b
  {
    hide Lead, Next, Served, Inv, Bounded, Distinct, Enabled;
    RunInv(c, tr, es, max, a);
    RunInv(c, tr, es, max, b);
    if a == b {
    } else {
      RunStep(c, tr, es, max, b - 1);
      LeadTracksService(c, tr, es, max, i, j, a, b - 1);
      hide IsRun;
      LeadStep(c, tr[b - 1], es[b - 1], i, j);
    }
  }

  /** Fairness: sub-queues that stay busy are served within a quantum plus two packets
      of each other, over any stretch of any run. */
  lemma Fairness(c: Config, tr: seq<State>, es: seq<Event>, max: nat, i: nat, j: nat, a: nat, b: nat)
    requires IsRun(c, tr, es, max) && a <= b <= |es| && i < c.nQueue && j < c.nQueue
    requires Backlogged(tr, i, a, b) && Backlogged(tr, j, a, b)
    ensures var gap := ServedBetween(tr, es, i, a, b) - ServedBetween(tr, es, j, a, b);
            -(c.quantum + 2 * (max - 1)) <= gap <= c.quantum + 2 * (max - 1)
  {
    if i != j {
      hide Lead, Inv, Bounded, Next;
      LeadTracksService(c, tr, es, max, i, j, a, b);
      RunInv(c, tr, es, max, a);
      RunInv(c, tr, es, max, b);
      LeadRange(c, tr[a], i, j, max);
      LeadRange(c, tr[b], i, j, max);
    }
  }

  // ----- no starvation --------------------------------------------------------------

  function Credit(credits: seq<nat>, q: nat): nat {
    if q < |credits| then credits[q] else 0
  }

  /** Credits of the sub-queues in front of `k`: what they may spend before its turn. */
  function Ahead(a: seq<nat>, credits: seq<nat>, k: nat): nat {
    if a == [] || a[0] == k then 0 else Credit(credits, a[0]) + Ahead(a[1..], credits, k)
  }

  /** Grants `k` still needs before it can pay for `len` bytes. */
  function GrantsNeeded(c: Config, s: State, k: nat, len: nat): nat
    requires Valid(c) && k < |s.credits|
  {
    if s.credits[k] >= len then 0 else CeilDiv(len - s.credits[k], c.quantum)
  }

  /** Most bytes the other sub-queues can complete in one turn of the list. */
  function TurnBound(c: Config, max: nat): nat
    requires c.nQueue >= 1 && c.quantum + max >= 1
  {
    (c.nQueue - 1) * (c.quantum + max - 1)
  }

  /** Most bytes the others can complete before sub-queue `k` starts serving `len` bytes. */
  function Wait(c: Config, s: State, k: nat, len: nat, max: nat): nat
    requires Shape(c, s) && k < c.nQueue
  {
    Ahead(s.active, s.credits, k) + GrantsNeeded(c, s, k, len) * TurnBound(c, max)
  }

  lemma {:induction false} AheadBound(a: seq<nat>, credits: seq<nat>, k: nat, top: nat)
    requires forall q: nat :: Credit(credits, q) <= top
    ensures k in a ==> Ahead(a, credits, k) <= (|a| - 1) * top
    ensures Ahead(a, credits, k) <= |a| * top
  {
    if a == [] {
    } else {
      AheadBound(a[1..], credits, k, top);
      OneMore(|a| - 1, top);
      if a[0] != k && k in a {
        assert k in a[1..];
        OneMore(|a| - 2, top);
      }
    }
  }

  lemma {:induction false} AheadFrame(a: seq<nat>, credits: seq<nat>, credits': seq<nat>, k: nat)
    requires forall q :: q in a ==> Credit(credits, q) == Credit(credits', q)
    ensures Ahead(a, credits, k) == Ahead(a, credits', k)
  {
    if a == [] {
    } else {
      assert a[0] in a;
      AheadFrame(a[1..], credits, credits', k);
    }
  }

  lemma {:induction false} AheadAppend(a: seq<nat>, credits: seq<nat>, k: nat, x: nat)
    requires k in a
    ensures Ahead(a + [x], credits, k) == Ahead(a, credits, k)
  {
    if a[0] == k {
    } else {
      assert (a + [x])[1..] == a[1..] + [x];
      AheadAppend(a[1..], credits, k, x);
    }
  }

  /** The front sub-queue leaves the line, or just spends; the others' credits stay. */
  lemma AheadFront(a: seq<nat>, credits: seq<nat>, k: nat, x: nat)
    requires a != [] && a[0] != k && k in a && Distinct(a) && a[0] < |credits|
    ensures var q, rest := a[0], a[1..];
            && q !in rest && k in rest
            && Ahead(rest, credits[q := x], k) == Ahead(a, credits, k) - credits[q]
            && Ahead(a, credits[q := x], k) == Ahead(a, credits, k) - credits[q] + x
            && Ahead(rest + [q], credits[q := x], k) == Ahead(a, credits, k) - credits[q]
  {
    assert a == [a[0]] + a[1..];
    AheadFrame(a[1..], credits, credits[a[0] := x], k);
    AheadAppend(a[1..], credits[a[0] := x], k, a[0]);
  }

  function Elements(a: seq<nat>): set<nat> {
    if a == [] then {} else Elements(a[1..]) + {a[0]}
  }

  function Below(n: nat): set<nat> {
    if n == 0 then {} else Below(n - 1) + {n - 1}
  }

  lemma {:induction false} ElementsMember(a: seq<nat>)
    ensures forall x: nat :: x in Elements(a) <==> x in a
  {
    if a == [] {
    } else {
      ElementsMember(a[1..]);
      assert a == [a[0]] + a[1..];
    }
  }

  lemma {:induction false} DistinctElements(a: seq<nat>)
    requires Distinct(a)
    ensures |Elements(a)| == |a|
  {
    if a == [] {
    } else {
      hide Distinct;
      DistinctTail(a);
      DistinctElements(a[1..]);
      ElementsMember(a[1..]);
    }
  }

  lemma {:induction false} BelowSize(n: nat)
    ensures |Below(n)| == n && forall x: nat :: x in Below(n) <==> x < n
  {
    if n == 0 {
    } else {
      BelowSize(n - 1);
      assert n - 1 !in Below(n - 1);
    }
  }

  /** Distinct numbers below `n` are at most `n`. */
  lemma DistinctCount(a: seq<nat>, n: nat)
    requires Distinct(a) && forall i :: 0 <= i < |a| ==> a[i] < n
    ensures |a| <= n
  {
    DistinctElements(a);
    ElementsMember(a);
    BelowSize(n);
    assert Below(n) == Elements(a) + (Below(n) - Elements(a));
  }

  lemma TurnCovers(c: Config, s: State, k: nat, max: nat)
    requires Shape(c, s) && Bounded(c, s, max) && k in s.active
    ensures Ahead(s.active, s.credits, k) <= TurnBound(c, max)
  {
    AheadBound(s.active, s.credits, k, c.quantum + max - 1);
    DistinctCount(s.active, c.nQueue);
    MulMonotone(|s.active| - 1, c.nQueue - 1, c.quantum + max - 1);
  }

  /** A grant to the waiting sub-queue itself: a turn begins, and one grant less is missing. */
  lemma GrantWaitSelf(c: Config, s: State, len: nat, max: nat)
    requires Shape(c, s) && Bounded(c, s, max) && s.active != [] && !Covered(s)
    requires HeadSize(s, s.active[0]) == len && Shape(c, Grant(c, s)) && Bounded(c, Grant(c, s), max)
    ensures Wait(c, Grant(c, s), s.active[0], len, max) <= Wait(c, s, s.active[0], len, max)
  {
    hide CeilDiv, TurnBound, Ahead, Bounded;
    var t, k := Grant(c, s), s.active[0];
    CeilDivStep(len - s.credits[k], c.quantum);
    assert GrantsNeeded(c, s, k, len) == GrantsNeeded(c, t, k, len) + 1;
    assert Ahead(s.active, s.credits, k) >= 0;
    TurnCovers(c, t, k, max);
    OneMore(GrantsNeeded(c, t, k, len), TurnBound(c, max));
  }

  lemma GrantWaitOther(c: Config, s: State, k: nat, len: nat, max: nat)
    requires Shape(c, s) && s.active != [] && Shape(c, Grant(c, s)) && k in s.active
    requires s.active[0] != k && k < c.nQueue && max >= 1
    ensures Wait(c, Grant(c, s), k, len, max) <= Wait(c, s, k, len, max)
  {
    hide CeilDiv, TurnBound, Ahead;
    AheadFront(s.active, s.credits, k, s.credits[s.active[0]] + c.quantum);
  }

  lemma {:induction false} SettleWait(c: Config, s: State, k: nat, len: nat, max: nat)
    requires Core(c, s) && Bounded(c, s, max) && s.active != [] && k in s.active && max >= 1
    requires k < c.nQueue && HeadSize(s, k) == len
    ensures Shape(c, Settle(c, s))
    ensures Wait(c, Settle(c, s), k, len, max) <= Wait(c, s, k, len, max)
    decreases Deficit(s.subs, s.credits, |s.subs|)
  {
    hide Wait, Flat, Bytes, CreditsOk, Deficit, Bounded;
    SettleInv(c, s);
    if Covered(s) {
    } else {
      GrantShape(c, s);
      GrantProgress(c, s);
      GrantCore(c, s);
      if s.active[0] == k {
        GrantWaitSelf(c, s, len, max);
      } else {
        GrantWaitOther(c, s, k, len, max);
      }
      SettleWait(c, Grant(c, s), k, len, max);
    }
  }

  /** What another sub-queue completes comes off the wait of `k`, byte for byte. */
  lemma DequeueWait(c: Config, s: State, k: nat, len: nat, max: nat)
    requires Inv(c, s) && s.nPackets > 0 && s.queuesize >= HeadSize(s, s.active[0])
    requires max >= 1 && k in s.active && s.active[0] != k && k < c.nQueue
    requires Shape(c, Dequeue(c, s))
    ensures k in Dequeue(c, s).active && Dequeue(c, s).subs[k] == s.subs[k]
    ensures Wait(c, Dequeue(c, s), k, len, max) + HeadSize(s, s.active[0]) <= Wait(c, s, k, len, max)
  {
    hide Flat, Bytes, CeilDiv, TurnBound, Ahead, CreditsOk;
    var q := s.active[0];
    AheadFront(s.active, s.credits, k, 0);
    AheadFront(s.active, s.credits, k, s.credits[q] - HeadSize(s, q));
  }

  lemma EnqueueWait(c: Config, s: State, p: Packet, k: nat, len: nat, max: nat)
    requires Core(c, s) && max >= 1 && k in s.active && k < c.nQueue && Shape(c, Enqueue(c, s, p))
    ensures Wait(c, Enqueue(c, s, p), k, len, max) == Wait(c, s, k, len, max)
  {
    hide Flat, Bytes, CeilDiv, TurnBound, SubQueue, Ahead;
    var q, t := SubQueue(c, p.flow), Enqueue(c, s, p);
    if q !in s.active {
      AheadAppend(s.active, t.credits, k, q);
    }
    AheadFrame(s.active, s.credits, t.credits, k);
  }

  /** The packet at the head of `k` is not in service yet. */
  ghost predicate Pending(s: State, k: nat, p: Packet) {
    k < |s.subs| && s.subs[k] != [] && s.subs[k][0] == p
  }

  /** While `k` waits, each event takes at least the bytes it completes off `k`'s wait. */
  lemma WaitStep(c: Config, s: State, e: Event, k: nat, p: Packet, max: nat)
    requires Inv(c, s) && Bounded(c, s, max) && Enabled(s, e) && k < c.nQueue && max >= 1
    requires Pending(s, k, p) && s.active[0] != k
    ensures Shape(c, Next(c, s, e)) && Pending(Next(c, s, e), k, p)
    ensures Wait(c, Next(c, s, e), k, p.size, max) + (if e.Completion? then SizeOf(InService(s)) else 0)
            <= Wait(c, s, k, p.size, max)
  {
    hide Flat, Bytes, SubQueue, Wait, CreditsOk, Bounded, Dequeue, Enqueue;
    StepOrder(c, s, e, k);
    assert (Left(s, e, k) + Next(c, s, e).subs[k])[0] == Next(c, s, e).subs[k][0];
    match e {
      case Completion =>
        DequeueCore(c, s);
        DequeueWait(c, s, k, p.size, max);
        SettleInv(c, Dequeue(c, s));
        SettleWait(c, Dequeue(c, s), k, p.size, max);
        BusyCounts(c, Dequeue(c, s));
      case Arrive(q) =>
        BusyCounts(c, s);
        if Accepts(c, s, q) {
          EnqueueCore(c, s, q);
          EnqueueWait(c, s, q, k, p.size, max);
        }
    }
  }

  /** All bytes completed by events `a` to `b`. */
  function CompletedBetween(tr: seq<State>, es: seq<Event>, a: nat, b: nat): nat
    requires a <= b <= |es| < |tr|
    decreases b
  {
    if a == b then 0
    else CompletedBetween(tr, es, a, b - 1) +
         (if es[b - 1].Completion? then SizeOf(InService(tr[b - 1])) else 0)
  }

  /** Sub-queue `k` is never at the front from `a` up to, and not including, `b`. */
  ghost predicate NotServed(tr: seq<State>, k: nat, a: nat, b: nat) {
    forall t :: a <= t < b && t < |tr| ==> tr[t].active != [] && tr[t].active[0] != k
  }

  lemma {:induction false} WaitRun(c: Config, tr: seq<State>, es: seq<Event>, max: nat,
                                   k: nat, p: Packet, a: nat, b: nat)
    requires IsRun(c, tr, es, max) && a <= b <= |es| && k < c.nQueue
    requires Pending(tr[a], k, p) && NotServed(tr, k, a, b)
    ensures Shape(c, tr[a]) && Shape(c, tr[b]) && Pending(tr[b], k, p)
    ensures Wait(c, tr[b], k, p.size, max) + CompletedBetween(tr, es, a, b)
            <= Wait(c, tr[a], k, p.size, max)
    decreases b
  {
    hide Next, Wait, InService, SizeOf, Bounded, Inv, Distinct, Enabled;
    RunInv(c, tr, es, max, a);
    RunInv(c, tr, es, max, b);
    if a == b {
    } else {
      RunStep(c, tr, es, max, b - 1);
      WaitRun(c, tr, es, max, k, p, a, b - 1);
      hide IsRun;
      WaitStep(c, tr[b - 1], es[b - 1], k, p, max);
    }
  }

  lemma WaitingHasQuantum(c: Config, s: State, k: nat)
    requires Core(c, s) && k in s.active && s.active[0] != k
    ensures k < c.nQueue && s.credits[k] >= c.quantum
  {}

  lemma GrantsCover(len: nat, credit: nat, q: nat)
    requires q >= 1 && q <= credit < len
    ensures 1 + CeilDiv(len - credit, q) <= CeilDiv(len, q)
  {
    CeilDivStep(len, q);
    DivMonotone(len - credit + q - 1, len - q + q - 1, q);
  }

  lemma Turns(ahead: nat, grants: nat, turn: nat, turns: nat)
    requires ahead <= turn && 1 + grants <= turns
    ensures ahead + grants * turn <= turns * turn
  {
    OneMore(grants, turn);
    MulMonotone(grants + 1, turns, turn);
  }

  /** A waiting sub-queue already has a quantum, so one turn less than ceil(len / quantum) is missing. */
  lemma WaitBound(c: Config, s: State, k: nat, len: nat, max: nat)
    requires Inv(c, s) && Bounded(c, s, max) && k in s.active && s.active[0] != k && k < c.nQueue && len >= 1
    requires s.credits[k] >= c.quantum
    ensures Wait(c, s, k, len, max) <= CeilDiv(len, c.quantum) * TurnBound(c, max)
  {
    hide Flat, Bytes, CeilDiv, TurnBound, Ahead;
    TurnCovers(c, s, k, max);
    CeilDivStep(len, c.quantum);
    if s.credits[k] < len {
      GrantsCover(len, s.credits[k], c.quantum);
    }
    hide GrantsNeeded, CreditsOk, Bounded;
    Turns(Ahead(s.active, s.credits, k), GrantsNeeded(c, s, k, len), TurnBound(c, max),
          CeilDiv(len, c.quantum));
  }

  function CompletionsBetween(es: seq<Event>, a: nat, b: nat): nat
    requires a <= b <= |es|
    decreases b
  {
    if a == b then 0 else CompletionsBetween(es, a, b - 1) + (if es[b - 1].Completion? then 1 else 0)
  }

  lemma {:induction false} CompletionsPay(c: Config, tr: seq<State>, es: seq<Event>, max: nat, a: nat, b: nat)
    requires IsRun(c, tr, es, max) && a <= b <= |es|
    ensures CompletionsBetween(es, a, b) <= CompletedBetween(tr, es, a, b)
    decreases b
  {
    hide Next, Bounded, Flat, Bytes;
    if a == b {
    } else {
      RunInv(c, tr, es, max, b - 1);
      CompletionsPay(c, tr, es, max, a, b - 1);
    }
  }

  /** No starvation: once a packet heads its sub-queue, the rest complete at most
      ceil(size / quantum) turns of the list before its service begins, whatever arrives;
      so its service begins after at most that many completions. */
  lemma NoStarvation(c: Config, tr: seq<State>, es: seq<Event>, max: nat,
                     k: nat, p: Packet, a: nat, b: nat)
    requires IsRun(c, tr, es, max) && a <= b <= |es| && Valid(c) && k < c.nQueue && p.size >= 1
    requires Pending(tr[a], k, p) && NotServed(tr, k, a, b)
    ensures Pending(tr[b], k, p)
    ensures CompletedBetween(tr, es, a, b)
            <= CeilDiv(p.size, c.quantum) * TurnBound(c, max)
    ensures CompletionsBetween(es, a, b) <= CeilDiv(p.size, c.quantum) * TurnBound(c, max)
  {
    hide CeilDiv, Wait, Covered, Bounded, Next, TurnBound, CompletedBetween, CompletionsBetween, IsRun;
    CompletionsPay(c, tr, es, max, a, b);
    RunInv(c, tr, es, max, a);
    WaitRun(c, tr, es, max, k, p, a, b);
    if a < b {
      hide Flat, Bytes, CreditsOk;
      WaitingHasQuantum(c, tr[a], k);
      WaitBound(c, tr[a], k, p.size, max);
    }
  }
}

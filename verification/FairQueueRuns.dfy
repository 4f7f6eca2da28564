/** What `FairQueue` guarantees over whole runs: fairness, per-flow order, conservation. */
module FairQueueRuns {
  import opened Packets
  import opened FairQueueSpec

  datatype Event = Arrive(pkt: Packet) | Completion

  ghost predicate Enabled(s: State, e: Event) {
    match e
    case Arrive(p) => p.size >= 1
    case Completion => s.current.Some?
  }

  function Next(s: State, e: Event): State
    requires Inv(s) && Enabled(s, e)
  {
    match e
    case Arrive(p) => Receive(s, p)
    case Completion => Complete(s)
  }

  /** A run: any enabled events in any order. `Next` is defined in every state it meets (RunInv). */
  ghost predicate IsRun(tr: seq<State>, es: seq<Event>) {
    && |tr| == |es| + 1
    && Inv(tr[0])
    && forall k :: 0 <= k < |es| ==>
         Enabled(tr[k], es[k]) && (Inv(tr[k]) ==> tr[k + 1] == Next(tr[k], es[k]))
  }

  lemma NextInv(s: State, e: Event)
    requires Inv(s) && Enabled(s, e)
    ensures Inv(Next(s, e))
  {
    match e
    case Arrive(p) => ReceiveInv(s, p);
    case Completion => CompleteInv(s);
  }

  lemma {:induction false} RunInv(tr: seq<State>, es: seq<Event>, n: nat)
    requires IsRun(tr, es) && n <= |es|
    ensures Inv(tr[n])
  {
    if n == 0 {
    } else {
      RunInv(tr, es, n - 1);
      NextInv(tr[n - 1], es[n - 1]);
    }
  }

  // ----- what one event does --------------------------------------------------------

  /** The packet whose service an event starts. */
  function Entered(s: State, e: Event): Option<Packet>
    requires Inv(s) && Enabled(s, e)
  {
    if e.Arrive? && s.current.Some? then None else Next(s, e).current
  }

  function Departed(s: State, e: Event): seq<Packet> {
    if e.Completion? then Listed(s.current) else []
  }

  function Arrived(e: Event): seq<Packet> {
    if e.Arrive? then [e.pkt] else []
  }

  function DroppedBy(s: State, e: Event): seq<Packet>
    requires Inv(s) && Enabled(s, e)
  {
    match e
    case Arrive(p) => EnqueueCore(s, p); Dropped(Enqueue(s, p))
    case Completion => []
  }

  /** The packets of `f` in the system, in service order. */
  function Held(s: State, f: nat): seq<Packet> {
    OfFlow(Listed(s.current) + Pkts(s.packets), f)
  }

  lemma HeldParts(s: State, f: nat)
    ensures Held(s, f) == OfFlow(Listed(s.current), f) + Pkts(Waiting(s.packets, f))
  {
    OfFlowConcat(Listed(s.current), Pkts(s.packets), f);
    WaitingPkts(s.packets, f);
  }

  /** The packet that enters service comes before everything still waiting: its tag, which becomes
      the virtual time, is the least, and of equal tags the least identifier goes first. */
  lemma ServedFirst(s: State, e: Event)
    requires Inv(s) && Enabled(s, e) && Entered(s, e).Some?
    ensures var t, p := Next(s, e), Entered(s, e).value;
            forall x :: x in t.packets ==> t.round < x.tag || (t.round == x.tag && p.id <= x.pkt.id)
  {
    var before: State;
    match e {
      case Completion =>
        FinishCore(s);
        before := Finish(s);
      case Arrive(p) =>
        EnqueueCore(s, p);
        DropTailKeepsPrefix(Enqueue(s, p));
        before := DropTail(Enqueue(s, p));
    }
    assert Core(before) && Next(s, e) == Begin(before);
    SortedInOrder(before.packets);
    assert forall x :: x in before.packets[1..] ==> NotAfter(before.packets[0], x);
  }

  /** What an overloaded arrival drops comes after everything that stays. */
  lemma DropsLast(s: State, p: Packet)
    requires Inv(s) && p.size >= 1
    ensures Core(Enqueue(s, p))
    ensures var all, kept := Enqueue(s, p).packets, |DropTail(Enqueue(s, p)).packets|;
            && kept + |DroppedBy(s, Arrive(p))| == |all|
            && (forall i :: 0 <= i < |DroppedBy(s, Arrive(p))| ==>
                  DroppedBy(s, Arrive(p))[i] == all[|all| - 1 - i].pkt)
            && forall i, j :: 0 <= i < kept <= j < |all| ==>
                 all[i].tag < all[j].tag || (all[i].tag == all[j].tag && all[i].pkt.id <= all[j].pkt.id)
  {
    hide Core, Enqueue, DropTail, Dropped, Sorted;
    EnqueueCore(s, p);
    var t := Enqueue(s, p);
    DroppedLast(t);
    CoreSorted(t);
    SortedInOrder(t.packets);
    assert forall a, b :: NotAfter(a, b) ==> a.tag < b.tag || (a.tag == b.tag && a.pkt.id <= b.pkt.id);
  }

  // ----- virtual time and fairness --------------------------------------------------

  lemma RoundNeverDecreases(s: State, e: Event)
    requires Inv(s) && Enabled(s, e)
    ensures Next(s, e).round >= s.round
  {
    match e {
      case Completion =>
        FinishCore(s);
      case Arrive(p) =>
        EnqueueCore(s, p);
        DropTailKeepsPrefix(Enqueue(s, p));
        assert forall x :: x in Enqueue(s, p).packets ==> x.tag >= s.round;
    }
  }

  function EnteredBytes(s: State, e: Event, f: nat): nat
    requires Inv(s) && Enabled(s, e)
  {
    Bytes(OfFlow(Listed(Entered(s, e)), f))
  }

  lemma DropLastKeepsStart(s: State, f: nat)
    requires Core(s) && s.packets != [] && f in DropLast(s).nPackets
    ensures f in s.nPackets && Start(DropLast(s), f) == Start(s, f)
  {
    LastIsFlowLast(s);
    LastSplits(s.packets, f);
    DropLastCore(s);
    assert FlowOk(s, f) && FlowOk(DropLast(s), f);
    var w, w' := Waiting(s.packets, f), Waiting(DropLast(s).packets, f);
    if f == Last(s).flow {
      assert w == w' + [s.packets[|s.packets| - 1]];
      assert Chained(Start(s, f), w);
    } else {
      assert w' == w;
    }
  }

  /** Dropping never moves the start tag of a flow that stays in the system. */
  lemma {:induction false} DropTailKeepsStart(s: State, f: nat)
    requires Core(s) && f in DropTail(s).nPackets
    ensures f in s.nPackets && Start(DropTail(s), f) == Start(s, f)
    decreases |s.packets|
  {
    if s.queuesize <= s.maxsize {
    } else {
      OverfullHasWaiting(s);
      DropLastCore(s);
      DropTailKeepsStart(DropLast(s), f);
      DropLastKeepsStart(s, f);
    }
  }

  /** Serving a flow's packet advances its start tag by exactly the packet's size. */
  lemma BeginMovesStart(s: State, f: nat)
    requires Core(s) && s.current.None? && f in s.nPackets
    ensures Start(Begin(s), f) == Start(s, f) + Bytes(OfFlow(Listed(Begin(s).current), f))
  {
    assert FlowOk(s, f);
    var w, t := Waiting(s.packets, f), Begin(s);
    assert s.packets != [];
    var e := s.packets[0];
    if f == e.pkt.flow {
      assert w == [e] + Waiting(t.packets, f);
      assert Waiting(t.packets, f) == w[1..];
      assert Chained(w[0].tag, w[1..]);
      assert OfFlow([e.pkt], f) == [e.pkt];
    } else {
      assert Waiting(t.packets, f) == w;
      assert OfFlow([e.pkt], f) == [];
    }
  }

  lemma EnqueueKeepsStart(s: State, p: Packet, f: nat)
    requires Core(s) && p.size >= 1
    ensures Start(Enqueue(s, p), f) == Start(s, f)
  {
    EnqueueCore(s, p);
    assert FlowOk(s, f);
    var e := Entry(FinishTag(s, p), p);
    forall x | x in s.packets && x.pkt.flow == p.flow ensures x.tag < e.tag {
      TagsBelowNew(s, p, x);
    }
    InsertWaiting(s.packets, e, f);
    FinishTagContinues(s, p);
  }

  /** The law behind fairness: while a flow stays in the system, its start tag
      advances by exactly the bytes it enters into service, tail drops or not. */
  lemma StartAdvance(s: State, e: Event, f: nat)
    requires Inv(s) && Enabled(s, e) && f in s.nPackets && f in Next(s, e).nPackets
    ensures Start(Next(s, e), f) == Start(s, f) + EnteredBytes(s, e, f)
  {
    assert FlowOk(s, f);
    match e {
      case Completion =>
        FinishCore(s);
        assert FlowOk(Finish(s), f);
        BeginMovesStart(Finish(s), f);
      case Arrive(p) =>
        EnqueueKeepsStart(s, p, f);
        EnqueueCore(s, p);
        var t := Enqueue(s, p);
        DropTailKeepsPrefix(t);
        DropTailKeepsStart(t, f);
    }
  }

  lemma EnteredOther(s: State, e: Event, f: nat)
    requires Inv(s) && Enabled(s, e) && f !in Next(s, e).nPackets
    ensures EnteredBytes(s, e, f) == 0
  {
    NextInv(s, e);
    CoreFlow(Next(s, e), f);
    hide Core, Next;
    if Entered(s, e).Some? {
      OfFlowSingle(Entered(s, e).value, f);
    }
  }

  /** A flow that enters the system starts at virtual time. */
  lemma Joins(s: State, e: Event, f: nat)
    requires Inv(s) && Enabled(s, e) && f !in s.nPackets && f in Next(s, e).nPackets
    ensures Start(Next(s, e), f) == Start(s, f) + EnteredBytes(s, e, f)
  {
    CoreFlow(s, f);
    match e {
      case Completion =>
        FinishCore(s);
        CoreFlow(Finish(s), f);
      case Arrive(p) =>
        EnqueueKeepsStart(s, p, f);
        EnqueueCore(s, p);
        var t := Enqueue(s, p);
        DropTailKeepsPrefix(t);
        DropTailKeepsStart(t, f);
        if s.current.None? {
          BeginMovesStart(DropTail(t), f);
        }
    }
  }

  /** Flows that come and go fare no better: a start tag never lags behind the service. */
  lemma StartNeverLags(s: State, e: Event, f: nat)
    requires Inv(s) && Enabled(s, e)
    ensures Start(Next(s, e), f) >= Start(s, f) + EnteredBytes(s, e, f)
  {
    NextInv(s, e);
    RoundNeverDecreases(s, e);
    CoreFlow(s, f);
    CoreFlow(Next(s, e), f);
    hide Core;
    if f in Next(s, e).nPackets {
      if f in s.nPackets {
        StartAdvance(s, e, f);
      } else {
        Joins(s, e, f);
      }
    } else {
      EnteredOther(s, e, f);
    }
  }

  function EnteredBetween(tr: seq<State>, es: seq<Event>, f: nat, a: nat, b: nat): nat
    requires IsRun(tr, es) && a <= b <= |es|
    decreases b
  {
    if a == b then 0
    else
      RunInv(tr, es, b - 1);
      EnteredBetween(tr, es, f, a, b - 1) + EnteredBytes(tr[b - 1], es[b - 1], f)
  }

  /** Flow `f` has a packet in the system in every state from `a` to `b`. */
  ghost predicate Backlogged(tr: seq<State>, f: nat, a: nat, b: nat) {
    forall k :: a <= k <= b && k < |tr| ==> f in tr[k].nPackets
  }

  lemma {:induction false} StartTracksService(tr: seq<State>, es: seq<Event>, f: nat, a: nat, b: nat)
    requires IsRun(tr, es) && a <= b <= |es| && Backlogged(tr, f, a, b)
    ensures Start(tr[b], f) == Start(tr[a], f) + EnteredBetween(tr, es, f, a, b)
    decreases b
  {
    hide Core, FlowOk, Next, Start;
    if a == b {
    } else {
      RunInv(tr, es, b - 1);
      assert tr[b - 1 + 1] == Next(tr[b - 1], es[b - 1]);
      StartTracksService(tr, es, f, a, b - 1);
      StartAdvance(tr[b - 1], es[b - 1], f);
    }
  }

  /** Every waiting packet has at most `max` bytes. */
  ghost predicate SizesAtMost(s: State, max: nat) {
    forall x :: x in s.packets ==> x.pkt.size <= max
  }

  /** Virtual time lies within one packet of the start tag of every flow in the system. */
  lemma StartNearRound(s: State, f: nat, max: nat)
    requires Inv(s) && f in s.nPackets && SizesAtMost(s, max)
    ensures Start(s, f) <= s.round <= Start(s, f) + max
    ensures var w := Waiting(s.packets, f);
            w != [] ==> w[0].tag - w[0].pkt.size <= s.round <= w[0].tag
  {
    assert FlowOk(s, f);
    var w := Waiting(s.packets, f);
    if w != [] {
      WaitingMember(s.packets, f, w[0]);
    }
  }

  /** A backlogged flow's service is within one packet of the advance of virtual time. */
  lemma ServiceTracksRound(tr: seq<State>, es: seq<Event>, f: nat, a: nat, b: nat, max: nat)
    requires IsRun(tr, es) && a <= b <= |es| && Backlogged(tr, f, a, b)
    requires SizesAtMost(tr[a], max) && SizesAtMost(tr[b], max)
    ensures var advance := tr[b].round - tr[a].round;
            advance - max <= EnteredBetween(tr, es, f, a, b) <= advance + max
  {
    StartTracksService(tr, es, f, a, b);
    RunInv(tr, es, a);
    RunInv(tr, es, b);
    StartNearRound(tr[a], f, max);
    StartNearRound(tr[b], f, max);
  }

  lemma NextSizes(s: State, e: Event, max: nat)
    requires Inv(s) && Enabled(s, e) && SizesAtMost(s, max) && (e.Arrive? ==> e.pkt.size <= max)
    ensures SizesAtMost(Next(s, e), max)
  {
    hide Core, FinishTag, Insert;
    match e {
      case Completion =>
      case Arrive(p) =>
        EnqueueCore(s, p);
        DropTailKeepsPrefix(Enqueue(s, p));
        InsertMembers(s.packets, Entry(FinishTag(s, p), p));
    }
  }

  lemma {:induction false} RunSizes(tr: seq<State>, es: seq<Event>, n: nat, max: nat)
    requires IsRun(tr, es) && n <= |es| && SizesAtMost(tr[0], max)
    requires forall k :: 0 <= k < |es| && es[k].Arrive? ==> es[k].pkt.size <= max
    ensures SizesAtMost(tr[n], max)
  {
    hide SizesAtMost, Inv, Next;
    if n == 0 {
    } else {
      RunInv(tr, es, n - 1);
      RunSizes(tr, es, n - 1, max);
      NextSizes(tr[n - 1], es[n - 1], max);
    }
  }

  /** Fairness: any two flows that stay in the system get service that differs by at most
      two packets, over any stretch of any run, arrivals and overload drops included. */
  lemma Fairness(tr: seq<State>, es: seq<Event>, i: nat, j: nat, a: nat, b: nat, max: nat)
    requires IsRun(tr, es) && a <= b <= |es|
    requires Backlogged(tr, i, a, b) && Backlogged(tr, j, a, b)
    requires SizesAtMost(tr[0], max)
    requires forall k :: 0 <= k < |es| && es[k].Arrive? ==> es[k].pkt.size <= max
    ensures var gap := EnteredBetween(tr, es, i, a, b) - EnteredBetween(tr, es, j, a, b);
            -2 * max <= gap <= 2 * max
  {
    RunSizes(tr, es, a, max);
    RunSizes(tr, es, b, max);
    ServiceTracksRound(tr, es, i, a, b, max);
    ServiceTracksRound(tr, es, j, a, b, max);
  }

  lemma {:induction false} ServiceBehindStart(tr: seq<State>, es: seq<Event>, f: nat, a: nat, b: nat)
    requires IsRun(tr, es) && a <= b <= |es|
    ensures EnteredBetween(tr, es, f, a, b) <= Start(tr[b], f) - Start(tr[a], f)
    decreases b
  {
    hide Core, FlowOk, Next, Start;
    if a == b {
    } else {
      RunInv(tr, es, b - 1);
      assert tr[b - 1 + 1] == Next(tr[b - 1], es[b - 1]);
      ServiceBehindStart(tr, es, f, a, b - 1);
      StartNeverLags(tr[b - 1], es[b - 1], f);
    }
  }

  /** Entry `x` is flow `f`'s next packet to serve in every state from `a` to `b`. */
  ghost predicate HeadWaits(tr: seq<State>, f: nat, x: Entry, a: nat, b: nat) {
    forall k :: a <= k <= b && k < |tr| ==>
      Waiting(tr[k].packets, f) != [] && Waiting(tr[k].packets, f)[0] == x
  }

  /** Isolation: while a flow's next packet waits, no other flow, however it behaves, enters
      more than that packet's size plus one largest packet into service. */
  lemma Isolation(tr: seq<State>, es: seq<Event>, f: nat, x: Entry, g: nat, a: nat, b: nat, max: nat)
    requires IsRun(tr, es) && a <= b <= |es| && HeadWaits(tr, f, x, a, b)
    requires SizesAtMost(tr[0], max)
    requires forall k :: 0 <= k < |es| && es[k].Arrive? ==> es[k].pkt.size <= max
    ensures EnteredBetween(tr, es, g, a, b) <= x.pkt.size + max
  {
    RunInv(tr, es, a);
    RunInv(tr, es, b);
    RunSizes(tr, es, a, max);
    ServiceBehindStart(tr, es, g, a, b);
    CoreFlow(tr[a], f);
    CoreFlow(tr[a], g);
    CoreFlow(tr[b], g);
    WaitingMember(tr[b].packets, f, x);
    if g in tr[a].nPackets {
      StartNearRound(tr[a], g, max);
    }
  }

  // ----- overload -------------------------------------------------------------------

  lemma {:induction false} InsertLast(es: seq<Entry>, e: Entry)
    requires forall x :: x in es ==> !Less(e, x)
    ensures Insert(es, e) == es + [e]
  {
    if es == [] {
    } else {
      assert es[0] in es;
      InsertLast(es[1..], e);
    }
  }

  /** The tag an arrival continues from is what its flow's tag falls back to. */
  lemma TagFallsBack(s: State, p: Packet)
    requires Inv(s) && p.flow in s.nPackets
    ensures p.flow in s.flowRound && FinishTag(s, p) == s.flowRound[p.flow] + p.size
  {
    hide Core;
    CoreFlow(s, p.flow);
    FinishTagContinues(s, p);
  }

  lemma MapUndo(m: map<nat, nat>, k: nat, v: nat)
    ensures k !in m ==> m[k := v] - {k} == m
    ensures k in m ==> m[k := v][k := m[k]] == m
  {}

  lemma NonZeroCount(s: State, f: nat)
    requires Core(s)
    ensures if f in s.nPackets then s.nPackets[f] >= 1 else f !in s.flowRound
  {
    hide Core;
    CoreFlow(s, f);
  }

  lemma DropLastUndoesEnqueue(s: State, p: Packet)
    requires Inv(s) && p.size >= 1
    requires forall x :: x in s.packets ==> !Less(Entry(FinishTag(s, p), p), x)
    ensures Core(Enqueue(s, p)) && Enqueue(s, p).packets != [] && DropLast(Enqueue(s, p)) == s
  {
    hide Core, FlowOk, Waiting, Insert, Less, FinishTag;
    var e, t := Entry(FinishTag(s, p), p), Enqueue(s, p);
    InsertLast(s.packets, e);
    EnqueueCore(s, p);
    NonZeroCount(s, p.flow);
    MapUndo(s.nPackets, p.flow, t.nPackets[p.flow]);
    MapUndo(s.flowRound, p.flow, e.tag);
    if p.flow in s.nPackets {
      TagFallsBack(s, p);
    }
    assert t.packets == s.packets + [e];
    assert t.packets[..|t.packets| - 1] == s.packets;
  }

  /** Dropping the packet that has just arrived restores the whole previous state. */
  lemma DropUndoesArrival(s: State, p: Packet)
    requires Inv(s) && p.size >= 1 && s.queuesize + p.size > s.maxsize
    requires forall x :: x in s.packets ==> !Less(Entry(FinishTag(s, p), p), x)
    ensures Receive(s, p) == s
  {
    DropLastUndoesEnqueue(s, p);
    hide Core, DropLast;
    assert DropTail(s) == s;
    assert DropTail(Enqueue(s, p)) == DropTail(DropLast(Enqueue(s, p)));
  }

  // ----- order and conservation -----------------------------------------------------

  function AllDeparted(tr: seq<State>, es: seq<Event>, n: nat): seq<Packet>
    requires IsRun(tr, es) && n <= |es|
  {
    if n == 0 then [] else AllDeparted(tr, es, n - 1) + Departed(tr[n - 1], es[n - 1])
  }

  function AllArrived(es: seq<Event>, n: nat): seq<Packet>
    requires n <= |es|
  {
    if n == 0 then [] else AllArrived(es, n - 1) + Arrived(es[n - 1])
  }

  function AllDropped(tr: seq<State>, es: seq<Event>, n: nat): seq<Packet>
    requires IsRun(tr, es) && n <= |es|
  {
    if n == 0 then []
    else
      RunInv(tr, es, n - 1);
      AllDropped(tr, es, n - 1) + DroppedBy(tr[n - 1], es[n - 1])
  }

  lemma LastPkts(s: State)
    requires Core(s) && s.packets != []
    ensures Pkts(s.packets) == Pkts(DropLast(s).packets) + [Last(s)]
  {
    hide Core, FlowOk;
    var n := |s.packets| - 1;
    assert s.packets == s.packets[..n] + [s.packets[n]];
    PktsConcat(s.packets[..n], [s.packets[n]]);
    assert Pkts([s.packets[n]]) == [Last(s)];
  }

  lemma DropLastHeld(s: State, f: nat)
    requires Core(s) && s.packets != []
    ensures Held(s, f) == if Last(s).flow == f then Held(DropLast(s), f) + [Last(s)] else Held(DropLast(s), f)
  {
    hide Core, FlowOk, Pkts, OfFlow;
    var t, p, c := DropLast(s), Last(s), Listed(s.current);
    LastPkts(s);
    Associative(c, Pkts(t.packets), [p]);
    OfFlowConcat(c + Pkts(t.packets), [p], f);
    OfFlowSingle(p, f);
    assert Held(t, f) + [] == Held(t, f);
  }

  /** Tail drops only ever take the newest packets of a flow. */
  lemma {:induction false} DropTailOrder(s: State, f: nat, gone: seq<Packet>, arrived: seq<Packet>)
    requires Core(s) && IsSubsequence(gone + Held(s, f), arrived)
    ensures IsSubsequence(gone + Held(DropTail(s), f), arrived)
    decreases |s.packets|
  {
    hide Core, FlowOk, Held, IsSubsequence;
    if s.queuesize <= s.maxsize {
    } else {
      OverfullHasWaiting(s);
      DropLastCore(s);
      var t, p := DropLast(s), Last(s);
      DropLastHeld(s, f);
      if p.flow == f {
        Associative(gone, Held(t, f), [p]);
        assert ((gone + Held(t, f)) + [p])[..|gone + Held(t, f)|] == gone + Held(t, f);
        SubsequencePop(gone + Held(s, f), arrived);
      }
      DropTailOrder(t, f, gone, arrived);
    }
  }

  lemma EnqueueHeld(s: State, p: Packet, f: nat)
    requires Core(s) && p.size >= 1
    ensures Held(Enqueue(s, p), f) == Held(s, f) + OfFlow([p], f)
  {
    hide Core, FlowOk, Held, OfFlow, Waiting, Insert, Sorted;
    var e := Entry(FinishTag(s, p), p);
    CoreSorted(s);
    forall x | x in s.packets && x.pkt.flow == p.flow ensures x.tag < e.tag {
      TagsBelowNew(s, p, x);
    }
    InsertWaiting(s.packets, e, f);
    HeldParts(s, f);
    HeldParts(Enqueue(s, p), f);
    OfFlowSingle(p, f);
    PktsConcat(Waiting(s.packets, f), if f == p.flow then [e] else []);
    assert Pkts([e]) == [p];
  }

  lemma HeldInit(maxsize: nat, f: nat)
    ensures Held(Init(maxsize), f) == []
  {}

  lemma BeginHeld(s: State, f: nat)
    requires s.current.None?
    ensures Held(Begin(s), f) == Held(s, f)
  {
    if s.packets != [] {
      assert Listed(Begin(s).current) + Pkts(Begin(s).packets)
             == Listed(s.current) + Pkts(s.packets);
    }
  }

  lemma CompleteHeld(s: State, f: nat)
    requires Inv(s) && s.current.Some?
    ensures Held(s, f) == OfFlow(Listed(s.current), f) + Held(Complete(s), f)
  {
    OfFlowConcat(Listed(s.current), Pkts(s.packets), f);
    BeginHeld(Finish(s), f);
    assert Listed(Finish(s).current) + Pkts(s.packets) == Pkts(s.packets);
  }

  lemma StepOrder(s: State, e: Event, f: nat, gone: seq<Packet>, arrived: seq<Packet>)
    requires Inv(s) && Enabled(s, e)
    requires IsSubsequence(gone + Held(s, f), arrived)
    ensures IsSubsequence(gone + OfFlow(Departed(s, e), f) + Held(Next(s, e), f),
                          arrived + OfFlow(Arrived(e), f))
  {
    hide FlowOk, Held, OfFlow, IsSubsequence;
    match e {
      case Completion =>
        CompleteHeld(s, f);
        OfFlowEmpty(f);
        assert arrived + [] == arrived;
        assert gone + Held(s, f) == (gone + OfFlow(Departed(s, e), f)) + Held(Next(s, e), f);
      case Arrive(p) =>
        EnqueueCore(s, p);
        EnqueueHeld(s, p, f);
        OfFlowEmpty(f);
        OfFlowSingle(p, f);
        assert gone + [] == gone;
        var t := Enqueue(s, p);
        if p.flow == f {
          SubsequencePush(gone + Held(s, f), arrived, p);
          assert (gone + Held(s, f)) + [p] == gone + Held(t, f);
        } else {
          assert Held(s, f) + [] == Held(s, f) && arrived + [] == arrived;
        }
        DropTailOrder(t, f, gone, arrived + OfFlow([p], f));
        DropTailKeepsPrefix(t);
        if s.current.None? {
          BeginHeld(DropTail(t), f);
        }
    }
  }

  /** What has left of a flow followed by what is held is part of what arrived, in order. */
  lemma {:induction false} FlowSubsequence(tr: seq<State>, es: seq<Event>, f: nat, n: nat)
    requires IsRun(tr, es) && n <= |es| && tr[0] == Init(tr[0].maxsize)
    ensures IsSubsequence(OfFlow(AllDeparted(tr, es, n), f) + Held(tr[n], f),
                          OfFlow(AllArrived(es, n), f))
  {
    hide Core, FlowOk, Held, OfFlow, IsSubsequence, Next;
    if n > 0 {
      var s, e := tr[n - 1], es[n - 1];
      FlowSubsequence(tr, es, f, n - 1);
      RunInv(tr, es, n - 1);
      assert tr[n - 1 + 1] == Next(s, e);
      var gone, arrived := AllDeparted(tr, es, n - 1), AllArrived(es, n - 1);
      OfFlowConcat(gone, Departed(s, e), f);
      OfFlowConcat(arrived, Arrived(e), f);
      StepOrder(s, e, f, OfFlow(gone, f), OfFlow(arrived, f));
    } else {
      OfFlowEmpty(f);
      HeldInit(tr[0].maxsize, f);
      assert OfFlow(AllDeparted(tr, es, 0), f) + Held(tr[0], f) == [];
      EmptySubsequence(OfFlow(AllArrived(es, 0), f));
    }
  }

  function System(s: State): multiset<Packet> {
    multiset(Listed(s.current)) + multiset(Pkts(s.packets))
  }

  lemma DropLastConserves(s: State)
    requires Core(s) && s.packets != []
    ensures System(s) == System(DropLast(s)) + multiset{Last(s)}
  {
    hide Core, FlowOk, Pkts;
    LastPkts(s);
    MultisetConcat(Pkts(DropLast(s).packets), [Last(s)]);
  }

  lemma {:induction false} DropTailConserves(s: State)
    requires Core(s)
    ensures System(s) == System(DropTail(s)) + multiset(Dropped(s))
    decreases |s.packets|
  {
    hide Core, System;
    if s.queuesize <= s.maxsize {
    } else {
      OverfullHasWaiting(s);
      DropLastCore(s);
      DropTailConserves(DropLast(s));
      DropLastConserves(s);
      assert multiset(Dropped(s)) == multiset{Last(s)} + multiset(Dropped(DropLast(s)));
    }
  }

  lemma {:induction false} InsertPkts(es: seq<Entry>, e: Entry)
    ensures multiset(Pkts(Insert(es, e))) == multiset(Pkts(es)) + multiset{e.pkt}
  {
    if es == [] || Less(e, es[0]) {
    } else {
      InsertPkts(es[1..], e);
    }
  }

  lemma BeginConserves(s: State)
    requires s.current.None?
    ensures System(Begin(s)) == System(s)
  {}

  lemma ReceiveConserves(s: State, p: Packet)
    requires Inv(s) && p.size >= 1
    ensures Core(Enqueue(s, p))
    ensures System(s) + multiset{p} == System(Receive(s, p)) + multiset(Dropped(Enqueue(s, p)))
  {
    hide FlowOk, Dropped, DropTail;
    EnqueueCore(s, p);
    var t := Enqueue(s, p);
    InsertPkts(s.packets, Entry(FinishTag(s, p), p));
    assert System(t) == System(s) + multiset{p};
    hide Core, System;
    DropTailConserves(t);
    DropTailKeepsPrefix(t);
    if s.current.None? {
      BeginConserves(DropTail(t));
    }
  }

  lemma CompleteConserves(s: State)
    requires Inv(s) && s.current.Some?
    ensures System(s) == System(Complete(s)) + multiset{s.current.value}
  {}

  lemma StepConserves(s: State, e: Event)
    requires Inv(s) && Enabled(s, e)
    ensures System(s) + multiset(Arrived(e))
            == System(Next(s, e)) + multiset(Departed(s, e)) + multiset(DroppedBy(s, e))
  {
    hide System, Core, Receive, Complete;
    match e {
      case Completion => CompleteConserves(s);
      case Arrive(p) => ReceiveConserves(s, p);
    }
  }

  lemma MultisetSums<T>(arrived: multiset<T>, gone: multiset<T>, lost: multiset<T>, held: multiset<T>,
                        a: multiset<T>, g: multiset<T>, l: multiset<T>, held': multiset<T>)
    requires arrived == gone + lost + held
    requires held + a == held' + g + l
    ensures arrived + a == (gone + g) + (lost + l) + held'
  {
    assert arrived + a == gone + lost + (held + a);
  }

  lemma InitSystem(maxsize: nat)
    ensures System(Init(maxsize)) == multiset{}
  {}

  /** Nothing is lost or invented: arrivals are departures, drops and packets still held. */
  lemma {:induction false} Conservation(tr: seq<State>, es: seq<Event>, n: nat)
    requires IsRun(tr, es) && n <= |es| && tr[0] == Init(tr[0].maxsize)
    ensures multiset(AllArrived(es, n))
            == multiset(AllDeparted(tr, es, n)) + multiset(AllDropped(tr, es, n)) + System(tr[n])
  {
    hide Inv, Next, System, DroppedBy, Departed, Arrived;
    if n > 0 {
      var s, e := tr[n - 1], es[n - 1];
      Conservation(tr, es, n - 1);
      RunInv(tr, es, n - 1);
      assert tr[n - 1 + 1] == Next(s, e);
      StepConserves(s, e);
      MultisetConcat(AllArrived(es, n - 1), Arrived(e));
      MultisetConcat(AllDeparted(tr, es, n - 1), Departed(s, e));
      MultisetConcat(AllDropped(tr, es, n - 1), DroppedBy(s, e));
      hide IsRun;
      MultisetSums(multiset(AllArrived(es, n - 1)), multiset(AllDeparted(tr, es, n - 1)),
                   multiset(AllDropped(tr, es, n - 1)), System(s),
                   multiset(Arrived(e)), multiset(Departed(s, e)), multiset(DroppedBy(s, e)),
                   System(tr[n]));
    } else {
      InitSystem(tr[0].maxsize);
    }
  }

  lemma {:induction false} OfFlowCount(ps: seq<Packet>, f: nat, p: Packet)
    ensures multiset(OfFlow(ps, f))[p] == if p.flow == f then multiset(ps)[p] else 0
  {
    if ps == [] {
    } else {
      OfFlowCount(ps[1..], f, p);
      assert ps == [ps[0]] + ps[1..];
      MultisetConcat([ps[0]], ps[1..]);
      MultisetConcat([ps[0]], OfFlow(ps[1..], f));
    }
  }

  lemma OfFlowMultiset(xs: seq<Packet>, ys: seq<Packet>, f: nat)
    requires multiset(xs) == multiset(ys)
    ensures multiset(OfFlow(xs, f)) == multiset(OfFlow(ys, f))
  {
    hide OfFlow;
    forall p ensures multiset(OfFlow(xs, f))[p] == multiset(OfFlow(ys, f))[p] {
      OfFlowCount(xs, f, p);
      OfFlowCount(ys, f, p);
    }
  }

  /** Each flow leaves in arrival order: what has left followed by what is held is the arrival
      sequence with exactly the tail-dropped packets missing. */
  lemma FlowOrder(tr: seq<State>, es: seq<Event>, f: nat, n: nat)
    requires IsRun(tr, es) && n <= |es| && tr[0] == Init(tr[0].maxsize)
    ensures IsSubsequence(OfFlow(AllDeparted(tr, es, n), f) + Held(tr[n], f),
                          OfFlow(AllArrived(es, n), f))
    ensures multiset(OfFlow(AllArrived(es, n), f))
            == multiset(OfFlow(AllDeparted(tr, es, n), f) + Held(tr[n], f))
               + multiset(OfFlow(AllDropped(tr, es, n), f))
  {
    hide OfFlow, IsSubsequence, AllArrived, AllDeparted, AllDropped, Pkts, Init;
    FlowSubsequence(tr, es, f, n);
    Conservation(tr, es, n);
    var gone, lost, held := AllDeparted(tr, es, n), AllDropped(tr, es, n), Listed(tr[n].current) + Pkts(tr[n].packets);
    MultisetConcat(gone, held);
    MultisetConcat(gone + held, lost);
    MultisetConcat(Listed(tr[n].current), Pkts(tr[n].packets));
    OfFlowMultiset(AllArrived(es, n), gone + held + lost, f);
    OfFlowConcat(gone + held, lost, f);
    OfFlowConcat(gone, held, f);
    MultisetConcat(OfFlow(gone, f) + OfFlow(held, f), OfFlow(lost, f));
  }
}

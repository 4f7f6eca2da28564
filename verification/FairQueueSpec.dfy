/** Self-clocked fair queueing: the state of `FairQueue` in LAZY mode, the steps
    its methods take, and the invariant that every step keeps. */
module FairQueueSpec {
  import opened Packets

  /** A waiting packet together with its finish tag. */
  datatype Entry = Entry(tag: nat, pkt: Packet)

  datatype State = State(
    packets: seq<Entry>,        // ordered multiset: serve from the front, drop from the back
    flowRound: map<nat, nat>,   // finish tag of each flow's last packet
    nPackets: map<nat, nat>,    // packets of each flow in the system
    round: nat,                 // virtual time: tag of the packet in service
    current: Option<Packet>,    // packet in service
    queuesize: nat,
    maxsize: nat)

  function Init(maxsize: nat): State {
    State([], map[], map[], 0, None, 0, maxsize)
  }

  // ----- the ordered multiset -------------------------------------------------------

  predicate Less(a: Entry, b: Entry) {
    a.tag < b.tag || (a.tag == b.tag && a.pkt.id < b.pkt.id)
  }

  /** Multiset insertion: after every element that `e` does not precede. */
  function Insert(es: seq<Entry>, e: Entry): seq<Entry> {
    if es == [] || Less(e, es[0]) then [e] + es else [es[0]] + Insert(es[1..], e)
  }

  predicate Sorted(es: seq<Entry>) {
    forall i, j :: 0 <= i < j < |es| ==> !Less(es[j], es[i])
  }

  function Waiting(es: seq<Entry>, f: nat): seq<Entry> {
    if es == [] then []
    else if es[0].pkt.flow == f then [es[0]] + Waiting(es[1..], f)
    else Waiting(es[1..], f)
  }

  function Pkts(es: seq<Entry>): seq<Packet> {
    if es == [] then [] else [es[0].pkt] + Pkts(es[1..])
  }

  // ----- the invariant --------------------------------------------------------------

  function Count(s: State, f: nat): nat { if f in s.nPackets then s.nPackets[f] else 0 }

  /** The tag at which flow `f`'s next service starts: where its waiting tags begin. */
  function Start(s: State, f: nat): int {
    var w := Waiting(s.packets, f);
    if w == [] then s.round else w[0].tag - w[0].pkt.size
  }

  /** Each tag exceeds the previous one by exactly the size of its own packet. */
  predicate Chained(start: int, w: seq<Entry>)
    decreases w
  {
    w == [] || (w[0].tag == start + w[0].pkt.size && Chained(w[0].tag, w[1..]))
  }

  function EndTag(start: int, w: seq<Entry>): int {
    if w == [] then start else w[|w| - 1].tag
  }

  predicate InService(s: State, f: nat) {
    s.current.Some? && s.current.value.flow == f
  }

  predicate FlowOk(s: State, f: nat) {
    var w := Waiting(s.packets, f);
    && Count(s, f) == |w| + (if InService(s, f) then 1 else 0)
    && (f in s.nPackets <==> w != [] || InService(s, f))
    && (f in s.nPackets <==> f in s.flowRound)
    && (f in s.nPackets ==> s.flowRound[f] == EndTag(Start(s, f), w))
    && Chained(Start(s, f), w)
    && 0 <= Start(s, f) <= s.round
    && (InService(s, f) ==> Start(s, f) == s.round)
  }

  /** Holds at every point of every method, the drop loop included. */
  ghost predicate Core(s: State) {
    && Sorted(s.packets)
    && (forall e :: e in s.packets ==> e.tag >= s.round && e.pkt.size >= 1)
    && (forall f :: FlowOk(s, f))
    && s.queuesize == SizeOf(s.current) + Bytes(Pkts(s.packets))
    && (s.current.Some? ==> 1 <= s.current.value.size <= s.maxsize)
  }

  /** Holds between events. */
  ghost predicate Inv(s: State) {
    && Core(s)
    && s.queuesize <= s.maxsize
    && (s.current.None? ==> s.packets == [])
  }

  // ----- the steps ------------------------------------------------------------------

  /** The finish tag a new packet of `p.flow` gets. */
  function FinishTag(s: State, p: Packet): nat {
    if p.flow in s.flowRound && s.flowRound[p.flow] > s.round
    then s.flowRound[p.flow] + p.size
    else s.round + p.size
  }

  function Enqueue(s: State, p: Packet): State {
    var tag := FinishTag(s, p);
    s.(packets := Insert(s.packets, Entry(tag, p)),
       flowRound := s.flowRound[p.flow := tag],
       nPackets := s.nPackets[p.flow := Count(s, p.flow) + 1],
       queuesize := s.queuesize + p.size)
  }

  function Last(s: State): Packet
    requires s.packets != []
  {
    s.packets[|s.packets| - 1].pkt
  }

  /** Start serving the smallest tag and make it the virtual time. */
  function Begin(s: State): State {
    if s.packets == [] then s
    else s.(round := s.packets[0].tag, current := Some(s.packets[0].pkt), packets := s.packets[1..])
  }

  /** Account for the departure of the packet in service. */
  function Finish(s: State): State
    requires Core(s) && s.current.Some?
  {
    var p := s.current.value;
    assert FlowOk(s, p.flow);
    var t := s.(current := None, queuesize := s.queuesize - p.size);
    if s.nPackets[p.flow] == 1 then
      t.(flowRound := s.flowRound - {p.flow}, nPackets := s.nPackets - {p.flow})
    else
      t.(nPackets := s.nPackets[p.flow := s.nPackets[p.flow] - 1])
  }

  function Complete(s: State): State
    requires Core(s) && s.current.Some?
  {
    Begin(Finish(s))
  }

  // ----- list lemmas ----------------------------------------------------------------

  /** `CompareFqPackets` is a strict weak order, as an ordered multiset demands. */
  lemma LessIsStrictWeakOrder(a: Entry, b: Entry, c: Entry)
    ensures !Less(a, a)
    ensures Less(a, b) && Less(b, c) ==> Less(a, c)
    ensures !Less(a, b) && !Less(b, c) ==> !Less(a, c)
  {}

  /** The order of service: by tag, and among equal tags by packet identifier. */
  predicate NotAfter(a: Entry, b: Entry) {
    a.tag < b.tag || (a.tag == b.tag && a.pkt.id <= b.pkt.id)
  }

  lemma SortedInOrder(es: seq<Entry>)
    ensures Sorted(es) <==> forall i, j :: 0 <= i < j < |es| ==> NotAfter(es[i], es[j])
  {
    assert forall a, b :: NotAfter(a, b) <==> !Less(b, a);
  }

  /** An insertion goes behind everything it does not precede, equals included, and before the rest. */
  lemma {:induction false} InsertPlace(es: seq<Entry>, e: Entry) returns (k: nat)
    requires Sorted(es)
    ensures k <= |es| && Insert(es, e) == es[..k] + [e] + es[k..]
    ensures forall i :: 0 <= i < k ==> NotAfter(es[i], e)
    ensures forall i :: k <= i < |es| ==> !NotAfter(es[i], e)
  {
    if es == [] || Less(e, es[0]) {
      k := 0;
      SortedInOrder(es);
    } else {
      k := InsertPlace(es[1..], e);
      k := k + 1;
      assert es == [es[0]] + es[1..];
      assert forall i :: 1 <= i < |es| ==> es[i] == es[1..][i - 1];
    }
  }

  lemma {:induction false} WaitingConcat(a: seq<Entry>, b: seq<Entry>, f: nat)
    ensures Waiting(a + b, f) == Waiting(a, f) + Waiting(b, f)
  {
    if a == [] {
      assert a + b == b;
    } else {
      WaitingConcat(a[1..], b, f);
      assert (a + b)[1..] == a[1..] + b;
    }
  }

  lemma {:induction false} PktsConcat(a: seq<Entry>, b: seq<Entry>)
    ensures Pkts(a + b) == Pkts(a) + Pkts(b)
  {
    if a == [] {
      assert a + b == b;
    } else {
      PktsConcat(a[1..], b);
      assert (a + b)[1..] == a[1..] + b;
    }
  }

  lemma {:induction false} WaitingPkts(es: seq<Entry>, f: nat)
    ensures Pkts(Waiting(es, f)) == OfFlow(Pkts(es), f)
  {
    if es == [] {
    } else {
      WaitingPkts(es[1..], f);
      PktsConcat(if es[0].pkt.flow == f then [es[0]] else [], Waiting(es[1..], f));
    }
  }

  lemma {:induction false} WaitingMember(es: seq<Entry>, f: nat, e: Entry)
    ensures e in Waiting(es, f) <==> e in es && e.pkt.flow == f
  {
    if es == [] {
    } else {
      WaitingMember(es[1..], f, e);
    }
  }

  lemma {:induction false} InsertMembers(es: seq<Entry>, e: Entry)
    ensures multiset(Insert(es, e)) == multiset(es) + multiset{e}
    ensures |Insert(es, e)| == |es| + 1
    ensures forall x :: x in Insert(es, e) <==> x == e || x in es
  {
    if es == [] || Less(e, es[0]) {
    } else {
      InsertMembers(es[1..], e);
      assert es == [es[0]] + es[1..];
    }
  }

  lemma {:induction false} InsertSorted(es: seq<Entry>, e: Entry)
    requires Sorted(es)
    ensures Sorted(Insert(es, e))
  {
    if es == [] || Less(e, es[0]) {
    } else {
      InsertSorted(es[1..], e);
      InsertMembers(es[1..], e);
      var r := Insert(es[1..], e);
      forall j | 0 <= j < |r| ensures !Less(r[j], es[0]) {
        assert r[j] in r;
      }
    }
  }

  lemma {:induction false} InsertBytes(es: seq<Entry>, e: Entry)
    ensures Bytes(Pkts(Insert(es, e))) == Bytes(Pkts(es)) + e.pkt.size
  {
    if es == [] || Less(e, es[0]) {
      PktsConcat([e], es);
      assert Pkts([e]) == [e.pkt];
    } else {
      InsertBytes(es[1..], e);
    }
  }

  /** A new largest tag of its flow goes behind the rest of the flow; other flows are untouched. */
  lemma {:induction false} InsertWaiting(es: seq<Entry>, e: Entry, f: nat)
    requires Sorted(es)
    requires forall x :: x in es && x.pkt.flow == e.pkt.flow ==> x.tag < e.tag
    ensures Waiting(Insert(es, e), f) == Waiting(es, f) + (if f == e.pkt.flow then [e] else [])
  {
    if es == [] {
    } else if Less(e, es[0]) {
      forall x | x in es ensures x.pkt.flow != e.pkt.flow {
        var i :| 0 <= i < |es| && es[i] == x;
        LessIsStrictWeakOrder(x, es[0], e);
      }
      if f == e.pkt.flow && Waiting(es, f) != [] {
        WaitingMember(es, f, Waiting(es, f)[0]);
      }
      WaitingConcat([e], es, f);
    } else {
      InsertWaiting(es[1..], e, f);
      var h := if es[0].pkt.flow == f then [es[0]] else [];
      assert Waiting(Insert(es, e), f) == h + Waiting(Insert(es[1..], e), f);
    }
  }

  lemma {:induction false} ChainedPush(start: int, w: seq<Entry>, e: Entry)
    requires Chained(start, w) && e.tag == EndTag(start, w) + e.pkt.size
    ensures Chained(start, w + [e])
    decreases w
  {
    if w == [] {
    } else {
      ChainedPush(w[0].tag, w[1..], e);
      assert (w + [e])[1..] == w[1..] + [e];
    }
  }

  lemma {:induction false} ChainedPop(start: int, w: seq<Entry>)
    requires Chained(start, w) && w != []
    ensures Chained(start, w[..|w| - 1])
    ensures EndTag(start, w) == EndTag(start, w[..|w| - 1]) + w[|w| - 1].pkt.size
    decreases w
  {
    if |w| <= 1 {
    } else {
      ChainedPop(w[0].tag, w[1..]);
      assert w[1..][..|w| - 2] == w[..|w| - 1][1..];
    }
  }

  lemma {:induction false} ChainedBelowEnd(start: int, w: seq<Entry>, e: Entry)
    requires Chained(start, w)
    ensures start <= EndTag(start, w)
    ensures e in w ==> start < e.tag + 1 && e.tag <= EndTag(start, w)
    decreases w
  {
    if w == [] {
    } else {
      ChainedBelowEnd(w[0].tag, w[1..], e);
    }
  }

  // ----- every step keeps the invariant ---------------------------------------------

  /** Projects the invariant onto one flow, so that proofs can hide the rest of it. */
  lemma CoreFlow(s: State, f: nat)
    requires Core(s)
    ensures FlowOk(s, f)
  {}

  lemma CoreSorted(s: State)
    requires Core(s)
    ensures Sorted(s.packets)
  {}

  lemma InitInv(maxsize: nat)
    ensures Inv(Init(maxsize))
  {}

  /** The tag of an arrival continues its flow's chain, whichever branch computed it. */
  lemma FinishTagContinues(s: State, p: Packet)
    requires Core(s)
    ensures FinishTag(s, p) == EndTag(Start(s, p.flow), Waiting(s.packets, p.flow)) + p.size
  {
    assert FlowOk(s, p.flow);
    var w := Waiting(s.packets, p.flow);
    if w != [] {
      WaitingMember(s.packets, p.flow, w[|w| - 1]);
    }
  }

  /** A new tag exceeds every waiting tag of its flow. */
  lemma TagsBelowNew(s: State, p: Packet, x: Entry)
    requires Core(s) && p.size >= 1 && x in s.packets && x.pkt.flow == p.flow
    ensures x.tag < FinishTag(s, p)
  {
    FinishTagContinues(s, p);
    WaitingMember(s.packets, p.flow, x);
    assert FlowOk(s, p.flow);
    ChainedBelowEnd(Start(s, p.flow), Waiting(s.packets, p.flow), x);
  }

  lemma EnqueueFlowOk(s: State, p: Packet, f: nat)
    requires Core(s) && p.size >= 1
    requires forall x :: x in s.packets && x.pkt.flow == p.flow ==> x.tag < FinishTag(s, p)
    ensures FlowOk(Enqueue(s, p), f)
  {
    var e := Entry(FinishTag(s, p), p);
    assert FlowOk(s, f);
    var w := Waiting(s.packets, f);
    InsertWaiting(s.packets, e, f);
    if f == p.flow {
      FinishTagContinues(s, p);
      ChainedPush(Start(s, f), w, e);
      assert Waiting(Enqueue(s, p).packets, f) == w + [e];
      assert Start(Enqueue(s, p), f) == Start(s, f);
    } else {
      assert Waiting(Enqueue(s, p).packets, f) == w;
    }
  }

  lemma EnqueueCore(s: State, p: Packet)
    requires Core(s) && p.size >= 1
    ensures Core(Enqueue(s, p))
  {
    var t := Enqueue(s, p);
    var e := Entry(FinishTag(s, p), p);
    forall x | x in s.packets && x.pkt.flow == p.flow ensures x.tag < e.tag {
      TagsBelowNew(s, p, x);
    }
    InsertSorted(s.packets, e);
    InsertMembers(s.packets, e);
    InsertBytes(s.packets, e);
    forall f ensures FlowOk(t, f) {
      EnqueueFlowOk(s, p, f);
    }
  }

  lemma LastSplits(es: seq<Entry>, f: nat)
    requires es != []
    ensures var n := |es| - 1;
            && Waiting(es, f) == Waiting(es[..n], f) + (if f == es[n].pkt.flow then [es[n]] else [])
            && Bytes(Pkts(es)) == Bytes(Pkts(es[..n])) + es[n].pkt.size
  {
    var n := |es| - 1;
    assert es == es[..n] + [es[n]];
    WaitingConcat(es[..n], [es[n]], f);
    PktsConcat(es[..n], [es[n]]);
    BytesConcat(Pkts(es[..n]), Pkts([es[n]]));
    assert Pkts([es[n]]) == [es[n].pkt];
  }

  lemma LastTag(start: int, w: seq<Entry>)
    requires Chained(start, w) && w != [] && start >= 0
    ensures EndTag(start, w) >= w[|w| - 1].pkt.size
  {
    ChainedPop(start, w);
    ChainedBelowEnd(start, w[..|w| - 1], w[0]);
  }

  /** The largest tag belongs to the last waiting packet of its flow. */
  lemma LastIsFlowLast(s: State)
    requires Core(s) && s.packets != []
    ensures FlowOk(s, Last(s).flow)
    ensures var p := Last(s);
            && p.flow in s.nPackets && s.nPackets[p.flow] >= 1
            && p.flow in s.flowRound
            && s.flowRound[p.flow] == s.packets[|s.packets| - 1].tag >= p.size
            && s.queuesize >= p.size
  {
    var f := Last(s).flow;
    LastSplits(s.packets, f);
    assert FlowOk(s, f);
    LastTag(Start(s, f), Waiting(s.packets, f));
  }

  /** Remove the packet with the largest tag and take its size off its flow's tag. */
  function DropLast(s: State): State
    requires Core(s) && s.packets != []
  {
    var p := Last(s);
    LastIsFlowLast(s);
    var t := s.(packets := s.packets[..|s.packets| - 1], queuesize := s.queuesize - p.size);
    if s.nPackets[p.flow] == 1 then
      t.(flowRound := s.flowRound - {p.flow}, nPackets := s.nPackets - {p.flow})
    else
      t.(flowRound := s.flowRound[p.flow := s.flowRound[p.flow] - p.size],
         nPackets := s.nPackets[p.flow := s.nPackets[p.flow] - 1])
  }

  lemma DropLastOwnFlow(s: State, t: State, f: nat)
    requires FlowOk(s, f)
    requires s.round == t.round && s.current == t.current
    requires s.packets != [] && s.packets[|s.packets| - 1].pkt.flow == f
    requires Waiting(s.packets, f) == Waiting(t.packets, f) + [s.packets[|s.packets| - 1]]
    requires var p := Last(s);
             if s.nPackets[f] == 1 then
               f !in t.nPackets && f !in t.flowRound
             else
               && f in t.nPackets && t.nPackets[f] == s.nPackets[f] - 1
               && f in t.flowRound && t.flowRound[f] == s.flowRound[f] - p.size
    ensures FlowOk(t, f)
  {
    var w := Waiting(s.packets, f);
    ChainedPop(Start(s, f), w);
    assert Waiting(t.packets, f) == w[..|w| - 1];
    assert |w| > 1 || InService(s, f) ==> Start(t, f) == Start(s, f);
  }

  /** What a flow's part of the invariant depends on. */
  lemma FlowOkFrame(s: State, t: State, f: nat)
    requires FlowOk(s, f) && s.round == t.round && s.current == t.current
    requires Waiting(s.packets, f) == Waiting(t.packets, f) && Count(s, f) == Count(t, f)
    requires f in s.nPackets <==> f in t.nPackets
    requires f in s.flowRound <==> f in t.flowRound
    requires f in s.flowRound ==> s.flowRound[f] == t.flowRound[f]
    ensures FlowOk(t, f)
  {}

  lemma DropLastFlowOk(s: State, f: nat)
    requires Core(s) && s.packets != []
    ensures FlowOk(DropLast(s), f)
  {
    hide Core, FlowOk, Waiting;
    LastIsFlowLast(s);
    LastSplits(s.packets, f);
    CoreFlow(s, f);
    if f == Last(s).flow {
      DropLastOwnFlow(s, DropLast(s), f);
    } else {
      FlowOkFrame(s, DropLast(s), f);
    }
  }

  lemma DropLastCore(s: State)
    requires Core(s) && s.packets != []
    ensures Core(DropLast(s))
  {
    LastIsFlowLast(s);
    LastSplits(s.packets, Last(s).flow);
    forall f ensures FlowOk(DropLast(s), f) {
      DropLastFlowOk(s, f);
    }
  }

  /** The drop loop never finds the multiset empty. */
  lemma OverfullHasWaiting(s: State)
    requires Core(s) && s.queuesize > s.maxsize
    ensures s.packets != []
  {}

  /** The drop loop of an arrival. */
  function DropTail(s: State): State
    requires Core(s)
    decreases |s.packets|
  {
    if s.queuesize > s.maxsize then
      OverfullHasWaiting(s); DropLastCore(s);
      DropTail(DropLast(s))
    else s
  }

  /** The packets the drop loop frees, in the order it frees them. */
  function Dropped(s: State): seq<Packet>
    requires Core(s)
    decreases |s.packets|
  {
    if s.queuesize > s.maxsize then
      OverfullHasWaiting(s); DropLastCore(s);
      [Last(s)] + Dropped(DropLast(s))
    else []
  }

  lemma LastDropped(s: State)
    requires Core(s) && s.packets != []
    ensures DropLast(s).packets == s.packets[..|s.packets| - 1]
  {}

  /** One turn of the drop loop. */
  lemma DropMore(s: State)
    requires Core(s) && s.queuesize > s.maxsize
    ensures s.packets != [] && Core(DropLast(s)) && |DropLast(s).packets| < |s.packets|
    ensures DropTail(s) == DropTail(DropLast(s)) && Dropped(s) == [Last(s)] + Dropped(DropLast(s))
  {
    hide Core;
    OverfullHasWaiting(s);
    DropLastCore(s);
  }

  lemma DropDone(s: State)
    requires Core(s)
    ensures s.queuesize <= s.maxsize ==> DropTail(s) == s && Dropped(s) == []
  {}

  /** What the drop loop leaves: the longest prefix, in tag order, that fits the buffer. */
  lemma {:induction false} DropTailKeepsPrefix(s: State)
    requires Core(s)
    ensures var t := DropTail(s);
            && Core(t)
            && t == s.(packets := t.packets, flowRound := t.flowRound,
                       nPackets := t.nPackets, queuesize := t.queuesize)
            && t.queuesize <= t.maxsize
            && |t.packets| <= |s.packets| && (|t.packets| == |s.packets| ==> t == s)
            && t.packets == s.packets[..|t.packets|]
            && (|t.packets| < |s.packets| ==>
                  t.queuesize + s.packets[|t.packets|].pkt.size > t.maxsize)
    decreases |s.packets|
  {
    hide Core;
    if s.queuesize <= s.maxsize {
    } else {
      OverfullHasWaiting(s);
      DropLastCore(s);
      LastIsFlowLast(s);
      DropTailKeepsPrefix(DropLast(s));
    }
  }

  /** The drop loop frees from the back of the service order: exactly what it does not keep. */
  lemma {:induction false} DroppedLast(s: State)
    requires Core(s)
    ensures var kept, all := |DropTail(s).packets|, s.packets;
            && |Dropped(s)| + kept == |all|
            && forall i :: 0 <= i < |Dropped(s)| ==> Dropped(s)[i] == all[|all| - 1 - i].pkt
    decreases |s.packets|
  {
    hide Core, DropLast, DropTail, Dropped;
    if s.queuesize <= s.maxsize {
      DropDone(s);
    } else {
      DropMore(s);
      LastDropped(s);
      var t, n := DropLast(s), |s.packets|;
      DroppedLast(t);
      forall i | 1 <= i < |Dropped(s)| ensures Dropped(s)[i] == s.packets[n - 1 - i].pkt {
        assert Dropped(s)[i] == Dropped(t)[i - 1] == t.packets[n - 1 - i].pkt;
      }
    }
  }

  lemma FinishCore(s: State)
    requires Core(s) && s.current.Some?
    ensures Core(Finish(s))
  {
    assert FlowOk(s, s.current.value.flow);
    forall f ensures FlowOk(Finish(s), f) {
      assert FlowOk(s, f);
    }
  }

  /** The front of a sorted list has the smallest tag. */
  lemma SortedTail(es: seq<Entry>)
    requires Sorted(es) && es != []
    ensures Sorted(es[1..])
    ensures forall x :: x in es[1..] ==> x in es && x.tag >= es[0].tag
  {
    forall x | x in es[1..] ensures x in es && x.tag >= es[0].tag {
      var i :| 0 <= i < |es[1..]| && es[1..][i] == x;
      assert es[i + 1] == x && !Less(es[i + 1], es[0]);
    }
  }

  lemma BeginFlowOk(s: State, f: nat)
    requires Core(s) && s.current.None? && s.packets != []
    requires forall x :: x in s.packets[1..] ==> x.tag >= s.packets[0].tag
    ensures FlowOk(Begin(s), f)
  {
    assert FlowOk(s, f);
    var t := Begin(s);
    var w := Waiting(s.packets, f);
    if f == s.packets[0].pkt.flow {
      assert w == [s.packets[0]] + Waiting(t.packets, f);
      assert Waiting(t.packets, f) == w[1..];
      assert Chained(w[0].tag, w[1..]) && Start(t, f) == w[0].tag;
    } else {
      assert Waiting(t.packets, f) == w;
    }
  }

  lemma BeginCore(s: State)
    requires Core(s) && s.current.None? && s.queuesize <= s.maxsize
    ensures Inv(Begin(s))
  {
    hide FlowOk, Sorted;
    if s.packets != [] {
      SortedTail(s.packets);
      assert s.packets[0] in s.packets;
      forall f ensures FlowOk(Begin(s), f) {
        BeginFlowOk(s, f);
      }
    }
  }

  lemma CompleteInv(s: State)
    requires Inv(s) && s.current.Some?
    ensures Inv(Complete(s))
  {
    FinishCore(s);
    BeginCore(Finish(s));
  }

  function Receive(s: State, p: Packet): State
    requires Core(s) && p.size >= 1
  {
    EnqueueCore(s, p);
    var t := DropTail(Enqueue(s, p));
    if s.current.None? && s.packets == [] then Begin(t) else t
  }

  lemma ReceiveInv(s: State, p: Packet)
    requires Inv(s) && p.size >= 1
    ensures Inv(Receive(s, p))
  {
    EnqueueCore(s, p);
    DropTailKeepsPrefix(Enqueue(s, p));
    if s.current.None? {
      BeginCore(DropTail(Enqueue(s, p)));
    }
  }
}

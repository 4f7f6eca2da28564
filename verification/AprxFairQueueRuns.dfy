/** What `AprxFairQueue` guarantees over whole runs: flow order, rounds, shares, sketch accuracy. */
module AprxFairQueueRuns {
  import opened Packets
  import opened Arithmetic
  import opened AprxFairQueueSpec

  datatype Event = Arrive(pkt: Packet) | Completion

  /** A packet and the round it is assigned to. */
  datatype Slotted = Slotted(pkt: Packet, round: nat)

  ghost predicate Enabled(s: State, e: Event) {
    match e
    case Arrive(_) => true
    case Completion => s.nPackets > 0
  }

  function Next(c: Config, s: State, e: Event): State
    requires Inv(c, s) && Enabled(s, e)
  {
    match e
    case Arrive(p) => Receive(c, s, p)
    case Completion => Complete(c, s)
  }

  /** A run from the empty queue. `Next` is defined in every state it meets (RunInv). */
  ghost predicate IsRun(c: Config, tr: seq<State>, es: seq<Event>) {
    && Valid(c)
    && |tr| == |es| + 1
    && tr[0] == Init(c)
    && forall k :: 0 <= k < |es| ==>
         Enabled(tr[k], es[k]) && (Inv(c, tr[k]) ==> tr[k + 1] == Next(c, tr[k], es[k]))
  }

  lemma {:induction false} RunInv(c: Config, tr: seq<State>, es: seq<Event>, n: nat)
    requires IsRun(c, tr, es) && n <= |es|
    ensures Inv(c, tr[n]) && Shape(c, tr[n])
  {
    hide Charged, Flat, Init;
    if n == 0 {
      InitInv(c);
    } else {
      RunInv(c, tr, es, n - 1);
      match es[n - 1]
      case Arrive(p) => ReceiveInv(c, tr[n - 1], p);
      case Completion => CompleteInv(c, tr[n - 1]);
    }
  }

  /** One step of a run, for the inductions below. */
  lemma RunStep(c: Config, tr: seq<State>, es: seq<Event>, n: nat)
    requires IsRun(c, tr, es) && n < |es|
    ensures Inv(c, tr[n]) && Enabled(tr[n], es[n]) && tr[n + 1] == Next(c, tr[n], es[n])
    ensures Shape(c, tr[n]) && Inv(c, tr[n + 1]) && Shape(c, tr[n + 1])
  {
    RunInv(c, tr, es, n);
    RunInv(c, tr, es, n + 1);
  }

  predicate Accepted(c: Config, s: State, e: Event)
    requires Shape(c, s)
  {
    e.Arrive? && Accepts(c, s, e.pkt)
  }

  /** An event leaves the sketch alone unless it accepts an arrival. */
  lemma NextSketch(c: Config, s: State, e: Event)
    requires Inv(c, s) && Enabled(s, e)
    ensures Next(c, s, e).sketch ==
            if Accepted(c, s, e)
            then Raise(c, s.sketch, e.pkt.flow, Charge(c, s, e.pkt.flow) + e.pkt.size)
            else s.sketch
    ensures Next(c, s, e).nRounds >= s.nRounds
  {}

  // ----- order and rounds -----------------------------------------------------------

  function Tag(ps: seq<Packet>, round: nat): seq<Slotted> {
    seq(|ps|, i requires 0 <= i < |ps| => Slotted(ps[i], round))
  }

  /** The queued packets of `f`, each with the round it will be served in, in service order. */
  function Schedule(cal: seq<seq<Packet>>, round: nat, f: nat): seq<Slotted> {
    if cal == [] then []
    else Tag(OfFlow(cal[0], f), round) + Schedule(cal[1..], round + 1, f)
  }

  function Taken(c: Config, s: State, e: Event, f: nat): seq<Slotted>
    requires Shape(c, s)
  {
    if Accepted(c, s, e) && e.pkt.flow == f then [Slotted(e.pkt, RoundOf(c, s, f))] else []
  }

  function Served(s: State, e: Event, f: nat): seq<Slotted> {
    if e.Completion? then Tag(OfFlow(Listed(InService(s)), f), s.nRounds) else []
  }

  function AllTaken(c: Config, tr: seq<State>, es: seq<Event>, f: nat, n: nat): seq<Slotted>
    requires IsRun(c, tr, es) && n <= |es|
  {
    if n == 0 then []
    else
      RunInv(c, tr, es, n - 1);
      AllTaken(c, tr, es, f, n - 1) + Taken(c, tr[n - 1], es[n - 1], f)
  }

  function AllServed(c: Config, tr: seq<State>, es: seq<Event>, f: nat, n: nat): seq<Slotted>
    requires IsRun(c, tr, es) && n <= |es|
  {
    if n == 0 then []
    else AllServed(c, tr, es, f, n - 1) + Served(tr[n - 1], es[n - 1], f)
  }

  lemma {:induction false} ScheduleConcat(a: seq<seq<Packet>>, b: seq<seq<Packet>>, n: nat, f: nat)
    ensures Schedule(a + b, n, f) == Schedule(a, n, f) + Schedule(b, n + |a|, f)
    decreases a
  {
    hide Tag, OfFlow;
    if a == [] {
      assert a + b == b;
    } else {
      ScheduleConcat(a[1..], b, n + 1, f);
      assert (a + b)[1..] == a[1..] + b;
      Associative(Tag(OfFlow(a[0], f), n), Schedule(a[1..], n + 1, f), Schedule(b, n + |a|, f));
    }
  }

  lemma {:induction false} ScheduleNone(a: seq<seq<Packet>>, n: nat, f: nat)
    requires forall k :: 0 <= k < |a| ==> OfFlow(a[k], f) == []
    ensures Schedule(a, n, f) == []
    decreases a
  {
    hide OfFlow;
    if a == [] {
    } else {
      forall k | 0 <= k < |a[1..]| ensures OfFlow(a[1..][k], f) == [] {
        assert a[1..][k] == a[k + 1];
      }
      ScheduleNone(a[1..], n + 1, f);
    }
  }

  lemma ScheduleSplit(a: seq<seq<Packet>>, k: nat, n: nat, f: nat)
    requires k < |a|
    ensures Schedule(a, n, f)
            == Schedule(a[..k], n, f) + Tag(OfFlow(a[k], f), n + k) + Schedule(a[k + 1..], n + k + 1, f)
  {
    hide Tag, OfFlow;
    assert a == a[..k] + a[k..];
    ScheduleConcat(a[..k], a[k..], n, f);
    assert a[k..][1..] == a[k + 1..];
  }

  /** The scan past empty slots keeps every queued packet in its round. */
  lemma RotateSchedule(s: State, k: nat, f: nat)
    requires k <= |s.cal| && forall j :: 0 <= j < k ==> s.cal[j] == []
    ensures Schedule(Rotate(s, k).cal, s.nRounds + k, f) == Schedule(s.cal, s.nRounds, f)
  {
    var a, b := s.cal[..k], s.cal[k..];
    assert s.cal == a + b;
    ScheduleConcat(a, b, s.nRounds, f);
    ScheduleConcat(b, a, s.nRounds + k, f);
    forall j | 0 <= j < k ensures OfFlow(a[j], f) == [] {
      OfFlowEmpty(f);
    }
    ScheduleNone(a, s.nRounds, f);
    ScheduleNone(a, s.nRounds + k + |b|, f);
  }

  lemma BeginSchedule(s: State, f: nat)
    requires s.nPackets > 0 ==> Flat(s.cal) != []
    ensures Schedule(Begin(s).cal, Begin(s).nRounds, f) == Schedule(s.cal, s.nRounds, f)
  {
    if s.nPackets > 0 {
      RotateSchedule(s, FirstBusy(s.cal), f);
    }
  }

  lemma BelowRound(e: nat, b: nat, r: nat)
    requires b >= 1 && e / b < r
    ensures e < r * b
  {
    DivBounds(e, b);
    MulMonotone(e / b + 1, r, b);
  }

  lemma {:induction false} OfFlowMember(ps: seq<Packet>, f: nat)
    requires OfFlow(ps, f) != []
    ensures exists i :: 0 <= i < |ps| && ps[i].flow == f
  {
    if ps[0].flow == f {
    } else {
      OfFlowMember(ps[1..], f);
      var i :| 0 <= i < |ps[1..]| && ps[1..][i].flow == f;
      assert ps[i + 1].flow == f;
    }
  }

  /** No packet of a flow waits in a later round than the one its next arrival gets. */
  lemma NothingLater(c: Config, s: State, f: nat, k: nat)
    requires Core(c, s) && k < c.nQueue && s.nRounds + k > RoundOf(c, s, f)
    ensures OfFlow(s.cal[k], f) == []
  {
    if OfFlow(s.cal[k], f) != [] {
      OfFlowMember(s.cal[k], f);
      var i :| 0 <= i < |s.cal[k]| && s.cal[k][i].flow == f;
      assert Charged(c, s, k, s.cal[k][i]);
      hide Estimate;
      BelowRound(Estimate(c, s.sketch, f), c.bytesPerRound, s.nRounds + k);
      assert false;
    }
  }

  /** Appending to slot `k`, behind everything the flow has waiting. */
  lemma AppendSchedule(cal: seq<seq<Packet>>, k: nat, p: Packet, n: nat, f: nat)
    requires k < |cal|
    requires p.flow == f ==> forall j :: k < j < |cal| ==> OfFlow(cal[j], f) == []
    ensures Schedule(cal[k := cal[k] + [p]], n, f)
            == Schedule(cal, n, f) + (if p.flow == f then [Slotted(p, n + k)] else [])
  {
    hide Schedule, OfFlow;
    var u := cal[k := cal[k] + [p]];
    ScheduleSplit(cal, k, n, f);
    ScheduleSplit(u, k, n, f);
    assert u[..k] == cal[..k] && u[k + 1..] == cal[k + 1..];
    OfFlowConcat(cal[k], [p], f);
    OfFlowSingle(p, f);
    if p.flow == f {
      ScheduleNone(cal[k + 1..], n + k + 1, f);
      assert Tag(OfFlow(u[k], f), n + k) == Tag(OfFlow(cal[k], f), n + k) + [Slotted(p, n + k)];
      Associative(Schedule(cal[..k], n, f), Tag(OfFlow(cal[k], f), n + k), [Slotted(p, n + k)]);
    } else {
      assert OfFlow(u[k], f) == OfFlow(cal[k], f);
    }
  }

  lemma EnqueueSchedule(c: Config, s: State, p: Packet, f: nat)
    requires Core(c, s)
    ensures Accepts(c, s, p) ==>
              Schedule(Enqueue(c, s, p).cal, s.nRounds, f)
              == Schedule(s.cal, s.nRounds, f)
                 + (if p.flow == f then [Slotted(p, RoundOf(c, s, f))] else [])
  {
    hide Charged, Estimate, Flat, Schedule, Raise;
    if Accepts(c, s, p) {
      var k := RoundOf(c, s, p.flow) - s.nRounds;
      if p.flow == f {
        forall j | k < j < c.nQueue ensures OfFlow(s.cal[j], f) == [] {
          NothingLater(c, s, f, j);
        }
      }
      AppendSchedule(s.cal, k, p, s.nRounds, f);
    }
  }

  lemma DequeueSchedule(c: Config, s: State, f: nat)
    requires Inv(c, s) && s.nPackets > 0 && s.queuesize >= s.cal[0][0].size
    ensures Schedule(s.cal, s.nRounds, f)
            == Served(s, Completion, f) + Schedule(Dequeue(s).cal, s.nRounds, f)
  {
    hide Charged, Flat;
    var x := s.cal[0];
    assert x == [x[0]] + x[1..];
    OfFlowConcat([x[0]], x[1..], f);
    var a, b := OfFlow([x[0]], f), OfFlow(x[1..], f);
    assert Tag(a + b, s.nRounds) == Tag(a, s.nRounds) + Tag(b, s.nRounds);
    assert Dequeue(s).cal[1..] == s.cal[1..];
  }

  lemma StepSchedule(c: Config, s: State, e: Event, f: nat)
    requires Inv(c, s) && Enabled(s, e)
    ensures Schedule(s.cal, s.nRounds, f) + Taken(c, s, e, f)
            == Served(s, e, f) + Schedule(Next(c, s, e).cal, Next(c, s, e).nRounds, f)
  {
    hide Charged, Schedule, Estimate, RoundOf, Flat, Begin, Rotate;
    match e {
      case Completion =>
        DequeueCore(c, s);
        DequeueSchedule(c, s, f);
        BeginSchedule(Dequeue(s), f);
      case Arrive(p) =>
        if Accepts(c, s, p) {
          EnqueueCore(c, s, p);
          EnqueueSchedule(c, s, p, f);
          BeginSchedule(Enqueue(c, s, p), f);
        }
    }
  }

  /** Each flow leaves in exactly the order it was accepted, every packet in exactly the
      round it was assigned on arrival, whatever the hash collisions. */
  lemma {:induction false} FlowOrder(c: Config, tr: seq<State>, es: seq<Event>, f: nat, n: nat)
    requires IsRun(c, tr, es) && n <= |es|
    ensures AllServed(c, tr, es, f, n) + Schedule(tr[n].cal, tr[n].nRounds, f)
            == AllTaken(c, tr, es, f, n)
  {
    hide Inv, Next, Schedule, Served, Taken;
    if n == 0 {
      forall k | 0 <= k < |tr[0].cal| ensures OfFlow(tr[0].cal[k], f) == [] {
        OfFlowEmpty(f);
      }
      ScheduleNone(tr[0].cal, 0, f);
    } else {
      FlowOrder(c, tr, es, f, n - 1);
      RunStep(c, tr, es, n - 1);
      StepSchedule(c, tr[n - 1], es[n - 1], f);
      var gone, here := AllServed(c, tr, es, f, n - 1), Schedule(tr[n - 1].cal, tr[n - 1].nRounds, f);
      var now := Schedule(tr[n].cal, tr[n].nRounds, f);
      assert (gone + here) + Taken(c, tr[n - 1], es[n - 1], f)
             == gone + (here + Taken(c, tr[n - 1], es[n - 1], f));
      assert gone + (Served(tr[n - 1], es[n - 1], f) + now)
             == (gone + Served(tr[n - 1], es[n - 1], f)) + now;
    }
  }

  /** Rounds are served in order, and whoever departs is charged up to the current round,
      so the difference in the ECN test is never negative. */
  lemma {:induction false} DepartureRounds(c: Config, tr: seq<State>, es: seq<Event>, a: nat, b: nat)
    requires IsRun(c, tr, es) && a <= b <= |es|
    ensures tr[a].nRounds <= tr[b].nRounds
    ensures b < |es| && es[b].Completion? ==>
              && Shape(c, tr[b]) && InService(tr[b]).Some?
              && Estimate(c, tr[b].sketch, InService(tr[b]).value.flow) / c.bytesPerRound >= tr[b].nRounds
    decreases b
  {
    hide Estimate, Inv, Next, InService, Init;
    RunInv(c, tr, es, b);
    if b < |es| && es[b].Completion? {
      HeadRound(c, tr[b]);
    }
    if a == b {
    } else {
      DepartureRounds(c, tr, es, a, b - 1);
      RunStep(c, tr, es, b - 1);
      NextSketch(c, tr[b - 1], es[b - 1]);
    }
  }

  // ----- shares of a round ----------------------------------------------------------

  ghost predicate SizesAtMost(es: seq<Event>, max: nat) {
    forall k :: 0 <= k < |es| && es[k].Arrive? ==> es[k].pkt.size <= max
  }

  /** Bytes of the listed packets that belong to rounds `lo` up to, and not including, `hi`. */
  function RoundBytes(xs: seq<Slotted>, lo: nat, hi: nat): nat {
    if xs == [] then 0
    else
      var k := |xs| - 1;
      RoundBytes(xs[..k], lo, hi) + (if lo <= xs[k].round < hi then xs[k].pkt.size else 0)
  }

  lemma RoundBytesPush(xs: seq<Slotted>, x: Slotted, lo: nat, hi: nat)
    ensures RoundBytes(xs + [x], lo, hi)
            == RoundBytes(xs, lo, hi) + (if lo <= x.round < hi then x.pkt.size else 0)
  {}

  lemma {:induction false} RoundBytesConcat(xs: seq<Slotted>, ys: seq<Slotted>, lo: nat, hi: nat)
    ensures RoundBytes(xs + ys, lo, hi) == RoundBytes(xs, lo, hi) + RoundBytes(ys, lo, hi)
  {
    if ys == [] {
      assert xs + ys == xs;
    } else {
      var k := |ys| - 1;
      RoundBytesConcat(xs, ys[..k], lo, hi);
      Associative(xs, ys[..k], [ys[k]]);
      assert ys == ys[..k] + [ys[k]];
      RoundBytesPush(xs + ys[..k], ys[k], lo, hi);
      RoundBytesPush(ys[..k], ys[k], lo, hi);
    }
  }

  /** Bytes of `f` assigned to rounds `lo` to `hi - 1` by the first `n` events. */
  function Assigned(c: Config, tr: seq<State>, es: seq<Event>, f: nat, lo: nat, hi: nat, n: nat): nat
    requires IsRun(c, tr, es) && n <= |es|
  {
    RoundBytes(AllTaken(c, tr, es, f, n), lo, hi)
  }

  lemma AssignedStep(c: Config, tr: seq<State>, es: seq<Event>, f: nat, lo: nat, hi: nat, n: nat)
    requires IsRun(c, tr, es) && n < |es|
    ensures Shape(c, tr[n])
    ensures Assigned(c, tr, es, f, lo, hi, n + 1)
            == Assigned(c, tr, es, f, lo, hi, n)
               + (if Accepted(c, tr[n], es[n]) && es[n].pkt.flow == f && lo <= RoundOf(c, tr[n], f) < hi
                  then es[n].pkt.size else 0)
  {
    hide RoundBytes, RoundOf, Inv, Next, Accepts;
    RunInv(c, tr, es, n);
    var was := AllTaken(c, tr, es, f, n);
    if Accepted(c, tr[n], es[n]) && es[n].pkt.flow == f {
      RoundBytesPush(was, Slotted(es[n].pkt, RoundOf(c, tr[n], f)), lo, hi);
    } else {
      assert was + [] == was;
    }
  }

  /** A charge lies in a range of rounds exactly when its byte count lies in the bytes of the range. */
  lemma ChargeInRange(v: nat, r: nat, b: nat, lo: nat, hi: nat)
    requires r * b <= v < (r + 1) * b
    ensures lo <= r < hi <==> lo * b <= v < hi * b
  {
    if r < lo { MulMonotone(r + 1, lo, b); } else { MulMonotone(lo, r, b); }
    if r < hi { MulMonotone(r + 1, hi, b); } else { MulMonotone(hi, r, b); }
  }

  lemma NothingAssigned(c: Config, tr: seq<State>, es: seq<Event>, f: nat, lo: nat, hi: nat)
    requires IsRun(c, tr, es)
    ensures Assigned(c, tr, es, f, lo, hi, 0) == 0
  {}

  /** Whatever the collisions, no flow gets the bytes of a range of rounds plus a packet into it. */
  lemma {:induction false} RoundShare(c: Config, tr: seq<State>, es: seq<Event>,
                                      f: nat, lo: nat, hi: nat, n: nat, max: nat)
    requires IsRun(c, tr, es) && n <= |es| && SizesAtMost(es, max) && lo <= hi
    ensures Shape(c, tr[n])
    ensures var got := Assigned(c, tr, es, f, lo, hi, n);
            && (got > 0 ==> got < hi * c.bytesPerRound - lo * c.bytesPerRound + max)
            && (got > 0 ==> Estimate(c, tr[n].sketch, f) >= lo * c.bytesPerRound + got)
  {
    hide Estimate, Inv, Next, Raise, Init, Charge, RoundOf, Assigned;
    RunInv(c, tr, es, n);
    if n == 0 {
      NothingAssigned(c, tr, es, f, lo, hi);
    } else {
      RoundShare(c, tr, es, f, lo, hi, n - 1, max);
      RunStep(c, tr, es, n - 1);
      AssignedStep(c, tr, es, f, lo, hi, n - 1);
      var s, e := tr[n - 1], es[n - 1];
      NextSketch(c, s, e);
      if Accepted(c, s, e) {
        var v := Charge(c, s, e.pkt.flow) + e.pkt.size;
        ChargeAboveEstimate(c, s, e.pkt.flow);
        RaiseEstimates(c, s.sketch, e.pkt.flow, v, f);
        if e.pkt.flow == f {
          ChargeInRound(c, s, f);
          ChargeInRange(Charge(c, s, f), RoundOf(c, s, f), c.bytesPerRound, lo, hi);
        }
      }
    }
  }

  ghost predicate CellsBelow(c: Config, sk: seq<seq<nat>>, bound: nat)
    requires SketchShape(c, sk)
  {
    forall i, j :: 0 <= i < c.nHash && 0 <= j < c.nBucket ==> sk[i][j] < bound
  }

  function CellBound(c: Config, s: State, max: nat): nat {
    (s.nRounds + c.nQueue) * c.bytesPerRound + max
  }

  /** Every sketch cell stays within the calendar's horizon plus one packet. */
  lemma {:induction false} SketchBounded(c: Config, tr: seq<State>, es: seq<Event>, n: nat, max: nat)
    requires IsRun(c, tr, es) && n <= |es| && SizesAtMost(es, max)
    ensures Shape(c, tr[n]) && CellsBelow(c, tr[n].sketch, CellBound(c, tr[n], max))
  {
    hide Estimate, Inv, Next, Charge;
    RunInv(c, tr, es, n);
    if n == 0 {
      MulMonotone(1, c.nQueue, c.bytesPerRound);
    } else {
      SketchBounded(c, tr, es, n - 1, max);
      RunStep(c, tr, es, n - 1);
      var s, e := tr[n - 1], es[n - 1];
      NextSketch(c, s, e);
      MulMonotone(s.nRounds + c.nQueue, tr[n].nRounds + c.nQueue, c.bytesPerRound);
      if Accepted(c, s, e) {
        ChargeInRound(c, s, e.pkt.flow);
        MulMonotone(RoundOf(c, s, e.pkt.flow) + 1, s.nRounds + c.nQueue, c.bytesPerRound);
        assert Charge(c, s, e.pkt.flow) + e.pkt.size < CellBound(c, tr[n], max);
      }
    }
  }

  // ----- accuracy of the sketch -----------------------------------------------------

  /** The exact byte counter the source keeps in a comment beside the sketch. */
  function Exact(c: Config, tr: seq<State>, es: seq<Event>, f: nat, n: nat): nat
    requires IsRun(c, tr, es) && n <= |es|
  {
    if n == 0 then 0
    else
      RunInv(c, tr, es, n - 1);
      var s, e, was := tr[n - 1], es[n - 1], Exact(c, tr, es, f, n - 1);
      if !Accepted(c, s, e) || e.pkt.flow != f then was
      else if was > s.nRounds * c.bytesPerRound then was + e.pkt.size
      else s.nRounds * c.bytesPerRound + e.pkt.size
  }

  /** In row `row` the flow shares its bucket with no other flow that sends. */
  ghost predicate Alone(c: Config, es: seq<Event>, f: nat, row: nat)
    requires Valid(c)
  {
    forall k :: 0 <= k < |es| && es[k].Arrive? && es[k].pkt.flow != f ==>
      Bucket(c, row, es[k].pkt.flow) != Bucket(c, row, f)
  }

  /** The estimate never falls below the exact counter. */
  lemma {:induction false} NeverUnderestimates(c: Config, tr: seq<State>, es: seq<Event>, f: nat, n: nat)
    requires IsRun(c, tr, es) && n <= |es|
    ensures Shape(c, tr[n]) && Exact(c, tr, es, f, n) <= Estimate(c, tr[n].sketch, f)
  {
    hide Estimate, Inv, Next, Raise, Init;
    RunInv(c, tr, es, n);
    if n == 0 {
    } else {
      NeverUnderestimates(c, tr, es, f, n - 1);
      RunStep(c, tr, es, n - 1);
      var s, e := tr[n - 1], es[n - 1];
      NextSketch(c, s, e);
      if Accepted(c, s, e) {
        RaiseEstimates(c, s.sketch, e.pkt.flow, Charge(c, s, e.pkt.flow) + e.pkt.size, f);
      }
    }
  }

  lemma ChargeIsMax(c: Config, s: State, f: nat)
    requires Shape(c, s)
    ensures Charge(c, s, f) == Max(s.nRounds * c.bytesPerRound, Estimate(c, s.sketch, f))
  {}

  lemma EstimateBelowCell(c: Config, sk: seq<seq<nat>>, row: nat, f: nat)
    requires Valid(c) && SketchShape(c, sk) && row < c.nHash
    ensures Estimate(c, sk, f) <= Cell(c, sk, row, f)
  {
    MinCellBounds(c, sk, f, c.nHash);
  }

  lemma InitExact(c: Config, f: nat, row: nat)
    requires Valid(c) && row < c.nHash
    ensures SketchShape(c, Init(c).sketch)
    ensures Estimate(c, Init(c).sketch, f) == Cell(c, Init(c).sketch, row, f) == 0
  {}

  lemma RaiseCell(c: Config, sk: seq<seq<nat>>, g: nat, v: nat, row: nat, f: nat)
    requires Valid(c) && SketchShape(c, sk) && row < c.nHash
    ensures Cell(c, Raise(c, sk, g, v), row, f) ==
            if Bucket(c, row, g) == Bucket(c, row, f) then Max(Cell(c, sk, row, f), v)
            else Cell(c, sk, row, f)
  {}

  /** A row without collisions makes the estimate exact. */
  lemma {:induction false} ExactWhenAlone(c: Config, tr: seq<State>, es: seq<Event>,
                                          f: nat, row: nat, n: nat)
    requires IsRun(c, tr, es) && n <= |es| && row < c.nHash && Alone(c, es, f, row)
    ensures Shape(c, tr[n])
    ensures Estimate(c, tr[n].sketch, f) == Cell(c, tr[n].sketch, row, f) == Exact(c, tr, es, f, n)
  {
    hide Inv, Next, Estimate, Cell, Raise, Charge;
    RunInv(c, tr, es, n);
    if n == 0 {
      InitExact(c, f, row);
    } else {
      ExactWhenAlone(c, tr, es, f, row, n - 1);
      RunStep(c, tr, es, n - 1);
      var s, e := tr[n - 1], es[n - 1];
      NextSketch(c, s, e);
      ChargeIsMax(c, s, f);
      if Accepted(c, s, e) {
        var v := Charge(c, s, e.pkt.flow) + e.pkt.size;
        ChargeAboveEstimate(c, s, e.pkt.flow);
        RaiseEstimates(c, s.sketch, e.pkt.flow, v, f);
        RaiseCell(c, s.sketch, e.pkt.flow, v, row, f);
        EstimateBelowCell(c, tr[n].sketch, row, f);
      }
    }
  }

  // ----- fairness -------------------------------------------------------------------

  /** Some packet of `f` waits in the calendar. */
  ghost predicate Queued(s: State, f: nat) {
    exists k, i :: 0 <= k < |s.cal| && 0 <= i < |s.cal[k]| && s.cal[k][i].flow == f
  }

  /** A flow with a packet in the calendar is charged past the start of the current round. */
  lemma QueuedIsCharged(c: Config, s: State, f: nat)
    requires Core(c, s) && Queued(s, f)
    ensures Estimate(c, s.sketch, f) >= s.nRounds * c.bytesPerRound
  {
    hide Estimate;
    var k, i :| 0 <= k < |s.cal| && 0 <= i < |s.cal[k]| && s.cal[k][i].flow == f;
    assert Charged(c, s, k, s.cal[k][i]);
    MulMonotone(s.nRounds, s.nRounds + k, c.bytesPerRound);
  }

  /** Flow `f` has a packet in the calendar in every state from `a` to `b`. */
  ghost predicate Backlogged(tr: seq<State>, f: nat, a: nat, b: nat) {
    forall k :: a <= k <= b && k < |tr| ==> Queued(tr[k], f)
  }

  /** The estimate of a flow that is alone in a row moves only when the flow's own packets are
      accepted, from the byte count charged to the end of the packet. */
  lemma AloneStep(c: Config, tr: seq<State>, es: seq<Event>, f: nat, row: nat, n: nat)
    requires IsRun(c, tr, es) && n < |es| && row < c.nHash && Alone(c, es, f, row)
    ensures Shape(c, tr[n]) && Shape(c, tr[n + 1])
    ensures Estimate(c, tr[n + 1].sketch, f) ==
            if Accepted(c, tr[n], es[n]) && es[n].pkt.flow == f then Charge(c, tr[n], f) + es[n].pkt.size
            else Estimate(c, tr[n].sketch, f)
  {
    hide Estimate, Inv, Next, Cell, Init;
    RunInv(c, tr, es, n);
    RunInv(c, tr, es, n + 1);
    ExactWhenAlone(c, tr, es, f, row, n);
    ExactWhenAlone(c, tr, es, f, row, n + 1);
    ChargeIsMax(c, tr[n], f);
  }

  /** `got` is at most a packet less than the part of the bytes from `l` to `h` below `e`. */
  predicate Filled(e: nat, l: nat, h: nat, got: nat, max: nat) {
    e >= l ==> got + max > Min(e, h) - l
  }

  /** A packet charged from `v` fills the range further, unless it leaves a gap inside it. */
  lemma FillMore(e: nat, v: nat, size: nat, l: nat, h: nat, got: nat, max: nat)
    requires Filled(e, l, h, got, max) && l <= h && size <= max && max >= 1
    requires v == e || (e < v <= l)
    ensures Filled(v + size, l, h, got + (if l <= v < h then size else 0), max)
  {}

  lemma EmptyFilled(c: Config, tr: seq<State>, es: seq<Event>, f: nat, lo: nat, hi: nat, max: nat)
    requires IsRun(c, tr, es) && max >= 1 && lo <= hi
    ensures Shape(c, tr[0])
    ensures Filled(Estimate(c, tr[0].sketch, f), lo * c.bytesPerRound, hi * c.bytesPerRound,
                   Assigned(c, tr, es, f, lo, hi, 0), max)
  {
    InitExact(c, f, 0);
  }

  /** Up to event `b` the flow is charged from where it stands, or from a round before `a`'s. */
  lemma NoGap(c: Config, tr: seq<State>, es: seq<Event>, f: nat, a: nat, b: nat, n: nat)
    requires IsRun(c, tr, es) && n <= b && a <= b <= |es| && Backlogged(tr, f, a, b)
    ensures Shape(c, tr[n])
    ensures var e, v := Estimate(c, tr[n].sketch, f), Charge(c, tr[n], f);
            v == e || e < v <= tr[a].nRounds * c.bytesPerRound
  {
    hide Estimate, Core, Queued, Next;
    RunInv(c, tr, es, n);
    ChargeIsMax(c, tr[n], f);
    if n >= a {
      QueuedIsCharged(c, tr[n], f);
    } else {
      DepartureRounds(c, tr, es, n, a);
      MulMonotone(tr[n].nRounds, tr[a].nRounds, c.bytesPerRound);
    }
  }

  /** A flow alone in a row, backlogged from `a` to `b`, fills the rounds from `a`'s on. */
  lemma {:induction false} RoundsFilled(c: Config, tr: seq<State>, es: seq<Event>, f: nat, row: nat,
                                        a: nat, b: nat, lo: nat, hi: nat, n: nat, max: nat)
    requires IsRun(c, tr, es) && n <= b && a <= b <= |es| && SizesAtMost(es, max) && max >= 1
    requires row < c.nHash && Alone(c, es, f, row) && Backlogged(tr, f, a, b)
    requires tr[a].nRounds <= lo <= hi
    ensures Shape(c, tr[n])
    ensures Filled(Estimate(c, tr[n].sketch, f), lo * c.bytesPerRound, hi * c.bytesPerRound,
                   Assigned(c, tr, es, f, lo, hi, n), max)
  {
    hide Estimate, Inv, Next, Init, RoundOf, Assigned, Filled, Queued;
    RunInv(c, tr, es, n);
    MulMonotone(lo, hi, c.bytesPerRound);
    MulMonotone(tr[a].nRounds, lo, c.bytesPerRound);
    if n == 0 {
      EmptyFilled(c, tr, es, f, lo, hi, max);
    } else {
      RoundsFilled(c, tr, es, f, row, a, b, lo, hi, n - 1, max);
      RunStep(c, tr, es, n - 1);
      AssignedStep(c, tr, es, f, lo, hi, n - 1);
      AloneStep(c, tr, es, f, row, n - 1);
      var s, e := tr[n - 1], es[n - 1];
      if Accepted(c, s, e) && e.pkt.flow == f {
        var v := Charge(c, s, f);
        ChargeInRound(c, s, f);
        ChargeInRange(v, RoundOf(c, s, f), c.bytesPerRound, lo, hi);
        NoGap(c, tr, es, f, a, b, n - 1);
        FillMore(Estimate(c, s.sketch, f), v, e.pkt.size, lo * c.bytesPerRound, hi * c.bytesPerRound,
                 Assigned(c, tr, es, f, lo, hi, n - 1), max);
      }
    }
  }

  lemma {:induction false} TagLater(ps: seq<Packet>, round: nat, lo: nat, hi: nat)
    requires hi <= round
    ensures RoundBytes(Tag(ps, round), lo, hi) == 0
  {
    if ps == [] {
    } else {
      var k := |ps| - 1;
      TagLater(ps[..k], round, lo, hi);
      assert Tag(ps, round) == Tag(ps[..k], round) + [Slotted(ps[k], round)];
    }
  }

  lemma {:induction false} ScheduleLater(cal: seq<seq<Packet>>, round: nat, f: nat, lo: nat, hi: nat)
    requires hi <= round
    ensures RoundBytes(Schedule(cal, round, f), lo, hi) == 0
    decreases cal
  {
    hide OfFlow;
    if cal == [] {
    } else {
      ScheduleLater(cal[1..], round + 1, f, lo, hi);
      TagLater(OfFlow(cal[0], f), round, lo, hi);
      RoundBytesConcat(Tag(OfFlow(cal[0], f), round), Schedule(cal[1..], round + 1, f), lo, hi);
    }
  }

  /** Once round `hi` has been reached, what was assigned to earlier rounds has been served. */
  lemma ServedIsAssigned(c: Config, tr: seq<State>, es: seq<Event>, f: nat, lo: nat, hi: nat, n: nat)
    requires IsRun(c, tr, es) && n <= |es| && hi <= tr[n].nRounds
    ensures RoundBytes(AllServed(c, tr, es, f, n), lo, hi) == Assigned(c, tr, es, f, lo, hi, n)
  {
    hide RoundBytes, Schedule, AllServed, AllTaken;
    FlowOrder(c, tr, es, f, n);
    ScheduleLater(tr[n].cal, tr[n].nRounds, f, lo, hi);
    RoundBytesConcat(AllServed(c, tr, es, f, n), Schedule(tr[n].cal, tr[n].nRounds, f), lo, hi);
  }

  lemma InvCore(c: Config, s: State)
    requires Inv(c, s)
    ensures Core(c, s)
  {}

  /** The share of a backlogged flow that is alone in a row: the bytes it is served over rounds
      that pass between `a` and `b` are those rounds' bytes, give or take less than a packet. */
  lemma BackloggedShare(c: Config, tr: seq<State>, es: seq<Event>, f: nat, row: nat, a: nat, b: nat,
                        lo: nat, hi: nat, max: nat)
    requires IsRun(c, tr, es) && a <= b <= |es| && SizesAtMost(es, max) && max >= 1
    requires row < c.nHash && Alone(c, es, f, row) && Backlogged(tr, f, a, b)
    requires tr[a].nRounds <= lo <= hi <= tr[b].nRounds
    ensures var share := hi * c.bytesPerRound - lo * c.bytesPerRound;
            share - max < RoundBytes(AllServed(c, tr, es, f, b), lo, hi) < share + max
  {
    hide Estimate, Inv, RoundBytes, Queued, Init, Charged, AllServed, AllTaken;
    RunInv(c, tr, es, b);
    MulMonotone(lo, hi, c.bytesPerRound);
    MulMonotone(hi, tr[b].nRounds, c.bytesPerRound);
    ServedIsAssigned(c, tr, es, f, lo, hi, b);
    RoundShare(c, tr, es, f, lo, hi, b, max);
    RoundsFilled(c, tr, es, f, row, a, b, lo, hi, b, max);
    InvCore(c, tr[b]);
    QueuedIsCharged(c, tr[b], f);
  }

  /** Fairness by rounds: two flows, each alone in some row of the sketch, that stay backlogged from
      `a` to `b` are served amounts that differ by less than two packets over the rounds passed. */
  lemma RoundFairness(c: Config, tr: seq<State>, es: seq<Event>, f: nat, frow: nat, g: nat, grow: nat,
                      a: nat, b: nat, max: nat)
    requires IsRun(c, tr, es) && a <= b <= |es| && SizesAtMost(es, max) && max >= 1
    requires frow < c.nHash && Alone(c, es, f, frow) && Backlogged(tr, f, a, b)
    requires grow < c.nHash && Alone(c, es, g, grow) && Backlogged(tr, g, a, b)
    ensures var lo, hi := tr[a].nRounds, tr[b].nRounds;
            var gap := RoundBytes(AllServed(c, tr, es, f, b), lo, hi)
                       - RoundBytes(AllServed(c, tr, es, g, b), lo, hi);
            -2 * (max - 1) <= gap <= 2 * (max - 1)
  {
    hide RoundBytes, AllServed, Alone, Backlogged;
    DepartureRounds(c, tr, es, a, b);
    BackloggedShare(c, tr, es, f, frow, a, b, tr[a].nRounds, tr[b].nRounds, max);
    BackloggedShare(c, tr, es, g, grow, a, b, tr[a].nRounds, tr[b].nRounds, max);
  }

  /** Bytes of `f` that an event serves. */
  function ServedBytes(s: State, e: Event, f: nat): nat {
    if e.Completion? then Bytes(OfFlow(Listed(InService(s)), f)) else 0
  }

  /** Bytes of `f` served by events `a` to `b - 1`. */
  function ServedBetween(tr: seq<State>, es: seq<Event>, f: nat, a: nat, b: nat): nat
    requires a <= b <= |es| < |tr|
    decreases b
  {
    if a == b then 0 else ServedBetween(tr, es, f, a, b - 1) + ServedBytes(tr[b - 1], es[b - 1], f)
  }

  lemma ServedStep(s: State, e: Event, f: nat, xs: seq<Slotted>, lo: nat, hi: nat)
    ensures RoundBytes(xs + Served(s, e, f), lo, hi)
            == RoundBytes(xs, lo, hi) + (if lo <= s.nRounds < hi then ServedBytes(s, e, f) else 0)
  {
    hide RoundBytes, OfFlow;
    OfFlowEmpty(f);
    if InService(s).Some? {
      OfFlowSingle(InService(s).value, f);
      BytesSingle(InService(s).value);
    }
    if e.Completion? && InService(s).Some? && InService(s).value.flow == f {
      assert Served(s, e, f) == [Slotted(InService(s).value, s.nRounds)];
      RoundBytesPush(xs, Slotted(InService(s).value, s.nRounds), lo, hi);
    } else {
      assert Served(s, e, f) == [];
      assert xs + [] == xs;
    }
  }

  /** What events `a` to `b - 1` serve, by the rounds it belongs to: all of it lies in the rounds
      from `a`'s to `b`'s, and all of the rounds strictly between them is part of it. */
  lemma {:induction false} ServedInRounds(c: Config, tr: seq<State>, es: seq<Event>, f: nat, a: nat, b: nat,
                                          lo: nat, hi: nat)
    requires IsRun(c, tr, es) && a <= b <= |es|
    ensures var before, after := RoundBytes(AllServed(c, tr, es, f, a), lo, hi),
                                 RoundBytes(AllServed(c, tr, es, f, b), lo, hi);
            && after - before <= ServedBetween(tr, es, f, a, b)
            && (lo <= tr[a].nRounds && tr[b].nRounds < hi ==>
                  after - before == ServedBetween(tr, es, f, a, b))
    decreases b
  {
    hide RoundBytes, ServedBytes, Served;
    if a == b {
    } else {
      ServedInRounds(c, tr, es, f, a, b - 1, lo, hi);
      DepartureRounds(c, tr, es, a, b - 1);
      DepartureRounds(c, tr, es, b - 1, b);
      ServedStep(tr[b - 1], es[b - 1], f, AllServed(c, tr, es, f, b - 1), lo, hi);
    }
  }

  /** Rounds not reached yet have not been served. */
  lemma {:induction false} NotServedYet(c: Config, tr: seq<State>, es: seq<Event>, f: nat, n: nat, lo: nat, hi: nat)
    requires IsRun(c, tr, es) && n <= |es| && tr[n].nRounds < lo
    ensures RoundBytes(AllServed(c, tr, es, f, n), lo, hi) == 0
  {
    hide ServedBytes, Served, Next, Inv;
    if n == 0 {
    } else {
      DepartureRounds(c, tr, es, n - 1, n);
      NotServedYet(c, tr, es, f, n - 1, lo, hi);
      ServedStep(tr[n - 1], es[n - 1], f, AllServed(c, tr, es, f, n - 1), lo, hi);
    }
  }

  /** Whatever the collisions, a flow is served less than the bytes of the rounds it is served in
      plus a packet. */
  lemma ServedAtMost(c: Config, tr: seq<State>, es: seq<Event>, f: nat, a: nat, b: nat, max: nat)
    requires IsRun(c, tr, es) && a <= b <= |es| && SizesAtMost(es, max) && max >= 1
    ensures ServedBetween(tr, es, f, a, b)
            < (tr[b].nRounds + 1) * c.bytesPerRound - tr[a].nRounds * c.bytesPerRound + max
  {
    hide RoundBytes, AllServed, AllTaken, Schedule, ServedBetween;
    var lo, hi := tr[a].nRounds, tr[b].nRounds + 1;
    DepartureRounds(c, tr, es, a, b);
    MulMonotone(lo, hi, c.bytesPerRound);
    ServedInRounds(c, tr, es, f, a, b, lo, hi);
    FlowOrder(c, tr, es, f, b);
    RoundBytesConcat(AllServed(c, tr, es, f, b), Schedule(tr[b].cal, tr[b].nRounds, f), lo, hi);
    RoundShare(c, tr, es, f, lo, hi, b, max);
  }

  /** A flow alone in a row that stays backlogged is served at least the bytes of the rounds
      strictly between, less a packet. */
  lemma ServedAtLeast(c: Config, tr: seq<State>, es: seq<Event>, f: nat, row: nat, a: nat, b: nat, max: nat)
    requires IsRun(c, tr, es) && a <= b <= |es| && SizesAtMost(es, max) && max >= 1
    requires row < c.nHash && Alone(c, es, f, row) && Backlogged(tr, f, a, b)
    ensures ServedBetween(tr, es, f, a, b) + max
            > tr[b].nRounds * c.bytesPerRound - (tr[a].nRounds + 1) * c.bytesPerRound
  {
    hide RoundBytes, AllServed, ServedBetween, Backlogged, Alone;
    var lo, hi := tr[a].nRounds + 1, tr[b].nRounds;
    if lo <= hi {
      NotServedYet(c, tr, es, f, a, lo, hi);
      ServedInRounds(c, tr, es, f, a, b, lo, hi);
      BackloggedShare(c, tr, es, f, row, a, b, lo, hi, max);
    } else {
      MulMonotone(hi, lo, c.bytesPerRound);
    }
  }

  /** Isolation: no flow, whatever its collisions, is served more than a backlogged flow that is
      alone in a row plus two rounds' bytes and less than two packets, between any two events. */
  lemma Isolation(c: Config, tr: seq<State>, es: seq<Event>, f: nat, row: nat, g: nat, a: nat, b: nat, max: nat)
    requires IsRun(c, tr, es) && a <= b <= |es| && SizesAtMost(es, max) && max >= 1
    requires row < c.nHash && Alone(c, es, f, row) && Backlogged(tr, f, a, b)
    ensures ServedBetween(tr, es, g, a, b)
            <= ServedBetween(tr, es, f, a, b) + 2 * c.bytesPerRound + 2 * (max - 1)
  {
    hide ServedBetween, Alone, Backlogged;
    ServedAtMost(c, tr, es, g, a, b, max);
    ServedAtLeast(c, tr, es, f, row, a, b, max);
    OneMore(tr[a].nRounds, c.bytesPerRound);
    OneMore(tr[b].nRounds, c.bytesPerRound);
  }

  /** Fairness: two flows, each alone in some row of the sketch, that stay backlogged are served
      bytes that differ by at most two rounds' bytes and two packets, between any two events. */
  lemma Fairness(c: Config, tr: seq<State>, es: seq<Event>, f: nat, frow: nat, g: nat, grow: nat,
                 a: nat, b: nat, max: nat)
    requires IsRun(c, tr, es) && a <= b <= |es| && SizesAtMost(es, max) && max >= 1
    requires frow < c.nHash && Alone(c, es, f, frow) && Backlogged(tr, f, a, b)
    requires grow < c.nHash && Alone(c, es, g, grow) && Backlogged(tr, g, a, b)
    ensures var gap := ServedBetween(tr, es, f, a, b) - ServedBetween(tr, es, g, a, b);
            -(2 * c.bytesPerRound + 2 * (max - 1)) <= gap <= 2 * c.bytesPerRound + 2 * (max - 1)
  {
    hide ServedBetween, IsRun, Alone, Backlogged;
    Isolation(c, tr, es, f, frow, g, a, b, max);
    Isolation(c, tr, es, g, grow, f, a, b, max);
  }
}

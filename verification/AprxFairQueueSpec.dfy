/** Approximate fair queueing: a calendar of FIFO slots driven by a count-min sketch.
    `cal[k]` is the slot of round `nRounds + k`; the class keeps the same slots in a
    circular array and a cursor. */
module AprxFairQueueSpec {
  import opened Packets
  import opened Arithmetic
  import opened Hashing

  datatype Config = Config(nHash: nat, nBucket: nat, nQueue: nat, bytesPerRound: nat, maxsize: nat)

  ghost predicate Valid(c: Config) {
    c.nHash >= 1 && c.nBucket >= 1 && c.nQueue >= 1 && c.bytesPerRound >= 1
  }

  datatype State = State(
    cal: seq<seq<Packet>>,
    sketch: seq<seq<nat>>,
    nRounds: nat,
    nPackets: nat,
    queuesize: nat)

  function Init(c: Config): State {
    State(seq(c.nQueue, _ => []), seq(c.nHash, _ => seq(c.nBucket, _ => 0)), 0, 0, 0)
  }

  // ----- the count-min sketch -------------------------------------------------------

  function Bucket(c: Config, row: nat, flow: nat): (b: nat)
    requires Valid(c)
    ensures b < c.nBucket
  {
    Place(row, flow, c.nBucket)
  }

  /** The hash of each row is additive; with where it puts flow 1 that fixes it. */
  lemma BucketAdds(c: Config, row: nat, f: nat, g: nat)
    requires Valid(c)
    ensures Bucket(c, 0, 1) == 7643 % c.nBucket && Bucket(c, 1, 1) == 7723 % c.nBucket
    ensures Bucket(c, 2, 1) == 7829 % c.nBucket && Bucket(c, 3, 1) == 7919 % c.nBucket
    ensures row >= 4 ==> Bucket(c, row, 1) == 1 % c.nBucket
    ensures Bucket(c, row, 0) == 0
    ensures Bucket(c, row, f + g) == (Bucket(c, row, f) + Bucket(c, row, g)) % c.nBucket
  {
    hide Place;
    PlaceAdds(0, f, g, c.nBucket);
    PlaceAdds(1, f, g, c.nBucket);
    PlaceAdds(2, f, g, c.nBucket);
    PlaceAdds(3, f, g, c.nBucket);
    PlaceAdds(row, f, g, c.nBucket);
  }

  /** In one of the first four rows flows 0 to `nBucket` - 1 all get buckets of their own if and
      only if the row's prime does not divide `nBucket`. */
  lemma BucketsSpread(c: Config, row: nat)
    requires Valid(c) && row < 4
    ensures (forall f, g :: 0 <= f < g < c.nBucket ==> Bucket(c, row, f) != Bucket(c, row, g))
            <==> c.nBucket % [7643, 7723, 7829, 7919][row] != 0
  {
    hide Place;
    SpreadsExactly(row, c.nBucket);
    assert forall f: nat :: Place(row, f, c.nBucket) == Bucket(c, row, f);
  }

  ghost predicate SketchShape(c: Config, sk: seq<seq<nat>>) {
    |sk| == c.nHash && forall i :: 0 <= i < c.nHash ==> |sk[i]| == c.nBucket
  }

  function Cell(c: Config, sk: seq<seq<nat>>, row: nat, flow: nat): nat
    requires Valid(c) && SketchShape(c, sk) && row < c.nHash
  {
    sk[row][Bucket(c, row, flow)]
  }

  /** Smallest of the flow's cells in rows 0..n. */
  function MinCell(c: Config, sk: seq<seq<nat>>, flow: nat, n: nat): nat
    requires Valid(c) && SketchShape(c, sk) && 1 <= n <= c.nHash
  {
    var last := Cell(c, sk, n - 1, flow);
    if n == 1 then last
    else
      var rest := MinCell(c, sk, flow, n - 1);
      if last < rest then last else rest
  }

  /** Bytes the sketch believes the flow has been charged. */
  function Estimate(c: Config, sk: seq<seq<nat>>, flow: nat): nat
    requires Valid(c) && SketchShape(c, sk)
  {
    MinCell(c, sk, flow, c.nHash)
  }

  /** Conservative update: raise the flow's cells to `v`, leave every other cell alone. */
  function Raise(c: Config, sk: seq<seq<nat>>, flow: nat, v: nat): (sk': seq<seq<nat>>)
    requires Valid(c) && SketchShape(c, sk)
    ensures SketchShape(c, sk')
  {
    seq(c.nHash, i requires 0 <= i < c.nHash =>
      sk[i][Bucket(c, i, flow) := Max(Cell(c, sk, i, flow), v)])
  }

  // ----- the invariant --------------------------------------------------------------

  ghost predicate Shape(c: Config, s: State) {
    Valid(c) && |s.cal| == c.nQueue && SketchShape(c, s.sketch)
  }

  /** A queued packet was charged, at the latest, in the round it waits for. */
  ghost predicate Charged(c: Config, s: State, k: nat, p: Packet)
    requires Shape(c, s)
  {
    Estimate(c, s.sketch, p.flow) >= (s.nRounds + k) * c.bytesPerRound + p.size
  }

  ghost predicate Core(c: Config, s: State) {
    && Shape(c, s)
    && s.nPackets == |Flat(s.cal)|
    && s.queuesize == Bytes(Flat(s.cal)) <= c.maxsize
    && forall k, i :: 0 <= k < c.nQueue && 0 <= i < |s.cal[k]| ==> Charged(c, s, k, s.cal[k][i])
  }

  /** Between events the slot under the cursor holds the packet in service. */
  ghost predicate Inv(c: Config, s: State) {
    Core(c, s) && (s.nPackets > 0 ==> s.cal[0] != [])
  }

  // ----- the steps ------------------------------------------------------------------

  /** The round an arrival of `flow` belongs to. */
  function RoundOf(c: Config, s: State, flow: nat): nat
    requires Shape(c, s)
  {
    Max(Estimate(c, s.sketch, flow) / c.bytesPerRound, s.nRounds)
  }

  lemma RoundNotPast(c: Config, s: State, flow: nat)
    requires Shape(c, s)
    ensures RoundOf(c, s, flow) >= s.nRounds
  {}

  /** The byte count an arrival of `flow` is charged from. */
  function Charge(c: Config, s: State, flow: nat): nat
    requires Shape(c, s)
  {
    Max(s.nRounds * c.bytesPerRound, Estimate(c, s.sketch, flow))
  }

  predicate Accepts(c: Config, s: State, p: Packet)
    requires Shape(c, s)
  {
    s.queuesize + p.size <= c.maxsize && RoundOf(c, s, p.flow) - s.nRounds < c.nQueue
  }

  function Enqueue(c: Config, s: State, p: Packet): State
    requires Shape(c, s) && Accepts(c, s, p)
  {
    var k := RoundOf(c, s, p.flow) - s.nRounds;
    s.(cal := s.cal[k := s.cal[k] + [p]],
       sketch := Raise(c, s.sketch, p.flow, Charge(c, s, p.flow) + p.size),
       nPackets := s.nPackets + 1,
       queuesize := s.queuesize + p.size)
  }

  /** Distance from the cursor to the first busy slot. */
  function FirstBusy(cal: seq<seq<Packet>>): (k: nat)
    ensures k <= |cal|
    ensures k < |cal| ==> cal[k] != []
    ensures forall j :: 0 <= j < k ==> cal[j] == []
  {
    if cal == [] || cal[0] != [] then 0 else 1 + FirstBusy(cal[1..])
  }

  /** Move the cursor `k` slots on; a passed slot serves again `nQueue` rounds later. */
  function Rotate(s: State, k: nat): State
    requires k <= |s.cal|
  {
    s.(cal := s.cal[k..] + s.cal[..k], nRounds := s.nRounds + k)
  }

  function Begin(s: State): State {
    if s.nPackets > 0 then Rotate(s, FirstBusy(s.cal)) else s
  }

  function Dequeue(s: State): State
    requires s.cal != [] && s.cal[0] != [] && s.nPackets > 0 && s.queuesize >= s.cal[0][0].size
  {
    s.(cal := s.cal[0 := s.cal[0][1..]],
       nPackets := s.nPackets - 1,
       queuesize := s.queuesize - s.cal[0][0].size)
  }

  /** The packet whose completion is pending. */
  function InService(s: State): Option<Packet> {
    if s.nPackets > 0 && s.cal != [] && s.cal[0] != [] then Some(s.cal[0][0]) else None
  }

  function Receive(c: Config, s: State, p: Packet): State
    requires Shape(c, s)
  {
    if !Accepts(c, s, p) then s
    else if s.nPackets == 0 then Begin(Enqueue(c, s, p))
    else Enqueue(c, s, p)
  }

  lemma HeadCounted(c: Config, s: State)
    requires Inv(c, s) && s.nPackets > 0
    ensures s.queuesize >= s.cal[0][0].size
    ensures Flat(Dequeue(s).cal) == Flat(s.cal)[1..] && Flat(s.cal)[0] == s.cal[0][0]
  {}

  function Complete(c: Config, s: State): State
    requires Inv(c, s) && s.nPackets > 0
  {
    HeadCounted(c, s);
    Begin(Dequeue(s))
  }

  // ----- sketch lemmas --------------------------------------------------------------

  lemma {:induction false} MinCellBounds(c: Config, sk: seq<seq<nat>>, flow: nat, n: nat)
    requires Valid(c) && SketchShape(c, sk) && 1 <= n <= c.nHash
    ensures forall i :: 0 <= i < n ==> MinCell(c, sk, flow, n) <= Cell(c, sk, i, flow)
    ensures exists i :: 0 <= i < n && MinCell(c, sk, flow, n) == Cell(c, sk, i, flow)
  {
    if n > 1 {
      MinCellBounds(c, sk, flow, n - 1);
    } else {
      assert MinCell(c, sk, flow, n) == Cell(c, sk, 0, flow);
    }
  }

  /** Raising never lowers an estimate, and sets the raised flow's own estimate exactly. */
  lemma RaiseEstimates(c: Config, sk: seq<seq<nat>>, flow: nat, v: nat, g: nat)
    requires Valid(c) && SketchShape(c, sk)
    ensures Estimate(c, Raise(c, sk, flow, v), g) >= Estimate(c, sk, g)
    ensures v >= Estimate(c, sk, flow) ==> Estimate(c, Raise(c, sk, flow, v), flow) == v
  {
    var sk' := Raise(c, sk, flow, v);
    MinCellBounds(c, sk, g, c.nHash);
    MinCellBounds(c, sk', g, c.nHash);
    var i :| 0 <= i < c.nHash && Estimate(c, sk', g) == Cell(c, sk', i, g);
    assert Cell(c, sk', i, g) >= Cell(c, sk, i, g);
    if v >= Estimate(c, sk, flow) {
      MinCellBounds(c, sk, flow, c.nHash);
      MinCellBounds(c, sk', flow, c.nHash);
      var a :| 0 <= a < c.nHash && Estimate(c, sk, flow) == Cell(c, sk, a, flow);
      var b :| 0 <= b < c.nHash && Estimate(c, sk', flow) == Cell(c, sk', b, flow);
      assert Cell(c, sk', a, flow) == v && Cell(c, sk', b, flow) >= v;
    }
  }

  lemma ChargeArithmetic(e: nat, b: nat, n: nat)
    requires b >= 1
    ensures var r, v := Max(e / b, n), Max(n * b, e);
            r * b <= v < (r + 1) * b && v / b == r
  {
    DivBounds(e, b);
    if e / b < n {
      MulMonotone(e / b + 1, n, b);
      assert (n + 1) * b == n * b + b;
      DivUnique(n * b, b, n);
    } else {
      MulMonotone(n, e / b, b);
    }
  }

  /** The byte count charged from lies in the round assigned. */
  lemma ChargeInRound(c: Config, s: State, flow: nat)
    requires Shape(c, s)
    ensures var r, b := RoundOf(c, s, flow), c.bytesPerRound;
            r * b <= Charge(c, s, flow) < (r + 1) * b
    ensures Charge(c, s, flow) / c.bytesPerRound == RoundOf(c, s, flow)
  {
    hide Estimate;
    ChargeArithmetic(Estimate(c, s.sketch, flow), c.bytesPerRound, s.nRounds);
  }

  // ----- calendar lemmas ------------------------------------------------------------

  /** Skipping empty slots changes nothing in the service order. */
  lemma RotateFlat(s: State, k: nat)
    requires k <= |s.cal| && forall j :: 0 <= j < k ==> s.cal[j] == []
    ensures Flat(Rotate(s, k).cal) == Flat(s.cal)
  {
    assert s.cal == s.cal[..k] + s.cal[k..];
    FlatConcat(s.cal[..k], s.cal[k..]);
    FlatConcat(s.cal[k..], s.cal[..k]);
    FlatEmpty(s.cal[..k]);
  }

  /** The scan stops within nQueue - 1 steps: a non-empty calendar has a busy slot. */
  lemma ScanStops(s: State)
    requires Flat(s.cal) != []
    ensures FirstBusy(s.cal) <= |s.cal| - 1
  {
    if FirstBusy(s.cal) == |s.cal| {
      FlatEmpty(s.cal);
    }
  }

  // ----- every step keeps the invariant ---------------------------------------------

  lemma InitInv(c: Config)
    requires Valid(c)
    ensures Inv(c, Init(c))
  {
    FlatEmpty(Init(c).cal);
  }

  /** Turning the calendar past `k` slots keeps every packet in its round. */
  lemma RotateCharged(c: Config, s: State, k: nat)
    requires Shape(c, s) && k <= c.nQueue && forall j :: 0 <= j < k ==> s.cal[j] == []
    requires forall j, i :: 0 <= j < c.nQueue && 0 <= i < |s.cal[j]| ==> Charged(c, s, j, s.cal[j][i])
    ensures var t := Rotate(s, k);
            && Shape(c, t)
            && forall j, i :: 0 <= j < c.nQueue && 0 <= i < |t.cal[j]| ==> Charged(c, t, j, t.cal[j][i])
  {
    hide Estimate, Valid, SketchShape;
    var t := Rotate(s, k);
    forall j, i | 0 <= j < c.nQueue && 0 <= i < |t.cal[j]| ensures Charged(c, t, j, t.cal[j][i]) {
      assert j + k < c.nQueue;
      assert t.cal[j] == s.cal[j + k];
      assert Charged(c, s, j + k, s.cal[j + k][i]);
      assert t.nRounds + j == s.nRounds + (j + k);
    }
  }

  lemma BeginInv(c: Config, s: State)
    requires Core(c, s)
    ensures Inv(c, Begin(s)) && Flat(Begin(s).cal) == Flat(s.cal)
  {
    hide Charged, Flat;
    if s.nPackets > 0 {
      ScanStops(s);
      RotateFlat(s, FirstBusy(s.cal));
      RotateCharged(c, s, FirstBusy(s.cal));
    }
  }

  lemma ChargeAboveEstimate(c: Config, s: State, flow: nat)
    requires Shape(c, s)
    ensures Charge(c, s, flow) >= Estimate(c, s.sketch, flow)
  {}

  /** An arrival takes no other packet's charge away. */
  lemma EnqueueKeepsCharged(c: Config, s: State, p: Packet, j: nat, q: Packet)
    requires Shape(c, s) && Charged(c, s, j, q)
    ensures Accepts(c, s, p) ==> Charged(c, Enqueue(c, s, p), j, q)
  {
    hide Estimate, RoundOf, Raise, Charge;
    RaiseEstimates(c, s.sketch, p.flow, Charge(c, s, p.flow) + p.size, q.flow);
  }

  /** An arrival is charged in the round it waits for. */
  lemma EnqueueCharges(c: Config, s: State, p: Packet)
    requires Shape(c, s)
    ensures Accepts(c, s, p) ==>
              Charged(c, Enqueue(c, s, p), RoundOf(c, s, p.flow) - s.nRounds, p)
  {
    hide Estimate, RoundOf, Raise, Charge;
    ChargeInRound(c, s, p.flow);
    ChargeAboveEstimate(c, s, p.flow);
    RaiseEstimates(c, s.sketch, p.flow, Charge(c, s, p.flow) + p.size, p.flow);
  }

  lemma EnqueueCore(c: Config, s: State, p: Packet)
    requires Core(c, s)
    ensures Accepts(c, s, p) ==> Core(c, Enqueue(c, s, p))
  {
    hide Charged, Estimate, Charge, Raise, Flat;
    if Accepts(c, s, p) {
      var t := Enqueue(c, s, p);
      var k := RoundOf(c, s, p.flow) - s.nRounds;
      AppendFlat(s.cal, k, p);
      forall j, i | 0 <= j < c.nQueue && 0 <= i < |t.cal[j]| ensures Charged(c, t, j, t.cal[j][i]) {
        if j == k && i == |s.cal[k]| {
          EnqueueCharges(c, s, p);
        } else {
          assert Charged(c, s, j, s.cal[j][i]);
          EnqueueKeepsCharged(c, s, p, j, s.cal[j][i]);
        }
      }
    }
  }

  /** The packet leaving was charged at least up to the current round. */
  lemma HeadRound(c: Config, s: State)
    requires Inv(c, s) && s.nPackets > 0
    ensures InService(s) == Some(s.cal[0][0])
    ensures Estimate(c, s.sketch, s.cal[0][0].flow) / c.bytesPerRound >= s.nRounds
  {
    assert Charged(c, s, 0, s.cal[0][0]);
    var e := Estimate(c, s.sketch, s.cal[0][0].flow);
    DivBounds(e, c.bytesPerRound);
    if e / c.bytesPerRound < s.nRounds {
      MulMonotone(e / c.bytesPerRound + 1, s.nRounds, c.bytesPerRound);
    }
  }

  lemma DequeueCore(c: Config, s: State)
    requires Inv(c, s) && s.nPackets > 0
    ensures s.queuesize >= s.cal[0][0].size && Core(c, Dequeue(s))
  {
    HeadCounted(c, s);
    var t := Dequeue(s);
    forall j, i | 0 <= j < c.nQueue && 0 <= i < |t.cal[j]| ensures Charged(c, t, j, t.cal[j][i]) {
      assert Charged(c, s, j, s.cal[j][if j == 0 then i + 1 else i]);
    }
  }

  lemma ReceiveInv(c: Config, s: State, p: Packet)
    requires Inv(c, s)
    ensures Inv(c, Receive(c, s, p))
  {
    if Accepts(c, s, p) {
      EnqueueCore(c, s, p);
      if s.nPackets == 0 {
        BeginInv(c, Enqueue(c, s, p));
      }
    }
  }

  lemma CompleteInv(c: Config, s: State)
    requires Inv(c, s) && s.nPackets > 0
    ensures Inv(c, Complete(c, s))
  {
    DequeueCore(c, s);
    BeginInv(c, Dequeue(s));
  }

  /** A quotient stays less than `k` beyond `n` exactly below the bytes of `n + k` rounds. */
  lemma RoundsAhead(e: nat, b: nat, n: nat, k: nat)
    requires b >= 1 && k >= 1
    ensures Max(e / b, n) - n < k <==> e < (n + k) * b
  {
    DivBounds(e, b);
    if e / b < n + k {
      MulMonotone(e / b + 1, n + k, b);
    } else {
      MulMonotone(n + k, e / b, b);
    }
  }

  /** A packet is queued exactly when the buffer has room for it and its flow is charged less
      than the bytes of all rounds up to the end of the calendar; otherwise nothing changes. */
  lemma ReceiveExactly(c: Config, s: State, p: Packet)
    requires Shape(c, s)
    ensures if s.queuesize + p.size <= c.maxsize
               && Estimate(c, s.sketch, p.flow) < (s.nRounds + c.nQueue) * c.bytesPerRound
            then Receive(c, s, p).nPackets == s.nPackets + 1
                 && Receive(c, s, p).queuesize == s.queuesize + p.size
            else Receive(c, s, p) == s
  {
    hide Estimate, Raise, Charge;
    RoundsAhead(Estimate(c, s.sketch, p.flow), c.bytesPerRound, s.nRounds, c.nQueue);
  }
}

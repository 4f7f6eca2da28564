/** The timer can be disarmed: a timed run of an unlimited flow in slow start. The window grows by
    a packet with each acknowledgement until it stands at 2^32 - 1; the next acknowledgement wraps
    it to 0, and an acknowledgement of everything sent, overtaking the others, turns the timer
    off. Every packet arrives, yet the sender never sends again. */
module TcpStall {
  import opened Htsim
  import opened Arithmetic
  import opened TcpSpec
  import opened TcpRuns
  import opened TcpProgress
  import opened TcpClock
  import Sink = DataSinkSpec

  const UNLIMITED := Config(0, 0, 0)
  const RTT: nat := 2 * DELAY
  const FULL: nat := TWO32 - 1
  const PACKETS: nat := 2_863_311   // whole packets in a window of `FULL` bytes

  // ----- the sender -----------------------------------------------------------------

  /** Slow start with the whole window `cwnd` in flight beyond `last`. */
  predicate Growing(s: State, last: nat, cwnd: nat, highest: nat) {
    && s.phase == SlowStart && s.ssthresh == FULL && s.cwnd == cwnd
    && s.lastAcked == last && s.highestSent == highest
    && (s.rtt == 0 || s.rtt == RTT) && s.rto >= MIN_RTO && s.timeout != 0
  }

  /** A steady round-trip time is its own estimate. */
  lemma RttSteady(s: State)
    requires s.rtt == 0 || s.rtt == RTT
    ensures var t := UpdateRtt(s, RTT);
            t == s.(rtt := RTT, mdev := t.mdev, rto := t.rto) && t.rto >= MIN_RTO
  {}

  lemma AckOnTime(s: State, ackno: nat, ts: nat)
    requires Active(s) && s.ssthresh > 0 && (s.rtt == 0 || s.rtt == RTT) && ackno > s.lastAcked
    ensures var t := UpdateRtt(s, RTT);
            && t.ssthresh > 0
            && OnAck(UNLIMITED, s, ackno, ts, ts + RTT) == NewAck(UNLIMITED, t, ackno, ts + RTT)
  {
    hide NewAck, UpdateRtt;
    assert U64(RTT) == RTT;
    RttSteady(s);
  }

  /** Slow start adds what was newly acknowledged, up to the threshold. */
  lemma InflateBy(s: State, newly: nat)
    requires s.ssthresh == FULL && s.cwnd < FULL
    requires s.lastAcked + s.cwnd == s.highestSent + newly && newly <= 2 * MSS
    ensures Inflate(s) == s.(cwnd := s.cwnd + Min(FULL - s.cwnd, Min(newly, MSS)))
  {
    assert Int32(s.lastAcked + s.cwnd - s.highestSent) == newly;
  }

  /** The acknowledgement of the next packet, before the window is full. */
  lemma GrowingAck(s: State, last: nat, cwnd: nat, ts: nat)
    requires Growing(s, last, cwnd, last + cwnd) && 2 * MSS <= cwnd && cwnd + MSS <= FULL
    ensures var o := OnAck(UNLIMITED, s, last + MSS, ts, ts + RTT);
            && Growing(o.s, last + MSS, cwnd + MSS, last + cwnd + 2 * MSS)
            && o.s.rtt == RTT && o.s.timeout > ts + RTT
            && o.sent == [last + cwnd + 1, last + cwnd + MSS + 1]
  {
    hide UpdateRtt, Inflate;
    AckOnTime(s, last + MSS, ts);
    RttSteady(s);
    InflateBy(UpdateRtt(s, RTT).(timeout := ts + RTT + UpdateRtt(s, RTT).rto, lastAcked := last + MSS,
                                 dupacks := 0), MSS);
  }

  /** The last step up: only 795 bytes fit. */
  lemma FillingAck(s: State, last: nat, ts: nat)
    requires Growing(s, last, PACKETS * MSS, last + PACKETS * MSS)
    ensures var o := OnAck(UNLIMITED, s, last + MSS, ts, ts + RTT);
            && Growing(o.s, last + MSS, FULL, last + PACKETS * MSS + MSS)
            && o.s.rtt == RTT && o.s.timeout > ts + RTT
            && o.sent == [last + PACKETS * MSS + 1]
  {
    hide UpdateRtt, Inflate;
    AckOnTime(s, last + MSS, ts);
    RttSteady(s);
    InflateBy(UpdateRtt(s, RTT).(timeout := ts + RTT + UpdateRtt(s, RTT).rto, lastAcked := last + MSS,
                                 dupacks := 0), MSS);
  }

  lemma SmallDifference(x: int)
    requires MSS <= x <= 3 * MSS
    ensures Int32(x) == x
  {}

  /** At the threshold congestion avoidance adds one byte, and the window wraps to 0. */
  lemma WrappingAck(s: State, last: nat, ts: nat)
    requires Growing(s, last, FULL, last + PACKETS * MSS)
    ensures var o := OnAck(UNLIMITED, s, last + MSS, ts, ts + RTT);
            && Growing(o.s, last + MSS, 0, last + PACKETS * MSS)
            && o.s.rtt == RTT && o.s.timeout > ts + RTT && o.sent == []
  {
    hide UpdateRtt, Int32;
    AckOnTime(s, last + MSS, ts);
    RttSteady(s);
    var t := UpdateRtt(s, RTT).(timeout := ts + RTT + UpdateRtt(s, RTT).rto, lastAcked := last + MSS,
                                dupacks := 0);
    SmallDifference(t.lastAcked + t.cwnd - t.highestSent);
    IncreaseVanishes(MSS, FULL);
    assert Inflate(t).cwnd == 0;
  }

  /** An acknowledgement of everything sent finds no window to send from. */
  lemma StallingAck(s: State, last: nat, highest: nat, ts: nat)
    requires Growing(s, last, 0, highest) && last < highest
    ensures var o := OnAck(UNLIMITED, s, highest, ts, ts + RTT);
            && o.s.phase == SlowStart && o.s.cwnd == 0 && o.s.timeout == 0
            && o.s.lastAcked == o.s.highestSent == highest && o.s.ssthresh > 0 && o.sent == []
  {
    hide UpdateRtt;
    AckOnTime(s, highest, ts);
    RttSteady(s);
    InflateBy(UpdateRtt(s, RTT).(timeout := 0, lastAcked := highest, dupacks := 0), 0);
  }

  // ----- the network ----------------------------------------------------------------

  /** The packets that have not arrived are those of bytes `lo` to `hi`, sent at time `ts`. */
  ghost predicate InFlight(y: System, w: Clock, ts: nat, lo: nat, hi: nat) {
    forall d :: d in y.data && d !in w.heard <==>
                d.ts == ts && lo < d.seqno <= hi && Aligned(d.seqno - 1)
  }

  /** Acknowledgements up to `hi` of the packets sent at `ts` are on their way since `at`. */
  ghost predicate Acknowledging(y: System, w: Clock, ts: nat, lo: nat, hi: nat, at: nat) {
    forall x: nat :: lo < x <= hi && Aligned(x) ==>
      && Ack(x, ts) in y.acks && Ack(x, ts) !in w.taken
      && Ack(x, ts) in w.born && w.born[Ack(x, ts)] <= at
  }

  /** Nothing is known of bytes that the sink has not acknowledged. */
  ghost predicate Consistent(y: System, w: Clock) {
    && y.sink.received == [] && Aligned(y.sink.cumulativeAck)
    && (forall d :: d in w.heard ==> d.seqno <= y.sink.cumulativeAck)
    && (forall a :: a in w.born ==> a.ackno <= y.sink.cumulativeAck)
    && (forall a :: a in w.taken ==> a in w.born)
  }

  lemma InOrder(cum: nat)
    ensures Sink.Process(Sink.State(cum, []), Sink.Chunk(cum + 1, MSS)) == Sink.State(cum + MSS, [])
  {}

  lemma NextAligned(lo: nat, hi: nat)
    requires Aligned(lo) && Aligned(hi) && lo < hi
    ensures lo + MSS <= hi
    ensures forall x: nat :: lo < x <= lo + MSS && Aligned(x) ==> x == lo + MSS
    ensures forall x: nat :: lo <= x < lo + MSS && Aligned(x) ==> x == lo
  {}

  /** One packet arrives in order. */
  lemma Arrive(y: System, w: Clock, ts: nat, base: nat, hi: nat) returns (z: System, v: Clock)
    requires Reachable(UNLIMITED, y, w) && y.src.ssthresh > 0 && Consistent(y, w)
    requires var lo := y.sink.cumulativeAck;
             base <= lo < hi && Aligned(hi) && InFlight(y, w, ts, lo, hi)
             && Acknowledging(y, w, ts, base, lo, ts + DELAY)
    requires y.now <= ts + DELAY <= w.due
    ensures Reachable(UNLIMITED, z, v) && Consistent(z, v) && z.src == y.src && v.due == w.due
    ensures var lo := y.sink.cumulativeAck + MSS;
            && z.sink.cumulativeAck == lo <= hi && z.now == ts + DELAY
            && InFlight(z, v, ts, lo, hi) && Acknowledging(z, v, ts, base, lo, ts + DELAY)
    ensures forall a :: a in v.born && a.ackno == z.sink.cumulativeAck ==> a.ts == ts
    ensures forall d :: d in z.data <==> d in y.data
  {
    hide Reachable, Sink.Process;
    var lo := y.sink.cumulativeAck;
    InOrder(lo);
    var d := Data(lo + 1, ts);
    assert d in y.data && d !in w.heard;
    z, v := Step(UNLIMITED, y, w, DeliverData(d, ts + DELAY));
    assert y.sink == Sink.State(lo, []);
    NextAligned(lo, hi);
  }

  /** Everything in flight arrives. */
  lemma {:induction false} ArriveAll(y: System, w: Clock, ts: nat, base: nat, hi: nat)
    returns (z: System, v: Clock)
    requires Reachable(UNLIMITED, y, w) && y.src.ssthresh > 0 && Consistent(y, w)
    requires var lo := y.sink.cumulativeAck;
             base <= lo < hi && Aligned(hi) && InFlight(y, w, ts, lo, hi)
             && Acknowledging(y, w, ts, base, lo, ts + DELAY)
    requires y.now <= ts + DELAY <= w.due
    ensures Reachable(UNLIMITED, z, v) && Consistent(z, v) && z.src == y.src && v.due == w.due
    ensures z.sink.cumulativeAck == hi && z.now == ts + DELAY
    ensures InFlight(z, v, ts, hi, hi) && Acknowledging(z, v, ts, base, hi, ts + DELAY)
    ensures forall a :: a in v.born && a.ackno == hi ==> a.ts == ts
    decreases hi - y.sink.cumulativeAck
  {
    hide Reachable, Consistent, InFlight, Acknowledging;
    z, v := Arrive(y, w, ts, base, hi);
    if z.sink.cumulativeAck == hi {
    } else {
      z, v := ArriveAll(z, v, ts, base, hi);
    }
  }

  /** The state in which a round of acknowledgements, of packets sent at `ts`, is being received. */
  ghost predicate Receiving(y: System, w: Clock, ts: nat, last: nat, cwnd: nat, highest: nat) {
    && Growing(y.src, last, cwnd, highest) && Aligned(last) && Aligned(highest)
    && Consistent(y, w) && y.now <= ts + RTT == w.due
    && last <= y.sink.cumulativeAck <= highest
    && Acknowledging(y, w, ts, last, y.sink.cumulativeAck, ts + DELAY)
    && InFlight(y, w, ts + RTT, y.sink.cumulativeAck, highest)
  }

  lemma GrowingThreshold(s: State, last: nat, cwnd: nat, highest: nat)
    requires Growing(s, last, cwnd, highest)
    ensures s.ssthresh > 0
  {}

  lemma SentAre(highest: nat, sent: seq<nat>, at: nat)
    requires Aligned(highest) && |sent| <= 2
    requires forall i :: 0 <= i < |sent| ==> sent[i] == highest + i * MSS + 1
    ensures forall d :: d in Stamped(sent, at) <==>
              d.ts == at && highest < d.seqno <= highest + |sent| * MSS && Aligned(d.seqno - 1)
  {
    forall d: Data | d.ts == at && highest < d.seqno <= highest + |sent| * MSS && Aligned(d.seqno - 1)
      ensures d in Stamped(sent, at) {
      if d.seqno <= highest + MSS {
        assert d.seqno == highest + 1 && sent[0] == d.seqno;
      } else {
        assert d.seqno == highest + MSS + 1 && sent[1] == d.seqno;
      }
    }
  }

  /** The next acknowledgement of the round. */
  lemma Receive(y: System, w: Clock, ts: nat, last: nat, cwnd: nat, highest: nat, t: State, sent: seq<nat>)
    returns (z: System, v: Clock)
    requires Reachable(UNLIMITED, y, w) && Receiving(y, w, ts, last, cwnd, highest)
    requires last + MSS <= y.sink.cumulativeAck
    requires OnAck(UNLIMITED, y.src, last + MSS, ts, ts + RTT) == Out(t, sent)
    requires Growing(t, last + MSS, t.cwnd, t.highestSent)
    requires t.highestSent == highest + |sent| * MSS && |sent| <= 2
    requires forall i :: 0 <= i < |sent| ==> sent[i] == highest + i * MSS + 1
    ensures Reachable(UNLIMITED, z, v) && Receiving(z, v, ts, last + MSS, t.cwnd, t.highestSent)
    ensures z.src == t && z.sink == y.sink && z.now == ts + RTT
  {
    hide Reachable, OnAck, Growing;
    NextAligned(last, y.sink.cumulativeAck);
    AlignedPlus(last, 1);
    AlignedPlus(highest, |sent|);
    GrowingThreshold(y.src, last, cwnd, highest);
    var a := Ack(last + MSS, ts);
    assert Aligned(last + MSS);
    z, v := Step(UNLIMITED, y, w, DeliverAck(a, ts + RTT));
    SentAre(highest, sent, ts + RTT);
  }

  lemma ReceivingSource(y: System, w: Clock, ts: nat, last: nat, cwnd: nat, highest: nat)
    requires Receiving(y, w, ts, last, cwnd, highest)
    ensures Growing(y.src, last, cwnd, highest)
  {}

  /** `n` acknowledgements with room to grow. */
  lemma {:induction false} ReceiveMany(y: System, w: Clock, ts: nat, last: nat, cwnd: nat, n: nat)
    returns (z: System, v: Clock)
    requires Reachable(UNLIMITED, y, w) && Receiving(y, w, ts, last, cwnd, last + cwnd)
    requires 2 * MSS <= cwnd && cwnd + n * MSS <= FULL && last + n * MSS <= y.sink.cumulativeAck
    ensures Reachable(UNLIMITED, z, v) && z.sink == y.sink
    ensures Receiving(z, v, ts, last + n * MSS, cwnd + n * MSS, last + cwnd + 2 * n * MSS)
    ensures n > 0 ==> z.now == ts + RTT && z.src.rtt == RTT && z.src.timeout > ts + RTT
    decreases n
  {
    hide Reachable, OnAck, Receiving;
    if n == 0 {
      z, v := y, w;
    } else {
      ReceivingSource(y, w, ts, last, cwnd, last + cwnd);
      GrowingAck(y.src, last, cwnd, ts);
      var o := OnAck(UNLIMITED, y.src, last + MSS, ts, ts + RTT);
      z, v := Receive(y, w, ts, last, cwnd, last + cwnd, o.s, o.sent);
      if n > 1 {
        z, v := ReceiveMany(z, v, ts, last + MSS, cwnd + MSS, n - 1);
      }
    }
  }

  /** A round trip begins: `n` packets were sent at `ts`, and all earlier ones have arrived and
      been acknowledged. */
  ghost predicate Round(y: System, w: Clock, ts: nat, last: nat, n: nat) {
    && Growing(y.src, last, n * MSS, last + n * MSS) && Aligned(last) && n >= 2
    && Consistent(y, w) && y.sink.cumulativeAck == last
    && y.now == ts && w.due == ts + RTT
    && InFlight(y, w, ts, last, last + n * MSS)
  }

  /** All packets of a round arrive, and their acknowledgements begin to come back. */
  lemma Arrived(y: System, w: Clock, ts: nat, last: nat, n: nat) returns (z: System, v: Clock)
    requires Reachable(UNLIMITED, y, w) && Round(y, w, ts, last, n)
    ensures Reachable(UNLIMITED, z, v) && z.sink.cumulativeAck == last + n * MSS
    ensures Receiving(z, v, ts, last, n * MSS, last + n * MSS)
  {
    hide Reachable, Growing;
    AlignedPlus(last, n);
    GrowingThreshold(y.src, last, n * MSS, last + n * MSS);
    z, v := ArriveAll(y, w, ts, last, last + n * MSS);
  }

  /** The periodic event after a round of acknowledgements changes nothing. */
  lemma IdleTick(y: System, w: Clock, ts: nat, last: nat, cwnd: nat, highest: nat)
    returns (z: System, v: Clock)
    requires Reachable(UNLIMITED, y, w) && Receiving(y, w, ts, last, cwnd, highest)
    requires y.now == ts + RTT && y.src.rtt == RTT && y.src.timeout > ts + RTT
    ensures Reachable(UNLIMITED, z, v) && z == y && v == w.(due := ts + RTT + RTT)
  {
    hide Reachable, Consistent, InFlight, Acknowledging;
    z, v := Step(UNLIMITED, y, w, Tick(ts + RTT));
    assert y.data + Stamped([], ts + RTT) == y.data;
  }

  lemma NextRound(y: System, w: Clock, ts: nat, last: nat, n: nat)
    requires Receiving(y, w, ts, last, n * MSS + n * MSS, last + 2 * n * MSS) && n >= 1
    requires y.sink.cumulativeAck == last && y.now == ts + RTT
    ensures Round(y, w.(due := ts + RTT + RTT), ts + RTT, last, 2 * n)
  {
    assert n * MSS + n * MSS == (2 * n) * MSS;
  }

  lemma RoundSize(y: System, w: Clock, ts: nat, last: nat, n: nat)
    requires Round(y, w, ts, last, n)
    ensures n >= 2
  {}

  /** A round trip doubles the window. */
  lemma Double(y: System, w: Clock, ts: nat, last: nat, n: nat) returns (z: System, v: Clock)
    requires Reachable(UNLIMITED, y, w) && Round(y, w, ts, last, n) && 2 * n <= PACKETS
    ensures Reachable(UNLIMITED, z, v) && Round(z, v, ts + RTT, last + n * MSS, 2 * n)
  {
    hide Reachable, Round, Receiving;
    RoundSize(y, w, ts, last, n);
    z, v := Arrived(y, w, ts, last, n);
    z, v := ReceiveMany(z, v, ts, last, n * MSS, n);
    assert last + n * MSS + 2 * n * MSS == last + n * MSS + (2 * n) * MSS;
    var idle;
    z, idle := IdleTick(z, v, ts, last + n * MSS, n * MSS + n * MSS, last + n * MSS + 2 * n * MSS);
    NextRound(z, v, ts, last + n * MSS, n);
    v := idle;
  }

  /** The sizes of the rounds: 2, 4, 8 and multiples of 16. */
  predicate Size(n: nat) { n == 2 || n == 4 || n == 8 || n % 16 == 0 }

  lemma SizeDoubles(n: nat)
    requires Size(n) && 2 * n < PACKETS + 2
    ensures Size(2 * n) && 2 * n <= PACKETS
  {}

  /** Round trips until the window can no longer double. */
  lemma {:induction false} Grow(y: System, w: Clock, ts: nat, last: nat, n: nat)
    returns (z: System, v: Clock, ts': nat, last': nat, n': nat)
    requires Reachable(UNLIMITED, y, w) && Round(y, w, ts, last, n) && Size(n) && n <= PACKETS
    ensures Reachable(UNLIMITED, z, v) && Round(z, v, ts', last', n')
    ensures PACKETS + 2 <= 2 * n' && n' <= PACKETS
    decreases PACKETS - n
  {
    hide Reachable, Round, Size;
    if PACKETS + 2 <= 2 * n {
      z, v, ts', last', n' := y, w, ts, last, n;
    } else {
      RoundSize(y, w, ts, last, n);
      SizeDoubles(n);
      z, v := Double(y, w, ts, last, n);
      z, v, ts', last', n' := Grow(z, v, ts + RTT, last + n * MSS, 2 * n);
    }
  }

  lemma FirstTick()
    ensures var o := OnTick(UNLIMITED, Init(), 0);
            && Growing(o.s, 0, 2 * MSS, 2 * MSS) && o.s.rtt == 0 && o.sent == [1, 1501]
  {}

  /** The flow starts with two packets. */
  lemma Opened() returns (y: System, w: Clock)
    ensures Reachable(UNLIMITED, y, w) && Round(y, w, 0, 0, 2)
  {
    assert IsTimedRun(UNLIMITED, [Start()], [Begin(UNLIMITED)], []);
    FirstTick();
    hide Reachable, OnTick;
    y, w := Step(UNLIMITED, Start(), Begin(UNLIMITED), Tick(0));
    SentAre(0, [1, 1501], 0);
  }

  /** Nothing is in flight, the window is empty, and the timer is off. */
  ghost predicate Stalled(y: System, w: Clock) {
    && Active(y.src) && y.src.timeout == 0 && y.src.cwnd < MSS
    && y.src.lastAcked == y.src.highestSent && y.src.ssthresh > 0
    && (forall d :: d in y.data ==> d in w.heard)
    && (forall a :: a in w.born && a.ackno >= y.src.lastAcked ==> a in w.taken)
  }

  lemma Stall(y: System, w: Clock, ts: nat, last: nat, highest: nat) returns (z: System, v: Clock)
    requires Reachable(UNLIMITED, y, w) && Receiving(y, w, ts, last, 0, highest)
    requires y.now == ts + RTT && y.src.rtt == RTT && y.src.timeout > ts + RTT
    requires last <= y.sink.cumulativeAck < highest
    ensures Reachable(UNLIMITED, z, v) && Stalled(z, v)
  {
    hide Reachable, OnAck;
    z, v := IdleTick(y, w, ts, last, 0, highest);
    z, v := ArriveAll(z, v, ts + RTT, z.sink.cumulativeAck, highest);
    StallingAck(z.src, last, highest, ts + RTT);
    z, v := Step(UNLIMITED, z, v, DeliverAck(Ack(highest, ts + RTT), ts + RTT + RTT));
  }

  /** A full window wraps, and the acknowledgement of everything sent stalls the sender. */
  lemma WrapAndStall(y: System, w: Clock, ts: nat, last: nat) returns (z: System, v: Clock)
    requires Reachable(UNLIMITED, y, w)
    requires Receiving(y, w, ts, last, PACKETS * MSS, last + PACKETS * MSS)
    requires last + 2 * MSS <= y.sink.cumulativeAck
    ensures Reachable(UNLIMITED, z, v) && Stalled(z, v)
  {
    hide Reachable, OnAck;
    var o := OnAck(UNLIMITED, y.src, last + MSS, ts, ts + RTT);
    FillingAck(y.src, last, ts);
    z, v := Receive(y, w, ts, last, PACKETS * MSS, last + PACKETS * MSS, o.s, o.sent);
    var highest := last + PACKETS * MSS + MSS;
    o := OnAck(UNLIMITED, z.src, last + 2 * MSS, ts, ts + RTT);
    WrappingAck(z.src, last + MSS, ts);
    z, v := Receive(z, v, ts, last + MSS, FULL, highest, o.s, o.sent);
    z, v := Stall(z, v, ts, last + 2 * MSS, highest);
  }

  /** Stalls happen: the sender is active, yet its timer is off and it has nothing to wait for. */
  lemma StallReachable()
    ensures exists y, w :: Reachable(UNLIMITED, y, w) && Stalled(y, w)
  {
    hide Reachable, Round, Receiving, Stalled;
    var y, w := Opened();
    var ts, last, n;
    y, w, ts, last, n := Grow(y, w, 0, 0, 2);
    y, w := Arrived(y, w, ts, last, n);
    var k := PACKETS - n;
    y, w := ReceiveMany(y, w, ts, last, n * MSS, k);
    assert n * MSS + k * MSS == PACKETS * MSS;
    assert last + n * MSS + 2 * k * MSS == (last + k * MSS) + PACKETS * MSS;
    y, w := WrapAndStall(y, w, ts, last + k * MSS);
  }

  /** A stalled sender never sends again, whatever happens. */
  lemma StalledStays(y: System, w: Clock, e: Event)
    requires Stalled(y, w) && Enabled(y, e) && OnTime(w, e)
    ensures var z := Next(UNLIMITED, y, e);
            z.src == y.src && z.data == y.data && Stalled(z, Advance(w, z, e))
  {
    assert y.data + Stamped([], e.at) == y.data;
  }

  lemma {:induction false} StalledForever(tr: seq<System>, ws: seq<Clock>, es: seq<Event>, k: nat, n: nat)
    requires IsTimedRun(UNLIMITED, tr, ws, es) && k <= n <= |es| && Stalled(tr[k], ws[k])
    ensures Stalled(tr[n], ws[n]) && tr[n].src == tr[k].src && tr[n].data == tr[k].data
    decreases n
  {
    hide Stalled, Next, Advance, Enabled, OnTime, Sink.Valid, Sink.Has;
    if k == n {
    } else {
      StalledForever(tr, ws, es, k, n - 1);
      RunSafe(UNLIMITED, tr, es, n - 1);
      StalledStays(tr[n - 1], ws[n - 1], es[n - 1]);
    }
  }
}

/** Collapsing exits happen: a run, timed as in `TcpClock`, in which the network only reorders
    and the window becomes empty. */
module TcpCollapse {
  import opened Htsim
  import opened Arithmetic
  import opened TcpSpec
  import opened TcpClock
  import opened TcpRuns
  import Sink = DataSinkSpec

  const LONG := Config(150_000, 0, 0)

  // The sender along the run: started, two acknowledgements, two timeouts, the retransmitted
  // packet acknowledged, three duplicates.
  const S1 := State(SlowStart, TWO32 - 1, 3000, 0, 0, 0, 0, INIT_RTO, 0, 2_500_000_000, 3000, 3000, 0)
  const S2 := State(SlowStart, TWO32 - 1, 4500, 0, 0, 0, 200_000_000, 600_000_000, 100_000_000,
                    800_000_000, 6000, 6000, 1500)
  const S3 := State(SlowStart, TWO32 - 1, 6000, 0, 0, 0, 200_000_000, 500_000_000, 75_000_000,
                    700_000_000, 9000, 9000, 3000)
  const S4 := State(SlowStart, 3000, 1500, 9000, 0, 0, 200_000_000, 1_000_000_000, 75_000_000,
                    1_800_000_000, 10_500, 4500, 3000)
  const S5 := State(SlowStart, 3000, 1500, 4500, 0, 0, 200_000_000, 2_000_000_000, 75_000_000,
                    3_800_000_000, 12_000, 4500, 3000)
  const S6 := State(SlowStart, 3000, 3000, 4500, 0, 0, 200_000_000, 425_000_000, 56_250_000,
                    2_425_000_000, 15_000, 7500, 4500)
  const S7 := S6.(dupacks := 1, rtt := 400_000_000, rto := 2_168_750_000, mdev := 442_187_500)
  const S8 := S6.(dupacks := 2, rtt := 500_000_000, rto := 2_626_562_500, mdev := 531_640_625)
  const S9 := State(FastRecov, 3000, 7500, 7500, 3, 1, 462_500_000, 2_357_421_872, 473_730_468,
                    2_425_000_000, 16_500, 7500, 4500)

  // Times of the run, in picoseconds.
  const T1 := 200_000_000     // the first acknowledgements
  const T2 := 800_000_000     // first timeout
  const T3 := 1_800_000_000   // second timeout
  const T4 := 1_900_000_000   // late packets reach the sink
  const T5 := 2_000_000_000   // the retransmitted packet is acknowledged
  const T6 := 2_100_000_000   // the missing packet reaches the sink
  const T7 := 2_200_000_000   // third duplicate, then the collapsing exit

  lemma Opening()
    ensures OnTick(LONG, Init(), 0) == Out(S1, [1, 1501])
  {}

  /** What an acknowledgement that took `m` picoseconds does, once the estimate is known. */
  lemma AckAt(s: State, ackno: nat, ts: nat, now: nat, t: State)
    requires Active(s) && s.ssthresh > 0 && ackno >= s.lastAcked && ackno < 150_000
    requires now >= ts && now - ts < TWO64 && UpdateRtt(s, now - ts) == t
    ensures t.ssthresh > 0
    ensures OnAck(LONG, s, ackno, ts, now)
            == if ackno > s.lastAcked then NewAck(LONG, t, ackno, now) else DupAck(LONG, t, now)
  {
    hide NewAck, DupAck;
    assert U64(now - ts) == now - ts;
  }

  /** The arithmetic of the round-trip estimate. */
  lemma Estimate(s: State, m: nat, mdev: nat, rtt: nat)
    requires m > 0 && s.rtt > 0
    requires s.mdev * 3 / 4 + (if m > s.rtt then m - s.rtt else s.rtt - m) / 4 == mdev
    requires s.rtt * 7 / 8 + m / 8 == rtt && rtt + 4 * mdev >= MIN_RTO
    ensures UpdateRtt(s, m) == s.(mdev := mdev, rtt := rtt, rto := rtt + 4 * mdev)
  {}

  lemma FirstSends(t: State)
    requires t == S1.(rtt := T1, mdev := 100_000_000, rto := 600_000_000)
    ensures NewAck(LONG, t, 1500, T1) == Out(S2, [3001, 4501])
  {
    assert Inflate(t.(timeout := T1 + t.rto, lastAcked := 1500)).cwnd == 4500;
  }

  lemma FirstAcknowledgement()
    ensures OnAck(LONG, S1, 1500, 0, T1) == Out(S2, [3001, 4501])
  {
    var t := S1.(rtt := T1, mdev := 100_000_000, rto := 600_000_000);
    hide NewAck;
    AckAt(S1, 1500, 0, T1, t);
    FirstSends(t);
  }

  lemma SecondSends(t: State)
    requires t == S2.(rtt := T1, mdev := 75_000_000, rto := 500_000_000)
    ensures NewAck(LONG, t, 3000, T1) == Out(S3, [6001, 7501])
  {
    assert Inflate(t.(timeout := T1 + t.rto, lastAcked := 3000)).cwnd == 6000;
  }

  lemma SecondAcknowledgement()
    ensures OnAck(LONG, S2, 3000, 0, T1) == Out(S3, [6001, 7501])
  {
    var t := S2.(rtt := T1, mdev := 75_000_000, rto := 500_000_000);
    hide NewAck;
    Estimate(S2, T1, t.mdev, t.rtt);
    AckAt(S2, 3000, 0, T1, t);
    SecondSends(t);
  }

  lemma Timeouts()
    ensures OnTick(LONG, S3, T2) == Out(S4, [3001])
    ensures OnTick(LONG, S4, T3) == Out(S5, [3001])
  {}

  lemma NewSends(t: State)
    requires t == S5.(rtt := T1, mdev := 56_250_000, rto := 425_000_000)
    ensures NewAck(LONG, t, 4500, T5) == Out(S6, [4501, 6001])
  {
    assert Inflate(t.(timeout := 0, lastAcked := 4500)).cwnd == 3000;
  }

  lemma NewAcknowledgement()
    ensures OnAck(LONG, S5, 4500, T3, T5) == Out(S6, [4501, 6001])
  {
    var t := S5.(rtt := T1, mdev := 56_250_000, rto := 425_000_000);
    hide NewAck;
    Estimate(S5, T1, t.mdev, t.rtt);
    AckAt(S5, 4500, T3, T5, t);
    NewSends(t);
  }

  lemma FirstDuplicate()
    ensures OnAck(LONG, S6, 4500, T1, T5) == Out(S7, [])
  {
    var t := S7.(dupacks := 0);
    Estimate(S6, T5 - T1, t.mdev, t.rtt);
    AckAt(S6, 4500, T1, T5, t);
  }

  lemma SecondDuplicate()
    ensures OnAck(LONG, S7, 4500, T2, T5) == Out(S8, [])
  {
    var t := S8.(dupacks := 1);
    Estimate(S7, T5 - T2, t.mdev, t.rtt);
    AckAt(S7, 4500, T2, T5, t);
  }

  lemma ThirdDuplicate()
    ensures OnAck(LONG, S8, 4500, T5, T7) == Out(S9, [4501])
  {
    var t := S8.(rtt := S9.rtt, mdev := S9.mdev, rto := S9.rto);
    Estimate(S8, T7 - T5, t.mdev, t.rtt);
    AckAt(S8, 4500, T5, T7, t);
  }

  lemma EmptyWindow(t: State)
    requires t.phase == FastRecov && t.recoverSeq == t.highestSent == 7500 && t.ssthresh == 3000
    requires t.lastAcked == 4500
    ensures var s := NewAck(LONG, t, 9000, T7).s; Active(s) && s.cwnd == 0
  {
    assert U32(U32(t.highestSent - 9000) + MSS) == 0;
  }

  lemma Exit()
    ensures var s := OnAck(LONG, S9, 9000, T1, T7).s; Active(s) && s.cwnd == 0
  {
    hide UpdateRtt, NewAck;
    UpdateRttOk(LONG, S9, T7 - T1);
    AckAt(S9, 9000, T1, T7, UpdateRtt(S9, T7 - T1));
    EmptyWindow(UpdateRtt(S9, T7 - T1));
  }

  lemma StartReachable()
    ensures Reachable(LONG, Start(), Begin(LONG))
  {
    assert IsTimedRun(LONG, [Start()], [Begin(LONG)], []);
  }

  lemma IdleTick(y: System, at: nat)
    requires Active(y.src) && !Expired(y.src, at) && y.src.ssthresh > 0
    ensures Next(LONG, y, Tick(at)) == y.(now := at)
  {
    assert y.data + Stamped([], at) == y.data;
  }

  /** The periodic event changes nothing while the timer has not expired. */
  lemma {:induction false} IdleTicks(y: System, w: Clock, n: nat) returns (z: System, v: Clock)
    requires Reachable(LONG, y, w) && Active(y.src) && y.src.rtt != 0 && y.src.ssthresh > 0
    requires n > 0 && y.now <= w.due && w.due + (n - 1) * y.src.rtt < y.src.timeout
    ensures Reachable(LONG, z, v)
    ensures z == y.(now := w.due + (n - 1) * y.src.rtt) && v == w.(due := w.due + n * y.src.rtt)
    decreases n
  {
    hide Reachable, Next;
    OneMore(n - 1, y.src.rtt);
    IdleTick(y, w.due);
    z, v := Step(LONG, y, w, Tick(w.due));
    if n == 1 {
    } else {
      OneMore(n - 2, y.src.rtt);
      z, v := IdleTicks(z, v, n - 1);
    }
  }

  /** Two packets out, both acknowledged: six packets have been sent in all. */
  lemma Opened() returns (y: System, w: Clock)
    ensures Reachable(LONG, y, w) && y.now == T1 && y.sink == Sink.State(3000, []) && y.src == S3
    ensures Data(4501, T1) in y.data && Data(6001, T1) in y.data && Data(7501, T1) in y.data
    ensures w.due == T1 && w.heard == {Data(1, 0), Data(1501, 0)}
    ensures w.taken == w.born.Keys == {Ack(1500, 0), Ack(3000, 0)}
  {
    hide Reachable, OnTick, OnAck;
    Opening();
    FirstAcknowledgement();
    SecondAcknowledgement();
    StartReachable();
    y, w := Start(), Begin(LONG);
    y, w := Step(LONG, y, w, Tick(0));
    y, w := Step(LONG, y, w, DeliverData(Data(1, 0), DELAY));
    y, w := Step(LONG, y, w, DeliverData(Data(1501, 0), DELAY));
    assert y.sink == Sink.State(3000, []);
    y, w := Step(LONG, y, w, DeliverAck(Ack(1500, 0), T1));
    y, w := Step(LONG, y, w, DeliverAck(Ack(3000, 0), T1));
  }

  /** Two timeouts in a row forget how much was sent. */
  lemma TimedOut() returns (y: System, w: Clock)
    ensures Reachable(LONG, y, w) && y.now == T3 && y.sink == Sink.State(3000, []) && y.src == S5
    ensures Data(4501, T1) in y.data && Data(6001, T1) in y.data && Data(7501, T1) in y.data
    ensures Data(3001, T2) in y.data && Data(3001, T3) in y.data
    ensures w.due == T5 && w.heard == {Data(1, 0), Data(1501, 0)}
    ensures w.taken == w.born.Keys == {Ack(1500, 0), Ack(3000, 0)}
  {
    hide Reachable, OnTick, OnAck;
    Timeouts();
    y, w := Opened();
    y, w := IdleTicks(y, w, 3);
    y, w := Step(LONG, y, w, Tick(T2));
    y, w := IdleTicks(y, w, 4);
    y, w := Step(LONG, y, w, Tick(T3));
  }

  /** The retransmitted packet, a late copy of it and two later packets reach the sink. */
  lemma Arrived() returns (y: System, w: Clock)
    ensures Reachable(LONG, y, w) && y.now == T4 && y.src == S5
    ensures y.sink == Sink.State(4500, [Sink.Segment(4), Sink.Segment(5)])
    ensures Data(4501, T1) in y.data && w.due == T5
    ensures w.heard == {Data(1, 0), Data(1501, 0), Data(3001, T3), Data(6001, T1), Data(7501, T1), Data(3001, T2)}
    ensures w.taken == {Ack(1500, 0), Ack(3000, 0)}
    ensures w.born.Keys == w.taken + {Ack(4500, T3), Ack(4500, T1), Ack(4500, T2)}
    ensures w.born[Ack(4500, T3)] == w.born[Ack(4500, T1)] == w.born[Ack(4500, T2)] == T4
    ensures Ack(4500, T3) in y.acks && Ack(4500, T1) in y.acks && Ack(4500, T2) in y.acks
  {
    hide Reachable, OnTick, OnAck;
    y, w := TimedOut();
    y, w := Step(LONG, y, w, DeliverData(Data(3001, T3), T4));
    assert y.sink == Sink.State(4500, []);
    y, w := Step(LONG, y, w, DeliverData(Data(6001, T1), T4));
    assert y.sink == Sink.State(4500, [Sink.Segment(4)]);
    y, w := Step(LONG, y, w, DeliverData(Data(7501, T1), T4));
    assert y.sink == Sink.State(4500, [Sink.Segment(4), Sink.Segment(5)]);
    y, w := Step(LONG, y, w, DeliverData(Data(3001, T2), T4));
  }

  /** The acknowledgement of the retransmission, and two of the late packets'. */
  lemma Acknowledged() returns (y: System, w: Clock)
    ensures Reachable(LONG, y, w) && y.now == T5 && y.src == S8
    ensures y.sink == Sink.State(4500, [Sink.Segment(4), Sink.Segment(5)])
    ensures Data(4501, T1) in y.data && Data(6001, T5) in y.data && w.due == T7
    ensures Data(4501, T1) !in w.heard && Data(6001, T5) !in w.heard
    ensures forall a :: a in w.born ==> a.ts != T5 && a.ackno <= 4500
    ensures forall a :: a in w.taken ==> a.ts != T5 && a.ackno <= 4500
  {
    hide Reachable, OnTick, OnAck;
    NewAcknowledgement();
    FirstDuplicate();
    SecondDuplicate();
    y, w := Arrived();
    y, w := Step(LONG, y, w, DeliverAck(Ack(4500, T3), T5));
    y, w := IdleTicks(y, w, 1);
    y, w := Step(LONG, y, w, DeliverAck(Ack(4500, T1), T5));
    y, w := Step(LONG, y, w, DeliverAck(Ack(4500, T2), T5));
  }

  lemma SinkCatchesUp()
    ensures Sink.Process(Sink.State(4500, [Sink.Segment(4), Sink.Segment(5)]), Sink.Chunk(4501, MSS))
            == Sink.State(9000, [])
  {
    assert Sink.Absorb(Sink.State(7500, [Sink.Segment(5)])) == Sink.State(9000, []);
  }

  /** The first packet the sender forgot arrives, the third duplicate starts fast recovery, and
      the acknowledgement of everything it forgot empties the window. */
  lemma WindowCanCollapse()
    ensures exists y, w :: Reachable(LONG, y, w) && Active(y.src) && y.src.cwnd == 0
  {
    hide Reachable, OnTick, OnAck;
    ThirdDuplicate();
    Exit();
    var y, w := Acknowledged();
    y, w := Step(LONG, y, w, DeliverData(Data(6001, T5), T6));
    assert y.sink == Sink.State(4500, [Sink.Segment(4), Sink.Segment(5)]);
    y, w := Step(LONG, y, w, DeliverData(Data(4501, T1), T6));
    SinkCatchesUp();
    assert y.sink == Sink.State(9000, []);
    y, w := Step(LONG, y, w, DeliverAck(Ack(4500, T5), T7));
    y, w := Step(LONG, y, w, DeliverAck(Ack(9000, T1), T7));
  }
}

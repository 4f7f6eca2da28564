/** Sender, receiver and a network that may lose, duplicate, delay and reorder: end-to-end safety. */
module TcpRuns {
  import opened Htsim
  import opened Arithmetic
  import opened TcpSpec
  import Sink = DataSinkSpec

  datatype Data = Data(seqno: nat, ts: nat)
  datatype Ack = Ack(ackno: nat, ts: nat)

  /** `data` and `acks` hold every packet ever sent: any of them may arrive at any later
      time, any number of times, or never. */
  datatype System = System(src: State, sink: Sink.State, data: set<Data>, acks: set<Ack>, now: nat)

  datatype Event =
    | Tick(at: nat)
    | DeliverData(d: Data, at: nat)
    | DeliverAck(a: Ack, at: nat)

  function Start(): System { System(Init(), Sink.EMPTY, {}, {}, 0) }

  ghost predicate Enabled(y: System, e: Event) {
    && e.at >= y.now
    && match e
       case Tick(_) => true
       case DeliverData(d, _) => d in y.data
       case DeliverAck(a, _) => a in y.acks
  }

  function Stamped(sent: seq<nat>, at: nat): set<Data> {
    set x | x in sent :: Data(x, at)
  }

  function Next(c: Config, y: System, e: Event): System
    requires y.src.ssthresh > 0
  {
    match e
    case Tick(at) =>
      var o := OnTick(c, y.src, at);
      y.(src := o.s, data := y.data + Stamped(o.sent, at), now := at)
    case DeliverData(d, at) =>
      var sink := Sink.Process(y.sink, Sink.Chunk(d.seqno, MSS));
      y.(sink := sink, acks := y.acks + {Ack(sink.cumulativeAck, d.ts)}, now := at)
    case DeliverAck(a, at) =>
      var o := OnAck(c, y.src, a.ackno, a.ts, at);
      y.(src := o.s, data := y.data + Stamped(o.sent, at), now := at)
  }

  /** A run from the start. `Next` is defined in every state it meets (RunSafe). */
  ghost predicate IsRun(c: Config, tr: seq<System>, es: seq<Event>) {
    && |tr| == |es| + 1
    && tr[0] == Start()
    && forall k :: 0 <= k < |es| ==>
         Enabled(tr[k], es[k]) && (tr[k].src.ssthresh > 0 ==> tr[k + 1] == Next(c, tr[k], es[k]))
  }

  predicate Active(s: State) { s.phase != Idle && s.phase != Finish }

  // ----- safety ---------------------------------------------------------------------

  predicate Aligned(x: nat) { x % MSS == 0 }

  /** The first byte of a segment that the flow has. */
  predicate FirstByte(c: Config, x: nat) {
    x >= 1 && Aligned(x - 1) && (c.flowsize > 0 ==> x <= c.flowsize)
  }

  ghost predicate SenderOk(c: Config, s: State) {
    && Aligned(s.lastAcked) && Aligned(s.highestSent) && Aligned(s.recoverSeq)
    && (c.flowsize > 0 ==> s.lastAcked < c.flowsize && s.highestSent < c.flowsize + MSS)
    && s.ssthresh >= 2 * MSS
    && s.rto >= MIN_RTO
    && (s.phase == Idle ==> s == Init())
  }

  /** Some copy of segment `k` was sent. */
  ghost predicate WasSent(y: System, k: nat) {
    exists d :: d in y.data && d.seqno == k * MSS + 1
  }

  ghost predicate Safe(c: Config, y: System) {
    && SenderOk(c, y.src)
    && Sink.Valid(y.sink)
    && (forall d :: d in y.data ==> FirstByte(c, d.seqno))
    && (forall k: nat :: Sink.Has(y.sink, k) ==> WasSent(y, k))
    && (forall a :: a in y.acks ==> a.ackno <= y.sink.cumulativeAck && Aligned(a.ackno))
    && y.src.lastAcked <= y.sink.cumulativeAck
    && (y.src.phase == Finish ==> FlowDone(c, y.sink.cumulativeAck, y.now))
    && (y.src.phase == Idle ==> y.data == {} && y.acks == {})
  }

  ghost predicate AllFirstBytes(c: Config, sent: seq<nat>) {
    forall x :: x in sent ==> FirstByte(c, x)
  }

  lemma AlignedPlus(x: nat, i: nat)
    requires Aligned(x)
    ensures Aligned(x + i * MSS)
  {}

  lemma CeilDivBelow(x: nat, q: nat, i: nat)
    requires q >= 1 && i < CeilDiv(x, q)
    ensures i * q < x
  {
    DivBounds(x + q - 1, q);
    MulMonotone(i + 1, CeilDiv(x, q), q);
    assert (i + 1) * q == i * q + q;
  }

  lemma SendPacketsOk(c: Config, s: State, now: nat)
    requires SenderOk(c, s) && s.phase != Idle
    ensures var o := SendPackets(c, s, now);
            && SenderOk(c, o.s) && AllFirstBytes(c, o.sent)
            && o.s.lastAcked == s.lastAcked && o.s.phase == s.phase
  {
    var n := SendCount(c, s);
    SendsAll(c, s, now);
    forall i: nat | i < n ensures FirstByte(c, s.highestSent + i * MSS + 1) {
      AlignedPlus(s.highestSent, i);
      if c.flowsize > 0 {
        CeilDivBelow(c.flowsize - s.highestSent, MSS, i);
      }
    }
    AlignedPlus(s.highestSent, n);
  }

  lemma RetransmitOk(c: Config, s: State, now: nat)
    requires SenderOk(c, s) && s.phase != Idle
    ensures var o := Retransmit(s, now);
            && SenderOk(c, o.s) && AllFirstBytes(c, o.sent)
            && o.s.lastAcked == s.lastAcked && o.s.phase == s.phase
  {}

  lemma OnTickOk(c: Config, s: State, now: nat)
    requires SenderOk(c, s)
    ensures var o := OnTick(c, s, now);
            && SenderOk(c, o.s) && AllFirstBytes(c, o.sent)
            && o.s.lastAcked == s.lastAcked
            && o.s.phase != Idle && (o.s.phase == Finish <==> s.phase == Finish)
  {
    hide SendPackets, U32;
    if s.phase == Idle {
      SendPacketsOk(c, s.(phase := SlowStart, cwnd := 2 * MSS), now);
    } else if Expired(s, now) {
      RetransmitOk(c, s.(phase := SlowStart), now);
      AlignedPlus(s.lastAcked, 1);
    }
  }

  lemma InflateFrame(s: State)
    requires s.ssthresh > 0
    ensures Inflate(s) == s.(cwnd := Inflate(s).cwnd)
  {}

  lemma NewAckOk(c: Config, s: State, ackno: nat, now: nat)
    requires SenderOk(c, s) && s.phase != Idle && s.phase != Finish && Aligned(ackno)
    requires c.flowsize > 0 ==> ackno < c.flowsize
    ensures var o := NewAck(c, s, ackno, now);
            && SenderOk(c, o.s) && AllFirstBytes(c, o.sent)
            && o.s.lastAcked == ackno && o.s.phase != Idle && o.s.phase != Finish
  {
    hide U32, SendPackets, Retransmit, Inflate;
    var r := s.(timeout := if ackno == s.highestSent then 0 else now + s.rto);
    if s.phase != FastRecov {
      InflateFrame(r.(lastAcked := ackno, dupacks := 0));
      SendPacketsOk(c, Inflate(r.(lastAcked := ackno, dupacks := 0)), now);
    } else if ackno >= s.recoverSeq {
      SendPacketsOk(c, r.(cwnd := Min(s.ssthresh, U32(U32(s.highestSent - ackno) + MSS)),
                          lastAcked := ackno, dupacks := 0, phase := CongAvoid), now);
    } else {
      var newData := U32(ackno - s.lastAcked);
      var cwnd := if newData < s.cwnd then s.cwnd - newData else 0;
      var t := r.(lastAcked := ackno, cwnd := U32(cwnd + MSS));
      RetransmitOk(c, t, now);
      SendPacketsOk(c, Retransmit(t, now).s, now);
    }
  }

  lemma DupAckOk(c: Config, s: State, now: nat)
    requires SenderOk(c, s) && s.phase != Idle && s.phase != Finish
    ensures var o := DupAck(c, s, now);
            && SenderOk(c, o.s) && AllFirstBytes(c, o.sent)
            && o.s.lastAcked == s.lastAcked && o.s.phase != Idle && o.s.phase != Finish
  {
    hide U32, SendPackets, Retransmit;
    if s.phase == FastRecov {
      SendPacketsOk(c, s.(cwnd := U32(s.cwnd + MSS)), now);
    } else {
      var t := s.(dupacks := (s.dupacks + 1) % 0x1_0000);
      var half := Max(s.cwnd / 2, MSS * 2);
      SendPacketsOk(c, t, now);
      RetransmitOk(c, t.(drops := s.drops + 1, ssthresh := half, cwnd := U32(half + 3 * MSS),
                         phase := FastRecov, recoverSeq := s.highestSent), now);
    }
  }

  lemma UpdateRttOk(c: Config, s: State, m: nat)
    requires SenderOk(c, s) && s.phase != Idle
    ensures SenderOk(c, UpdateRtt(s, m))
    ensures var t := UpdateRtt(s, m);
            t == s.(rtt := t.rtt, rto := t.rto, mdev := t.mdev)
  {}

  lemma OnAckOk(c: Config, s: State, ackno: nat, ts: nat, now: nat)
    requires SenderOk(c, s) && s.phase != Idle && Aligned(ackno)
    ensures var o := OnAck(c, s, ackno, ts, now);
            && SenderOk(c, o.s) && AllFirstBytes(c, o.sent)
            && o.s.lastAcked <= Max(s.lastAcked, ackno)
            && o.s.phase != Idle
            && (o.s.phase == Finish <==> s.phase == Finish || FlowDone(c, ackno, now))
  {
    hide U64, NewAck, DupAck, UpdateRtt;
    if s.phase != Finish && !FlowDone(c, ackno, now) && ackno >= s.lastAcked {
      UpdateRttOk(c, s, U64(now - ts));
      if ackno > s.lastAcked {
        NewAckOk(c, UpdateRtt(s, U64(now - ts)), ackno, now);
      } else {
        DupAckOk(c, UpdateRtt(s, U64(now - ts)), now);
      }
    }
  }

  /** The sink receives only what was sent, and every acknowledgement trails it. */
  lemma DeliverDataSafe(c: Config, y: System, d: Data, at: nat)
    requires Safe(c, y) && d in y.data && at >= y.now
    ensures Safe(c, Next(c, y, DeliverData(d, at)))
    ensures Next(c, y, DeliverData(d, at)).sink.cumulativeAck >= y.sink.cumulativeAck
  {
    hide Sink.Process, Sink.Has;
    var z := Next(c, y, DeliverData(d, at));
    var k := (d.seqno - 1) / MSS;
    assert d.seqno == k * MSS + 1;
    assert Sink.Chunk(d.seqno, MSS) == Sink.Segment(k);
    Sink.ProcessAdds(y.sink, k);
    forall j: nat | Sink.Has(z.sink, j) ensures WasSent(z, j) {
      if j == k {
        assert d in z.data;
      } else {
        assert WasSent(y, j);
        var x :| x in y.data && x.seqno == j * MSS + 1;
        assert x in z.data;
      }
    }
  }

  /** Sending more packets keeps what was known about those already sent. */
  lemma SendSafe(c: Config, y: System, s: State, sent: seq<nat>, at: nat)
    requires Safe(c, y) && at >= y.now
    requires SenderOk(c, s) && AllFirstBytes(c, sent) && s.phase != Idle
    requires s.lastAcked <= y.sink.cumulativeAck
    requires s.phase == Finish ==> FlowDone(c, y.sink.cumulativeAck, at)
    ensures Safe(c, y.(src := s, data := y.data + Stamped(sent, at), now := at))
  {}

  lemma NextSafe(c: Config, y: System, e: Event)
    requires Safe(c, y) && Enabled(y, e)
    ensures y.src.ssthresh > 0 && Safe(c, Next(c, y, e))
  {
    hide Sink.Valid, Sink.Has, OnTick, OnAck, Stamped, WasSent, FirstByte;
    match e {
      case Tick(at) =>
        OnTickOk(c, y.src, at);
        var o := OnTick(c, y.src, at);
        SendSafe(c, y, o.s, o.sent, at);
      case DeliverData(d, at) =>
        DeliverDataSafe(c, y, d, at);
      case DeliverAck(a, at) =>
        OnAckOk(c, y.src, a.ackno, a.ts, at);
        var o := OnAck(c, y.src, a.ackno, a.ts, at);
        SendSafe(c, y, o.s, o.sent, at);
    }
  }

  lemma SafeThreshold(c: Config, y: System)
    requires Safe(c, y)
    ensures y.src.ssthresh > 0
  {}

  lemma StartSafe(c: Config)
    ensures Safe(c, Start())
  {}

  lemma {:induction false} RunSafe(c: Config, tr: seq<System>, es: seq<Event>, n: nat)
    requires IsRun(c, tr, es) && n <= |es|
    ensures Safe(c, tr[n])
    ensures n < |es| ==> tr[n + 1] == Next(c, tr[n], es[n])
  {
    hide Next, Sink.Valid, WasSent;
    if n == 0 {
      StartSafe(c);
    } else {
      hide Safe;
      RunSafe(c, tr, es, n - 1);
      NextSafe(c, tr[n - 1], es[n - 1]);
    }
    SafeThreshold(c, tr[n]);
  }

  /** End to end, on every run: the sender never believes more than the sink holds, the sink
      holds only what was sent, all sequence state sits on segment boundaries, nothing beyond
      the flow is sent, and the sender finishes only when the sink holds the whole flow. */
  lemma EndToEnd(c: Config, tr: seq<System>, es: seq<Event>, n: nat)
    requires IsRun(c, tr, es) && n <= |es|
    ensures var y := tr[n];
            && y.src.lastAcked <= y.sink.cumulativeAck
            && (forall k :: 0 <= k < y.sink.cumulativeAck / MSS ==> Sink.Has(y.sink, k) && WasSent(y, k))
            && Aligned(y.src.lastAcked) && Aligned(y.src.highestSent) && Aligned(y.src.recoverSeq)
            && Aligned(y.sink.cumulativeAck)
            && (c.flowsize > 0 ==>
                  && y.src.highestSent < c.flowsize + MSS
                  && (forall d :: d in y.data ==> d.seqno <= c.flowsize))
            && (y.src.phase == Finish && c.duration == 0 ==>
                  && c.flowsize > 0 && y.sink.cumulativeAck >= c.flowsize
                  && (forall k: nat :: k * MSS < c.flowsize ==> Sink.Has(y.sink, k)))
  {
    RunSafe(c, tr, es, n);
    Sink.AckIsLongestPrefix(tr[n].sink);
  }
}

/** The laws of the congestion window: how it grows outside recovery, and what a loss does to it. */
module TcpReno {
  import opened Htsim
  import opened Arithmetic
  import opened TcpSpec
  import opened TcpRuns
  import opened TcpProgress
  import Sink = DataSinkSpec

  /** Sending changes no more than what is sent and the timer. */
  lemma SendKeeps(c: Config, s: State, now: nat)
    ensures var t := SendPackets(c, s, now).s;
            t == s.(highestSent := t.highestSent, packetsSent := t.packetsSent, timeout := t.timeout)
  {
    hide SendCount;
  }

  // ----- growth ---------------------------------------------------------------------

  lemma AvoidanceShare(n: nat, w: nat)
    requires w >= 1
    ensures var a := AdditiveIncrease(n, w); a * w <= n * MSS < (a + 1) * w
  {
    DivBounds(n * MSS, w);
  }

  lemma Int32Small(x: int)
    requires -0x8000_0000 <= x < 0x8000_0000
    ensures Int32(x) == x
  {}

  /** Slow start: the window opens by what was acknowledged, a packet at most, up to the threshold. */
  lemma SlowStartGrowth(s: State)
    requires s.cwnd < s.ssthresh < TWO32
    requires 0 <= s.lastAcked + s.cwnd - s.highestSent < 0x8000_0000
    ensures var newly, g := s.lastAcked + s.cwnd - s.highestSent, Inflate(s).cwnd - s.cwnd;
            && 0 <= g <= MSS && g <= newly && Inflate(s).cwnd <= s.ssthresh
            && (g == MSS || g == newly || Inflate(s).cwnd == s.ssthresh)
  {
    hide Int32, AdditiveIncrease;
    Int32Small(s.lastAcked + s.cwnd - s.highestSent);
  }

  lemma AtLeastOne(a: nat, n: nat, w: nat)
    requires a * w <= n * MSS < (a + 1) * w && n <= MSS <= w && a <= MSS
    ensures var g := Max(a, 1);
            && g <= MSS && n * MSS < (g + 1) * w
            && (g == 1 || g * w <= n * MSS) && (n * MSS >= w ==> g * w <= n * MSS)
  {
    if a == 0 {
      OneMore(1, w);
    }
  }

  /** Congestion avoidance: the window opens by its share of a packet for each packet acknowledged,
      but always by a byte at least. */
  lemma AvoidanceGrowth(s: State)
    requires 0 < s.ssthresh <= s.cwnd < TWO32 - MSS && s.cwnd >= MSS
    requires 0 <= s.lastAcked + s.cwnd - s.highestSent < 0x8000_0000
    ensures var n, g := Min(s.lastAcked + s.cwnd - s.highestSent, MSS), Inflate(s).cwnd - s.cwnd;
            && 1 <= g <= MSS && n * MSS < (g + 1) * s.cwnd
            && (g == 1 || g * s.cwnd <= n * MSS)
            && (n * MSS >= s.cwnd ==> g * s.cwnd <= n * MSS)
  {
    var newly := s.lastAcked + s.cwnd - s.highestSent;
    var n := Min(newly, MSS);
    Int32Small(newly);
    AvoidanceShare(n, s.cwnd);
    IncreaseSmall(n, s.cwnd);
    AtLeastOne(AdditiveIncrease(n, s.cwnd), n, s.cwnd);
    hide Int32, AdditiveIncrease;
    assert Inflate(s).cwnd == s.cwnd + Max(AdditiveIncrease(n, s.cwnd), 1);
  }

  /** A window that is overfull is not inflated. */
  lemma FullWindowStays(s: State)
    requires s.ssthresh > 0 && -0x8000_0000 <= s.lastAcked + s.cwnd - s.highestSent < 0
    ensures Inflate(s) == s
  {
    hide Int32, AdditiveIncrease;
    Int32Small(s.lastAcked + s.cwnd - s.highestSent);
  }

  /** A sender in congestion avoidance with no more in flight than its window allows. */
  ghost predicate Avoiding(c: Config, s: State) {
    && SenderOk(c, s) && Active(s) && s.phase != FastRecov
    && 2 * MSS <= s.ssthresh <= s.cwnd
    && s.lastAcked <= s.highestSent <= s.lastAcked + s.cwnd
  }

  /** The share of one acknowledgement of a packet. */
  predicate Share(w: nat, w': nat) {
    w < w' && (w' - w) * w <= MSS * MSS < (w' - w + 1) * w
  }

  lemma SendStays(c: Config, s: State, now: nat)
    requires SenderOk(c, s) && s.highestSent <= s.lastAcked + s.cwnd
    ensures var t := SendPackets(c, s, now).s;
            && t == s.(highestSent := t.highestSent, packetsSent := t.packetsSent, timeout := t.timeout)
            && t.lastAcked <= t.highestSent <= t.lastAcked + t.cwnd
  {
    hide SendCount;
    SendsAll(c, s, now);
    SendCatchesUp(c, s, now);
  }

  /** What an acknowledgement of one more packet does outside recovery. */
  lemma NextPacketAck(c: Config, s: State, ts: nat, now: nat)
    requires Active(s) && s.phase != FastRecov && s.ssthresh > 0 && !FlowDone(c, s.lastAcked + MSS, now)
    requires UpdateRtt(s, U64(now - ts)).ssthresh > 0
    ensures var u, ackno := UpdateRtt(s, U64(now - ts)), s.lastAcked + MSS;
            u.phase == s.phase && u.lastAcked == s.lastAcked ==>
              OnAck(c, s, ackno, ts, now)
              == SendPackets(c, Inflate(u.(timeout := if ackno == u.highestSent then 0 else now + u.rto,
                                           lastAcked := ackno, dupacks := 0)), now)
  {
    hide U64, UpdateRtt, Inflate, SendPackets, FlowDone;
  }

  lemma InflatedOk(c: Config, s: State)
    requires SenderOk(c, s) && s.phase != Idle
    ensures SenderOk(c, Inflate(s))
  {
    InflateFrame(s);
  }

  /** Inflating and sending, when at least a packet has become free in the window. */
  lemma InflateAndSend(c: Config, s: State, now: nat)
    requires SenderOk(c, s) && s.phase != Idle && 2 * MSS <= s.ssthresh <= s.cwnd <= MSS * MSS
    requires s.lastAcked <= s.highestSent + MSS && s.highestSent + MSS <= s.lastAcked + s.cwnd
    ensures var t := SendPackets(c, Inflate(s), now).s;
            && t.lastAcked == s.lastAcked <= t.highestSent <= t.lastAcked + t.cwnd
            && t.ssthresh == s.ssthresh && t.phase == s.phase && t.cwnd > s.cwnd && Share(s.cwnd, t.cwnd)
  {
    AvoidanceGrowth(s);
    InflateFrame(s);
    InflatedOk(c, s);
    hide SenderOk, Inflate, SendPackets;
    SendStays(c, Inflate(s), now);
  }

  lemma AckedOk(c: Config, s: State, ackno: nat, timeout: nat)
    requires SenderOk(c, s) && Active(s) && ackno == s.lastAcked + MSS && (c.flowsize > 0 ==> ackno < c.flowsize)
    ensures Aligned(ackno) && s.ssthresh > 0
    ensures SenderOk(c, s.(timeout := timeout, lastAcked := ackno, dupacks := 0))
  {}

  lemma AvoidanceAck(c: Config, s: State, ts: nat, now: nat)
    requires Avoiding(c, s) && s.cwnd <= MSS * MSS && !FlowDone(c, s.lastAcked + MSS, now)
    ensures var t := OnAck(c, s, s.lastAcked + MSS, ts, now).s;
            Avoiding(c, t) && t.ssthresh == s.ssthresh && Share(s.cwnd, t.cwnd)
  {
    hide U64, UpdateRtt, Inflate, SendPackets, AllFirstBytes, OnAck, Share, SenderOk, Aligned;
    var ackno, u := s.lastAcked + MSS, UpdateRtt(s, U64(now - ts));
    UpdateRttOk(c, s, U64(now - ts));
    var timeout := if ackno == u.highestSent then 0 else now + u.rto;
    AckedOk(c, u, ackno, timeout);
    OnAckOk(c, s, ackno, ts, now);
    NextPacketAck(c, s, ts, now);
    InflateAndSend(c, u.(timeout := timeout, lastAcked := ackno, dupacks := 0), now);
  }

  /** Acknowledgements of one packet after the other, with any time stamps and at any times. */
  ghost predicate AckTrain(c: Config, tr: seq<State>, ts: seq<nat>, at: seq<nat>) {
    && |tr| == |ts| + 1 == |at| + 1
    && forall i :: 0 <= i < |ts| ==>
         && tr[i].ssthresh > 0 && !FlowDone(c, tr[i].lastAcked + MSS, at[i])
         && tr[i + 1] == OnAck(c, tr[i], tr[i].lastAcked + MSS, ts[i], at[i]).s
  }

  lemma AddUpper(w: nat, d: nat, g: nat, n: nat, p: nat)
    requires d * w <= n * p && g * (w + d) <= p
    ensures (d + g) * w <= (n + 1) * p
  {
    MulMonotone(w, w + d, g);
    OneMore(n, p);
    assert (d + g) * w == d * w + g * w;
    assert g * w <= g * (w + d);
  }

  lemma AddLower(u: nat, v: nat, k: nat, g: nat, n: nat, p: nat)
    requires k * u >= n * p && (g + 1) * v >= p && v <= u
    ensures (k + g + 1) * u >= (n + 1) * p
  {
    MulMonotone(v, u, g + 1);
    OneMore(n, p);
    assert (k + (g + 1)) * u == k * u + (g + 1) * u;
    assert (g + 1) * v <= (g + 1) * u;
  }

  /** One more share in a sum of `n` of them, for windows from `w` to `w + MSS`. */
  lemma AddShare(w: nat, v: nat, v': nat, n: nat)
    requires w <= v <= w + MSS && Share(v, v')
    requires (v - w) * w <= n * (MSS * MSS) && (v - w + n) * (w + MSS) >= n * (MSS * MSS)
    ensures v' > v && (v' - w) * w <= (n + 1) * (MSS * MSS)
    ensures (v' - w + (n + 1)) * (w + MSS) >= (n + 1) * (MSS * MSS)
  {
    AddUpper(w, v - w, v' - v, n, MSS * MSS);
    AddLower(w + MSS, v, v - w + n, v' - v, n, MSS * MSS);
    assert v - w + n + (v' - v) + 1 == v' - w + (n + 1);
  }

  lemma TotalBelow(w: nat, g: nat, n: nat)
    requires w >= 1 && g * w <= n * (MSS * MSS) && n * MSS <= w
    ensures g <= MSS
  {
    MulMonotone(n * MSS, w, MSS);
    if g > MSS { MulMonotone(MSS + 1, g, w); }
  }

  lemma {:induction false} TrainGrowth(c: Config, tr: seq<State>, ts: seq<nat>, at: seq<nat>, n: nat)
    requires AckTrain(c, tr, ts, at) && n <= |ts| && Avoiding(c, tr[0])
    requires n * MSS <= tr[0].cwnd <= MSS * MSS - MSS
    ensures Avoiding(c, tr[n]) && tr[n].ssthresh == tr[0].ssthresh
    ensures var w, v := tr[0].cwnd, tr[n].cwnd;
            && w <= v <= w + MSS && (v - w) * w <= n * (MSS * MSS)
            && (v - w + n) * (w + MSS) >= n * (MSS * MSS)
  {
    hide OnAck, Share, FlowDone;
    if n == 0 {
    } else {
      TrainGrowth(c, tr, ts, at, n - 1);
      AvoidanceAck(c, tr[n - 1], ts[n - 1], at[n - 1]);
      assert tr[n - 1 + 1] == tr[n];
      AddShare(tr[0].cwnd, tr[n - 1].cwnd, tr[n].cwnd, n - 1);
      TotalBelow(tr[0].cwnd, tr[n].cwnd - tr[0].cwnd, n);
    }
  }

  /** One window of acknowledgements in congestion avoidance: as many acknowledgements as the window
      holds packets open it by at most a packet, and by a packet but for the rounding: each falls
      short of its share of a window one packet larger by less than a byte. */
  lemma OneWindowOfAcks(c: Config, tr: seq<State>, ts: seq<nat>, at: seq<nat>, n: nat)
    requires AckTrain(c, tr, ts, at) && n == |ts| && Avoiding(c, tr[0])
    requires tr[0].cwnd <= MSS * MSS - MSS && n == tr[0].cwnd / MSS
    ensures var w, g := tr[0].cwnd, tr[n].cwnd - tr[0].cwnd;
            && g <= MSS && (g + n) * (w + MSS) >= n * (MSS * MSS)
            && (w % MSS == 0 ==> (g + n) * (n + 1) >= n * MSS)
  {
    hide OnAck, FlowDone, Avoiding;
    DivBounds(tr[0].cwnd, MSS);
    TrainGrowth(c, tr, ts, at, n);
    var w, g := tr[0].cwnd, tr[n].cwnd - tr[0].cwnd;
    if w % MSS == 0 {
      assert w + MSS == (n + 1) * MSS;
      assert (g + n) * ((n + 1) * MSS) == (g + n) * (n + 1) * MSS;
      assert n * (MSS * MSS) == n * MSS * MSS;
    }
  }

  // ----- loss -----------------------------------------------------------------------

  /** Half of `w`, rounded down, but two packets at least. */
  predicate Halved(th: nat, w: nat) {
    th >= 2 * MSS && w <= 2 * th + 1 && (th == 2 * MSS || 2 * th <= w)
  }

  /** A timeout outside recovery remembers half of the window, in recovery half of what leaving it
      would have given; it starts over from the first unacknowledged packet, with a timer twice as long. */
  lemma TimeoutHalves(c: Config, s: State, now: nat)
    requires s.phase != Idle && s.phase != Finish && s.timeout != 0 && now >= s.timeout
    ensures var o := OnTick(c, s, now);
            var t, flight := o.s, s.highestSent - s.lastAcked;
            && o.sent == [s.lastAcked + 1]
            && (s.phase != FastRecov ==> Halved(t.ssthresh, s.cwnd))
            && (s.phase == FastRecov && 0 <= flight < TWO32 - MSS ==>
                  Halved(t.ssthresh, Min(s.ssthresh, flight + MSS)))
            && t.phase == SlowStart && t.cwnd == MSS && t.dupacks == 0
            && t.rto == 2 * s.rto && (s.rto > 0 ==> t.timeout == now + 2 * s.rto)
            && t.recoverSeq == s.highestSent && t.highestSent == s.lastAcked + MSS && t.lastAcked == s.lastAcked
  {}

  /** An acknowledgement finishes the flow exactly when it covers the flow or the time is up. */
  lemma FinishesExactly(c: Config, s: State, ackno: nat, ts: nat, now: nat)
    requires SenderOk(c, s) && Active(s) && Aligned(ackno)
    ensures OnAck(c, s, ackno, ts, now).s.phase == Finish
            <==> (c.flowsize > 0 && ackno >= c.flowsize) || (c.duration > 0 && now > c.startTime + c.duration)
  {
    hide OnAck;
    OnAckOk(c, s, ackno, ts, now);
  }

  /** An acknowledgement that leads into recovery is the third duplicate in a row, of a packet sent
      since the last loss: the threshold is half of the window, the window that and three packets,
      and the first unacknowledged packet is sent again. */
  lemma RecoveryEntry(c: Config, s: State, ackno: nat, ts: nat, now: nat)
    requires SenderOk(c, s) && s.cwnd < TWO32 && Active(s) && s.phase != FastRecov
    requires Aligned(ackno) && !FlowDone(c, ackno, now) && ackno >= s.lastAcked
    ensures var o := OnAck(c, s, ackno, ts, now);
            var t := o.s;
            && (t.phase == FastRecov <==>
                  ackno == s.lastAcked && (s.dupacks + 1) % 0x1_0000 == 3 && s.lastAcked >= s.recoverSeq)
            && (t.phase == FastRecov ==>
                  && Halved(t.ssthresh, s.cwnd) && t.cwnd == t.ssthresh + 3 * MSS
                  && t.recoverSeq == s.highestSent && t.drops == s.drops + 1 && o.sent == [s.lastAcked + 1])
            && (t.phase != FastRecov ==> t.ssthresh == s.ssthresh)
            && (t.phase != FastRecov && ackno == s.lastAcked ==>
                  t.cwnd == s.cwnd && t.dupacks == (s.dupacks + 1) % 0x1_0000)
            && (ackno > s.lastAcked ==> t.dupacks == 0)
  {
    hide U64, UpdateRtt, SendPackets, Inflate, Aligned;
    UpdateRttOk(c, s, U64(now - ts));
    SendKeeps(c, UpdateRtt(s, U64(now - ts)).(dupacks := (s.dupacks + 1) % 0x1_0000), now);
    if ackno > s.lastAcked {
      var u := UpdateRtt(s, U64(now - ts));
      var r := u.(timeout := if ackno == u.highestSent then 0 else now + u.rto, lastAcked := ackno, dupacks := 0);
      InflateFrame(r);
      SendKeeps(c, Inflate(r), now);
    }
  }

  /** With no more than a packet beyond what is in flight, at most one packet is sent. */
  lemma SendsOne(c: Config, s: State, now: nat)
    requires s.lastAcked + s.cwnd <= s.highestSent + MSS
    ensures |SendPackets(c, s, now).sent| <= 1
  {
    hide CeilDiv;
  }

  lemma U32Small(x: int)
    requires 0 <= x < TWO32
    ensures U32(x) == x
  {}

  /** In recovery a duplicate opens the window by a packet. */
  lemma RecoveryDuplicate(c: Config, s: State, ts: nat, now: nat)
    requires SenderOk(c, s) && s.cwnd < TWO32 && Active(s) && s.phase == FastRecov
    requires !FlowDone(c, s.lastAcked, now)
    ensures var t := OnAck(c, s, s.lastAcked, ts, now).s;
            && t.phase == FastRecov && t.ssthresh == s.ssthresh && t.recoverSeq == s.recoverSeq
            && t.lastAcked == s.lastAcked && (s.cwnd + MSS < TWO32 ==> t.cwnd == s.cwnd + MSS)
  {
    hide UpdateRtt, U64, SendPackets, FlowDone;
    var u := UpdateRtt(s, U64(now - ts));
    UpdateRttOk(c, s, U64(now - ts));
    SendKeeps(c, u.(cwnd := U32(s.cwnd + MSS)), now);
  }

  /** In recovery an acknowledgement of part of what was sent before the loss takes what it acknowledges
      off the window, less a packet, and sends the next missing packet. */
  lemma RecoveryPartial(c: Config, s: State, ackno: nat, ts: nat, now: nat)
    requires SenderOk(c, s) && s.cwnd < TWO32 && Active(s) && s.phase == FastRecov
    requires !FlowDone(c, ackno, now) && s.lastAcked < ackno < s.recoverSeq
    ensures var o, newly := OnAck(c, s, ackno, ts, now), ackno - s.lastAcked;
            var t := o.s;
            && t.phase == FastRecov && t.ssthresh == s.ssthresh && t.recoverSeq == s.recoverSeq
            && t.lastAcked == ackno && o.sent != [] && o.sent[0] == ackno + 1
            && (newly < TWO32 && s.cwnd + MSS < TWO32 + newly ==>
                  t.cwnd == MSS + (if newly < s.cwnd then s.cwnd - newly else 0))
  {
    hide UpdateRtt, U64, SendPackets, FlowDone, U32;
    var u := UpdateRtt(s, U64(now - ts));
    UpdateRttOk(c, s, U64(now - ts));
    var r := u.(timeout := if ackno == u.highestSent then 0 else now + u.rto);
    var newData := U32(ackno - s.lastAcked);
    var w := if newData < s.cwnd then s.cwnd - newData else 0;
    SendKeeps(c, Retransmit(r.(lastAcked := ackno, cwnd := U32(w + MSS)), now).s, now);
    if ackno - s.lastAcked < TWO32 {
      U32Small(ackno - s.lastAcked);
      if w + MSS < TWO32 { U32Small(w + MSS); }
    }
  }

  /** An acknowledgement of everything sent before the loss ends recovery, with the threshold as the
      window, or a packet more than what is in flight if that is less: it sends one packet at most. */
  lemma RecoveryExit(c: Config, s: State, ackno: nat, ts: nat, now: nat)
    requires SenderOk(c, s) && Active(s) && s.phase == FastRecov
    requires !FlowDone(c, ackno, now) && ackno > s.lastAcked && ackno >= s.recoverSeq
    ensures var o, flight := OnAck(c, s, ackno, ts, now), s.highestSent - ackno;
            var t := o.s;
            && t.phase == CongAvoid && t.ssthresh == s.ssthresh && t.lastAcked == ackno && t.dupacks == 0
            && t.cwnd <= s.ssthresh
            && (0 <= flight < TWO32 - MSS ==> t.cwnd == Min(s.ssthresh, flight + MSS) && |o.sent| <= 1)
  {
    hide UpdateRtt, U64, SendPackets, FlowDone, U32;
    var u := UpdateRtt(s, U64(now - ts));
    UpdateRttOk(c, s, U64(now - ts));
    var flight := U32(s.highestSent - ackno);
    var t := u.(timeout := if ackno == u.highestSent then 0 else now + u.rto,
                cwnd := Min(s.ssthresh, U32(flight + MSS)), lastAcked := ackno, dupacks := 0, phase := CongAvoid);
    SendKeeps(c, t, now);
    if 0 <= s.highestSent - ackno < TWO32 - MSS {
      U32Small(s.highestSent - ackno);
      U32Small(flight + MSS);
      SendsOne(c, t, now);
    }
  }

  // ----- a whole loss episode -------------------------------------------------------

  lemma StaleOrDone(c: Config, s: State, ackno: nat, ts: nat, now: nat)
    requires s.ssthresh > 0 && Active(s) && (FlowDone(c, ackno, now) || ackno < s.lastAcked)
    ensures OnAck(c, s, ackno, ts, now).sent == []
    ensures OnAck(c, s, ackno, ts, now).s == if FlowDone(c, ackno, now) then s.(phase := Finish) else s
  {}

  lemma AckInRecovery(c: Config, s: State, ackno: nat, ts: nat, now: nat)
    requires SenderOk(c, s) && s.cwnd < TWO32 && s.phase == FastRecov
    ensures var t := OnAck(c, s, ackno, ts, now).s;
            Active(t) ==> if t.phase == FastRecov then t.ssthresh == s.ssthresh && t.recoverSeq == s.recoverSeq
                          else ackno >= s.recoverSeq && t.ssthresh == s.ssthresh && t.cwnd <= s.ssthresh
  {
    if FlowDone(c, ackno, now) || ackno < s.lastAcked {
      StaleOrDone(c, s, ackno, ts, now);
    } else if ackno == s.lastAcked {
      RecoveryDuplicate(c, s, ts, now);
    } else if ackno < s.recoverSeq {
      RecoveryPartial(c, s, ackno, ts, now);
    } else {
      RecoveryExit(c, s, ackno, ts, now);
    }
  }

  lemma TickInRecovery(c: Config, s: State, now: nat)
    requires s.phase == FastRecov
    ensures var t := OnTick(c, s, now).s;
            t == s || (t.phase == SlowStart && now >= s.timeout && t.cwnd == MSS)
  {
    hide DeflatedWindow;
  }

  /** Every event in recovery leaves the threshold alone, and ends recovery only by an acknowledgement
      of everything sent before the loss, by a timeout, or by finishing. */
  lemma RecoveryStep(c: Config, tr: seq<System>, es: seq<Event>, k: nat)
    requires IsRun(c, tr, es) && k < |es| && tr[k].src.phase == FastRecov && Active(tr[k + 1].src)
    ensures var s, t := tr[k].src, tr[k + 1].src;
            if t.phase == FastRecov then t.ssthresh == s.ssthresh && t.recoverSeq == s.recoverSeq
            else if es[k].DeliverAck? then
              es[k].a.ackno >= s.recoverSeq && t.ssthresh == s.ssthresh && t.cwnd <= s.ssthresh
            else es[k].Tick? && es[k].at >= s.timeout && t.cwnd == MSS
  {
    hide OnTick, OnAck, Sink.Valid, Sink.Has, Sink.Process, SenderOk, FlowDone;
    RunSafe(c, tr, es, k);
    RunWords(c, tr, es, k);
    var s := tr[k].src;
    match es[k] {
      case Tick(at) => TickInRecovery(c, s, at);
      case DeliverData(d, at) =>
      case DeliverAck(a, at) =>
        AckInRecovery(c, s, a.ackno, a.ts, at);
    }
  }

  lemma TickOutside(c: Config, s: State, now: nat)
    requires Active(s) && s.phase != FastRecov
    ensures OnTick(c, s, now).s.phase != FastRecov
  {
    hide DeflatedWindow;
  }

  /** Recovery begins with a third duplicate acknowledgement. */
  lemma EntryStep(c: Config, tr: seq<System>, es: seq<Event>, k: nat)
    requires IsRun(c, tr, es) && k < |es|
    requires Active(tr[k].src) && tr[k].src.phase != FastRecov && tr[k + 1].src.phase == FastRecov
    ensures var s, t := tr[k].src, tr[k + 1].src;
            && es[k].DeliverAck? && es[k].a.ackno == s.lastAcked && (s.dupacks + 1) % 0x1_0000 == 3
            && Halved(t.ssthresh, s.cwnd) && t.cwnd == t.ssthresh + 3 * MSS && t.recoverSeq == s.highestSent
  {
    hide OnTick, OnAck, Sink.Valid, Sink.Has, Sink.Process, SenderOk, FlowDone, Halved, Aligned;
    RunSafe(c, tr, es, k);
    RunWords(c, tr, es, k);
    var s := tr[k].src;
    match es[k] {
      case Tick(at) => TickOutside(c, s, at);
      case DeliverData(d, at) =>
      case DeliverAck(a, at) =>
        SafeThreshold(c, tr[k]);
        if FlowDone(c, a.ackno, at) || a.ackno < s.lastAcked {
          StaleOrDone(c, s, a.ackno, a.ts, at);
        } else {
          RecoveryEntry(c, s, a.ackno, a.ts, at);
        }
    }
  }

  /** From event `a` to event `b` the sender is in recovery, and outside before and after. */
  ghost predicate Episode(tr: seq<System>, a: nat, b: nat)
    requires a < b < |tr|
  {
    && Active(tr[a].src) && tr[a].src.phase != FastRecov
    && (forall k :: a < k < b ==> tr[k].src.phase == FastRecov)
    && Active(tr[b].src) && tr[b].src.phase != FastRecov
  }

  lemma RunLength(c: Config, tr: seq<System>, es: seq<Event>)
    requires IsRun(c, tr, es)
    ensures |tr| == |es| + 1
  {}

  lemma {:induction false} InEpisode(c: Config, tr: seq<System>, es: seq<Event>, a: nat, k: nat, b: nat)
    requires IsRun(c, tr, es) && a < k < b <= |es| && Episode(tr, a, b)
    ensures |tr| == |es| + 1
    ensures Halved(tr[k].src.ssthresh, tr[a].src.cwnd) && tr[k].src.recoverSeq == tr[a].src.highestSent
  {
    hide IsRun, Halved;
    RunLength(c, tr, es);
    if k == a + 1 {
      EntryStep(c, tr, es, a);
    } else {
      InEpisode(c, tr, es, a, k - 1, b);
      RecoveryStep(c, tr, es, k - 1);
    }
  }

  lemma HalfBound(th: nat, w: nat, x: nat)
    requires Halved(th, w) && x <= th
    ensures 2 * x <= Max(w, 4 * MSS) && MSS <= th
  {}

  /** A loss halves the window, on every run: however many duplicates and partial acknowledgements
      recovery takes, it ends with an acknowledgement of everything sent before the loss or with a
      timeout, and with half of the window it began with, or two packets, as threshold and at most
      that as the window, or a single packet after a timeout. */
  lemma LossEpisode(c: Config, tr: seq<System>, es: seq<Event>, a: nat, b: nat)
    requires IsRun(c, tr, es) && a + 1 < b <= |es| && Episode(tr, a, b)
    ensures var before, s, t, e := tr[a].src, tr[b - 1].src, tr[b].src, es[b - 1];
            && Halved(s.ssthresh, before.cwnd) && 2 * t.cwnd <= Max(before.cwnd, 4 * MSS)
            && (if e.DeliverAck?
                then e.a.ackno >= before.highestSent && t.ssthresh == s.ssthresh && t.cwnd <= s.ssthresh
                else e.Tick? && e.at >= s.timeout && t.cwnd == MSS)
  {
    hide IsRun, Halved;
    InEpisode(c, tr, es, a, b - 1, b);
    RecoveryStep(c, tr, es, b - 1);
    HalfBound(tr[b - 1].src.ssthresh, tr[a].src.cwnd, if es[b - 1].DeliverAck? then tr[b].src.cwnd else 0);
  }

  // ----- what is sent is counted ----------------------------------------------------

  /** `_packets_sent` counts the bytes of all packets sent, retransmissions included. */
  lemma SentIsCounted(c: Config, s: State, now: nat)
    ensures var o := SendPackets(c, s, now); o.s.packetsSent == s.packetsSent + |o.sent| * MSS
    ensures var o := OnTick(c, s, now); o.s.packetsSent == s.packetsSent + |o.sent| * MSS
  {
    hide SendCount, DeflatedWindow;
  }

  lemma AckIsCounted(c: Config, s: State, ackno: nat, ts: nat, now: nat)
    requires SenderOk(c, s) && s.phase != Idle
    ensures var o := OnAck(c, s, ackno, ts, now); o.s.packetsSent == s.packetsSent + |o.sent| * MSS
  {
    hide U64, U32, UpdateRtt, Inflate, SendCount, FlowDone;
    var u := UpdateRtt(s, U64(now - ts));
    UpdateRttOk(c, s, U64(now - ts));
    InflateFrame(u.(timeout := if ackno == u.highestSent then 0 else now + u.rto, lastAcked := ackno, dupacks := 0));
  }

  /** What an event sends. */
  function SentBy(c: Config, y: System, e: Event): seq<nat>
    requires y.src.ssthresh > 0
  {
    match e
    case Tick(at) => OnTick(c, y.src, at).sent
    case DeliverData(_, _) => []
    case DeliverAck(a, at) => OnAck(c, y.src, a.ackno, a.ts, at).sent
  }

  function PacketsSent(c: Config, tr: seq<System>, es: seq<Event>, n: nat): nat
    requires IsRun(c, tr, es) && n <= |es|
  {
    if n == 0 then 0
    else
      RunSafe(c, tr, es, n - 1);
      PacketsSent(c, tr, es, n - 1) + |SentBy(c, tr[n - 1], es[n - 1])|
  }

  lemma CountNotIdle(c: Config, y: System, a: Ack)
    requires Safe(c, y) && a in y.acks
    ensures SenderOk(c, y.src) && y.src.phase != Idle
  {}

  /** On every run `_packets_sent` is the number of packets sent, times their size. */
  lemma {:induction false} RunCounts(c: Config, tr: seq<System>, es: seq<Event>, n: nat)
    requires IsRun(c, tr, es) && n <= |es|
    ensures tr[n].src.packetsSent == PacketsSent(c, tr, es, n) * MSS
  {
    hide OnTick, OnAck, Sink.Valid, Sink.Has, Sink.Process, SenderOk;
    if n == 0 {
    } else {
      RunCounts(c, tr, es, n - 1);
      RunSafe(c, tr, es, n - 1);
      var s := tr[n - 1].src;
      match es[n - 1] {
        case Tick(at) => SentIsCounted(c, s, at);
        case DeliverData(d, at) =>
        case DeliverAck(a, at) => CountNotIdle(c, tr[n - 1], a); AckIsCounted(c, s, a.ackno, a.ts, at);
      }
    }
  }
}

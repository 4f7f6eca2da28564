/** What the sender can rely on in every run: the order of its two sequence numbers, exactly
    when its timer stays armed and its window usable, and that a flow can always be finished. */
module TcpProgress {
  import opened Htsim
  import opened Arithmetic
  import opened TcpSpec
  import opened TcpRuns
  import Sink = DataSinkSpec

  // ----- 32-bit fields --------------------------------------------------------------

  /** Window and threshold fit their 32 bits. */
  predicate Words(s: State) { s.cwnd < TWO32 && s.ssthresh < TWO32 }

  lemma OnTickWords(c: Config, s: State, now: nat)
    requires SenderOk(c, s) && Words(s)
    ensures Words(OnTick(c, s, now).s)
  {
    hide SendCount, U32;
  }

  lemma NewAckWords(c: Config, s: State, ackno: nat, now: nat)
    requires Words(s) && s.ssthresh > 0
    ensures Words(NewAck(c, s, ackno, now).s)
  {
    hide SendCount, Int32, AdditiveIncrease;
  }

  lemma DupAckWords(c: Config, s: State, now: nat)
    requires Words(s)
    ensures Words(DupAck(c, s, now).s)
  {
    hide SendCount;
  }

  lemma OnAckWords(c: Config, s: State, ackno: nat, ts: nat, now: nat)
    requires SenderOk(c, s) && s.phase != Idle && Words(s)
    ensures Words(OnAck(c, s, ackno, ts, now).s)
  {
    hide U64, NewAck, DupAck, UpdateRtt;
    UpdateRttOk(c, s, U64(now - ts));
    NewAckWords(c, UpdateRtt(s, U64(now - ts)), ackno, now);
    DupAckWords(c, UpdateRtt(s, U64(now - ts)), now);
  }

  lemma StartWords()
    ensures Words(Init())
  {}

  lemma {:induction false} RunWords(c: Config, tr: seq<System>, es: seq<Event>, n: nat)
    requires IsRun(c, tr, es) && n <= |es|
    ensures Words(tr[n].src)
  {
    hide OnTick, OnAck, Sink.Valid, Sink.Has, Sink.Process, Words;
    if n == 0 {
      StartWords();
    } else {
      RunWords(c, tr, es, n - 1);
      RunSafe(c, tr, es, n - 1);
      match es[n - 1] {
        case Tick(at) => OnTickWords(c, tr[n - 1].src, at);
        case DeliverData(d, at) =>
        case DeliverAck(a, at) => OnAckWords(c, tr[n - 1].src, a.ackno, a.ts, at);
      }
    }
  }

  // ----- the order of the sequence numbers ------------------------------------------

  /** Sending makes up for whatever was acknowledged beyond what the sender counts as sent. */
  lemma SendCatchesUp(c: Config, s: State, now: nat)
    requires SenderOk(c, s)
    ensures var t := SendPackets(c, s, now).s;
            t.lastAcked == s.lastAcked <= t.highestSent
  {}

  lemma NewAckBehind(c: Config, s: State, ackno: nat, now: nat)
    requires SenderOk(c, s) && Active(s) && Aligned(ackno) && (c.flowsize > 0 ==> ackno < c.flowsize)
    ensures var t := NewAck(c, s, ackno, now).s; t.lastAcked <= t.highestSent
  {
    hide U32, SendPackets, Inflate;
    var r := s.(timeout := if ackno == s.highestSent then 0 else now + s.rto);
    if s.phase != FastRecov {
      InflateFrame(r.(lastAcked := ackno, dupacks := 0));
      SendCatchesUp(c, Inflate(r.(lastAcked := ackno, dupacks := 0)), now);
    } else if ackno >= s.recoverSeq {
      SendCatchesUp(c, r.(cwnd := Min(s.ssthresh, U32(U32(s.highestSent - ackno) + MSS)),
                          lastAcked := ackno, dupacks := 0, phase := CongAvoid), now);
    } else {
      var newData := U32(ackno - s.lastAcked);
      var w := if newData < s.cwnd then s.cwnd - newData else 0;
      SendCatchesUp(c, Retransmit(r.(lastAcked := ackno, cwnd := U32(w + MSS)), now).s, now);
    }
  }

  lemma DupAckBehind(c: Config, s: State, now: nat)
    requires SenderOk(c, s) && Active(s) && s.lastAcked <= s.highestSent
    ensures var t := DupAck(c, s, now).s; t.lastAcked <= t.highestSent
  {
    hide U32, SendPackets;
    SendCatchesUp(c, s.(cwnd := U32(s.cwnd + MSS)), now);
    SendCatchesUp(c, s.(dupacks := (s.dupacks + 1) % 0x1_0000), now);
  }

  lemma OnTickBehind(c: Config, s: State, now: nat)
    requires SenderOk(c, s) && s.lastAcked <= s.highestSent
    ensures var t := OnTick(c, s, now).s; t.lastAcked <= t.highestSent
  {
    hide DeflatedWindow;
  }

  lemma OnAckBehind(c: Config, s: State, ackno: nat, ts: nat, now: nat)
    requires SenderOk(c, s) && s.phase != Idle && Aligned(ackno) && s.lastAcked <= s.highestSent
    ensures var t := OnAck(c, s, ackno, ts, now).s; t.lastAcked <= t.highestSent
  {
    hide U64, NewAck, DupAck, UpdateRtt;
    if Active(s) && !FlowDone(c, ackno, now) && ackno >= s.lastAcked {
      UpdateRttOk(c, s, U64(now - ts));
      if ackno > s.lastAcked {
        NewAckBehind(c, UpdateRtt(s, U64(now - ts)), ackno, now);
      } else {
        DupAckBehind(c, UpdateRtt(s, U64(now - ts)), now);
      }
    }
  }

  /** On every run, nothing is acknowledged that the sender does not count as sent. */
  lemma {:induction false} RunBehind(c: Config, tr: seq<System>, es: seq<Event>, n: nat)
    requires IsRun(c, tr, es) && n <= |es|
    ensures tr[n].src.lastAcked <= tr[n].src.highestSent
  {
    hide OnTick, OnAck, Sink.Valid, Sink.Has, Sink.Process;
    if n == 0 {
    } else {
      RunBehind(c, tr, es, n - 1);
      RunSafe(c, tr, es, n - 1);
      match es[n - 1] {
        case Tick(at) => OnTickBehind(c, tr[n - 1].src, at);
        case DeliverData(d, at) =>
        case DeliverAck(a, at) => OnAckBehind(c, tr[n - 1].src, a.ackno, a.ts, at);
      }
    }
  }

  // ----- the timer ------------------------------------------------------------------

  predicate Armed(s: State) { Active(s) ==> s.timeout != 0 }

  /** The one event that turns the timer off for good: outside recovery, everything counted as
      sent is acknowledged and even the doubled window has no room for a packet. */
  predicate Disarms(c: Config, s: State, ackno: nat, now: nat) {
    && Active(s) && s.phase != FastRecov && !FlowDone(c, ackno, now)
    && s.lastAcked < ackno == s.highestSent && 2 * s.cwnd < MSS
  }

  /** Sending arms the timer exactly when it sends something. */
  lemma SendArms(c: Config, s: State, now: nat)
    requires s.rto > 0
    ensures SendPackets(c, s, now).s.timeout != 0 <==> s.timeout != 0 || SendCount(c, s) > 0
    ensures SendPackets(c, s, now).s.phase == s.phase
  {
    hide SendCount;
  }

  /** With a packet's room in the window and something left of the flow, something is sent. */
  lemma FirstRoom(c: Config, s: State)
    requires !Exhausted(c, s) && WindowOpen(s)
    ensures SendCount(c, s) > 0
  {
    SendOne(c, s, 0);
  }

  lemma OnTickArms(c: Config, s: State, now: nat)
    requires SenderOk(c, s) && Armed(s)
    ensures Armed(OnTick(c, s, now).s)
  {
    hide DeflatedWindow, CeilDiv;
    if s.phase == Idle {
      var t := s.(phase := SlowStart, cwnd := 2 * MSS);
      FirstRoom(c, t);
      SendArms(c, t, now);
    }
  }

  lemma IncreaseSmall(newly: nat, cwnd: nat)
    requires newly <= MSS <= cwnd
    ensures AdditiveIncrease(newly, cwnd) <= MSS
  {}

  /** What a C `int` makes of a 32-bit number. */
  lemma Int32Cases(x: nat)
    requires x < TWO32
    ensures if x < TWO32 / 2 then Int32(x) == x else Int32(x) < 0
  {}

  /** An acknowledgement of everything sent doubles a window below a packet, and leaves a larger one no smaller. */
  lemma InflateAtEnd(s: State)
    requires Words(s) && s.ssthresh >= 2 * MSS && s.lastAcked == s.highestSent
    ensures Inflate(s).cwnd >= MSS <==> 2 * s.cwnd >= MSS
  {
    hide AdditiveIncrease, Int32;
    Int32Cases(s.cwnd);
    assert s.lastAcked + s.cwnd - s.highestSent == s.cwnd;
    if s.ssthresh <= s.cwnd < TWO32 / 2 {
      IncreaseSmall(Min(s.cwnd, MSS), s.cwnd);
    }
  }

  lemma ExitAtEnd(highest: nat)
    ensures U32(U32(highest - highest) + MSS) == MSS
  {}

  /** With nothing in flight, something is sent exactly when the window has room for a packet. */
  lemma RoomAtEnd(c: Config, s: State)
    requires s.lastAcked == s.highestSent && !Exhausted(c, s)
    ensures SendCount(c, s) > 0 <==> s.cwnd >= MSS
  {
    if s.cwnd >= MSS {
      FirstRoom(c, s);
    }
  }

  lemma NewAckArms(c: Config, s: State, ackno: nat, now: nat)
    requires SenderOk(c, s) && Words(s) && Active(s) && ackno > s.lastAcked
    requires c.flowsize > 0 ==> ackno < c.flowsize
    ensures var t := NewAck(c, s, ackno, now).s;
            && Active(t)
            && (t.timeout == 0 <==> s.phase != FastRecov && ackno == s.highestSent && 2 * s.cwnd < MSS)
  {
    hide U32, SendCount, Inflate;
    var r := s.(timeout := if ackno == s.highestSent then 0 else now + s.rto);
    if s.phase != FastRecov {
      var t := r.(lastAcked := ackno, dupacks := 0);
      InflateFrame(t);
      SendArms(c, Inflate(t), now);
      if ackno == s.highestSent {
        InflateAtEnd(t);
        RoomAtEnd(c, Inflate(t));
      }
    } else if ackno >= s.recoverSeq {
      var t := r.(cwnd := Min(s.ssthresh, U32(U32(s.highestSent - ackno) + MSS)),
                  lastAcked := ackno, dupacks := 0, phase := CongAvoid);
      SendArms(c, t, now);
      if ackno == s.highestSent {
        ExitAtEnd(s.highestSent);
        RoomAtEnd(c, t);
      }
    } else {
      var newData := U32(ackno - s.lastAcked);
      var w := if newData < s.cwnd then s.cwnd - newData else 0;
      SendArms(c, Retransmit(r.(lastAcked := ackno, cwnd := U32(w + MSS)), now).s, now);
    }
  }

  lemma DupAckArms(c: Config, s: State, now: nat)
    requires SenderOk(c, s) && Active(s) && s.timeout != 0
    ensures Active(DupAck(c, s, now).s) && DupAck(c, s, now).s.timeout != 0
  {
    hide U32, SendCount;
  }

  /** One acknowledgement leaves an armed timer armed exactly unless it is a disarming one. */
  lemma OnAckArms(c: Config, s: State, ackno: nat, ts: nat, now: nat)
    requires SenderOk(c, s) && Words(s) && s.phase != Idle && Armed(s)
    ensures Armed(OnAck(c, s, ackno, ts, now).s) <==> !Disarms(c, s, ackno, now)
  {
    hide U64, NewAck, DupAck, UpdateRtt;
    if Active(s) && !FlowDone(c, ackno, now) && ackno >= s.lastAcked {
      UpdateRttOk(c, s, U64(now - ts));
      if ackno > s.lastAcked {
        NewAckArms(c, UpdateRtt(s, U64(now - ts)), ackno, now);
      } else {
        DupAckArms(c, UpdateRtt(s, U64(now - ts)), now);
      }
    }
  }

  /** Event `k` of a run disarms the timer. */
  ghost predicate DisarmsAt(c: Config, tr: seq<System>, es: seq<Event>, k: nat)
    requires k < |es| && k < |tr|
  {
    es[k].DeliverAck? && Disarms(c, tr[k].src, es[k].a.ackno, es[k].at)
  }

  /** One event of a run. */
  lemma StepArms(c: Config, tr: seq<System>, es: seq<Event>, k: nat)
    requires IsRun(c, tr, es) && k < |es| && Armed(tr[k].src)
    ensures Armed(tr[k + 1].src) <==> !DisarmsAt(c, tr, es, k)
  {
    hide OnTick, OnAck, Sink.Valid, Sink.Has, Sink.Process, Disarms, Armed, Words;
    RunSafe(c, tr, es, k);
    RunWords(c, tr, es, k);
    match es[k] {
      case Tick(at) => OnTickArms(c, tr[k].src, at);
      case DeliverData(d, at) =>
      case DeliverAck(a, at) => OnAckArms(c, tr[k].src, a.ackno, a.ts, at);
    }
  }

  lemma StartArmed()
    ensures Armed(Start().src)
  {}

  lemma {:induction false} RunArmed(c: Config, tr: seq<System>, es: seq<Event>, n: nat)
    requires IsRun(c, tr, es) && n <= |es| && forall k :: 0 <= k < n ==> !DisarmsAt(c, tr, es, k)
    ensures Armed(tr[n].src)
  {
    hide DisarmsAt, Armed;
    if n == 0 {
      StartArmed();
    } else {
      RunArmed(c, tr, es, n - 1);
      StepArms(c, tr, es, n - 1);
    }
  }

  /** On every run: an active sender's timer is armed throughout if and only if no
      acknowledgement disarms it. */
  lemma RunArmedExactly(c: Config, tr: seq<System>, es: seq<Event>, n: nat)
    requires IsRun(c, tr, es) && n <= |es|
    ensures (forall k :: 0 <= k <= n ==> Armed(tr[k].src))
            <==> (forall k :: 0 <= k < n ==> !DisarmsAt(c, tr, es, k))
  {
    hide DisarmsAt, Armed;
    if forall k :: 0 <= k < n ==> !DisarmsAt(c, tr, es, k) {
      forall k | 0 <= k <= n ensures Armed(tr[k].src) {
        RunArmed(c, tr, es, k);
      }
    } else {
      var k :| 0 <= k < n && DisarmsAt(c, tr, es, k);
      if Armed(tr[k].src) {
        StepArms(c, tr, es, k);
        assert !Armed(tr[k + 1].src);
      }
    }
  }

  // ----- the window -----------------------------------------------------------------

  predicate Usable(s: State) { Active(s) ==> s.cwnd >= MSS }

  /** The acknowledgements after which the window has no room for a packet: each is a 32-bit
      overflow of the sum that the branch forms. */
  predicate Empties(c: Config, s: State, ackno: nat, now: nat) {
    && Active(s) && !FlowDone(c, ackno, now) && ackno >= s.lastAcked
    && if ackno == s.lastAcked then s.phase == FastRecov && s.cwnd + MSS >= TWO32
       else if s.phase != FastRecov then
         s.cwnd == TWO32 - 1 && Int32(ackno + s.cwnd - s.highestSent) >= 0
       else if ackno >= s.recoverSeq then U32(s.highestSent - ackno) + MSS >= TWO32
       else
         var newData := U32(ackno - s.lastAcked);
         (if newData < s.cwnd then s.cwnd - newData else 0) + MSS >= TWO32
  }

  lemma OnTickUsable(c: Config, s: State, now: nat)
    requires SenderOk(c, s) && Usable(s)
    ensures Usable(OnTick(c, s, now).s)
  {
    hide DeflatedWindow, SendCount;
  }

  /** Large windows grow by one byte at a time. */
  lemma IncreaseVanishes(newly: nat, cwnd: nat)
    requires newly <= MSS <= cwnd
    ensures AdditiveIncrease(newly, cwnd) <= MSS
    ensures cwnd > MSS * MSS ==> AdditiveIncrease(newly, cwnd) == 0
  {
    assert newly * MSS <= MSS * MSS;
  }

  /** Inflation wraps a usable window exactly when it stands at its largest value. */
  lemma InflateExactly(s: State)
    requires Words(s) && s.ssthresh >= 2 * MSS && s.cwnd >= MSS
    ensures Inflate(s).cwnd >= MSS
            <==> !(s.cwnd == TWO32 - 1 && Int32(s.lastAcked + s.cwnd - s.highestSent) >= 0)
  {
    hide AdditiveIncrease, Int32;
    var newly := Int32(s.lastAcked + s.cwnd - s.highestSent);
    if newly >= 0 && s.cwnd >= s.ssthresh {
      IncreaseVanishes(Min(newly, MSS), s.cwnd);
    }
  }

  /** A sum of two 32-bit numbers below `TWO32 + MSS` holds a packet exactly when it does not wrap. */
  lemma WrapExactly(x: nat)
    requires x < TWO32
    ensures U32(x + MSS) >= MSS <==> x + MSS < TWO32
  {}

  lemma SmallU32(x: int)
    ensures U32(x) < TWO32
  {}

  lemma NewAckUsable(c: Config, s: State, ackno: nat, now: nat)
    requires SenderOk(c, s) && Words(s) && Active(s) && s.cwnd >= MSS && ackno > s.lastAcked
    requires !FlowDone(c, ackno, now)
    ensures NewAck(c, s, ackno, now).s.cwnd >= MSS <==> !Empties(c, s, ackno, now)
  {
    hide U32, SendCount, Inflate, Int32;
    var r := s.(timeout := if ackno == s.highestSent then 0 else now + s.rto);
    if s.phase != FastRecov {
      var t := r.(lastAcked := ackno, dupacks := 0);
      InflateFrame(t);
      InflateExactly(t);
    } else if ackno >= s.recoverSeq {
      SmallU32(s.highestSent - ackno);
      WrapExactly(U32(s.highestSent - ackno));
    } else {
      var newData := U32(ackno - s.lastAcked);
      WrapExactly(if newData < s.cwnd then s.cwnd - newData else 0);
    }
  }

  /** Entering recovery cannot overflow. */
  lemma RecoveryWindow(cwnd: nat)
    requires cwnd < TWO32
    ensures U32(Max(cwnd / 2, MSS * 2) + 3 * MSS) >= MSS
  {}

  lemma DupAckUsable(c: Config, s: State, now: nat)
    requires SenderOk(c, s) && Words(s) && Active(s) && s.cwnd >= MSS
    ensures DupAck(c, s, now).s.cwnd >= MSS <==> !(s.phase == FastRecov && s.cwnd + MSS >= TWO32)
  {
    hide U32, SendCount;
    WrapExactly(s.cwnd);
    RecoveryWindow(s.cwnd);
  }

  /** One acknowledgement leaves a usable window usable exactly unless it is an emptying one. */
  lemma OnAckUsable(c: Config, s: State, ackno: nat, ts: nat, now: nat)
    requires SenderOk(c, s) && Words(s) && s.phase != Idle && Usable(s)
    ensures Usable(OnAck(c, s, ackno, ts, now).s) <==> !Empties(c, s, ackno, now)
  {
    hide U64, NewAck, DupAck, UpdateRtt, U32, Int32;
    if Active(s) && !FlowDone(c, ackno, now) && ackno >= s.lastAcked {
      UpdateRttOk(c, s, U64(now - ts));
      var t := UpdateRtt(s, U64(now - ts));
      if ackno > s.lastAcked {
        NewAckUsable(c, t, ackno, now);
        NewAckArms(c, t, ackno, now);
      } else {
        DupAckUsable(c, t, now);
        DupAckOk(c, t, now);
      }
    }
  }

  /** Event `k` of a run empties the window. */
  ghost predicate EmptiesAt(c: Config, tr: seq<System>, es: seq<Event>, k: nat)
    requires k < |es| && k < |tr|
  {
    es[k].DeliverAck? && Empties(c, tr[k].src, es[k].a.ackno, es[k].at)
  }

  lemma StepUsable(c: Config, tr: seq<System>, es: seq<Event>, k: nat)
    requires IsRun(c, tr, es) && k < |es| && Usable(tr[k].src)
    ensures Usable(tr[k + 1].src) <==> !EmptiesAt(c, tr, es, k)
  {
    hide OnTick, OnAck, Sink.Valid, Sink.Has, Sink.Process, Empties, Usable, Words;
    RunSafe(c, tr, es, k);
    RunWords(c, tr, es, k);
    match es[k] {
      case Tick(at) => OnTickUsable(c, tr[k].src, at);
      case DeliverData(d, at) =>
      case DeliverAck(a, at) => OnAckUsable(c, tr[k].src, a.ackno, a.ts, at);
    }
  }

  lemma StartUsable()
    ensures Usable(Start().src)
  {}

  lemma {:induction false} RunUsable(c: Config, tr: seq<System>, es: seq<Event>, n: nat)
    requires IsRun(c, tr, es) && n <= |es| && forall k :: 0 <= k < n ==> !EmptiesAt(c, tr, es, k)
    ensures Usable(tr[n].src)
  {
    hide EmptiesAt, Usable;
    if n == 0 {
      StartUsable();
    } else {
      RunUsable(c, tr, es, n - 1);
      StepUsable(c, tr, es, n - 1);
    }
  }

  /** On every run: an active sender's window has room for a packet throughout if and only if
      no acknowledgement empties it. */
  lemma RunUsableExactly(c: Config, tr: seq<System>, es: seq<Event>, n: nat)
    requires IsRun(c, tr, es) && n <= |es|
    ensures (forall k :: 0 <= k <= n ==> Usable(tr[k].src))
            <==> (forall k :: 0 <= k < n ==> !EmptiesAt(c, tr, es, k))
  {
    hide EmptiesAt, Usable;
    if forall k :: 0 <= k < n ==> !EmptiesAt(c, tr, es, k) {
      forall k | 0 <= k <= n ensures Usable(tr[k].src) {
        RunUsable(c, tr, es, k);
      }
    } else {
      var k :| 0 <= k < n && EmptiesAt(c, tr, es, k);
      if Usable(tr[k].src) {
        StepUsable(c, tr, es, k);
        assert !Usable(tr[k + 1].src);
      }
    }
  }

  // ----- finishing ------------------------------------------------------------------

  /** Receiving the byte after the acknowledgement, or an older one, leaves it acknowledged. */
  lemma NextByteAdvances(s: Sink.State, seqno: nat)
    requires Sink.Valid(s) && 1 <= seqno <= s.cumulativeAck + 1 && Aligned(seqno - 1)
    ensures Sink.Process(s, Sink.Chunk(seqno, MSS)).cumulativeAck >= seqno
  {
    if seqno == s.cumulativeAck + 1 {
      Sink.AbsorbGrows(Sink.State(seqno + MSS - 1, s.received));
    }
  }

  /** After a timeout the acknowledgement of a new packet finishes the flow or leaves the
      sender further on, its timer armed again. */
  lemma AckAfterTimeout(c: Config, s: State, ackno: nat, now: nat)
    requires SenderOk(c, s) && Words(s) && s.phase == SlowStart && s.cwnd == MSS
    requires ackno > s.lastAcked && Aligned(ackno)
    ensures var t := OnAck(c, s, ackno, now, now).s;
            t.phase == Finish || (Active(t) && t.timeout != 0 && t.lastAcked == ackno)
  {
    hide U64, NewAck, UpdateRtt;
    if !FlowDone(c, ackno, now) {
      UpdateRttOk(c, s, U64(now - now));
      NewAckArms(c, UpdateRtt(s, U64(now - now)), ackno, now);
      NewAckOk(c, UpdateRtt(s, U64(now - now)), ackno, now);
    }
  }

  /** No deadlock: from any safe state with an armed timer, if the expired timer's packet and
      then its acknowledgement get through, the flow finishes, or more of it is acknowledged
      and the timer is armed again. */
  lemma TimeoutMakesProgress(c: Config, y: System, at: nat)
    requires Safe(c, y) && Words(y.src) && Active(y.src) && y.src.timeout != 0
    requires at >= y.now && at >= y.src.timeout
    ensures var d := Data(y.src.lastAcked + 1, at);
            var y1 := Next(c, y, Tick(at));
            && Enabled(y, Tick(at)) && d in y1.data && y1.src.ssthresh > 0
            && var y2 := Next(c, y1, DeliverData(d, at));
               var a := Ack(y2.sink.cumulativeAck, at);
               && Enabled(y1, DeliverData(d, at)) && a in y2.acks && y2.src.ssthresh > 0
               && var y3 := Next(c, y2, DeliverAck(a, at));
                  && Enabled(y2, DeliverAck(a, at))
                  && (y3.src.phase == Finish
                      || (Active(y3.src) && y3.src.timeout != 0 && y3.src.lastAcked > y.src.lastAcked))
  {
    hide U32, U64, OnAck, Sink.Has, Sink.Absorb, WasSent;
    var d := Data(y.src.lastAcked + 1, at);
    var y1 := Next(c, y, Tick(at));
    NextSafe(c, y, Tick(at));
    OnTickWords(c, y.src, at);
    assert Timeout(y.src, at).sent == [y.src.lastAcked + 1];
    assert d in y1.data;
    NextSafe(c, y1, DeliverData(d, at));
    DeliverDataSafe(c, y1, d, at);
    NextByteAdvances(y1.sink, d.seqno);
    var y2 := Next(c, y1, DeliverData(d, at));
    assert y2.src == y1.src && y2.sink.cumulativeAck > y.src.lastAcked;
    AckAfterTimeout(c, y2.src, y2.sink.cumulativeAck, at);
  }

  /** A run goes on with any enabled event. */
  lemma RunMore(c: Config, tr: seq<System>, es: seq<Event>, e: Event)
    returns (tr': seq<System>, es': seq<Event>)
    requires IsRun(c, tr, es) && Enabled(tr[|es|], e) && tr[|es|].src.ssthresh > 0
    ensures tr' == tr + [Next(c, tr[|es|], e)] && es' == es + [e] && IsRun(c, tr', es')
  {
    hide Next, Enabled;
    tr', es' := tr + [Next(c, tr[|es|], e)], es + [e];
  }

  /** Three events that take the run one acknowledgement further. */
  lemma OneMoreAck(c: Config, tr: seq<System>, es: seq<Event>)
    returns (tr': seq<System>, es': seq<Event>)
    requires IsRun(c, tr, es) && Active(tr[|es|].src) && tr[|es|].src.timeout != 0
    ensures IsRun(c, tr', es') && es <= es' && tr <= tr'
    ensures var s, t := tr[|es|].src, tr'[|es'|].src;
            t.phase == Finish || (Active(t) && t.timeout != 0 && t.lastAcked > s.lastAcked)
  {
    hide Next, Enabled, Safe, Words;
    var y := tr[|es|];
    var at := Max(y.now, y.src.timeout);
    RunSafe(c, tr, es, |es|);
    RunWords(c, tr, es, |es|);
    TimeoutMakesProgress(c, y, at);
    SafeThreshold(c, y);
    var d := Data(y.src.lastAcked + 1, at);
    tr', es' := RunMore(c, tr, es, Tick(at));
    tr', es' := RunMore(c, tr', es', DeliverData(d, at));
    tr', es' := RunMore(c, tr', es', DeliverAck(Ack(tr'[|es'|].sink.cumulativeAck, at), at));
  }

  lemma FirstTick(c: Config, y: System)
    requires Safe(c, y) && y.src.phase == Idle
    ensures y.src.ssthresh > 0 && Active(Next(c, y, Tick(y.now)).src) && Armed(Next(c, y, Tick(y.now)).src)
  {
    OnTickOk(c, y.src, y.now);
    OnTickArms(c, y.src, y.now);
  }

  lemma SafeBelow(c: Config, y: System)
    requires Safe(c, y)
    ensures c.flowsize > 0 ==> y.src.lastAcked < c.flowsize
    ensures y.src.ssthresh > 0
  {}

  /** Every run of a sized flow whose timer is armed at its end can be continued to the finish. */
  lemma {:induction false} CanFinish(c: Config, tr: seq<System>, es: seq<Event>)
    returns (tr': seq<System>, es': seq<Event>)
    requires IsRun(c, tr, es) && c.flowsize > 0 && Armed(tr[|es|].src)
    ensures IsRun(c, tr', es') && es <= es' && tr <= tr' && tr'[|es'|].src.phase == Finish
    decreases tr[|es|].src.phase == Idle,
              if tr[|es|].src.lastAcked < c.flowsize then c.flowsize - tr[|es|].src.lastAcked else 0
  {
    hide Next, Safe, OnTick;
    var y := tr[|es|];
    RunSafe(c, tr, es, |es|);
    SafeBelow(c, y);
    if y.src.phase == Finish {
      tr', es' := tr, es;
    } else if y.src.phase == Idle {
      tr', es' := RunMore(c, tr, es, Tick(y.now));
      FirstTick(c, y);
      tr', es' := CanFinish(c, tr', es');
    } else {
      tr', es' := OneMoreAck(c, tr, es);
      if tr'[|es'|].src.phase != Finish {
        tr', es' := CanFinish(c, tr', es');
      }
    }
  }
}

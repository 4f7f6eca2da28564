/** Runs on which no 32-bit field of the sender overflows: there the timer is always armed, and
    the window is lost exactly at a collapsing exit. Until some 2.8 million acknowledgements have
    been delivered every run is one, whatever the flow size, the losses and the delays. */
module TcpBounds {
  import opened Htsim
  import opened Arithmetic
  import opened TcpSpec
  import opened TcpRuns
  import opened TcpProgress
  import Sink = DataSinkSpec

  // ----- runs without overflow ------------------------------------------------------

  predicate NoOverflow(s: State) {
    s.cwnd + MSS < TWO32 && s.highestSent + MSS < s.lastAcked + TWO32
  }

  /** An acknowledgement that does not finish the flow is less than 4 GiB past `highestSent`. */
  predicate Near(c: Config, s: State, ackno: nat, now: nat) {
    ackno < s.highestSent + TWO32 || FlowDone(c, ackno, now)
  }

  /** The next event does not overflow a 32-bit window or byte difference. */
  predicate Roomy(c: Config, s: State, e: Event) {
    && NoOverflow(s)
    && (e.DeliverAck? ==> Near(c, s, e.a.ackno, e.at))
  }

  /** Every state before `n` leaves its event room in the 32-bit fields. */
  ghost predicate RoomyRun(c: Config, tr: seq<System>, es: seq<Event>, n: nat)
    requires n <= |es| && n <= |tr|
  {
    forall k :: 0 <= k < n ==> Roomy(c, tr[k].src, es[k])
  }

  /** Any flow whose size is a positive 32-bit number, as the constructor's type says, is near. */
  lemma SizedFlowsAreNear(c: Config, s: State, ackno: nat, now: nat)
    requires 0 < c.flowsize < TWO32
    ensures Near(c, s, ackno, now)
  {}

  /** Inflating the recovery window keeps it usable exactly when the 32-bit sum does not wrap. */
  lemma RecoveryInflation(c: Config, s: State, now: nat)
    requires s.phase == FastRecov && s.cwnd < TWO32
    ensures DupAck(c, s, now).s.cwnd >= MSS <==> s.cwnd + MSS < TWO32
  {
    hide SendCount;
  }

  /** The one event that can collapse the window without a 32-bit overflow of a true byte count: a
      fast-recovery exit on an acknowledgement one packet beyond what the sender counts as sent. */
  predicate CollapsingExit(c: Config, s: State, ackno: nat, now: nat) {
    && s.phase == FastRecov && !FlowDone(c, ackno, now)
    && ackno > s.lastAcked && ackno >= s.recoverSeq && ackno == s.highestSent + MSS
  }

  /** The 32-bit window arithmetic of a fast-recovery exit. */
  lemma ExitWindow(highest: nat, ackno: nat)
    requires Aligned(highest) && Aligned(ackno) && ackno < highest + TWO32 && highest + MSS < ackno + TWO32
    ensures U32(highest - ackno) + MSS >= TWO32 <==> ackno == highest + MSS
    ensures var w := U32(U32(highest - ackno) + MSS);
            if ackno == highest + MSS then w == 0 else w >= MSS
  {}

  /** Without overflow the emptying events are the collapsing exits. */
  lemma EmptiesIsCollapse(c: Config, s: State, ackno: nat, now: nat)
    requires SenderOk(c, s) && NoOverflow(s) && Near(c, s, ackno, now) && Aligned(ackno)
    ensures Empties(c, s, ackno, now) <==> CollapsingExit(c, s, ackno, now)
  {
    hide U32, Int32;
    if CollapsingExit(c, s, ackno, now) || Empties(c, s, ackno, now) {
      if ackno > s.lastAcked {
        ExitWindow(s.highestSent, ackno);
      }
    }
  }

  /** An active sender's window is usable, or it is 0 and everything counted is acknowledged. */
  predicate Tight(s: State) {
    Active(s) ==> s.cwnd >= MSS || (s.cwnd == 0 && s.lastAcked == s.highestSent)
  }

  lemma SendTight(c: Config, s: State, now: nat)
    requires SenderOk(c, s)
    requires s.cwnd >= MSS || (s.cwnd == 0 && s.lastAcked >= s.highestSent)
    ensures Tight(SendPackets(c, s, now).s)
  {
    SendCatchesUp(c, s, now);
    SendsAll(c, s, now);
  }

  /** An empty window either gets a packet's room from a new acknowledgement or stays empty. */
  lemma InflateEmpty(s: State)
    requires s.ssthresh >= 2 * MSS && s.cwnd == 0 && Aligned(s.lastAcked) && Aligned(s.highestSent)
    requires s.highestSent < s.lastAcked < s.highestSent + TWO32
    ensures Inflate(s).cwnd == MSS || Inflate(s).cwnd == 0
  {
    var d := s.lastAcked - s.highestSent;
    assert d % MSS == 0 && d >= MSS;
    assert U32(d) == d;
  }

  lemma NewAckTight(c: Config, s: State, ackno: nat, now: nat)
    requires SenderOk(c, s) && Words(s) && Active(s) && Tight(s) && NoOverflow(s)
    requires Aligned(ackno) && s.lastAcked < ackno < s.highestSent + TWO32
    requires c.flowsize > 0 ==> ackno < c.flowsize
    ensures Tight(NewAck(c, s, ackno, now).s)
  {
    hide SendPackets, Inflate, U32, Int32;
    var r := s.(timeout := if ackno == s.highestSent then 0 else now + s.rto);
    if s.phase != FastRecov {
      var t := r.(lastAcked := ackno, dupacks := 0);
      InflateFrame(t);
      if s.cwnd == 0 {
        InflateEmpty(t);
      } else {
        InflateExactly(t);
      }
      SendTight(c, Inflate(t), now);
    } else if ackno >= s.recoverSeq {
      ExitWindow(s.highestSent, ackno);
      SendTight(c, r.(cwnd := Min(s.ssthresh, U32(U32(s.highestSent - ackno) + MSS)),
                      lastAcked := ackno, dupacks := 0, phase := CongAvoid), now);
    } else {
      var newData := U32(ackno - s.lastAcked);
      var w := if newData < s.cwnd then s.cwnd - newData else 0;
      WrapExactly(w);
      SendTight(c, Retransmit(r.(lastAcked := ackno, cwnd := U32(w + MSS)), now).s, now);
    }
  }

  lemma DupAckTight(c: Config, s: State, now: nat)
    requires SenderOk(c, s) && Words(s) && Active(s) && Tight(s) && NoOverflow(s)
    ensures Tight(DupAck(c, s, now).s)
  {
    hide SendPackets, U32;
    if s.phase == FastRecov {
      WrapExactly(s.cwnd);
      SendTight(c, s.(cwnd := U32(s.cwnd + MSS)), now);
    } else {
      RecoveryWindow(s.cwnd);
      SendTight(c, s.(dupacks := (s.dupacks + 1) % 0x1_0000), now);
    }
  }

  lemma OnAckTight(c: Config, s: State, ackno: nat, ts: nat, now: nat)
    requires SenderOk(c, s) && Words(s) && s.phase != Idle && Aligned(ackno)
    requires Tight(s) && NoOverflow(s) && Near(c, s, ackno, now)
    ensures Tight(OnAck(c, s, ackno, ts, now).s)
  {
    hide U64, NewAck, DupAck, UpdateRtt;
    if Active(s) && !FlowDone(c, ackno, now) && ackno >= s.lastAcked {
      UpdateRttOk(c, s, U64(now - ts));
      if ackno > s.lastAcked {
        NewAckTight(c, UpdateRtt(s, U64(now - ts)), ackno, now);
      } else {
        DupAckTight(c, UpdateRtt(s, U64(now - ts)), now);
      }
    }
  }

  lemma OnTickTight(c: Config, s: State, now: nat)
    requires SenderOk(c, s) && Tight(s)
    ensures Tight(OnTick(c, s, now).s)
  {
    hide SendCount, DeflatedWindow;
  }

  lemma StartTight()
    ensures Tight(Start().src)
  {}

  lemma {:induction false} RunTight(c: Config, tr: seq<System>, es: seq<Event>, n: nat)
    requires IsRun(c, tr, es) && n <= |es| && RoomyRun(c, tr, es, n)
    ensures Tight(tr[n].src)
  {
    hide OnTick, OnAck, Sink.Valid, Sink.Has, Sink.Process, Tight, NoOverflow, Near, Words;
    if n == 0 {
      StartTight();
    } else {
      RunTight(c, tr, es, n - 1);
      RunSafe(c, tr, es, n - 1);
      RunWords(c, tr, es, n - 1);
      match es[n - 1] {
        case Tick(at) => OnTickTight(c, tr[n - 1].src, at);
        case DeliverData(d, at) =>
        case DeliverAck(a, at) => OnAckTight(c, tr[n - 1].src, a.ackno, a.ts, at);
      }
    }
  }

  /** An active sender has its timer armed, has not been acknowledged past what it counts as
      sent, and can send at least one packet once everything counted is acknowledged. */
  ghost predicate Live(s: State) {
    Armed(s) && s.lastAcked <= s.highestSent && Tight(s)
  }

  /** No acknowledgement disarms a sender whose window is usable, or 0 with nothing in flight. */
  lemma TightNeverDisarms(c: Config, s: State, ackno: nat, now: nat)
    requires Tight(s)
    ensures !Disarms(c, s, ackno, now)
  {}

  /** While no event overflows a 32-bit field, the sender is live after every event. */
  lemma RunLive(c: Config, tr: seq<System>, es: seq<Event>, n: nat)
    requires IsRun(c, tr, es) && n <= |es| && RoomyRun(c, tr, es, n)
    ensures Live(tr[n].src)
  {
    hide Tight, Disarms, Armed, Roomy;
    forall k | 0 <= k < n ensures !DisarmsAt(c, tr, es, k) {
      RunTight(c, tr, es, k);
      if es[k].DeliverAck? {
        TightNeverDisarms(c, tr[k].src, es[k].a.ackno, es[k].at);
      }
    }
    RunArmed(c, tr, es, n);
    RunBehind(c, tr, es, n);
    RunTight(c, tr, es, n);
  }

  /** Event `k` of a run is a collapsing exit. */
  ghost predicate Collapses(c: Config, tr: seq<System>, es: seq<Event>, k: nat)
    requires k < |es| && k < |tr|
  {
    es[k].DeliverAck? && CollapsingExit(c, tr[k].src, es[k].a.ackno, es[k].at)
  }

  lemma CollapsesIffEmpties(c: Config, tr: seq<System>, es: seq<Event>, k: nat)
    requires IsRun(c, tr, es) && k < |es| && Roomy(c, tr[k].src, es[k])
    ensures Collapses(c, tr, es, k) <==> EmptiesAt(c, tr, es, k)
  {
    hide CollapsingExit, Empties, NoOverflow, Near, Sink.Valid, Sink.Has;
    RunSafe(c, tr, es, k);
    if es[k].DeliverAck? {
      EmptiesIsCollapse(c, tr[k].src, es[k].a.ackno, es[k].at);
    }
  }

  /** While no event overflows a 32-bit field, an active sender's window holds a packet
      throughout a run exactly when no event of the run is a collapsing exit. */
  lemma WindowKeptExactly(c: Config, tr: seq<System>, es: seq<Event>, n: nat)
    requires IsRun(c, tr, es) && n <= |es| && RoomyRun(c, tr, es, n)
    ensures (forall k :: 0 <= k <= n ==> Usable(tr[k].src))
            <==> (forall k :: 0 <= k < n ==> !Collapses(c, tr, es, k))
  {
    hide Collapses, EmptiesAt, Usable, Roomy;
    RunUsableExactly(c, tr, es, n);
    forall k | 0 <= k < n ensures Collapses(c, tr, es, k) <==> EmptiesAt(c, tr, es, k) {
      CollapsesIffEmpties(c, tr, es, k);
    }
  }

  // ----- short runs -----------------------------------------------------------------

  const MAX_ACKS: nat := 2_863_305   // (MAX_ACKS + 6) * MSS < 2^32

  /** Acknowledgements delivered by the first `n` events. */
  function AckCount(es: seq<Event>, n: nat): nat
    requires n <= |es|
  {
    if n == 0 then 0 else AckCount(es, n - 1) + (if es[n - 1].DeliverAck? then 1 else 0)
  }

  /** The window and what is in flight stay within `b` bytes. */
  predicate Within(s: State, b: nat) {
    && s.cwnd <= b
    && (s.phase == FastRecov ==> s.ssthresh <= b)
    && s.highestSent <= s.lastAcked + b
  }

  ghost predicate SentWithin(sent: seq<nat>, last: nat, b: nat) {
    forall x :: x in sent ==> x + MSS <= last + b + 1
  }

  lemma SendPacketsWithin(c: Config, s: State, now: nat, b: nat)
    requires Within(s, b)
    ensures var o := SendPackets(c, s, now);
            && Within(o.s, b) && SentWithin(o.sent, s.lastAcked, b)
            && o.s.lastAcked == s.lastAcked
  {
    SendsAll(c, s, now);
    var o, n := SendPackets(c, s, now), SendCount(c, s);
    forall i: nat | i < n ensures s.highestSent + i * MSS + 1 + MSS <= s.lastAcked + b + 1 {
      assert s.highestSent + i * MSS + MSS <= o.s.highestSent;
    }
  }

  lemma RetransmitWithin(s: State, now: nat, b: nat)
    requires Within(s, b) && b >= MSS
    ensures var o := Retransmit(s, now);
            && Within(o.s, b) && SentWithin(o.sent, s.lastAcked, b)
            && o.s.lastAcked == s.lastAcked
  {}

  lemma SentNone(last: nat, b: nat)
    ensures SentWithin([], last, b)
  {}

  lemma OnTickWithin(c: Config, s: State, now: nat, b: nat)
    requires Within(s, b) && b >= 5 * MSS
    ensures var o := OnTick(c, s, now);
            && Within(o.s, b) && SentWithin(o.sent, s.lastAcked, b)
            && o.s.lastAcked == s.lastAcked
  {
    hide SendPackets, Retransmit, DeflatedWindow, SentWithin;
    if s.phase == Idle {
      SendPacketsWithin(c, s.(phase := SlowStart, cwnd := 2 * MSS), now, b);
    } else if Expired(s, now) {
      RetransmitWithin(Rewind(s, DeflatedWindow(s), now), now, b);
    } else {
      SentNone(s.lastAcked, b);
    }
  }

  /** One new acknowledgement inflates the window by at most a packet. */
  lemma InflateWithin(s: State)
    requires s.ssthresh >= 2 * MSS
    ensures Inflate(s).cwnd <= s.cwnd + MSS
  {
    hide AdditiveIncrease, Int32;
    var newly := Int32(s.lastAcked + s.cwnd - s.highestSent);
    if newly >= 0 && s.cwnd >= s.ssthresh {
      IncreaseSmall(Min(newly, MSS), s.cwnd);
    }
    InflateFrame(s);
  }

  lemma SentBoth(a: seq<nat>, b: seq<nat>, last: nat, bound: nat)
    requires SentWithin(a, last, bound) && SentWithin(b, last, bound)
    ensures SentWithin(a + b, last, bound)
  {}

  lemma WrapsDown(x: nat)
    ensures U32(x) <= x
  {}

  lemma PartialAckWithin(c: Config, s: State, ackno: nat, now: nat, b: nat)
    requires Within(s, b) && ackno > s.lastAcked
    ensures var newData := U32(ackno - s.lastAcked);
            var w := if newData < s.cwnd then s.cwnd - newData else 0;
            var o := RetransmitThenSend(c, s.(lastAcked := ackno, cwnd := U32(w + MSS)), now);
            && Within(o.s, b + MSS) && SentWithin(o.sent, ackno, b + MSS)
            && o.s.lastAcked == ackno
  {
    hide SendPackets, Retransmit, SentWithin;
    var newData := U32(ackno - s.lastAcked);
    var w := if newData < s.cwnd then s.cwnd - newData else 0;
    WrapsDown(w + MSS);
    hide U32;
    var t := s.(lastAcked := ackno, cwnd := U32(w + MSS));
    RetransmitWithin(t, now, b + MSS);
    SendPacketsWithin(c, Retransmit(t, now).s, now, b + MSS);
    SentBoth(Retransmit(t, now).sent, SendPackets(c, Retransmit(t, now).s, now).sent, ackno, b + MSS);
  }

  lemma NewAckWithin(c: Config, s: State, ackno: nat, now: nat, b: nat)
    requires Within(s, b) && s.ssthresh >= 2 * MSS && ackno > s.lastAcked
    ensures var o := NewAck(c, s, ackno, now);
            && Within(o.s, b + MSS) && SentWithin(o.sent, ackno, b + MSS)
            && o.s.lastAcked == ackno
  {
    hide U32, SendPackets, Retransmit, Inflate, SentWithin;
    var r := s.(timeout := if ackno == s.highestSent then 0 else now + s.rto);
    if s.phase != FastRecov {
      var t := r.(lastAcked := ackno, dupacks := 0);
      InflateFrame(t);
      InflateWithin(t);
      SendPacketsWithin(c, Inflate(t), now, b + MSS);
    } else if ackno >= s.recoverSeq {
      SendPacketsWithin(c, r.(cwnd := Min(s.ssthresh, U32(U32(s.highestSent - ackno) + MSS)),
                              lastAcked := ackno, dupacks := 0, phase := CongAvoid), now, b + MSS);
    } else {
      PartialAckWithin(c, r, ackno, now, b);
    }
  }

  lemma DupAckWithin(c: Config, s: State, now: nat, b: nat)
    requires Within(s, b) && b >= 5 * MSS
    ensures var o := DupAck(c, s, now);
            && Within(o.s, b + MSS) && SentWithin(o.sent, s.lastAcked, b + MSS)
            && o.s.lastAcked == s.lastAcked
  {
    hide U32, SendPackets, Retransmit, SentWithin;
    if s.phase == FastRecov {
      WrapsDown(s.cwnd + MSS);
      SendPacketsWithin(c, s.(cwnd := U32(s.cwnd + MSS)), now, b + MSS);
    } else {
      var t := s.(dupacks := (s.dupacks + 1) % 0x1_0000);
      var half := Max(s.cwnd / 2, MSS * 2);
      WrapsDown(half + 3 * MSS);
      SendPacketsWithin(c, t, now, b + MSS);
      SentNone(s.lastAcked, b + MSS);
      RetransmitWithin(t.(drops := s.drops + 1, ssthresh := half, cwnd := U32(half + 3 * MSS),
                          phase := FastRecov, recoverSeq := s.highestSent), now, b + MSS);
    }
  }

  lemma NewAckActive(c: Config, s: State, ackno: nat, now: nat)
    requires Active(s) && s.ssthresh > 0
    ensures NewAck(c, s, ackno, now).s.phase != Finish
  {
    hide U32, SendCount, Inflate;
    InflateFrame(s.(timeout := if ackno == s.highestSent then 0 else now + s.rto,
                    lastAcked := ackno, dupacks := 0));
  }

  lemma OnAckActive(c: Config, s: State, ackno: nat, ts: nat, now: nat, b: nat)
    requires SenderOk(c, s) && Active(s) && Within(s, b) && b >= 5 * MSS
    requires !FlowDone(c, ackno, now) && ackno >= s.lastAcked
    ensures var o := OnAck(c, s, ackno, ts, now);
            && Within(o.s, b + MSS) && SentWithin(o.sent, o.s.lastAcked, b + MSS)
            && o.s.lastAcked >= s.lastAcked && o.s.phase != Finish
  {
    hide U64, NewAck, DupAck, UpdateRtt, SentWithin;
    UpdateRttOk(c, s, U64(now - ts));
    var t := UpdateRtt(s, U64(now - ts));
    if ackno > s.lastAcked {
      NewAckWithin(c, t, ackno, now, b);
      NewAckActive(c, t, ackno, now);
    } else {
      DupAckWithin(c, t, now, b);
      DupAckOk(c, t, now);
    }
  }

  lemma OnAckWithin(c: Config, s: State, ackno: nat, ts: nat, now: nat, b: nat)
    requires SenderOk(c, s) && s.phase != Idle && Within(s, b) && b >= 5 * MSS
    ensures var o := OnAck(c, s, ackno, ts, now);
            && Within(o.s, b + MSS) && SentWithin(o.sent, o.s.lastAcked, b + MSS)
            && o.s.lastAcked >= s.lastAcked
            && (o.s.phase == Finish ==> o.s.lastAcked == s.lastAcked && o.s.highestSent == s.highestSent)
  {
    hide U64, NewAck, DupAck, UpdateRtt, SentWithin;
    SentNone(s.lastAcked, b + MSS);
    if Active(s) && !FlowDone(c, ackno, now) && ackno >= s.lastAcked {
      OnAckActive(c, s, ackno, ts, now, b);
    }
  }

  // ----- whole runs -----------------------------------------------------------------

  /** The sender, and every packet ever sent, lie within `b` bytes of what is acknowledged. */
  ghost predicate SystemWithin(y: System, b: nat) {
    && Within(y.src, b)
    && y.src.lastAcked <= y.src.highestSent
    && forall d :: d in y.data ==> d.seqno + MSS <= y.src.lastAcked + b + 1
  }

  /** No acknowledgement in the network is further ahead than the packets were. */
  lemma AckWithin(c: Config, y: System, a: Ack, b: nat)
    requires Safe(c, y) && SystemWithin(y, b) && a in y.acks
    ensures a.ackno <= y.src.lastAcked + b
  {
    hide SenderOk, FirstByte;
    Sink.AckIsLongestPrefix(y.sink);
    var m := y.sink.cumulativeAck / MSS;
    if m > 0 {
      assert Sink.Has(y.sink, m - 1);
      assert WasSent(y, m - 1);
    }
  }

  /** The next event has room in the 32-bit fields. */
  lemma WithinIsRoomy(c: Config, y: System, e: Event, b: nat)
    requires Safe(c, y) && Enabled(y, e) && SystemWithin(y, b) && b + MSS < TWO32
    ensures Roomy(c, y.src, e)
  {
    hide Safe;
    if e.DeliverAck? {
      AckWithin(c, y, e.a, b);
    }
  }

  lemma DataWithin(y: System, sent: seq<nat>, at: nat, last: nat, b: nat)
    requires forall d :: d in y.data ==> d.seqno + MSS <= y.src.lastAcked + b + 1
    requires SentWithin(sent, last, b) && last >= y.src.lastAcked
    ensures forall d :: d in y.data + Stamped(sent, at) ==> d.seqno + MSS <= last + b + 1
  {}

  lemma FinishedTick(c: Config, s: State, now: nat)
    requires s.phase == Finish
    ensures OnTick(c, s, now) == Out(s, [])
  {}

  lemma NextWithin(c: Config, y: System, e: Event, b: nat)
    requires Safe(c, y) && Enabled(y, e) && SystemWithin(y, b) && b >= 5 * MSS && y.src.ssthresh > 0
    ensures Next(c, y, e).src.lastAcked <= Next(c, y, e).src.highestSent ==>
              SystemWithin(Next(c, y, e), if e.DeliverAck? then b + MSS else b)
  {
    hide OnTick, OnAck, Stamped, SentWithin, Sink.Process, Sink.Valid, WasSent;
    match e {
      case Tick(at) =>
        var o := OnTick(c, y.src, at);
        OnTickWithin(c, y.src, at, b);
        OnTickOk(c, y.src, at);
        DataWithin(y, o.sent, at, y.src.lastAcked, b);
        if y.src.phase == Finish {
          FinishedTick(c, y.src, at);
        }
      case DeliverData(d, at) =>
      case DeliverAck(a, at) =>
        var o := OnAck(c, y.src, a.ackno, a.ts, at);
        OnAckWithin(c, y.src, a.ackno, a.ts, at, b);
        OnAckOk(c, y.src, a.ackno, a.ts, at);
        DataWithin(y, o.sent, at, o.s.lastAcked, b + MSS);
    }
  }

  lemma StartWithin()
    ensures SystemWithin(Start(), 5 * MSS)
  {}

  /** Until `MAX_ACKS` acknowledgements have been delivered, no 32-bit field overflows,
      whatever the flow size, the losses and the delays. */
  lemma {:induction false} ShortRunsAreRoomy(c: Config, tr: seq<System>, es: seq<Event>, n: nat)
    requires IsRun(c, tr, es) && n <= |es| && AckCount(es, n) <= MAX_ACKS
    ensures RoomyRun(c, tr, es, n)
    ensures SystemWithin(tr[n], (AckCount(es, n) + 5) * MSS)
  {
    hide Next, SystemWithin, Safe, Live, Roomy, Enabled;
    if n == 0 {
      StartWithin();
    } else {
      ShortRunsAreRoomy(c, tr, es, n - 1);
      RunSafe(c, tr, es, n - 1);
      var y, e, b := tr[n - 1], es[n - 1], (AckCount(es, n - 1) + 5) * MSS;
      WithinIsRoomy(c, y, e, b);
      RunBehind(c, tr, es, n);
      NextSafe(c, y, e);
      NextWithin(c, y, e, b);
    }
  }

  /** The sender never stalls on a short run: its timer is armed after every event. */
  lemma NeverStalls(c: Config, tr: seq<System>, es: seq<Event>, n: nat)
    requires IsRun(c, tr, es) && n <= |es| && AckCount(es, n) <= MAX_ACKS
    ensures Live(tr[n].src)
  {
    ShortRunsAreRoomy(c, tr, es, n);
    RunLive(c, tr, es, n);
  }

  /** On a short run the window is usable throughout exactly when no event is a collapsing exit. */
  lemma WindowKeptIff(c: Config, tr: seq<System>, es: seq<Event>, n: nat)
    requires IsRun(c, tr, es) && n <= |es| && AckCount(es, n) <= MAX_ACKS
    ensures (forall k :: 0 <= k <= n ==> Usable(tr[k].src))
            <==> (forall k :: 0 <= k < n ==> !Collapses(c, tr, es, k))
  {
    ShortRunsAreRoomy(c, tr, es, n);
    WindowKeptExactly(c, tr, es, n);
  }

  /** A short run of a sized flow can always be continued to the finish. */
  lemma ShortRunsCanFinish(c: Config, tr: seq<System>, es: seq<Event>)
    returns (tr': seq<System>, es': seq<Event>)
    requires IsRun(c, tr, es) && AckCount(es, |es|) <= MAX_ACKS && c.flowsize > 0
    ensures IsRun(c, tr', es') && es <= es' && tr <= tr' && tr'[|es'|].src.phase == Finish
  {
    NeverStalls(c, tr, es, |es|);
    tr', es' := CanFinish(c, tr, es);
  }
}

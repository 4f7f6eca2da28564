/** The loops of the DPDK server and client over their per-flow arrays, tied to
    `SlidingWindowSpec`. A two-dimensional C array is one block of memory, row by row. */
module SlidingWindow {
  import opened SlidingWindowSpec
  import opened Arithmetic

  /** Rows of a two-dimensional array do not overlap. */
  lemma SlotsApart(f: nat, g: nat)
    requires f != g
    ensures (f + 1) * BUF_SIZE <= g * BUF_SIZE || (g + 1) * BUF_SIZE <= f * BUF_SIZE
  {}

  class LabServer {
    const seqbuf: array<nat>          // [MAX_FLOW_NUM][BUF_SIZE]
    const nxtPktExpcd: array<nat>
    const lastPktRecvd: array<nat>
    const sameAck: array<nat>

    ghost predicate Shaped()
      reads this
    {
      && seqbuf.Length == MAX_FLOW_NUM * BUF_SIZE
      && nxtPktExpcd.Length == lastPktRecvd.Length == sameAck.Length == MAX_FLOW_NUM
      && seqbuf != nxtPktExpcd && seqbuf != lastPktRecvd && seqbuf != sameAck
      && nxtPktExpcd != lastPktRecvd && nxtPktExpcd != sameAck && lastPktRecvd != sameAck
    }

    ghost function Flow(fid: nat): Server
      requires Shaped() && fid < MAX_FLOW_NUM
      reads this, seqbuf, nxtPktExpcd, lastPktRecvd, sameAck
    {
      Server(seqbuf[fid * BUF_SIZE..(fid + 1) * BUF_SIZE], nxtPktExpcd[fid], lastPktRecvd[fid], sameAck[fid])
    }

    ghost predicate Valid()
      reads this, seqbuf, nxtPktExpcd, lastPktRecvd, sameAck
    {
      Shaped() && forall f :: 0 <= f < MAX_FLOW_NUM ==> RingOk(Flow(f))
    }

    constructor ()
      ensures Valid() && fresh(seqbuf) && fresh(nxtPktExpcd) && fresh(lastPktRecvd) && fresh(sameAck)
      ensures seqbuf.Length == 8 * 128 && nxtPktExpcd.Length == 8
      ensures forall f :: 0 <= f < MAX_FLOW_NUM ==> Flow(f) == InitServer()
    {
      hide RingOk;
      seqbuf := new nat[MAX_FLOW_NUM * BUF_SIZE](_ => 0);
      nxtPktExpcd := new nat[MAX_FLOW_NUM](_ => 1);
      lastPktRecvd := new nat[MAX_FLOW_NUM](_ => 0);
      sameAck := new nat[MAX_FLOW_NUM](_ => 0);
      new;
      InitServerOk();
      forall f | 0 <= f < MAX_FLOW_NUM ensures Flow(f) == InitServer() {
        assert Flow(f).ring == InitServer().ring;
      }
    }

    /** Put one received packet into its flow's ring. */
    method RecordPacket(fid: nat, n: nat)
      requires Valid() && fid < MAX_FLOW_NUM
      modifies seqbuf, lastPktRecvd
      ensures Valid() && Flow(fid) == Record(old(Flow(fid)), n)
      ensures forall f :: 0 <= f < MAX_FLOW_NUM && f != fid ==> Flow(f) == old(Flow(f))
    {
      ghost var was := Flow(fid);
      RecordOk(was, n);
      if n >= nxtPktExpcd[fid] {
        seqbuf[fid * BUF_SIZE + (n - 1) % BUF_SIZE] := n;
      }
      if n > lastPktRecvd[fid] {
        lastPktRecvd[fid] := n;
      }
      assert Flow(fid).ring == Record(was, n).ring;
      forall f | 0 <= f < MAX_FLOW_NUM && f != fid ensures Flow(f) == old(Flow(f)) {
        assert Flow(f).ring == old(Flow(f)).ring;
      }
    }

    /** Move the next expected number past everything the ring holds contiguously. */
    method AdvanceFlow(fid: nat)
      requires Valid() && fid < MAX_FLOW_NUM
      modifies nxtPktExpcd
      ensures Valid() && Flow(fid) == old(Flow(fid)).(nxt := Contiguous(old(Flow(fid))))
      ensures forall f :: 0 <= f < MAX_FLOW_NUM && f != fid ==> nxtPktExpcd[f] == old(nxtPktExpcd[f])
    {
      ghost var was := Flow(fid);
      var nxt := nxtPktExpcd[fid];
      while seqbuf[fid * BUF_SIZE + (nxt - 1) % BUF_SIZE] == nxt
        invariant was.nxt <= nxt && RingOk(was.(nxt := nxt))
        invariant Contiguous(was.(nxt := nxt)) == Contiguous(was)
        decreases was.lastRecvd + 1 - nxt
      {
        assert was.ring[Slot(nxt)] == nxt;
        nxt := nxt + 1;
      }
      assert was.ring[Slot(nxt)] != nxt;
      nxtPktExpcd[fid] := nxt;
      forall f | 0 <= f < MAX_FLOW_NUM && f != fid ensures RingOk(Flow(f)) {
        assert Flow(f) == old(Flow(f));
      }
      assert Flow(fid) == was.(nxt := nxt);
    }

    /** Acknowledge, after counting a round without progress and skipping on the tenth. */
    method RespondFlow(fid: nat) returns (ack: nat)
      requires Valid() && fid < MAX_FLOW_NUM
      modifies nxtPktExpcd, lastPktRecvd, sameAck
      ensures Valid() && Flow(fid) == Respond(old(Flow(fid)))
      ensures forall f :: 0 <= f < MAX_FLOW_NUM && f != fid ==> Flow(f) == old(Flow(f))
      ensures ack == Flow(fid).nxt - 1
    {
      hide Contiguous, RingOk, Slot;
      NextPositive(Flow(fid));
      var lastNpe := nxtPktExpcd[fid];
      AdvanceFlow(fid);
      if nxtPktExpcd[fid] == lastNpe {
        sameAck[fid] := (sameAck[fid] + 1) % 256;
      }
      if sameAck[fid] >= 10 {
        nxtPktExpcd[fid] := nxtPktExpcd[fid] + 1;
        sameAck[fid] := 0;
        if nxtPktExpcd[fid] - 1 > lastPktRecvd[fid] {
          lastPktRecvd[fid] := nxtPktExpcd[fid] - 1;
        }
      }
      ack := nxtPktExpcd[fid] - 1;
      forall f | 0 <= f < MAX_FLOW_NUM && f != fid ensures Flow(f) == old(Flow(f)) {
        assert Flow(f).ring == old(Flow(f)).ring;
      }
      RespondOk(old(Flow(fid)));
      assert Flow(fid) == Respond(old(Flow(fid)));
    }

    /** Record a burst; `rcvd` flags the flows that received something. */
    method RecordBurst(burst: seq<FlowPacket>) returns (rcvd: seq<bool>)
      requires Valid() && forall i :: 0 <= i < |burst| ==> burst[i].fid < MAX_FLOW_NUM
      modifies seqbuf, lastPktRecvd
      ensures Valid() && |rcvd| == MAX_FLOW_NUM
      ensures forall f :: 0 <= f < MAX_FLOW_NUM ==>
                && rcvd[f] == (SeqsOf(burst, f) != [])
                && RingOk(old(Flow(f))) && Flow(f) == RecordAll(old(Flow(f)), SeqsOf(burst, f))
    {
      hide RecordAll, RingOk, SeqsOf, Record;
      rcvd := seq(MAX_FLOW_NUM, _ => false);
      forall f | 0 <= f < MAX_FLOW_NUM ensures RecordAll(Flow(f), []) == Flow(f) {
        RecordNone(Flow(f));
      }
      assert burst[..0] == [];
      NoSeqs();
      var i := 0;
      while i < |burst|
        invariant 0 <= i <= |burst| && Valid() && |rcvd| == MAX_FLOW_NUM
        invariant forall f :: 0 <= f < MAX_FLOW_NUM ==>
          && rcvd[f] == (SeqsOf(burst[..i], f) != [])
          && RingOk(old(Flow(f))) && Flow(f) == RecordAll(old(Flow(f)), SeqsOf(burst[..i], f))
      {
        forall f | 0 <= f < MAX_FLOW_NUM
          ensures SeqsOf(burst[..i + 1], f)
                  == if burst[i].fid == f then SeqsOf(burst[..i], f) + [burst[i].seqno] else SeqsOf(burst[..i], f) {
          SeqsPush(burst, i, f);
        }
        RecordMore(old(Flow(burst[i].fid)), SeqsOf(burst[..i], burst[i].fid), burst[i].seqno);
        rcvd := rcvd[burst[i].fid := true];
        RecordPacket(burst[i].fid, burst[i].seqno);
        i := i + 1;
      }
      assert burst[..i] == burst;
    }

    /** Acknowledge every flow that received something. */
    method RespondAll(rcvd: seq<bool>) returns (acks: seq<FlowPacket>)
      requires Valid() && |rcvd| == MAX_FLOW_NUM
      modifies nxtPktExpcd, lastPktRecvd, sameAck
      ensures Valid()
      ensures forall f :: 0 <= f < MAX_FLOW_NUM ==>
                Flow(f) == if rcvd[f] then Respond(old(Flow(f))) else old(Flow(f))
      ensures forall p :: p in acks <==>
                p.fid < MAX_FLOW_NUM && rcvd[p.fid] && p.seqno == Flow(p.fid).nxt - 1
      ensures forall i, j :: 0 <= i < j < |acks| ==> acks[i].fid < acks[j].fid
    {
      hide Respond, RingOk;
      acks := [];
      var fid := 0;
      while fid < MAX_FLOW_NUM
        invariant 0 <= fid <= MAX_FLOW_NUM && Valid()
        invariant forall f :: fid <= f < MAX_FLOW_NUM ==> Flow(f) == old(Flow(f))
        invariant forall f :: 0 <= f < fid ==>
          Flow(f) == if rcvd[f] then Respond(old(Flow(f))) else old(Flow(f))
        invariant forall p :: p in acks <==>
          p.fid < fid && rcvd[p.fid] && p.seqno == Flow(p.fid).nxt - 1
        invariant forall i, j :: 0 <= i < j < |acks| ==> acks[i].fid < acks[j].fid
      {
        if rcvd[fid] {
          var ack := RespondFlow(fid);
          acks := acks + [FlowPacket(fid, ack)];
        }
        fid := fid + 1;
      }
    }

    /** One pass of the receive loop over a burst of data packets. `acks` pairs each flow
        that received something with its acknowledgement number. */
    method ServeBurst(burst: seq<FlowPacket>) returns (acks: seq<FlowPacket>)
      requires Valid() && forall i :: 0 <= i < |burst| ==> burst[i].fid < MAX_FLOW_NUM
      modifies seqbuf, nxtPktExpcd, lastPktRecvd, sameAck
      ensures Valid()
      ensures forall f :: 0 <= f < MAX_FLOW_NUM ==>
                Flow(f) == if SeqsOf(burst, f) == [] then old(Flow(f))
                           else Round(old(Flow(f)), SeqsOf(burst, f))
      ensures forall p :: p in acks <==>
                p.fid < MAX_FLOW_NUM && SeqsOf(burst, p.fid) != [] && p.seqno == Flow(p.fid).nxt - 1
      ensures forall i, j :: 0 <= i < j < |acks| ==> acks[i].fid < acks[j].fid
    {
      var rcvd := RecordBurst(burst);
      acks := RespondAll(rcvd);
    }
  }

  class LabClient {
    const total: nat                  // NUM_PING
    const flowNum: nat
    const lastPktAcked: array<nat>
    const lastPktSent: array<nat>
    const lastPktWritten: array<nat>
    const rcvWnd: array<nat>
    const timeSent: array<nat>        // [MAX_FLOW_NUM][BUF_SIZE]

    ghost predicate Shaped()
      reads this
    {
      && flowNum <= MAX_FLOW_NUM
      && lastPktAcked.Length == lastPktSent.Length == lastPktWritten.Length == rcvWnd.Length == MAX_FLOW_NUM
      && timeSent.Length == MAX_FLOW_NUM * BUF_SIZE
      && lastPktAcked != lastPktSent && lastPktAcked != lastPktWritten && lastPktAcked != rcvWnd
      && lastPktSent != lastPktWritten && lastPktSent != rcvWnd && lastPktWritten != rcvWnd
      && timeSent != lastPktAcked && timeSent != lastPktSent && timeSent != lastPktWritten && timeSent != rcvWnd
    }

    ghost function Flow(fid: nat): Client
      requires Shaped() && fid < MAX_FLOW_NUM
      reads this, lastPktAcked, lastPktSent, lastPktWritten, rcvWnd
    {
      Client(lastPktAcked[fid], lastPktSent[fid], lastPktWritten[fid], rcvWnd[fid])
    }

    ghost function Times(fid: nat): (t: seq<nat>)
      requires Shaped() && fid < MAX_FLOW_NUM
      reads this, timeSent
      ensures |t| == BUF_SIZE
    {
      timeSent[fid * BUF_SIZE..(fid + 1) * BUF_SIZE]
    }

    /** The window never runs ahead of the send buffer. */
    ghost predicate Valid()
      reads this, lastPktAcked, lastPktSent, lastPktWritten, rcvWnd
    {
      Shaped() && forall f :: 0 <= f < MAX_FLOW_NUM ==>
        lastPktAcked[f] <= lastPktSent[f] && lastPktWritten[f] <= lastPktAcked[f] + BUF_SIZE
    }

    constructor (total: nat, flowNum: nat)
      requires flowNum <= MAX_FLOW_NUM
      ensures Valid() && this.total == total && this.flowNum == flowNum
      ensures fresh(lastPktAcked) && fresh(lastPktSent) && fresh(lastPktWritten)
      ensures fresh(rcvWnd) && fresh(timeSent) && timeSent.Length == 8 * 128
      ensures forall f :: 0 <= f < MAX_FLOW_NUM ==> Flow(f) == InitClient() && Times(f) == InitTimes()
      ensures forall f, k :: 0 <= f < MAX_FLOW_NUM && 0 <= k < BUF_SIZE ==> Times(f)[k] == 0x8000_0000_0000_0000
    {
      this.total, this.flowNum := total, flowNum;
      lastPktAcked := new nat[MAX_FLOW_NUM](_ => 0);
      lastPktSent := new nat[MAX_FLOW_NUM](_ => 0);
      lastPktWritten := new nat[MAX_FLOW_NUM](_ => 0);
      rcvWnd := new nat[MAX_FLOW_NUM](_ => BUF_SIZE);
      timeSent := new nat[MAX_FLOW_NUM * BUF_SIZE](_ => TWO64 / 2);
      new;
      forall f | 0 <= f < MAX_FLOW_NUM ensures Times(f) == InitTimes() {
        assert forall k :: 0 <= k < BUF_SIZE ==> Times(f)[k] == InitTimes()[k];
      }
    }

    /** The main loop repeats while some flow has packets to be acknowledged. */
    method Unfinished() returns (rpt: bool)
      requires Valid()
      ensures rpt <==> exists f :: 0 <= f < flowNum && lastPktAcked[f] < total
    {
      rpt := false;
      for fid := 0 to flowNum
        invariant rpt <==> exists f :: 0 <= f < fid && lastPktAcked[f] < total
      {
        if lastPktAcked[fid] < total {
          rpt := true;
        }
      }
    }

    /** Note when packet `n` of the flow was sent. */
    method StampPacket(fid: nat, n: nat, now: nat)
      requires Shaped() && fid < MAX_FLOW_NUM && n >= 1
      modifies timeSent
      ensures Times(fid) == old(Times(fid))[Slot(n) := now]
      ensures forall f :: 0 <= f < MAX_FLOW_NUM && f != fid ==> Times(f) == old(Times(f))
    {
      hide Slot;
      timeSent[fid * BUF_SIZE + Slot(n)] := now;
      assert Times(fid) == old(Times(fid))[Slot(n) := now];
      forall f | 0 <= f < MAX_FLOW_NUM && f != fid ensures Times(f) == old(Times(f)) {
        SlotsApart(f, fid);
        assert forall k :: 0 <= k < BUF_SIZE ==> Times(f)[k] == old(Times(f))[k];
      }
    }

    /** Note when each of the packets `ns` was sent. */
    method StampPackets(fid: nat, ns: seq<nat>, stamp: nat -> nat)
      requires Shaped() && fid < MAX_FLOW_NUM && forall i :: 0 <= i < |ns| ==> ns[i] >= 1
      modifies timeSent
      ensures Times(fid) == Restamp(old(Times(fid)), ns, stamp)
      ensures forall f :: 0 <= f < MAX_FLOW_NUM && f != fid ==> Times(f) == old(Times(f))
    {
      hide Slot;
      var i := 0;
      while i < |ns|
        invariant 0 <= i <= |ns|
        invariant Times(fid) == Restamp(old(Times(fid)), ns[..i], stamp)
        invariant forall f :: 0 <= f < MAX_FLOW_NUM && f != fid ==> Times(f) == old(Times(f))
      {
        assert ns[..i + 1][..i] == ns[..i];
        StampPacket(fid, ns[i], stamp(ns[i]));
        i := i + 1;
      }
      assert ns[..i] == ns;
    }

    /** The unacknowledged packets whose timer has expired. */
    method CollectDue(fid: nat, read: nat -> nat) returns (sent: seq<nat>)
      requires Valid() && fid < MAX_FLOW_NUM
      ensures sent == Resend(Flow(fid), Due(Flow(fid), Times(fid), read), Flow(fid).acked + 1)
      ensures |sent| <= BUF_SIZE && forall i :: 0 <= i < |sent| ==> sent[i] >= 1
    {
      hide Slot, Elapsed, Resend;
      ghost var f := Flow(fid);
      ghost var due := Due(f, Times(fid), read);
      sent := [];
      var i := lastPktAcked[fid] + 1;
      while i <= lastPktSent[fid] && i <= lastPktWritten[fid]
        invariant f.acked + 1 <= i <= Max(f.acked, f.written) + 1
        invariant |sent| < i - f.acked && forall j :: 0 <= j < |sent| ==> sent[j] >= 1
        invariant sent + Resend(f, due, i) == Resend(f, due, f.acked + 1)
        decreases f.sent + 1 - i
      {
        ResendStep(f, due, i);
        assert timeSent[fid * BUF_SIZE + Slot(i)] == Times(fid)[Slot(i)];
        if Elapsed(read(i), timeSent[fid * BUF_SIZE + Slot(i)]) > TIMEOUT_NS {
          sent := sent + [i];
        }
        i := i + 1;
      }
      ResendDone(f, due, i);
    }

    /** Retransmit what is unacknowledged and overdue, and restart its timers; the packets fit
        the send array. The clock shows `read(n)` when the loop looks at packet `n`, and
        `stamp(n)` when it restarts its timer. */
    method RetransmitFlow(fid: nat, read: nat -> nat, stamp: nat -> nat) returns (sent: seq<nat>)
      requires Valid() && fid < MAX_FLOW_NUM
      modifies timeSent
      ensures Valid() && sent == Resend(Flow(fid), Due(Flow(fid), old(Times(fid)), read), Flow(fid).acked + 1)
      ensures |sent| <= BUF_SIZE && forall i :: 0 <= i < |sent| ==> sent[i] >= 1
      ensures Times(fid) == Restamp(old(Times(fid)), sent, stamp)
      ensures forall f :: 0 <= f < MAX_FLOW_NUM && f != fid ==> Times(f) == old(Times(f))
    {
      hide Resend, Due, Restamp;
      sent := CollectDue(fid, read);
      StampPackets(fid, sent, stamp);
    }

    method PopulateAll()
      requires Valid()
      modifies lastPktWritten
      ensures Valid()
      ensures forall f :: 0 <= f < MAX_FLOW_NUM ==>
                Flow(f) == if f < flowNum then Populate(old(Flow(f)), total) else old(Flow(f))
    {
      for fid := 0 to flowNum
        invariant Valid()
        invariant forall f :: 0 <= f < MAX_FLOW_NUM ==>
          Flow(f) == if f < fid then Populate(old(Flow(f)), total) else old(Flow(f))
      {
        lastPktWritten[fid] := if total < lastPktAcked[fid] + BUF_SIZE then total
                               else lastPktAcked[fid] + BUF_SIZE;
      }
    }

    method SendNew(fid: nat) returns (sent: seq<nat>)
      requires Valid() && fid < MAX_FLOW_NUM
      modifies lastPktSent
      ensures Valid() && Flow(fid) == Send(old(Flow(fid)))
      ensures sent == Sending(old(Flow(fid))) && |sent| <= BUF_SIZE
      ensures forall f :: 0 <= f < MAX_FLOW_NUM && f != fid ==> Flow(f) == old(Flow(f))
    {
      ghost var s := Flow(fid);
      sent := [];
      while lastPktSent[fid] - lastPktAcked[fid] < rcvWnd[fid] && lastPktSent[fid] < lastPktWritten[fid]
        invariant Flow(fid) == s.(sent := s.sent + |sent|)
        invariant sent == seq(|sent|, i => s.sent + 1 + i)
        invariant |sent| <= SendCount(s) && Valid()
        invariant forall f :: 0 <= f < MAX_FLOW_NUM && f != fid ==> Flow(f) == old(Flow(f))
        decreases SendCount(s) - |sent|
      {
        sent := sent + [lastPktSent[fid] + 1];
        lastPktSent[fid] := lastPktSent[fid] + 1;
      }
    }

    /** Send new packets while the receiver's window and the buffer allow, and start their timers. */
    method SendFlow(fid: nat, stamp: nat -> nat) returns (sent: seq<nat>)
      requires Valid() && fid < MAX_FLOW_NUM
      modifies lastPktSent, timeSent
      ensures Valid() && Flow(fid) == Send(old(Flow(fid)))
      ensures sent == Sending(old(Flow(fid))) && |sent| <= BUF_SIZE
      ensures Times(fid) == Restamp(old(Times(fid)), sent, stamp)
      ensures forall f :: 0 <= f < MAX_FLOW_NUM && f != fid ==>
                Flow(f) == old(Flow(f)) && Times(f) == old(Times(f))
    {
      sent := SendNew(fid);
      StampPackets(fid, sent, stamp);
    }

    /** An acknowledgement of flow `fid`, with the window it advertises. */
    method ReceiveAck(fid: nat, ack: nat, wnd: nat)
      requires Valid() && fid < MAX_FLOW_NUM
      modifies lastPktAcked, lastPktSent, rcvWnd
      ensures Valid() && Flow(fid) == OnAck(old(Flow(fid)), ack, wnd)
      ensures forall f :: 0 <= f < MAX_FLOW_NUM && f != fid ==> Flow(f) == old(Flow(f))
    {
      rcvWnd[fid] := wnd;
      if ack > lastPktAcked[fid] {
        lastPktAcked[fid] := ack;
        if lastPktAcked[fid] > lastPktSent[fid] {
          lastPktSent[fid] := lastPktAcked[fid];
        }
      }
    }
  }
}

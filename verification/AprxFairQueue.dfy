/** The `AprxFairQueue` class: a circular array of FIFO slots with a cursor and an
    array of sketch rows, both updated in place, tied to `AprxFairQueueSpec`. */
module AprxFairQueue {
  import opened Packets
  import opened Arithmetic
  import opened Htsim
  import Spec = AprxFairQueueSpec

  const ECN_MARK_ROUND: nat := 8

  /** The cursor is the round number modulo the number of slots. */
  predicate Cursor(q: nat, n: nat, m: nat) {
    m >= 1 && q == n % m
  }

  lemma NextCursor(p: nat, n: nat, m: nat)
    requires Cursor(p, n, m)
    ensures Cursor(if p + 1 == m then 0 else p + 1, n + 1, m)
  {
    var q, r := n / m, n % m;
    assert n == q * m + r;
    if r + 1 == m {
      ModUnique(n + 1, m, q + 1, 0);
    } else {
      ModUnique(n + 1, m, q, r + 1);
    }
  }

  /** Moving a cursor one place on turns the calendar by one. */
  lemma StepCalendar(slots: seq<seq<Packet>>, q: nat)
    requires q < |slots|
    ensures var cal, next := slots[q..] + slots[..q], if q + 1 == |slots| then 0 else q + 1;
            && cal[0] == slots[q]
            && slots[next..] + slots[..next] == cal[1..] + cal[..1]
  {}

  lemma RotateMore(s: Spec.State, k: nat)
    requires k < |s.cal|
    ensures Spec.Rotate(s, k).cal[0] == s.cal[k]
    ensures Spec.Rotate(s, k + 1) == Spec.Rotate(Spec.Rotate(s, k), 1)
    ensures Spec.Rotate(s, 0) == s
  {}

  class AprxFairQueue {
    const cfg: Spec.Config
    const bitrate: nat
    const packets: array<seq<Packet>>   // a slot's list, oldest packet first
    const queueSizes: array<nat>
    const sketch: array<seq<nat>>       // one row of buckets per hash function
    var currQ: nat
    var nRounds: nat
    var nPackets: nat
    var queuesize: nat

    ghost predicate Shaped()
      reads this, packets, queueSizes, sketch
    {
      && Spec.Valid(cfg)
      && packets.Length == queueSizes.Length == cfg.nQueue
      && Spec.SketchShape(cfg, sketch[..])
      && currQ < cfg.nQueue && Cursor(currQ, nRounds, cfg.nQueue)
      && forall q :: 0 <= q < cfg.nQueue ==> queueSizes[q] == Bytes(packets[q])
    }

    /** The calendar starts at the cursor. */
    ghost function View(): Spec.State
      requires Shaped()
      reads this, packets, queueSizes, sketch
    {
      Spec.State(packets[currQ..] + packets[..currQ], sketch[..], nRounds, nPackets, queuesize)
    }

    ghost predicate Valid()
      reads this, packets, queueSizes, sketch
    {
      Shaped() && Spec.Inv(cfg, View())
    }

    constructor (config: Spec.Config, bitrate: nat)
      requires Spec.Valid(config)
      ensures Valid() && cfg == config && this.bitrate == bitrate
      ensures fresh(packets) && fresh(queueSizes) && fresh(sketch)
      ensures View() == Spec.Init(config)
    {
      cfg := config;
      this.bitrate := bitrate;
      packets := new seq<Packet>[config.nQueue](_ => []);
      queueSizes := new nat[config.nQueue](_ => 0);
      sketch := new seq<nat>[config.nHash](_ => seq(config.nBucket, _ => 0));
      currQ, nRounds, nPackets, queuesize := 0, 0, 0, 0;
      new;
      Spec.InitInv(cfg);
      assert View().sketch == Spec.Init(cfg).sketch;
      assert View().cal == Spec.Init(cfg).cal;
    }

    /** One turn of the scan: the next slot, one round later. */
    method NextSlot()
      requires Shaped()
      modifies this`currQ, this`nRounds
      ensures Shaped() && View() == Spec.Rotate(old(View()), 1)
    {
      NextCursor(currQ, nRounds, cfg.nQueue);
      StepCalendar(packets[..], currQ);
      currQ := currQ + 1;
      nRounds := nRounds + 1;
      if currQ == cfg.nQueue {
        currQ := 0;
      }
    }

    /** Advance the cursor to the first busy slot; `scheduled` is the packet then in service. */
    method BeginService() returns (scheduled: Option<Packet>)
      requires Shaped() && Spec.Core(cfg, View())
      modifies this`currQ, this`nRounds
      ensures Shaped() && View() == Spec.Begin(old(View()))
      ensures Valid() && scheduled == Spec.InService(View())
    {
      hide Spec.Charged, Flat, Spec.SketchShape;
      ghost var s := View();
      Spec.BeginInv(cfg, s);
      scheduled := None;
      if nPackets > 0 {
        Spec.ScanStops(s);
        ghost var steps := 0;
        RotateMore(s, 0);
        while packets[currQ] == []
          invariant Shaped() && steps <= Spec.FirstBusy(s.cal) < cfg.nQueue
          invariant View() == Spec.Rotate(s, steps) && s.cal[steps] == packets[currQ]
          decreases cfg.nQueue - steps
        {
          RotateMore(s, steps);
          NextSlot();
          steps := steps + 1;
          RotateMore(s, steps);
        }
        scheduled := Some(packets[currQ][0]);
      }
    }

    /** The flow's smallest cell over all rows. */
    method ReadSketch(flow: nat) returns (bytes: nat)
      requires Shaped()
      ensures bytes == Spec.Estimate(cfg, sketch[..], flow)
    {
      bytes := sketch[0][Spec.Bucket(cfg, 0, flow)];
      var i := 1;
      while i < cfg.nHash
        invariant 1 <= i <= cfg.nHash
        invariant bytes == Spec.MinCell(cfg, sketch[..], flow, i)
      {
        var index := Spec.Bucket(cfg, i, flow);
        if sketch[i][index] < bytes {
          bytes := sketch[i][index];
        }
        i := i + 1;
      }
    }

    /** Raise the flow's cell in every row to at least `bytes`. */
    method UpdateSketch(flow: nat, bytes: nat)
      requires Shaped()
      modifies sketch
      ensures Shaped()
      ensures sketch[..] == Spec.Raise(cfg, old(sketch[..]), flow, bytes)
    {
      hide Cursor;
      ghost var sk := sketch[..];
      var i := 0;
      while i < cfg.nHash
        invariant 0 <= i <= cfg.nHash && Shaped()
        invariant forall r :: 0 <= r < cfg.nHash ==>
          sketch[r] == if r < i then Spec.Raise(cfg, sk, flow, bytes)[r] else sk[r]
      {
        var index := Spec.Bucket(cfg, i, flow);
        sketch[i] := sketch[i][index := Max(sketch[i][index], bytes)];
        i := i + 1;
      }
      assert sketch[..] == Spec.Raise(cfg, sk, flow, bytes);
    }

    /** Take the packet in service off its slot. */
    method TakeHead() returns (pkt: Packet)
      requires Valid() && nPackets > 0
      modifies this`queuesize, this`nPackets, packets, queueSizes
      ensures Some(pkt) == old(Spec.InService(View()))
      ensures Shaped() && Spec.Core(cfg, View())
      ensures old(queuesize) >= pkt.size && View() == Spec.Dequeue(old(View()))
    {
      hide Cursor, Spec.Estimate;
      ghost var s := View();
      Spec.DequeueCore(cfg, s);
      pkt := packets[currQ][0];
      assert Bytes(packets[currQ]) == pkt.size + Bytes(packets[currQ][1..]);
      packets[currQ] := packets[currQ][1..];
      queueSizes[currQ] := queueSizes[currQ] - pkt.size;
      queuesize := queuesize - pkt.size;
      nPackets := nPackets - 1;
      assert View().sketch == s.sketch;
      assert View().cal == Spec.Dequeue(s).cal;
    }

    /** `departed` is sent on, with an ECN mark exactly when `marked`: when its flow is charged 8
        rounds ahead, or the queue is beyond the threshold. */
    method CompleteService() returns (departed: Packet, marked: bool, scheduled: Option<Packet>)
      requires Valid() && nPackets > 0
      modifies this, packets, queueSizes
      ensures Valid() && View() == Spec.Complete(cfg, old(View()))
      ensures Some(departed) == old(Spec.InService(View()))
      ensures var charged := Spec.Estimate(cfg, View().sketch, departed.flow);
              && charged / cfg.bytesPerRound >= old(nRounds)
              && marked == (charged >= (old(nRounds) + 8) * cfg.bytesPerRound
                            || queuesize > DctcpThreshold(bitrate))
      ensures scheduled == Spec.InService(View())
    {
      hide Cursor, Spec.Charged, Spec.Estimate, Spec.SketchShape, Spec.FirstBusy, DctcpThreshold;
      ghost var s := View();
      Spec.HeadRound(cfg, s);
      departed := TakeHead();
      var bytes := ReadSketch(departed.flow);
      Spec.RoundsAhead(bytes, cfg.bytesPerRound, nRounds, ECN_MARK_ROUND);
      var flowRound := bytes / cfg.bytesPerRound;
      var ahead: nat := flowRound - nRounds;
      marked := ahead >= ECN_MARK_ROUND || queuesize > DctcpThreshold(bitrate);
      scheduled := BeginService();
    }

    /** Append to slot `outQ`, which is `k` slots after the cursor. */
    method Put(outQ: nat, ghost k: nat, pkt: Packet)
      requires Shaped() && k < cfg.nQueue
      requires outQ == if currQ + k < cfg.nQueue then currQ + k else currQ + k - cfg.nQueue
      modifies this`nPackets, this`queuesize, packets, queueSizes
      ensures Shaped()
      ensures var s := old(View());
              View() == s.(cal := s.cal[k := s.cal[k] + [pkt]], nPackets := s.nPackets + 1,
                           queuesize := s.queuesize + pkt.size)
    {
      hide Cursor;
      ghost var s := View();
      BytesConcat(packets[outQ], [pkt]);
      packets[outQ] := packets[outQ] + [pkt];
      queueSizes[outQ] := queueSizes[outQ] + pkt.size;
      queuesize := queuesize + pkt.size;
      nPackets := nPackets + 1;
      assert View().sketch == s.sketch;
      assert View().cal == s.cal[k := s.cal[k] + [pkt]];
    }

    /** Where an arrival of `flow` goes: slot `outQ`, charged from byte `charge`, unless its round
        is beyond the calendar. */
    method AssignSlot(flow: nat) returns (fits: bool, outQ: nat, charge: nat)
      requires Shaped()
      ensures var k := Spec.RoundOf(cfg, View(), flow) - nRounds;
              && fits == (k < cfg.nQueue)
              && (fits ==> outQ == (if currQ + k < cfg.nQueue then currQ + k else currQ + k - cfg.nQueue)
                           && charge == Spec.Charge(cfg, View(), flow))
    {
      hide Cursor, Spec.Estimate;
      charge := ReadSketch(flow);
      var flowRound := charge / cfg.bytesPerRound;
      outQ := currQ;
      DivBounds(charge, cfg.bytesPerRound);
      if flowRound <= nRounds {
        charge := Max(nRounds * cfg.bytesPerRound, charge);
      } else if flowRound - nRounds >= cfg.nQueue {
        return false, outQ, charge;
      } else {
        MulMonotone(nRounds, flowRound, cfg.bytesPerRound);
        outQ := currQ + (flowRound - nRounds);
        if outQ >= cfg.nQueue {
          outQ := outQ - cfg.nQueue;
        }
      }
      fits := true;
    }

    /** `accepted` is false when the packet is freed instead of queued. */
    method ReceivePacket(pkt: Packet) returns (accepted: bool, scheduled: Option<Packet>)
      requires Valid()
      modifies this, packets, queueSizes, sketch
      ensures Valid() && View() == Spec.Receive(cfg, old(View()), pkt)
      ensures accepted == Spec.Accepts(cfg, old(View()), pkt)
      ensures scheduled == if accepted && old(nPackets) == 0 then Spec.InService(View()) else None
    {
      hide Cursor, Spec.Charged, Flat, Spec.RoundOf, Spec.Charge, Spec.Raise, Spec.Rotate;
      ghost var s := View();
      Spec.ReceiveInv(cfg, s, pkt);
      Spec.EnqueueCore(cfg, s, pkt);
      scheduled := None;
      if queuesize + pkt.size > cfg.maxsize {
        accepted := false;
        return;
      }
      var queueWasEmpty := nPackets == 0;
      var outQ, charge;
      accepted, outQ, charge := AssignSlot(pkt.flow);
      if !accepted {
        return;
      }
      Spec.RoundNotPast(cfg, s, pkt.flow);
      Put(outQ, Spec.RoundOf(cfg, s, pkt.flow) - nRounds, pkt);
      UpdateSketch(pkt.flow, charge + pkt.size);
      assert View() == Spec.Enqueue(cfg, s, pkt);
      if queueWasEmpty {
        scheduled := BeginService();
      }
    }
  }
}

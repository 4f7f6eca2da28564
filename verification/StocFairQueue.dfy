/** The `StocFairQueue` class: per-sub-queue arrays and a round-robin list, updated in
    place, each method tied to `StocFairQueueSpec`. */
module StocFairQueue {
  import opened Packets
  import opened Htsim
  import Spec = StocFairQueueSpec

  class StocFairQueue {
    const cfg: Spec.Config
    const bitrate: nat
    const packets: array<seq<Packet>>   // a sub-queue's list, oldest packet first
    const credits: array<nat>
    const queueSizes: array<nat>
    const isActive: array<bool>
    var activeQ: seq<nat>
    var nPackets: nat
    var queuesize: nat

    ghost function View(): Spec.State
      reads this, packets, credits
    {
      Spec.State(packets[..], credits[..], activeQ, nPackets, queuesize)
    }

    /** The bookkeeping arrays agree with the lists. */
    ghost predicate Booked()
      reads this, packets, credits, queueSizes, isActive
    {
      && credits != queueSizes
      && packets.Length == credits.Length == queueSizes.Length == isActive.Length == cfg.nQueue
      && (forall q :: 0 <= q < cfg.nQueue ==> queueSizes[q] == Bytes(packets[q]))
      && (forall q :: 0 <= q < cfg.nQueue ==> isActive[q] == (q in activeQ))
    }

    ghost predicate Valid()
      reads this, packets, credits, queueSizes, isActive
    {
      Booked() && Spec.Inv(cfg, View())
    }

    constructor (config: Spec.Config, bitrate: nat)
      requires Spec.Valid(config)
      ensures Valid() && cfg == config && this.bitrate == bitrate
      ensures fresh(packets) && fresh(credits) && fresh(queueSizes) && fresh(isActive)
      ensures View() == Spec.Init(config)
    {
      hide Spec.Inv, Spec.Valid, Flat;
      cfg := config;
      this.bitrate := bitrate;
      packets := new seq<Packet>[config.nQueue](_ => []);
      credits := new nat[config.nQueue](_ => 0);
      queueSizes := new nat[config.nQueue](_ => 0);
      isActive := new bool[config.nQueue](_ => false);
      activeQ, nPackets, queuesize := [], 0, 0;
      new;
      Spec.InitInv(cfg);
      assert packets[..] == Spec.Init(cfg).subs && credits[..] == Spec.Init(cfg).credits;
    }

    /** Not enough credit: to the back of the list, with another quantum. */
    method BumpFront()
      requires Booked() && Spec.Shape(cfg, View()) && activeQ != []
      modifies this`activeQ, credits
      ensures Booked() && View() == Spec.Grant(cfg, old(View()))
    {
      Spec.GrantShape(cfg, View());
      var queue := activeQ[0];
      activeQ := activeQ[1..];
      activeQ := activeQ + [queue];
      credits[queue] := credits[queue] + cfg.quantum;
    }

    /** Rotate the round-robin list until its front can pay; `scheduled` is the packet then in service. */
    method BeginService() returns (scheduled: Option<Packet>)
      requires Booked() && Spec.Core(cfg, View())
      modifies this`activeQ, credits
      ensures Valid() && View() == Spec.Begin(cfg, old(View()))
      ensures scheduled == Spec.InService(View())
    {
      hide Flat, Bytes;
      scheduled := None;
      if nPackets > 0 {
        ghost var s := View();
        while credits[activeQ[0]] < packets[activeQ[0]][0].size
          invariant Booked() && Spec.Core(cfg, View()) && nPackets > 0
          invariant packets[..] == s.subs && nPackets == s.nPackets && queuesize == s.queuesize
          invariant Spec.Settle(cfg, View()) == Spec.Settle(cfg, s)
          decreases Spec.Deficit(View().subs, View().credits, |View().subs|)
        {
          Spec.GrantShape(cfg, View());
          Spec.GrantProgress(cfg, View());
          Spec.GrantCore(cfg, View());
          BumpFront();
        }
        scheduled := Some(packets[activeQ[0]][0]);
      }
    }

    /** Take the front sub-queue's first packet and its price. */
    method SpendHead() returns (pkt: Packet)
      requires Booked() && Spec.Shape(cfg, View()) && activeQ != [] && Spec.Covered(View())
      requires nPackets > 0 && queuesize >= Spec.HeadSize(View(), activeQ[0])
      modifies this`nPackets, this`queuesize, packets, credits, queueSizes
      ensures Booked() && pkt == old(packets[activeQ[0]])[0]
      ensures var s, q := old(View()), activeQ[0];
              View() == s.(subs := s.subs[q := s.subs[q][1..]], credits := s.credits[q := s.credits[q] - pkt.size],
                           nPackets := s.nPackets - 1, queuesize := s.queuesize - pkt.size)
    {
      hide Spec.Distinct;
      var queue := activeQ[0];
      pkt := packets[queue][0];
      packets[queue] := packets[queue][1..];
      credits[queue] := credits[queue] - pkt.size;
      queueSizes[queue] := queueSizes[queue] - pkt.size;
      queuesize := queuesize - pkt.size;
      nPackets := nPackets - 1;
    }

    /** Dequeue and book-keeping of a completion. */
    method TakeHead() returns (pkt: Packet)
      requires Valid() && nPackets > 0 && queuesize >= Spec.HeadSize(View(), activeQ[0])
      modifies this, packets, credits, queueSizes, isActive
      ensures Booked() && View() == Spec.Dequeue(cfg, old(View()))
      ensures Some(pkt) == old(Spec.InService(View()))
    {
      hide Flat, Bytes, Spec.Distinct, Spec.CreditsOk;
      Spec.DistinctTail(activeQ);
      var queue := activeQ[0];
      pkt := SpendHead();
      if packets[queue] == [] {
        isActive[queue] := false;
        activeQ := activeQ[1..];
        credits[queue] := 0;
      }
    }

    /** `departed` is sent on, with an ECN mark exactly when `marked`. */
    method CompleteService() returns (departed: Packet, marked: bool, scheduled: Option<Packet>)
      requires Valid() && nPackets > 0
      modifies this, packets, credits, queueSizes, isActive
      ensures Valid() && View() == Spec.Complete(cfg, old(View()))
      ensures Some(departed) == old(Spec.InService(View()))
      ensures marked == (queuesize > DctcpThreshold(bitrate))
      ensures scheduled == Spec.InService(View())
    {
      Spec.DequeueCore(cfg, View());
      departed := TakeHead();
      marked := queuesize > DctcpThreshold(bitrate);
      scheduled := BeginService();
    }

    /** Append to the flow's sub-queue, and list the sub-queue as active if it was not. */
    method Put(pkt: Packet)
      requires Booked() && Spec.Shape(cfg, View())
      modifies this, packets, credits, queueSizes, isActive
      ensures Booked() && View() == Spec.Enqueue(cfg, old(View()), pkt)
    {
      hide Spec.SubQueue;
      var queue := Spec.SubQueue(cfg, pkt.flow);
      BytesConcat(packets[queue], [pkt]);
      packets[queue] := packets[queue] + [pkt];
      queueSizes[queue] := queueSizes[queue] + pkt.size;
      queuesize := queuesize + pkt.size;
      nPackets := nPackets + 1;
      if !isActive[queue] {
        isActive[queue] := true;
        activeQ := activeQ + [queue];
        credits[queue] := cfg.quantum;
      }
    }

    /** `accepted` is false when the packet is freed instead of queued. */
    method ReceivePacket(pkt: Packet) returns (accepted: bool, scheduled: Option<Packet>)
      requires Valid() && pkt.size >= 1
      modifies this, packets, credits, queueSizes, isActive
      ensures Valid() && View() == Spec.Receive(cfg, old(View()), pkt)
      ensures accepted == Spec.Accepts(cfg, old(View()), pkt)
      ensures scheduled == if accepted && old(nPackets) == 0 then Spec.InService(View()) else None
    {
      Spec.ReceiveInv(cfg, View(), pkt);
      scheduled := None;
      if queuesize + pkt.size > cfg.maxsize {
        accepted := false;
        return;
      }
      accepted := true;
      Spec.EnqueueCore(cfg, View(), pkt);
      var queueWasEmpty := nPackets == 0;
      Put(pkt);
      if queueWasEmpty {
        scheduled := BeginService();
      }
    }
  }
}

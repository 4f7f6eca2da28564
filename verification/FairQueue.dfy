/** The `FairQueue` class: fields updated in place, each method tied to `FairQueueSpec`. */
module FairQueue {
  import opened Packets
  import Spec = FairQueueSpec
  import opened Htsim

  class FairQueue {
    var packets: seq<Spec.Entry>
    var flowRound: map<nat, nat>
    var nPackets: map<nat, nat>
    var roundNumber: nat
    var currentPkt: Option<Packet>
    var queuesize: nat
    const maxsize: nat
    const bitrate: nat

    ghost function View(): Spec.State
      reads this
    {
      Spec.State(packets, flowRound, nPackets, roundNumber, currentPkt, queuesize, maxsize)
    }

    constructor (bitrate: nat, maxsize: nat)
      ensures View() == Spec.Init(maxsize) && Spec.Inv(View())
      ensures this.bitrate == bitrate
    {
      this.bitrate, this.maxsize := bitrate, maxsize;
      packets, flowRound, nPackets := [], map[], map[];
      roundNumber, currentPkt, queuesize := 0, None, 0;
      new;
      Spec.InitInv(maxsize);
    }

    /** `scheduled` is the packet whose completion is put on the event list, if any. */
    method BeginService() returns (scheduled: Option<Packet>)
      requires currentPkt.None?
      modifies this
      ensures View() == Spec.Begin(old(View()))
      ensures scheduled == currentPkt
    {
      scheduled := None;
      if packets != [] {
        roundNumber := packets[0].tag;
        currentPkt := Some(packets[0].pkt);
        packets := packets[1..];
        scheduled := currentPkt;
      }
    }

    /** `departed` is sent on, with an ECN mark exactly when `marked`. */
    method CompleteService() returns (departed: Packet, marked: bool, scheduled: Option<Packet>)
      requires Spec.Inv(View()) && currentPkt.Some?
      modifies this
      ensures View() == Spec.Complete(old(View())) && Spec.Inv(View())
      ensures departed == old(currentPkt).value
      ensures marked == (old(queuesize) > DctcpThreshold(bitrate))
      ensures scheduled == currentPkt
    {
      Spec.CompleteInv(View());
      Spec.CoreFlow(View(), currentPkt.value.flow);
      departed := currentPkt.value;
      var flowid := departed.flow;
      if nPackets[flowid] == 1 {
        nPackets := nPackets - {flowid};
        flowRound := flowRound - {flowid};
      } else {
        nPackets := nPackets[flowid := nPackets[flowid] - 1];
      }
      marked := queuesize > DctcpThreshold(bitrate);
      queuesize := queuesize - departed.size;
      currentPkt := None;
      scheduled := BeginService();
    }

    /** The first half of an arrival: count it, tag it and put it in tag order. */
    method Enqueue(pkt: Packet)
      requires Spec.Core(View()) && pkt.size >= 1
      modifies this
      ensures View() == Spec.Enqueue(old(View()), pkt)
    {
      hide Spec.Core, Spec.Chained;
      Spec.CoreFlow(View(), pkt.flow);
      var flowid := pkt.flow;
      if flowid !in nPackets {
        nPackets := nPackets[flowid := 0];
      }
      nPackets := nPackets[flowid := nPackets[flowid] + 1];
      if flowid !in flowRound {
        flowRound := flowRound[flowid := roundNumber + pkt.size];
      } else if flowRound[flowid] > roundNumber {
        flowRound := flowRound[flowid := flowRound[flowid] + pkt.size];
      } else {
        flowRound := flowRound[flowid := roundNumber + pkt.size];
      }
      packets := Spec.Insert(packets, Spec.Entry(flowRound[flowid], pkt));
      queuesize := queuesize + pkt.size;
    }

    /** One turn of the overload loop. */
    method DropLargest() returns (p: Packet)
      requires Spec.Core(View()) && packets != []
      modifies this
      ensures View() == Spec.DropLast(old(View())) && Spec.Core(View())
      ensures p == Spec.Last(old(View()))
    {
      hide Spec.Core, Spec.FlowOk;
      Spec.LastIsFlowLast(View());
      Spec.DropLastCore(View());
      p := packets[|packets| - 1].pkt;
      packets := packets[..|packets| - 1];
      queuesize := queuesize - p.size;
      var dropid := p.flow;
      if nPackets[dropid] == 1 {
        flowRound := flowRound - {dropid};
        nPackets := nPackets - {dropid};
      } else {
        flowRound := flowRound[dropid := flowRound[dropid] - p.size];
        nPackets := nPackets[dropid := nPackets[dropid] - 1];
      }
    }

    /** The overload loop: drop the largest tags until the rest fits, and list what was dropped. */
    method DropOverload() returns (dropped: seq<Packet>)
      requires Spec.Core(View())
      modifies this
      ensures View() == Spec.DropTail(old(View())) && dropped == Spec.Dropped(old(View()))
    {
      hide Spec.Core, Spec.DropTail, Spec.Dropped, Spec.DropLast;
      ghost var s := View();
      dropped := [];
      while queuesize > maxsize
        invariant Spec.Core(View())
        invariant Spec.DropTail(View()) == Spec.DropTail(s)
        invariant dropped + Spec.Dropped(View()) == Spec.Dropped(s)
        decreases |packets|
      {
        Spec.OverfullHasWaiting(View());
        Spec.DropMore(View());
        var p := DropLargest();
        dropped := dropped + [p];
      }
      Spec.DropDone(View());
    }

    /** `dropped` lists the packets freed by the overload loop, largest tag first. */
    method ReceivePacket(pkt: Packet) returns (dropped: seq<Packet>, scheduled: Option<Packet>)
      requires Spec.Inv(View()) && pkt.size >= 1
      modifies this
      ensures View() == Spec.Receive(old(View()), pkt) && Spec.Inv(View())
      ensures Spec.Core(Spec.Enqueue(old(View()), pkt))
              && dropped == Spec.Dropped(Spec.Enqueue(old(View()), pkt))
      ensures scheduled == if old(currentPkt).None? then currentPkt else None
    {
      hide Spec.Core, Spec.Insert, Spec.FinishTag, Spec.DropTail, Spec.Dropped, Spec.Begin;
      Spec.ReceiveInv(View(), pkt);
      Spec.EnqueueCore(View(), pkt);
      Spec.DropTailKeepsPrefix(Spec.Enqueue(View(), pkt));
      var queueWasEmpty := currentPkt.None? && packets == [];
      Enqueue(pkt);
      dropped := DropOverload();
      scheduled := None;
      if queueWasEmpty {
        scheduled := BeginService();
      }
    }
  }
}

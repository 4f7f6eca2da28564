/** The `TcpSrc` class: the sender's fields updated in place, each method tied to `TcpSpec`. */
module TcpSrc {
  import opened Htsim
  import opened TcpSpec
  import opened Arithmetic

  class TcpSrc {
    const cfg: Config
    var phase: Phase
    var ssthresh: nat
    var cwnd: nat
    var recoverSeq: nat
    var dupacks: nat
    var drops: nat
    var rtt: nat
    var rto: nat
    var mdev: nat
    var timeout: nat
    var packetsSent: nat
    var highestSent: nat
    var lastAcked: nat

    ghost function View(): State
      reads this
    {
      State(phase, ssthresh, cwnd, recoverSeq, dupacks, drops, rtt, rto, mdev, timeout,
            packetsSent, highestSent, lastAcked)
    }

    constructor (cfg: Config)
      ensures View() == Init() && this.cfg == cfg
    {
      this.cfg := cfg;
      phase, ssthresh, cwnd, recoverSeq, dupacks, drops := Idle, TWO32 - 1, 0, 0, 0, 0;
      rtt, rto, mdev, timeout := 0, INIT_RTO, 0, 0;
      packetsSent, highestSent, lastAcked := 0, 0, 0;
    }

    method SendNext(now: nat)
      modifies this`timeout, this`highestSent, this`packetsSent
      ensures View() == SendN(old(View()), now, 1).s
    {
      highestSent := highestSent + MSS;
      packetsSent := packetsSent + MSS;
      if timeout == 0 {
        timeout := now + rto;
      }
    }

    /** `sent` lists the first bytes of the packets sent. */
    method SendPackets(now: nat) returns (sent: seq<nat>)
      modifies this`timeout, this`highestSent, this`packetsSent
      ensures Out(View(), sent) == TcpSpec.SendPackets(cfg, old(View()), now)
    {
      sent := [];
      if cfg.flowsize > 0 && highestSent >= cfg.flowsize {
        return;
      }
      hide SendCount, SendN;
      SendNone(View(), now);
      ghost var s, n := View(), 0;
      while lastAcked + cwnd >= highestSent + MSS
        invariant View() == SendN(s, now, n).s && sent == SendN(s, now, n).sent
        invariant !Exhausted(cfg, View()) && n + SendCount(cfg, View()) == SendCount(cfg, s)
        decreases lastAcked + cwnd - highestSent
      {
        SendOne(cfg, View(), now);
        SendMore(s, now, n);
        sent := sent + [highestSent + 1];
        SendNext(now);
        n := n + 1;
        if cfg.flowsize > 0 && highestSent >= cfg.flowsize {
          break;
        }
      }
    }

    method RetransmitPacket(now: nat) returns (sent: seq<nat>)
      modifies this`timeout, this`packetsSent
      ensures Out(View(), sent) == Retransmit(old(View()), now)
    {
      sent := [lastAcked + 1];
      packetsSent := packetsSent + MSS;
      if timeout == 0 {
        timeout := now + rto;
      }
    }

    /** Leave fast recovery's inflated window before a timeout halves it. */
    method DeflateWindow()
      modifies this`cwnd
      ensures View() == old(View()).(cwnd := DeflatedWindow(old(View())))
    {
      hide U32;
      if phase == FastRecov {
        var flightsize := U32(highestSent - lastAcked);
        cwnd := Min(ssthresh, U32(flightsize + MSS));
      }
    }

    method StartOver(now: nat)
      modifies this
      ensures View() == Rewind(old(View()), old(cwnd), now)
    {
      hide Max;
      ssthresh := Max(cwnd / 2, MSS * 2);
      cwnd, phase := MSS, SlowStart;
      recoverSeq, highestSent, dupacks := highestSent, lastAcked + MSS, 0;
      rto := rto * 2;
      timeout := now + rto;
    }

    method RetransmissionTimeout(now: nat) returns (sent: seq<nat>)
      modifies this
      ensures Out(View(), sent) == Timeout(old(View()), now)
    {
      hide U32, Arm, Max, Min, Retransmit, DeflatedWindow;
      DeflateWindow();
      StartOver(now);
      sent := RetransmitPacket(now);
    }

    /** The periodic event: start the flow, or handle an expired retransmission timer.
        `next` is the delay after which it runs again, none once the flow has finished
        and no packet of it is left. */
    method DoNextEvent(now: nat, packetsAlive: nat) returns (sent: seq<nat>, again: bool, next: nat)
      modifies this
      ensures Out(View(), sent) == OnTick(cfg, old(View()), now)
      ensures again == !(old(phase) == Finish && packetsAlive == 0)
      ensures again ==> next == if rtt != 0 then rtt else MIN_RTO
    {
      hide U32, SendCount, SendN;
      sent, again, next := [], true, 0;
      if phase == Idle {
        phase := SlowStart;
        cwnd := 2 * MSS;
        sent := SendPackets(now);
      } else if phase == Finish {
        if packetsAlive == 0 {
          again := false;
          return;
        }
      } else if timeout != 0 && now >= timeout {
        sent := RetransmissionTimeout(now);
      }
      next := if rtt != 0 then rtt else MIN_RTO;
    }

    method UpdateRtt(m: nat)
      modifies this`rtt, this`rto, this`mdev
      ensures View() == TcpSpec.UpdateRtt(old(View()), m)
    {
      if m > 0 {
        if rtt > 0 {
          var abs := if m > rtt then m - rtt else rtt - m;
          mdev := mdev * 3 / 4 + abs / 4;
          rtt := rtt * 7 / 8 + m / 8;
        } else {
          rtt := m;
          mdev := m / 2;
        }
        rto := rtt + 4 * mdev;
        if rto < MIN_RTO {
          rto := MIN_RTO;
        }
      }
    }

    method InflateWindow()
      requires ssthresh > 0
      modifies this`cwnd
      ensures View() == Inflate(old(View()))
    {
      hide U32, Int32, AdditiveIncrease;
      var newlyAcked := Int32(lastAcked + cwnd - highestSent);
      var increment;
      if newlyAcked < 0 {
        return;
      } else if newlyAcked > MSS {
        newlyAcked := MSS;
      }
      if cwnd < ssthresh {
        increment := Min(ssthresh - cwnd, newlyAcked);
      } else {
        increment := AdditiveIncrease(newlyAcked, cwnd);
        if increment == 0 {
          increment := 1;
        }
      }
      cwnd := U32(cwnd + increment);
    }

    method EnterFastRecovery(now: nat) returns (sent: seq<nat>)
      modifies this
      ensures var s := old(View());
              var half := Max(s.cwnd / 2, MSS * 2);
              Out(View(), sent) ==
                Retransmit(s.(drops := s.drops + 1, ssthresh := half, cwnd := U32(half + 3 * MSS),
                              phase := FastRecov, recoverSeq := s.highestSent), now)
    {
      hide U32, Arm, Max;
      drops := drops + 1;
      ssthresh := Max(cwnd / 2, MSS * 2);
      cwnd := U32(ssthresh + 3 * MSS);
      phase := FastRecov;
      recoverSeq := highestSent;
      sent := RetransmitPacket(now);
    }

    method ReceiveDupAck(now: nat) returns (sent: seq<nat>)
      modifies this
      ensures Out(View(), sent) == DupAck(cfg, old(View()), now)
    {
      hide U32, SendCount, SendN, Arm, Max;
      if phase == FastRecov {
        cwnd := U32(cwnd + MSS);
        sent := SendPackets(now);
        return;
      }
      dupacks := (dupacks + 1) % 0x1_0000;
      if dupacks != 3 {
        sent := SendPackets(now);
        return;
      }
      if lastAcked < recoverSeq {
        return [];
      }
      sent := EnterFastRecovery(now);
    }

    /** Still in fast recovery: several packets were lost, not just the first. */
    method ReceivePartialAck(ackno: nat, now: nat) returns (sent: seq<nat>)
      modifies this
      ensures var s := old(View());
              var newData := U32(ackno - s.lastAcked);
              var w := if newData < s.cwnd then s.cwnd - newData else 0;
              Out(View(), sent) == RetransmitThenSend(cfg, s.(lastAcked := ackno, cwnd := U32(w + MSS)), now)
    {
      hide U32, SendCount, SendN, Arm;
      var newData := U32(ackno - lastAcked);
      lastAcked := ackno;
      if newData < cwnd {
        cwnd := cwnd - newData;
      } else {
        cwnd := 0;
      }
      cwnd := U32(cwnd + MSS);
      var first := RetransmitPacket(now);
      var more := SendPackets(now);
      sent := first + more;
    }

    method ReceiveNewAck(ackno: nat, now: nat) returns (sent: seq<nat>)
      requires ssthresh > 0 && ackno > lastAcked
      modifies this
      ensures Out(View(), sent) == NewAck(cfg, old(View()), ackno, now)
    {
      hide U32, Inflate, SendCount, SendN, Min, RetransmitThenSend;
      timeout := now + rto;
      if ackno == highestSent {
        timeout := 0;
      }
      if phase != FastRecov {
        lastAcked := ackno;
        dupacks := 0;
        InflateWindow();
        sent := SendPackets(now);
        return;
      }
      if ackno >= recoverSeq {
        var flightsize := U32(highestSent - ackno);
        cwnd := Min(ssthresh, U32(flightsize + MSS));
        lastAcked := ackno;
        dupacks := 0;
        phase := CongAvoid;
        sent := SendPackets(now);
        return;
      }
      sent := ReceivePartialAck(ackno, now);
    }

    /** An acknowledgement arrives, echoing the time `ts` of the packet that caused it. */
    method ReceivePacket(ackno: nat, ts: nat, now: nat) returns (sent: seq<nat>)
      requires ssthresh > 0
      modifies this
      ensures Out(View(), sent) == OnAck(cfg, old(View()), ackno, ts, now)
    {
      sent := [];
      if phase == Finish {
        return;
      }
      if (cfg.flowsize > 0 && ackno >= cfg.flowsize)
         || (cfg.duration > 0 && now > cfg.startTime + cfg.duration) {
        phase := Finish;
        return;
      }
      if ackno < lastAcked {
        return;
      }
      UpdateRtt(U64(now - ts));
      if ackno > lastAcked {
        sent := ReceiveNewAck(ackno, now);
      } else {
        sent := ReceiveDupAck(now);
      }
    }
  }
}

/** The `DataSink` class: acknowledgement and list updated in place, tied to `DataSinkSpec`. */
module DataSink {
  import opened DataSinkSpec

  class DataSink {
    var cumulativeAck: nat
    var received: seq<Chunk>

    ghost function View(): State
      reads this
    {
      State(cumulativeAck, received)
    }

    constructor ()
      ensures View() == EMPTY && Ordered(received)
    {
      cumulativeAck, received := 0, [];
    }

    /** Acknowledge the stored packets that are now contiguous. */
    method AbsorbReceived()
      modifies this
      ensures View() == Absorb(old(View()))
    {
      ghost var s := View();
      while received != [] && cumulativeAck + 1 == received[0].first
        invariant Absorb(View()) == Absorb(s)
        decreases |received|
      {
        var packet := received[0];
        received := received[1..];
        cumulativeAck := cumulativeAck + packet.size;
      }
    }

    /** Put a packet in its place in the sorted list, unless one with its number is there already. */
    method InsertReceived(x: Chunk)
      requires Ordered(received)
      modifies this`received
      ensures received == Insert(old(received), x)
    {
      if received == [] || x.first > received[|received| - 1].first {
        InsertAfterPrefix(received, |received|, x);
        received := received + [x];
      } else {
        var i := 0;
        while received[i].first < x.first
          invariant 0 <= i < |received|
          invariant forall j :: 0 <= j < i ==> received[j].first < x.first
          decreases |received| - i
        {
          i := i + 1;
        }
        hide Insert;
        InsertAfterPrefix(received, i, x);
        InsertHere(received[i..], x);
        if x.first != received[i].first {
          received := received[..i] + [x] + received[i..];
        }
      }
    }

    /** Handle the arrival of any packet. */
    method ProcessDataPacket(seqno: nat, size: nat)
      requires Ordered(received)
      modifies this
      ensures View() == Process(old(View()), Chunk(seqno, size))
      ensures Ordered(received) && cumulativeAck >= old(cumulativeAck)
    {
      ProcessOrdered(View(), Chunk(seqno, size));
      hide Absorb, Insert, Ordered;
      if seqno == cumulativeAck + 1 {
        cumulativeAck := seqno + size - 1;
        AbsorbReceived();
      } else if seqno <= cumulativeAck {
      } else {
        InsertReceived(Chunk(seqno, size));
      }
    }

    /** `TcpSink`: handle any packet and acknowledge, echoing the packet's time stamp and its
        congestion mark. */
    method ReceivePacket(seqno: nat, size: nat, ts: nat, marked: bool)
      returns (ackno: nat, echo: nat, echoMarked: bool)
      requires Ordered(received)
      modifies this
      ensures View() == Process(old(View()), Chunk(seqno, size)) && Ordered(received)
      ensures ackno == cumulativeAck && echo == ts && echoMarked == marked
    {
      ProcessDataPacket(seqno, size);
      ackno, echo, echoMarked := cumulativeAck, ts, false;
      if marked {
        echoMarked := true;
      }
    }
  }
}

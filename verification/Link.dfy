/** The classes of a link: the simulator's `EventList`, the FIFO `Queue` and the `Pipe`,
    each updated in place, and the dispatch of an event to its source. */
module Link {
  import opened Packets
  import opened Htsim
  import opened LinkSpec

  class EventList {
    var pendingsources: seq<Pending>
    var lasteventtime: nat

    constructor ()
      ensures pendingsources == [] && lasteventtime == 0
    {
      pendingsources, lasteventtime := [], 0;
    }

    /** The precondition is the assertion the source makes here. */
    method SourceIsPending(src: Source, when: nat)
      requires when >= lasteventtime
      modifies this`pendingsources
      ensures pendingsources == Insert(old(pendingsources), Pending(when, src))
    {
      pendingsources := Insert(pendingsources, Pending(when, src));
    }

    /** Remove the first event and set the clock to it, before its source runs. */
    method Advance() returns (src: Source)
      requires pendingsources != [] && pendingsources[0].when >= lasteventtime
      modifies this
      ensures lasteventtime == old(pendingsources)[0].when && src == old(pendingsources)[0].src
      ensures pendingsources == old(pendingsources)[1..]
    {
      var next := pendingsources[0];
      pendingsources := pendingsources[1..];
      lasteventtime := next.when;
      src := next.src;
    }
  }

  class Pipe {
    const delay: nat
    var inflight: seq<Stamp>

    constructor (delay: nat)
      ensures this.delay == delay && inflight == []
    {
      this.delay := delay;
      inflight := [];
    }

    method ReceivePacket(ev: EventList, pkt: Packet)
      modifies this, ev`pendingsources
      ensures inflight == old(inflight) + [Stamp(ev.lasteventtime + delay, pkt)]
      ensures ev.pendingsources ==
              if old(inflight) == [] then Insert(old(ev.pendingsources), Pending(ev.lasteventtime + delay, PipeDone))
              else old(ev.pendingsources)
    {
      if inflight == [] {
        ev.SourceIsPending(PipeDone, ev.lasteventtime + delay);
      }
      inflight := inflight + [Stamp(ev.lasteventtime + delay, pkt)];
    }

    /** `out` is the packet sent on to the next hop. */
    method DoNextEvent(ev: EventList) returns (out: Option<Packet>)
      requires |inflight| > 1 ==> inflight[1].time >= ev.lasteventtime
      modifies this, ev`pendingsources
      ensures old(inflight) == [] ==>
                out == None && inflight == [] && ev.pendingsources == old(ev.pendingsources)
      ensures old(inflight) != [] ==>
                && out == Some(old(inflight)[0].pkt) && inflight == old(inflight)[1..]
                && ev.pendingsources ==
                   if inflight == [] then old(ev.pendingsources)
                   else Insert(old(ev.pendingsources), Pending(inflight[0].time, PipeDone))
    {
      if |inflight| == 0 {
        return None;
      }
      out := Some(inflight[0].pkt);
      inflight := inflight[1..];
      if inflight != [] {
        var nexteventtime := inflight[0].time;
        ev.SourceIsPending(PipeDone, nexteventtime);
      }
    }
  }

  class Queue {
    const bitrate: nat
    const psPerByte: nat
    const maxsize: nat
    var enqueued: seq<Packet>   // oldest packet first
    var queuesize: nat

    constructor (bitrate: nat, maxsize: nat)
      requires bitrate >= 1
      ensures this.bitrate == bitrate && this.maxsize == maxsize
      ensures psPerByte == 8_000_000_000_000 / bitrate
      ensures enqueued == [] && queuesize == 0
    {
      this.bitrate, this.maxsize := bitrate, maxsize;
      psPerByte := 8_000_000_000_000 / bitrate;
      enqueued, queuesize := [], 0;
    }

    method BeginService(ev: EventList)
      requires enqueued != []
      modifies ev`pendingsources
      ensures ev.pendingsources == Insert(old(ev.pendingsources),
                                          Pending(ev.lasteventtime + enqueued[0].size * psPerByte, QueueDone))
    {
      ev.SourceIsPending(QueueDone, ev.lasteventtime + enqueued[0].size * psPerByte);
    }

    /** `accepted` is false when the packet is freed for lack of space. */
    method ReceivePacket(ev: EventList, pkt: Packet) returns (accepted: bool)
      modifies this, ev`pendingsources
      ensures accepted == (old(queuesize) + pkt.size <= maxsize)
      ensures enqueued == old(enqueued) + (if accepted then [pkt] else [])
      ensures queuesize == old(queuesize) + (if accepted then pkt.size else 0)
      ensures ev.pendingsources ==
              if accepted && old(enqueued) == []
              then Insert(old(ev.pendingsources), Pending(ev.lasteventtime + pkt.size * psPerByte, QueueDone))
              else old(ev.pendingsources)
    {
      if queuesize + pkt.size > maxsize {
        return false;
      }
      var queueWasEmpty := enqueued == [];
      enqueued := enqueued + [pkt];
      queuesize := queuesize + pkt.size;
      if queueWasEmpty {
        BeginService(ev);
      }
      accepted := true;
    }

    /** The first packet leaves for `next`, ECN-marked exactly when `marked`; then the next
        one, if any, begins service. */
    method CompleteService(ev: EventList, next: Pipe) returns (marked: bool)
      requires enqueued != [] && queuesize >= enqueued[0].size
      modifies this, next, ev`pendingsources
      ensures enqueued == old(enqueued)[1..] && queuesize == old(queuesize) - old(enqueued)[0].size
      ensures next.inflight == old(next.inflight) + [Stamp(ev.lasteventtime + next.delay, old(enqueued)[0])]
      ensures marked == (queuesize > DctcpThreshold(bitrate))
      ensures var p := if old(next.inflight) == []
                       then Insert(old(ev.pendingsources), Pending(ev.lasteventtime + next.delay, PipeDone))
                       else old(ev.pendingsources);
              ev.pendingsources ==
                if enqueued == [] then p
                else Insert(p, Pending(ev.lasteventtime + enqueued[0].size * psPerByte, QueueDone))
    {
      var pkt := enqueued[0];
      enqueued := enqueued[1..];
      queuesize := queuesize - pkt.size;
      marked := queuesize > DctcpThreshold(bitrate);
      next.ReceivePacket(ev, pkt);
      if enqueued != [] {
        BeginService(ev);
      }
    }
  }

  /** A queue feeding a pipe, driven by one event list. */
  class Wire {
    const events: EventList
    const queue: Queue
    const pipe: Pipe

    ghost function Cfg(): Config {
      Config(queue.maxsize, queue.psPerByte, pipe.delay)
    }

    ghost function View(): State
      reads this, events, queue, pipe
    {
      State(events.lasteventtime, events.pendingsources, queue.enqueued, queue.queuesize, pipe.inflight)
    }

    constructor (bitrate: nat, maxsize: nat, delay: nat)
      requires bitrate >= 1
      ensures fresh(events) && fresh(queue) && fresh(pipe)
      ensures View() == LinkSpec.Init() && Inv(Cfg(), View())
      ensures Cfg() == Config(maxsize, 8_000_000_000_000 / bitrate, delay)
    {
      events := new EventList();
      queue := new Queue(bitrate, maxsize);
      pipe := new Pipe(delay);
    }

    method RunPipe() returns (out: Option<Packet>)
      requires InflightOk(Cfg(), View())
      modifies pipe, events`pendingsources
      ensures View() == PipeEmit(old(View()))
      ensures out == if old(pipe.inflight) == [] then None else Some(old(pipe.inflight)[0].pkt)
    {
      hide Insert;
      out := pipe.DoNextEvent(events);
    }

    method RunQueue()
      requires queue.enqueued != [] && queue.queuesize >= queue.enqueued[0].size
      modifies queue, pipe, events`pendingsources
      ensures View() == QueueComplete(Cfg(), old(View()))
    {
      hide Insert;
      var _ := queue.CompleteService(events, pipe);
    }

    method RunTraffic(p: Packet)
      modifies queue, events`pendingsources
      ensures View() == QueueReceive(Cfg(), old(View()), p)
    {
      hide Insert;
      var _ := queue.ReceivePacket(events, p);
    }

    /** Process the next pending event; `out` is what the pipe delivers. */
    method DoNextEvent() returns (busy: bool, out: Option<Packet>)
      requires Inv(Cfg(), View())
      modifies events, queue, pipe
      ensures Inv(Cfg(), View())
      ensures busy == (old(View()).pending != [])
      ensures View() == if busy then Fire(Cfg(), old(View())) else old(View())
      ensures out == if busy then Delivered(old(View())) else None
    {
      if events.pendingsources == [] {
        return false, None;
      }
      ghost var s := View();
      FireReady(Cfg(), s);
      FireInv(Cfg(), s);
      hide Times, InOrder, Insert, Inv, Bytes;
      busy, out := true, None;
      var src := events.Advance();
      assert View() == Pop(s);
      match src {
        case QueueDone => RunQueue();
        case PipeDone => out := RunPipe();
        case Traffic(p) => RunTraffic(p);
      }
      assert View() == Fire(Cfg(), s);
    }
  }
}

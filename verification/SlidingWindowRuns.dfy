/** One flow of the DPDK client and server over a network that may lose, duplicate, delay
    and reorder: ring safety and what completion means. */
module SlidingWindowRuns {
  import opened Arithmetic
  import opened SlidingWindowSpec

  /** `data` and `acks` hold everything ever sent. `received`, `skipped` and `stalls` are the
      history of the server: what has reached it, what it gave up on, and how many of its
      rounds made no progress. */
  datatype System = System(
    client: Client, server: Server,
    data: set<nat>, acks: set<nat>,
    received: set<nat>, skipped: set<nat>, stalls: nat)

  /** The client's phases, in any interleaving with the server's rounds. */
  datatype Event =
    | Resending(due: set<nat>)
    | Populating
    | SendingNew
    | ServerRound(burst: seq<nat>)
    | ClientAck(ack: nat, wnd: nat)

  function Start(): System {
    System(InitClient(), InitServer(), {}, {}, {}, {}, 0)
  }

  /** Any packet ever sent may arrive at any time; the advertised window is arbitrary. */
  ghost predicate Enabled(y: System, e: Event) {
    match e
    case ServerRound(burst) => burst != [] && forall i :: 0 <= i < |burst| ==> burst[i] in y.data
    case ClientAck(ack, _) => ack in y.acks
    case _ => true
  }

  function Elements(ns: seq<nat>): set<nat> { set n | n in ns }

  predicate Stalled(f: Server)
    requires RingOk(f)
  {
    Contiguous(f) == f.nxt
  }

  /** The packet a round gives up on, if it does. */
  function Skips(f: Server): set<nat>
    requires RingOk(f)
  {
    if Stalled(f) && f.sameAck + 1 >= 10 then {f.nxt} else {}
  }

  /** A state in which `Next` is defined. */
  ghost predicate Sound(y: System) {
    y.client.acked <= y.client.sent && RingOk(y.server)
  }

  function Next(total: nat, y: System, e: Event): System
    requires Sound(y)
  {
    match e
    case Resending(due) => y.(data := y.data + Elements(Resend(y.client, due, y.client.acked + 1)))
    case Populating => y.(client := Populate(y.client, total))
    case SendingNew => y.(client := Send(y.client), data := y.data + Elements(Sending(y.client)))
    case ClientAck(ack, wnd) => y.(client := OnAck(y.client, ack, wnd))
    case ServerRound(burst) =>
      var f := RecordAll(y.server, burst);
      var g := Respond(f);
      y.(server := g, acks := y.acks + {g.nxt - 1}, received := y.received + Elements(burst),
         skipped := y.skipped + Skips(f), stalls := y.stalls + (if Stalled(f) then 1 else 0))
  }

  /** A run from the start. `Next` is defined in every state it meets (RunSafe). */
  ghost predicate IsRun(total: nat, tr: seq<System>, es: seq<Event>) {
    && |tr| == |es| + 1
    && tr[0] == Start()
    && forall k :: 0 <= k < |es| ==>
         Enabled(tr[k], es[k]) && (Sound(tr[k]) ==> tr[k + 1] == Next(total, tr[k], es[k]))
  }

  // ----- the invariant --------------------------------------------------------------

  ghost predicate ClientOk(total: nat, f: Client) {
    && f.acked <= f.sent <= Max(f.acked, f.written)
    && f.written <= total && f.written <= f.acked + BUF_SIZE
  }

  /** The ring tells exactly which packets of the receive window have arrived. */
  ghost predicate RingExact(f: Server, received: set<nat>)
    requires RingOk(f)
  {
    && (forall n: nat :: f.nxt <= n < f.nxt + BUF_SIZE ==> (f.ring[Slot(n)] == n <==> n in received))
    && (forall k :: 0 <= k < BUF_SIZE && f.ring[k] != 0 ==> f.ring[k] in received)
  }

  /** Nothing the server may see lies beyond the window of 128 packets. */
  ghost predicate InWindow(total: nat, f: Server, data: set<nat>) {
    forall d :: d in data ==> 1 <= d < f.nxt + BUF_SIZE && d <= total
  }

  /** Everything below the next expected number arrived or was given up. */
  ghost predicate Accounted(f: Server, received: set<nat>, skipped: set<nat>) {
    && (forall n: nat :: 1 <= n < f.nxt ==> n in received || n in skipped)
    && (forall n: nat :: n in skipped ==> n < f.nxt)
  }

  ghost predicate Safe(total: nat, y: System) {
    && ClientOk(total, y.client)
    && RingOk(y.server) && RingExact(y.server, y.received)
    && InWindow(total, y.server, y.data)
    && y.received <= y.data
    && Accounted(y.server, y.received, y.skipped)
    && (forall a :: a in y.acks ==> a < y.server.nxt)
    && y.client.acked < y.server.nxt
    && y.server.sameAck < 10
    && 10 * |y.skipped| + y.server.sameAck == y.stalls
  }

  // ----- the server -----------------------------------------------------------------

  lemma RecordExact(f: Server, received: set<nat>, n: nat)
    requires RingOk(f) && RingExact(f, received) && 1 <= n < f.nxt + BUF_SIZE
    ensures RingOk(Record(f, n)) && RingExact(Record(f, n), received + {n})
    ensures Record(f, n).nxt == f.nxt && Record(f, n).sameAck == f.sameAck
  {
    hide Slot;
    var g := Record(f, n);
    forall m: nat | g.nxt <= m < g.nxt + BUF_SIZE
      ensures g.ring[Slot(m)] == m <==> m in received + {n} {
      if n >= f.nxt && Slot(m) == Slot(n) {
        SlotsDiffer(m, n, f.nxt);
      }
    }
  }

  lemma {:induction false} RecordAllExact(f: Server, received: set<nat>, ns: seq<nat>)
    requires RingOk(f) && RingExact(f, received)
    requires forall i :: 0 <= i < |ns| ==> 1 <= ns[i] < f.nxt + BUF_SIZE
    ensures RingExact(RecordAll(f, ns), received + Elements(ns))
    ensures RecordAll(f, ns).nxt == f.nxt && RecordAll(f, ns).sameAck == f.sameAck
  {
    hide RingExact, RingOk, Record, Slot;
    if ns == [] {
      assert received + Elements(ns) == received;
    } else {
      var k := |ns| - 1;
      RecordAllExact(f, received, ns[..k]);
      RecordExact(RecordAll(f, ns[..k]), received + Elements(ns[..k]), ns[k]);
      assert ns == ns[..k] + [ns[k]];
      assert received + Elements(ns) == received + Elements(ns[..k]) + {ns[k]};
    }
  }

  /** Moving the window forward over one packet keeps the ring exact. */
  lemma StepExact(f: Server, received: set<nat>)
    requires RingOk(f) && RingExact(f, received)
    requires f.nxt + BUF_SIZE !in received
    ensures RingOk(f.(nxt := f.nxt + 1)) && RingExact(f.(nxt := f.nxt + 1), received)
  {}

  /** Nothing beyond the old window has arrived, so the window may move on. */
  lemma ShiftExact(f: Server, received: set<nat>, bound: nat, n: nat)
    requires RingOk(f) && RingExact(f, received) && n >= f.nxt
    requires f.nxt + BUF_SIZE >= bound && forall m :: m in received ==> m < bound
    ensures RingOk(f.(nxt := n)) && RingExact(f.(nxt := n), received)
  {
    hide Slot;
    forall m: nat | n <= m < n + BUF_SIZE ensures f.ring[Slot(m)] == m <==> m in received {
      if f.ring[Slot(m)] == m {
        assert f.ring[Slot(m)] in received;
      }
    }
  }

  /** The first number the ring does not hold is the first that has not arrived. */
  lemma ContiguousExact(f: Server, received: set<nat>, bound: nat)
    requires RingOk(f) && RingExact(f, received)
    requires f.nxt + BUF_SIZE >= bound && forall n :: n in received ==> n < bound
    ensures var n := Contiguous(f);
            && RingOk(f.(nxt := n)) && RingExact(f.(nxt := n), received)
            && n !in received
            && forall k: nat :: f.nxt <= k < n ==> k in received
  {
    hide Slot;
    NextPositive(f);
    ShiftExact(f, received, bound, Contiguous(f));
    forall k: nat | f.nxt <= k < Contiguous(f) ensures k in received {
      assert f.ring[Slot(k)] == k;
    }
  }

  lemma RingExactFrame(f: Server, g: Server, received: set<nat>)
    requires RingOk(f) && RingOk(g) && RingExact(f, received) && f.ring == g.ring && f.nxt == g.nxt
    ensures RingExact(g, received)
  {}

  /** What a round does, case by case: the tenth stalled round gives a packet up. */
  lemma RespondCases(f: Server)
    requires RingOk(f) && f.sameAck < 10
    ensures var g := Respond(f);
            if Stalled(f) && f.sameAck == 9 then
              Skips(f) == {f.nxt} && g.nxt == f.nxt + 1 && g.sameAck == 0
            else
              && Skips(f) == {} && g.nxt == Contiguous(f)
              && g.sameAck == f.sameAck + (if Stalled(f) then 1 else 0)
  {}

  /** Every packet a round passes over has arrived or is recorded as skipped. */
  lemma RespondAccounted(f: Server, received: set<nat>, skipped: set<nat>)
    requires RingOk(f) && Accounted(f, received, skipped) && f.sameAck < 10
    requires forall k: nat :: f.nxt <= k < Contiguous(f) ==> k in received
    ensures Accounted(Respond(f), received, skipped + Skips(f))
  {
    hide RingOk, Contiguous, Slot, Respond, Skips, Stalled;
    RespondCases(f);
    var g, more := Respond(f), skipped + Skips(f);
    forall n: nat | 1 <= n < g.nxt ensures n in received || n in more {
      if n < f.nxt {
        assert n in received || n in skipped;
      }
    }
  }

  /** Ten stalled rounds are counted for each packet given up. */
  lemma RespondCounted(f: Server, received: set<nat>, skipped: set<nat>)
    requires RingOk(f) && Accounted(f, received, skipped) && f.sameAck < 10
    ensures var g, more := Respond(f), skipped + Skips(f);
            && g.sameAck < 10
            && 10 * |more| + g.sameAck == 10 * |skipped| + f.sameAck + (if Stalled(f) then 1 else 0)
  {
    hide RingOk, Contiguous, Slot, Respond, Skips, Stalled;
    RespondCases(f);
    if Skips(f) == {} {
      assert skipped + Skips(f) == skipped;
    } else {
      assert f.nxt !in skipped;
      assert skipped + Skips(f) == skipped + {f.nxt};
    }
  }

  lemma RespondExact(f: Server, received: set<nat>, bound: nat)
    requires RingOk(f) && RingExact(f, received)
    requires f.nxt + BUF_SIZE >= bound && forall n :: n in received ==> n < bound
    ensures RingOk(Respond(f)) && RingExact(Respond(f), received) && Respond(f).nxt >= f.nxt
    ensures forall k: nat :: f.nxt <= k < Contiguous(f) ==> k in received
  {
    RespondOk(f);
    ContiguousExact(f, received, bound);
    hide RingExact, RingOk, Slot;
    var t, g := f.(nxt := Contiguous(f)), Respond(f);
    if g.nxt == t.nxt {
      RingExactFrame(t, g, received);
    } else {
      StepExact(t, received);
      RingExactFrame(t.(nxt := t.nxt + 1), g, received);
    }
  }

  /** One acknowledgement round: the ring stays exact, the count of stalls adds up, and every
      packet passed over has arrived or is recorded as skipped. */
  lemma RespondSafe(f: Server, received: set<nat>, skipped: set<nat>, bound: nat)
    requires RingOk(f) && RingExact(f, received) && f.sameAck < 10
    requires f.nxt + BUF_SIZE >= bound && forall n :: n in received ==> n < bound
    requires Accounted(f, received, skipped)
    ensures var g, more := Respond(f), skipped + Skips(f);
            && RingOk(g) && RingExact(g, received) && Accounted(g, received, more)
            && g.nxt >= f.nxt && g.sameAck < 10
            && 10 * |more| + g.sameAck == 10 * |skipped| + f.sameAck + (if Stalled(f) then 1 else 0)
  {
    hide RingExact, RingOk, Slot, Accounted, Respond, Skips, Contiguous, Stalled;
    RespondExact(f, received, bound);
    RespondAccounted(f, received, skipped);
    RespondCounted(f, received, skipped);
  }

  // ----- the client -----------------------------------------------------------------

  lemma ClientStepSafe(total: nat, y: System, e: Event)
    requires Safe(total, y) && Enabled(y, e) && !e.ServerRound?
    ensures Safe(total, Next(total, y, e))
  {
    hide RingExact, Accounted, RingOk;
  }

  lemma ServerStepSafe(total: nat, y: System, burst: seq<nat>)
    requires Safe(total, y) && Enabled(y, ServerRound(burst))
    ensures Safe(total, Next(total, y, ServerRound(burst)))
  {
    hide RingExact, RingOk, RecordAll, Respond, Skips, Stalled;
    var f := RecordAll(y.server, burst);
    RecordAllExact(y.server, y.received, burst);
    var received := y.received + Elements(burst);
    assert received <= y.data;
    RespondSafe(f, received, y.skipped, y.server.nxt + BUF_SIZE);
  }

  lemma NextSafe(total: nat, y: System, e: Event)
    requires Safe(total, y) && Enabled(y, e)
    ensures Safe(total, Next(total, y, e))
  {
    hide Safe, Next;
    match e {
      case ServerRound(burst) => ServerStepSafe(total, y, burst);
      case _ => ClientStepSafe(total, y, e);
    }
  }

  lemma StartSafe(total: nat)
    ensures Safe(total, Start())
  {}

  lemma {:induction false} RunSafe(total: nat, tr: seq<System>, es: seq<Event>, n: nat)
    requires IsRun(total, tr, es) && n <= |es|
    ensures Safe(total, tr[n])
  {
    if n == 0 {
      StartSafe(total);
    } else {
      RunSafe(total, tr, es, n - 1);
      NextSafe(total, tr[n - 1], es[n - 1]);
    }
  }

  // ----- what the counters count ----------------------------------------------------

  /** `last_pkt_sent` bounds what is on the network; `last_pkt_recvd` is the largest packet that has
      arrived or was skipped, and nothing beyond the packet after it is expected. */
  ghost predicate Counted(y: System) {
    && (forall d :: d in y.data ==> d <= y.client.sent)
    && (forall n :: n in y.received || n in y.skipped ==> n <= y.server.lastRecvd)
    && (y.server.lastRecvd == 0 || y.server.lastRecvd in y.received || y.server.lastRecvd in y.skipped)
    && y.server.nxt <= y.server.lastRecvd + 1
  }

  lemma {:induction false} RecordAllLast(f: Server, ns: seq<nat>)
    requires RingOk(f)
    ensures var g := RecordAll(f, ns);
            && g.lastRecvd >= f.lastRecvd && g.nxt == f.nxt && g.sameAck == f.sameAck
            && (g.lastRecvd == f.lastRecvd || g.lastRecvd in Elements(ns))
            && forall n :: n in Elements(ns) ==> n <= g.lastRecvd
  {
    hide RingOk;
    if ns == [] {
    } else {
      var k := |ns| - 1;
      RecordAllLast(f, ns[..k]);
      assert ns == ns[..k] + [ns[k]];
      assert Elements(ns) == Elements(ns[..k]) + {ns[k]};
    }
  }

  /** Whatever a round passes over has arrived by number, or is skipped now. */
  lemma RespondLast(f: Server)
    requires RingOk(f) && f.sameAck < 10 && f.nxt <= f.lastRecvd + 1
    ensures var g := Respond(f);
            && g.nxt <= g.lastRecvd + 1 && g.lastRecvd >= f.lastRecvd
            && (g.lastRecvd == f.lastRecvd || g.lastRecvd in Skips(f))
            && forall n :: n in Skips(f) ==> n <= g.lastRecvd
  {
    RespondCases(f);
    var n := Contiguous(f);
    if n > f.nxt {
      assert f.ring[Slot(n - 1)] == n - 1;
    }
  }

  lemma NextCounted(total: nat, y: System, e: Event)
    requires Safe(total, y) && Counted(y) && Enabled(y, e)
    ensures Counted(Next(total, y, e)) && Next(total, y, e).client.sent >= y.client.sent
  {
    hide RingExact, RingOk, Accounted, InWindow, Respond, RecordAll, Skips;
    if e.ServerRound? {
      RecordAllLast(y.server, e.burst);
      RespondLast(RecordAll(y.server, e.burst));
    }
  }

  /** On every run nothing is on the network that the client does not count as sent, nothing counted as
      sent is taken back, and the server's last received number is the largest it has passed or received. */
  lemma {:induction false} RunCounted(total: nat, tr: seq<System>, es: seq<Event>, n: nat)
    requires IsRun(total, tr, es) && n <= |es|
    ensures Counted(tr[n])
    ensures n < |es| ==> tr[n + 1].client.sent >= tr[n].client.sent
  {
    hide Next, Counted, Enabled;
    RunSafe(total, tr, es, n);
    if n == 0 {
      StartCounted();
    } else {
      RunCounted(total, tr, es, n - 1);
      RunSafe(total, tr, es, n - 1);
      NextCounted(total, tr[n - 1], es[n - 1]);
    }
    if n < |es| {
      NextCounted(total, tr[n], es[n]);
    }
  }

  lemma StartCounted()
    ensures Counted(Start())
  {}

  // ----- the theorems ---------------------------------------------------------------

  /** Ring safety: everything in the network fits the receive window, so within the window a
      slot holds a number exactly when that packet has arrived, and no two packets that are
      still to be acknowledged ever share a slot. */
  lemma RingSafety(total: nat, tr: seq<System>, es: seq<Event>, n: nat)
    requires IsRun(total, tr, es) && n <= |es|
    ensures var y := tr[n];
            && RingOk(y.server)
            && (forall d :: d in y.data ==> d <= y.server.nxt - 1 + BUF_SIZE)
            && (forall m: nat :: y.server.nxt <= m <= y.server.nxt + 127 ==>
                  (y.server.ring[(m - 1) % 128] == m <==> m in y.received))
            && (forall d, d' :: (d in y.data && d' in y.data && d >= y.server.nxt && d' >= y.server.nxt
                                 && (d - 1) % 128 == (d' - 1) % 128) ==> d == d')
  {
    RunSafe(total, tr, es, n);
  }

  /** Every acknowledged packet arrived or is a recorded skip; ten stalled rounds pay for each skip. */
  lemma AcknowledgedIsAccounted(total: nat, tr: seq<System>, es: seq<Event>, n: nat)
    requires IsRun(total, tr, es) && n <= |es|
    ensures var y := tr[n];
            && (forall a, m: nat :: a in y.acks && 1 <= m <= a ==> m in y.received || m in y.skipped)
            && 10 * |y.skipped| + y.server.sameAck == y.stalls
  {
    RunSafe(total, tr, es, n);
  }

  /** Completion: once the client has all its acknowledgements, every packet of the flow
      arrived or was skipped; with fewer than ten stalled rounds, every packet arrived. */
  lemma Completion(total: nat, tr: seq<System>, es: seq<Event>, n: nat)
    requires IsRun(total, tr, es) && n <= |es| && tr[n].client.acked >= total
    ensures forall m: nat :: 1 <= m <= total ==> m in tr[n].received || m in tr[n].skipped
    ensures tr[n].stalls < 10 ==> forall m: nat :: 1 <= m <= total ==> m in tr[n].received
  {
    RunSafe(total, tr, es, n);
  }

  // ----- building runs --------------------------------------------------------------

  lemma SafeSound(total: nat, y: System)
    requires Safe(total, y)
    ensures Sound(y)
  {}

  lemma SafeClient(total: nat, y: System)
    requires Safe(total, y)
    ensures ClientOk(total, y.client)
  {}

  lemma StartRun(total: nat)
    ensures IsRun(total, [Start()], []) && Sound(Start())
  {}

  lemma RunLength(total: nat, tr: seq<System>, es: seq<Event>)
    requires IsRun(total, tr, es)
    ensures |tr| == |es| + 1
  {}

  /** A run goes on with any enabled event. */
  lemma RunMore(total: nat, tr: seq<System>, es: seq<Event>, e: Event)
    returns (tr': seq<System>, es': seq<Event>)
    requires IsRun(total, tr, es) && |tr| == |es| + 1 && Enabled(tr[|es|], e) && Sound(tr[|es|])
    ensures tr' == tr + [Next(total, tr[|es|], e)] && es' == es + [e]
    ensures IsRun(total, tr', es') && tr'[|es'|] == Next(total, tr[|es|], e)
  {
    hide Next, Enabled, Sound;
    tr', es' := tr + [Next(total, tr[|es|], e)], es + [e];
  }
}

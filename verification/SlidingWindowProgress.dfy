/** When a turn of the DPDK client's loop makes progress, that a flow can always be completed,
    and when the client is stuck. */
module SlidingWindowProgress {
  import opened Arithmetic
  import opened SlidingWindowSpec
  import opened SlidingWindowRuns

  /** One turn of the client's main loop up to its receive phase. */
  function Iteration(total: nat, y: System, due: set<nat>): System
    requires Sound(y)
  {
    Next(total, Next(total, Next(total, y, Resending(due)), Populating), SendingNew)
  }

  /** The packets the turn transmits. */
  function Transmitted(total: nat, f: Client, due: set<nat>): seq<nat>
    requires f.acked <= f.sent
  {
    Resend(f, due, f.acked + 1) + Sending(Populate(f, total))
  }

  lemma IterationSends(total: nat, y: System, due: set<nat>)
    requires Sound(y)
    ensures Iteration(total, y, due)
            == y.(client := Send(Populate(y.client, total)),
                  data := y.data + Elements(Transmitted(total, y.client, due)))
  {
    var a, b := Resend(y.client, due, y.client.acked + 1), Sending(Populate(y.client, total));
    assert Elements(a + b) == Elements(a) + Elements(b);
    assert y.data + Elements(a) + Elements(b) == y.data + Elements(a + b);
  }

  /** An unfinished client is stuck exactly when everything it sent is acknowledged and the
      advertised window is closed: then it transmits nothing, whatever its timers say. */
  predicate Stuck(f: Client) { f.sent == f.acked && f.wnd == 0 }

  /** A turn transmits the first unacknowledged packet exactly when its timer has expired or, with
      nothing in flight, the window is open; a stuck client transmits nothing at all. */
  lemma TransmitsExactly(total: nat, f: Client, due: set<nat>)
    requires ClientOk(total, f) && f.acked < total
    ensures f.acked + 1 in Transmitted(total, f, due)
            <==> if f.sent > f.acked then f.acked + 1 in due else f.wnd >= 1
    ensures Stuck(f) ==> forall any :: Transmitted(total, f, any) == []
  {
    var n, g := f.acked + 1, Populate(f, total);
    if f.sent > f.acked {
      if n in due {
        ResendMember(f, due, n, n);
      }
    } else if f.wnd >= 1 {
      assert Sending(g)[0] == n;
    }
  }

  /** A turn sends as far as the flow, the send buffer and the advertised window reach, and not further. */
  lemma TurnFillsWindow(total: nat, y: System, due: set<nat>)
    requires Safe(total, y)
    ensures Sound(y)
    ensures var f, g := y.client, Iteration(total, y, due).client;
            g.sent == Max(f.sent, Min(total, Min(f.acked + 128, f.acked + f.wnd)))
  {
    hide Safe, Next;
    SafeSound(total, y);
    IterationSends(total, y, due);
    PopulateFills(y.client, total);
    SendFills(Populate(y.client, total));
    SafeClient(total, y);
  }

  /** Flow control, on every run: the packets that a sending phase puts on the network are those
      beyond what was sent before, within the advertised window and the written data, all of them. */
  lemma FlowControl(total: nat, tr: seq<System>, es: seq<Event>, n: nat)
    requires IsRun(total, tr, es) && n < |es| && es[n].SendingNew?
    ensures var y, z := tr[n], tr[n + 1];
            var f := y.client;
            && f.written <= total && f.written <= f.acked + 128
            && z.client.acked == f.acked && z.client.sent <= Max(f.sent, f.acked + f.wnd)
            && (forall m: nat :: m in z.data && m !in y.data ==> f.sent < m <= f.acked + f.wnd && m <= f.written)
            && (forall m: nat :: f.sent < m <= f.acked + f.wnd && m <= f.written ==> m in z.data)
  {
    hide Safe;
    RunSafe(total, tr, es, n);
    SafeSound(total, tr[n]);
    SafeClient(total, tr[n]);
    var f, z := tr[n].client, tr[n + 1];
    SendFills(f);
    hide Send, Sending;
    forall m: nat | f.sent < m <= f.acked + f.wnd && m <= f.written ensures m in z.data {
      assert Sending(f)[m - f.sent - 1] == m;
    }
  }

  /** A server that has everything below `n` expects at least `n` after its next round. */
  lemma RoundReaches(f: Server, received: set<nat>, n: nat, bound: nat)
    requires RingOk(f) && RingExact(f, received)
    requires f.nxt + BUF_SIZE >= bound && forall m :: m in received ==> m < bound
    requires forall m: nat :: f.nxt <= m < n ==> m in received
    ensures Respond(f).nxt >= n
  {
    ContiguousExact(f, received, bound);
  }

  lemma IterationSafe(total: nat, y: System, due: set<nat>)
    requires Safe(total, y)
    ensures Sound(y) && Safe(total, Iteration(total, y, due))
  {
    hide Next, Safe;
    SafeSound(total, y);
    NextSafe(total, y, Resending(due));
    var y1 := Next(total, y, Resending(due));
    SafeSound(total, y1);
    NextSafe(total, y1, Populating);
    SafeSound(total, Next(total, y1, Populating));
    NextSafe(total, Next(total, y1, Populating), SendingNew);
  }

  /** After a round that received `n`, nothing up to `n` is expected any more. */
  lemma RoundPasses(total: nat, y: System, n: nat)
    requires Safe(total, y) && n in y.data && n <= y.server.nxt
    ensures Next(total, y, ServerRound([n])).server.nxt > n
  {
    hide RingExact, RingOk, Accounted, RecordAll, Respond, Skips, Stalled;
    RecordAllExact(y.server, y.received, [n]);
    var received := y.received + Elements([n]);
    assert n in received && received <= y.data;
    RoundReaches(RecordAll(y.server, [n]), received, n + 1, y.server.nxt + BUF_SIZE);
  }

  /** Progress: unless the client is stuck, one turn in which the first unacknowledged packet's
      timer has expired, the arrival of that packet and the answering acknowledgement move the
      client forward, whatever window that acknowledgement advertises. */
  lemma IterationMakesProgress(total: nat, y: System, due: set<nat>, wnd: nat)
    requires Safe(total, y) && y.client.acked < total && !Stuck(y.client)
    requires y.client.sent > y.client.acked ==> y.client.acked + 1 in due
    ensures var y1 := Iteration(total, y, due);
            var round := ServerRound([y.client.acked + 1]);
            && Sound(y1) && Enabled(y1, round)
            && var y2 := Next(total, y1, round);
               var ack := y2.server.nxt - 1;
               && Sound(y2) && ack >= 0 && Enabled(y2, ClientAck(ack, wnd))
               && Next(total, y2, ClientAck(ack, wnd)).client.acked > y.client.acked
  {
    hide RingOk, RingExact, Accounted, Resend, Sending, SendCount, RecordAll, Respond;
    var n := y.client.acked + 1;
    TransmitsExactly(total, y.client, due);
    IterationSends(total, y, due);
    IterationSafe(total, y, due);
    var y1 := Iteration(total, y, due);
    assert y1.client.acked == y.client.acked && n in y1.data;
    NextSafe(total, y1, ServerRound([n]));
    RoundPasses(total, y1, n);
  }

  /** All acknowledgements of events `a` on advertise the window `wnd`. */
  ghost predicate Advertises(es: seq<Event>, a: nat, wnd: nat) {
    forall k :: a <= k < |es| && es[k].ClientAck? ==> es[k].wnd == wnd
  }

  lemma AckWindow(total: nat, y: System, e: Event)
    requires Sound(y) && e.ClientAck?
    ensures Next(total, y, e).client.wnd == e.wnd
  {}

  /** The phases of a turn are always enabled. */
  lemma PhasesEnabled(total: nat, y: System, due: set<nat>)
    requires Safe(total, y)
    ensures Sound(y) && Enabled(y, Resending(due))
    ensures var y1 := Next(total, y, Resending(due));
            && Sound(y1) && Enabled(y1, Populating)
            && var y2 := Next(total, y1, Populating);
               Sound(y2) && Enabled(y2, SendingNew)
  {
    hide Next, Safe;
    SafeSound(total, y);
    NextSafe(total, y, Resending(due));
    var y1 := Next(total, y, Resending(due));
    SafeSound(total, y1);
    NextSafe(total, y1, Populating);
    SafeSound(total, Next(total, y1, Populating));
  }

  /** One more turn, packet and acknowledgement. */
  lemma OneMoreAck(total: nat, tr: seq<System>, es: seq<Event>, wnd: nat)
    returns (tr': seq<System>, es': seq<Event>)
    requires IsRun(total, tr, es) && |tr| == |es| + 1
    requires tr[|es|].client.acked < total && !Stuck(tr[|es|].client)
    ensures IsRun(total, tr', es') && |tr'| == |es'| + 1 && tr <= tr' && es <= es'
    ensures Advertises(es', |es|, wnd) && tr'[|es'|].client.wnd == wnd
    ensures tr'[|es'|].client.acked > tr[|es|].client.acked
  {
    hide IsRun, Safe, Sound, Enabled, Next, Stuck;
    var y := tr[|es|];
    var n := y.client.acked + 1;
    RunSafe(total, tr, es, |es|);
    IterationSafe(total, y, {n});
    IterationMakesProgress(total, y, {n}, wnd);
    PhasesEnabled(total, y, {n});
    tr', es' := RunMore(total, tr, es, Resending({n}));
    tr', es' := RunMore(total, tr', es', Populating);
    tr', es' := RunMore(total, tr', es', SendingNew);
    tr', es' := RunMore(total, tr', es', ServerRound([n]));
    var ack := ClientAck(tr'[|es'|].server.nxt - 1, wnd);
    AckWindow(total, tr'[|es'|], ack);
    tr', es' := RunMore(total, tr', es', ack);
  }

  /** Every run that has not left the client stuck can be continued until the whole flow is
      acknowledged, with acknowledgements that advertise any one window of at least 1. */
  lemma {:induction false} CanComplete(total: nat, tr: seq<System>, es: seq<Event>, wnd: nat)
    returns (tr': seq<System>, es': seq<Event>)
    requires IsRun(total, tr, es) && |tr| == |es| + 1 && !Stuck(tr[|es|].client) && wnd >= 1
    ensures IsRun(total, tr', es') && |tr'| == |es'| + 1 && tr <= tr' && es <= es'
    ensures Advertises(es', |es|, wnd) && tr'[|es'|].client.acked >= total
    decreases if tr[|es|].client.acked < total then total - tr[|es|].client.acked else 0
  {
    hide IsRun;
    if tr[|es|].client.acked >= total {
      tr', es' := tr, es;
    } else {
      var tr1, es1 := OneMoreAck(total, tr, es, wnd);
      tr', es' := CanComplete(total, tr1, es1, wnd);
      assert forall k :: |es| <= k < |es1| ==> es'[k] == es1[k];
    }
  }

  /** Only an acknowledgement frees a stuck client: every other event leaves it stuck and puts
      nothing new on the network. */
  lemma StuckStays(total: nat, y: System, e: Event)
    requires Sound(y) && Stuck(y.client) && !e.ClientAck?
    ensures Stuck(Next(total, y, e).client) && Next(total, y, e).client.acked == y.client.acked
    ensures Next(total, y, e).data == y.data
  {
    hide RingOk;
    assert Elements([]) == {};
  }

  function UpTo(n: nat): seq<nat> { seq(n, i => 1 + i) }

  lemma AllSent(n: nat)
    ensures forall m: nat :: m in Elements(UpTo(n)) <==> 1 <= m <= n
  {
    forall m: nat | 1 <= m <= n ensures m in UpTo(n) {
      assert UpTo(n)[m - 1] == m;
    }
  }

  lemma InitServerNext()
    ensures InitServer().nxt == 1
  {}

  /** A whole window in one burst is received and acknowledged in full. */
  lemma FullWindow(y: System) returns (z: System)
    requires Safe(200, y) && y.server == InitServer() && y.received == y.skipped == {} && y.stalls == 0
    requires forall m: nat :: m in y.data <==> 1 <= m <= BUF_SIZE
    ensures var burst := UpTo(BUF_SIZE);
            && Enabled(y, ServerRound(burst)) && z == Next(200, y, ServerRound(burst))
            && Safe(200, z) && z.server.nxt == BUF_SIZE + 1 && z.client == y.client && BUF_SIZE in z.acks
  {
    hide RingExact, RingOk, RecordAll, Respond, InitServer;
    var burst := UpTo(BUF_SIZE);
    AllSent(BUF_SIZE);
    assert burst[0] == 1;
    assert Enabled(y, ServerRound(burst));
    z := Next(200, y, ServerRound(burst));
    NextSafe(200, y, ServerRound(burst));
    RecordAllExact(y.server, y.received, burst);
    var received := y.received + Elements(burst);
    InitServerNext();
    RoundReaches(RecordAll(y.server, burst), received, BUF_SIZE + 1, BUF_SIZE + 1);
    assert z.stalls <= 1 && |z.skipped| == 0;
    assert BUF_SIZE + 1 !in z.received;
  }

  lemma FirstWindow()
    ensures var f := Client(0, 0, BUF_SIZE, BUF_SIZE);
            Sending(f) == UpTo(BUF_SIZE) && Send(f) == Client(0, BUF_SIZE, BUF_SIZE, BUF_SIZE)
  {}

  /** The client fills its window. */
  lemma Opened() returns (tr: seq<System>, es: seq<Event>)
    ensures IsRun(200, tr, es) && |tr| == |es| + 1 && Advertises(es, 0, 0)
    ensures var y := tr[|es|];
            && y.client == Client(0, BUF_SIZE, BUF_SIZE, BUF_SIZE) && y.server == InitServer()
            && y.received == y.skipped == {} && y.stalls == 0
            && forall m: nat :: m in y.data <==> 1 <= m <= BUF_SIZE
  {
    hide IsRun, RingOk, InitServer, Send, Sending, Elements;
    StartRun(200);
    tr, es := RunMore(200, [Start()], [], Populating);
    FirstWindow();
    AllSent(BUF_SIZE);
    tr, es := RunMore(200, tr, es, SendingNew);
  }

  /** Stuck clients exist: the acknowledgement of a whole window may close the window. */
  lemma StuckReachable()
    ensures exists tr: seq<System>, es: seq<Event> ::
              && IsRun(200, tr, es) && Advertises(es, 0, 0)
              && Stuck(tr[|es|].client) && tr[|es|].client.acked < 200
  {
    hide IsRun, RingOk, RecordAll, Respond, InitServer, Safe;
    var tr, es := Opened();
    RunSafe(200, tr, es, |es|);
    SafeSound(200, tr[|es|]);
    var z := FullWindow(tr[|es|]);
    SafeSound(200, z);
    tr, es := RunMore(200, tr, es, ServerRound(UpTo(BUF_SIZE)));
    tr, es := RunMore(200, tr, es, ClientAck(BUF_SIZE, 0));
  }

  /** The server advertises one window in all its acknowledgements. If it is not 0, the client is
      never stuck. */
  lemma {:induction false} NeverStuck(total: nat, tr: seq<System>, es: seq<Event>, wnd: nat, n: nat)
    requires IsRun(total, tr, es) && n <= |es| && Advertises(es, 0, wnd) && wnd >= 1
    ensures tr[n].client.wnd >= 1
  {
    hide Safe, Enabled, Stuck, RingOk;
    RunSafe(total, tr, es, n);
    if n == 0 {
    } else {
      NeverStuck(total, tr, es, wnd, n - 1);
      RunSafe(total, tr, es, n - 1);
      SafeSound(total, tr[n - 1]);
    }
  }

  /** With one advertised window, some client gets stuck before the end if and only if it is 0. */
  lemma StuckIffClosed(wnd: nat)
    ensures (exists total: nat, tr: seq<System>, es: seq<Event> ::
               && IsRun(total, tr, es) && Advertises(es, 0, wnd)
               && Stuck(tr[|es|].client) && tr[|es|].client.acked < total)
            <==> wnd == 0
  {
    hide IsRun, Advertises;
    if wnd == 0 {
      StuckReachable();
    } else {
      forall total: nat, tr: seq<System>, es: seq<Event> | IsRun(total, tr, es) && Advertises(es, 0, wnd)
        ensures |tr| == |es| + 1 && !Stuck(tr[|es|].client) {
        RunLength(total, tr, es);
        NeverStuck(total, tr, es, wnd, |es|);
      }
    }
  }
}

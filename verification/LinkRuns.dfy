/** The event-driven link computes the textbook departure-time recursion. */
module LinkRuns {
  import opened Packets
  import opened LinkSpec

  /** Traffic may be put on the event list at any time, for any time not in the past. */
  datatype Event = Inject(when: nat, pkt: Packet) | Tick

  ghost predicate Enabled(s: State, e: Event) {
    match e
    case Inject(when, _) => when >= s.now
    case Tick => s.pending != []
  }

  function Next(c: Config, s: State, e: Event): State
    requires Inv(c, s) && Enabled(s, e)
  {
    match e
    case Inject(when, p) => Schedule(s, when, Traffic(p))
    case Tick => Fire(c, s)
  }

  /** A run from time zero. `Next` is defined in every state it meets (RunInv). */
  ghost predicate IsRun(c: Config, tr: seq<State>, es: seq<Event>) {
    && |tr| == |es| + 1
    && tr[0] == Init()
    && forall k :: 0 <= k < |es| ==>
         Enabled(tr[k], es[k]) && (Inv(c, tr[k]) ==> tr[k + 1] == Next(c, tr[k], es[k]))
  }

  lemma FireClock(c: Config, s: State)
    requires Inv(c, s) && s.pending != []
    ensures Fire(c, s).now == s.pending[0].when >= s.now
  {}

  lemma NextInv(c: Config, s: State, e: Event)
    requires Inv(c, s) && Enabled(s, e)
    ensures Inv(c, Next(c, s, e)) && Next(c, s, e).now >= s.now
  {
    match e {
      case Inject(when, p) => ScheduleKeeps(s, when, Traffic(p));
      case Tick => FireInv(c, s); FireClock(c, s);
    }
  }

  lemma {:induction false} RunInv(c: Config, tr: seq<State>, es: seq<Event>, n: nat)
    requires IsRun(c, tr, es) && n <= |es|
    ensures Inv(c, tr[n])
    ensures n < |es| ==> tr[n + 1] == Next(c, tr[n], es[n])
  {
    if n == 0 {
    } else {
      hide Inv;
      RunInv(c, tr, es, n - 1);
      NextInv(c, tr[n - 1], es[n - 1]);
    }
  }

  lemma BusyOnce(c: Config, s: State)
    requires Inv(c, s)
    ensures |Times(s.pending, QueueDone)| == (if s.enqueued == [] then 0 else 1)
    ensures |Times(s.pending, PipeDone)| == (if s.inflight == [] then 0 else 1)
    ensures forall i :: 0 <= i < |s.pending| ==> s.pending[i].when >= s.now
  {}

  /** The clock never goes back, and a busy queue or pipe has exactly one event pending. */
  lemma {:induction false} OneEventEach(c: Config, tr: seq<State>, es: seq<Event>, a: nat, b: nat)
    requires IsRun(c, tr, es) && a <= b <= |es|
    ensures tr[a].now <= tr[b].now
    ensures |Times(tr[b].pending, QueueDone)| == (if tr[b].enqueued == [] then 0 else 1)
    ensures |Times(tr[b].pending, PipeDone)| == (if tr[b].inflight == [] then 0 else 1)
    ensures forall i :: 0 <= i < |tr[b].pending| ==> tr[b].pending[i].when >= tr[b].now
    decreases b
  {
    hide Inv, Next, Times;
    RunInv(c, tr, es, b);
    BusyOnce(c, tr[b]);
    if a == b {
    } else {
      OneEventEach(c, tr, es, a, b - 1);
      RunInv(c, tr, es, b - 1);
      NextInv(c, tr[b - 1], es[b - 1]);
    }
  }

  /** The event that a step fires, if it is due at `when`. */
  function FiredAt(s: State, e: Event, when: nat): seq<Pending> {
    if e.Tick? && s.pending != [] && s.pending[0].when == when then [s.pending[0]] else []
  }

  function FiredBetween(tr: seq<State>, es: seq<Event>, when: nat, a: nat, b: nat): seq<Pending>
    requires a <= b <= |es| < |tr|
    decreases b
  {
    if a == b then [] else FiredBetween(tr, es, when, a, b - 1) + FiredAt(tr[b - 1], es[b - 1], when)
  }

  lemma StepKeepsOrder(c: Config, s: State, e: Event, when: nat)
    requires Inv(c, s) && Enabled(s, e)
    ensures At(s.pending, when) <= FiredAt(s, e, when) + At(Next(c, s, e).pending, when)
  {
    hide Insert, Times, InflightOk, Fire;
    match e {
      case Inject(at, p) => ScheduleBehind(s, at, Traffic(p), when);
      case Tick => FireBehind(c, s, when);
    }
  }

  /** Events of one instant fire in the order in which they were scheduled: what is pending for it
      at `a` fires, in order, before anything scheduled for it later. */
  lemma {:induction false} SameInstantOrder(c: Config, tr: seq<State>, es: seq<Event>, when: nat, a: nat, b: nat)
    requires IsRun(c, tr, es) && a <= b <= |es|
    ensures At(tr[a].pending, when) <= FiredBetween(tr, es, when, a, b) + At(tr[b].pending, when)
    decreases b
  {
    hide Inv, Next, At, FiredAt;
    if a == b {
    } else {
      RunInv(c, tr, es, b - 1);
      SameInstantOrder(c, tr, es, when, a, b - 1);
      StepKeepsOrder(c, tr[b - 1], es[b - 1], when);
      Associative(FiredBetween(tr, es, when, a, b - 1), FiredAt(tr[b - 1], es[b - 1], when),
                  At(tr[b].pending, when));
    }
  }

  // ----- what the link has accepted, sent and delivered -----------------------------

  function Accepted(c: Config, s: State, e: Event): seq<Stamp> {
    if e.Tick? && s.pending != [] && s.pending[0].src.Traffic? && Accepts(c, s, s.pending[0].src.pkt)
    then [Stamp(s.pending[0].when, s.pending[0].src.pkt)] else []
  }

  function Departed(s: State, e: Event): seq<Stamp> {
    if e.Tick? && s.pending != [] && s.pending[0].src.QueueDone? && s.enqueued != []
    then [Stamp(s.pending[0].when, s.enqueued[0])] else []
  }

  function Exited(s: State, e: Event): seq<Stamp> {
    if e.Tick? && s.pending != [] && s.pending[0].src.PipeDone? && s.inflight != []
    then [Stamp(s.pending[0].when, s.inflight[0].pkt)] else []
  }

  function AllAccepted(c: Config, tr: seq<State>, es: seq<Event>, n: nat): seq<Stamp>
    requires n <= |es| < |tr|
  {
    if n == 0 then [] else AllAccepted(c, tr, es, n - 1) + Accepted(c, tr[n - 1], es[n - 1])
  }

  function AllDeparted(tr: seq<State>, es: seq<Event>, n: nat): seq<Stamp>
    requires n <= |es| < |tr|
  {
    if n == 0 then [] else AllDeparted(tr, es, n - 1) + Departed(tr[n - 1], es[n - 1])
  }

  function AllExited(tr: seq<State>, es: seq<Event>, n: nat): seq<Stamp>
    requires n <= |es| < |tr|
  {
    if n == 0 then [] else AllExited(tr, es, n - 1) + Exited(tr[n - 1], es[n - 1])
  }

  // ----- the closed form ------------------------------------------------------------

  /** Departure of the k-th accepted packet: it starts when it is there and its predecessor is gone. */
  function Departure(c: Config, arrivals: seq<Stamp>, k: nat): nat
    requires k < |arrivals|
  {
    var free := if k == 0 then 0 else Departure(c, arrivals, k - 1);
    var there := arrivals[k].time;
    (if free < there then there else free) + DrainTime(c, arrivals[k].pkt)
  }

  /** The queue and its history agree with the closed form. */
  ghost predicate QueueAgrees(c: Config, s: State, acc: seq<Stamp>, dep: seq<Stamp>) {
    && |dep| + |s.enqueued| == |acc|
    && (forall k :: 0 <= k < |dep| ==> dep[k] == Stamp(Departure(c, acc, k), acc[k].pkt))
    && (forall k :: 0 <= k < |s.enqueued| ==> s.enqueued[k] == acc[|dep| + k].pkt)
    && (s.enqueued != [] ==> Times(s.pending, QueueDone) == [Departure(c, acc, |dep|)])
    && (forall k :: 0 <= k < |acc| ==> acc[k].time <= s.now)
    && (forall k :: 0 <= k < |dep| ==> dep[k].time <= s.now)
  }

  /** The pipe has delivered a prefix of the departures, and holds the rest, each `delay` later. */
  ghost predicate PipeAgrees(c: Config, s: State, dep: seq<Stamp>, out: seq<Stamp>) {
    && |out| + |s.inflight| == |dep|
    && (forall k :: 0 <= k < |out| ==> out[k] == Stamp(dep[k].time + c.delay, dep[k].pkt))
    && (forall k :: 0 <= k < |s.inflight| ==>
          s.inflight[k] == Stamp(dep[|out| + k].time + c.delay, dep[|out| + k].pkt))
  }

  lemma {:induction false} DeparturePrefix(c: Config, a: seq<Stamp>, x: Stamp, k: nat)
    requires k < |a|
    ensures Departure(c, a + [x], k) == Departure(c, a, k)
  {
    if k == 0 {
    } else {
      DeparturePrefix(c, a, x, k - 1);
    }
  }

  /** An accepted packet joins the history with the departure time the recursion gives it. */
  lemma AcceptAgrees(c: Config, s: State, t: State, p: Packet, acc: seq<Stamp>, dep: seq<Stamp>)
    requires QueueAgrees(c, s, acc, dep) && s.now <= t.now && t.enqueued == s.enqueued + [p]
    requires Times(t.pending, QueueDone) ==
             if s.enqueued == [] then [t.now + DrainTime(c, p)] else Times(s.pending, QueueDone)
    ensures QueueAgrees(c, t, acc + [Stamp(t.now, p)], dep)
  {
    hide DrainTime, Times;
    var x := Stamp(t.now, p);
    forall k | 0 <= k < |acc| ensures Departure(c, acc + [x], k) == Departure(c, acc, k) {
      DeparturePrefix(c, acc, x, k);
    }
    if s.enqueued == [] {
      assert |acc| > 0 ==> dep[|acc| - 1].time <= s.now;
      assert Departure(c, acc + [x], |acc|) == t.now + DrainTime(c, p);
    }
  }

  lemma TrafficStep(c: Config, s: State, acc: seq<Stamp>, dep: seq<Stamp>)
    requires Inv(c, s) && s.pending != [] && s.pending[0].src.Traffic? && QueueAgrees(c, s, acc, dep)
    ensures QueueAgrees(c, Fire(c, s), acc + Accepted(c, s, Tick), dep)
  {
    hide Insert, DrainTime, Bytes, InflightOk, InOrder, Times, Departure;
    FireReady(c, s);
    var t, p := Pop(s), s.pending[0].src.pkt;
    if Accepts(c, s, p) {
      ScheduleKeeps(t, t.now + DrainTime(c, p), QueueDone);
      AcceptAgrees(c, s, Fire(c, s), p, acc, dep);
    } else {
      assert acc + [] == acc;
    }
  }

  lemma InflightOkFrame(c: Config, s: State, t: State)
    requires InflightOk(c, s) && s.now == t.now && s.inflight == t.inflight
    ensures InflightOk(c, t)
  {}

  lemma QueueStep(c: Config, s: State, acc: seq<Stamp>, dep: seq<Stamp>)
    requires Inv(c, s) && s.pending != [] && s.pending[0].src.QueueDone? && QueueAgrees(c, s, acc, dep)
    ensures QueueAgrees(c, Fire(c, s), acc, dep + Departed(s, Tick))
  {
    hide Insert, DrainTime, Bytes, InflightOk, PipeReceive, InOrder, Times;
    FireReady(c, s);
    var t, p := Pop(s), s.enqueued[0];
    var u := t.(enqueued := t.enqueued[1..], queuesize := t.queuesize - p.size);
    InflightOkFrame(c, t, u);
    PipeReceiveKeeps(c, u, p);
    var v := PipeReceive(c, u, p);
    if v.enqueued != [] {
      ScheduleKeeps(v, v.now + DrainTime(c, v.enqueued[0]), QueueDone);
      assert acc[|dep| + 1].time <= t.now;
    }
  }

  /** Events of the other sources leave the queue's pending event alone. */
  lemma QueueUntouched(c: Config, s: State, e: Event, acc: seq<Stamp>, dep: seq<Stamp>)
    requires Inv(c, s) && Enabled(s, e) && QueueAgrees(c, s, acc, dep)
    requires e.Inject? || s.pending[0].src.PipeDone?
    ensures QueueAgrees(c, Next(c, s, e), acc, dep)
  {
    hide Insert, Bytes, Departure, Times;
    match e {
      case Inject(when, p) =>
        ScheduleKeeps(s, when, Traffic(p));
      case Tick =>
        FireReady(c, s);
        var t := Pop(s).(inflight := s.inflight[1..]);
        if t.inflight != [] {
          ScheduleKeeps(t, t.inflight[0].time, PipeDone);
        }
    }
  }

  lemma StepQueue(c: Config, s: State, e: Event, acc: seq<Stamp>, dep: seq<Stamp>)
    requires Inv(c, s) && Enabled(s, e) && QueueAgrees(c, s, acc, dep)
    ensures QueueAgrees(c, Next(c, s, e), acc + Accepted(c, s, e), dep + Departed(s, e))
  {
    if e.Tick? { FireReady(c, s); }
    hide QueueAgrees, Inv;
    assert acc + [] == acc && dep + [] == dep;
    if e.Inject? || s.pending[0].src.PipeDone? {
      QueueUntouched(c, s, e, acc, dep);
    } else if s.pending[0].src.QueueDone? {
      QueueStep(c, s, acc, dep);
    } else {
      TrafficStep(c, s, acc, dep);
    }
  }

  lemma StepPipe(c: Config, s: State, e: Event, dep: seq<Stamp>, out: seq<Stamp>)
    requires Inv(c, s) && Enabled(s, e) && PipeAgrees(c, s, dep, out)
    ensures PipeAgrees(c, Next(c, s, e), dep + Departed(s, e), out + Exited(s, e))
  {
    hide Insert, Bytes, Times, DrainTime, InOrder;
    if e.Tick? {
      FireReady(c, s);
    }
  }

  /** The closed form: on every run, the k-th accepted packet leaves the queue at
      max(its arrival, its predecessor's departure) plus its drain time, and leaves the
      pipe, in the same order, exactly `delay` later. */
  lemma {:induction false} ClosedForm(c: Config, tr: seq<State>, es: seq<Event>, n: nat)
    requires IsRun(c, tr, es) && n <= |es|
    ensures QueueAgrees(c, tr[n], AllAccepted(c, tr, es, n), AllDeparted(tr, es, n))
    ensures PipeAgrees(c, tr[n], AllDeparted(tr, es, n), AllExited(tr, es, n))
  {
    if n == 0 {
    } else {
      hide QueueAgrees, PipeAgrees, Inv, Next;
      ClosedForm(c, tr, es, n - 1);
      RunInv(c, tr, es, n - 1);
      var s, e := tr[n - 1], es[n - 1];
      assert tr[n - 1 + 1] == Next(c, s, e);
      StepQueue(c, s, e, AllAccepted(c, tr, es, n - 1), AllDeparted(tr, es, n - 1));
      StepPipe(c, s, e, AllDeparted(tr, es, n - 1), AllExited(tr, es, n - 1));
    }
  }

  /** End to end: the k-th packet out of the pipe is the k-th one accepted, on time. */
  lemma DeliveredOnTime(c: Config, tr: seq<State>, es: seq<Event>, n: nat, k: nat)
    requires IsRun(c, tr, es) && n <= |es| && k < |AllExited(tr, es, n)|
    ensures var acc := AllAccepted(c, tr, es, n);
            k < |acc| && AllExited(tr, es, n)[k] == Stamp(Departure(c, acc, k) + c.delay, acc[k].pkt)
  {
    ClosedForm(c, tr, es, n);
  }
}

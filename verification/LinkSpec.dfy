/** An event-driven link: the event list, a FIFO queue and the delay pipe it feeds. */
module LinkSpec {
  import opened Packets

  /** Who is waiting for an event: the queue, the pipe, or traffic about to arrive. */
  datatype Source = QueueDone | PipeDone | Traffic(pkt: Packet)

  datatype Pending = Pending(when: nat, src: Source)

  datatype Stamp = Stamp(time: nat, pkt: Packet)

  datatype Config = Config(maxsize: nat, psPerByte: nat, delay: nat)

  datatype State = State(
    now: nat,
    pending: seq<Pending>,     // ordered multimap
    enqueued: seq<Packet>,     // the first one is in service
    queuesize: nat,
    inflight: seq<Stamp>)      // packets in the pipe with their exit times

  function Init(): State { State(0, [], [], 0, []) }

  // ----- the invariant --------------------------------------------------------------

  predicate SameKind(a: Source, b: Source) {
    (a.QueueDone? && b.QueueDone?) || (a.PipeDone? && b.PipeDone?) || (a.Traffic? && b.Traffic?)
  }

  /** Times at which sources of one kind are pending. */
  function Times(ps: seq<Pending>, kind: Source): seq<nat> {
    if ps == [] then []
    else (if SameKind(ps[0].src, kind) then [ps[0].when] else []) + Times(ps[1..], kind)
  }

  ghost predicate InOrder(ps: seq<Pending>, now: nat) {
    && (forall i :: 0 <= i < |ps| ==> now <= ps[i].when)
    && (forall i, j :: 0 <= i < j < |ps| ==> ps[i].when <= ps[j].when)
  }

  ghost predicate InflightOk(c: Config, s: State) {
    && (forall i :: 0 <= i < |s.inflight| ==> s.now <= s.inflight[i].time <= s.now + c.delay)
    && (forall i, j :: 0 <= i < j < |s.inflight| ==> s.inflight[i].time <= s.inflight[j].time)
  }

  /** The clock never has to go back, and each busy element has exactly one pending event. */
  ghost predicate Inv(c: Config, s: State) {
    && InOrder(s.pending, s.now)
    && InflightOk(c, s)
    && s.queuesize == Bytes(s.enqueued) <= c.maxsize
    && |Times(s.pending, QueueDone)| == (if s.enqueued == [] then 0 else 1)
    && Times(s.pending, PipeDone) == (if s.inflight == [] then [] else [s.inflight[0].time])
  }

  // ----- the steps ----------------------------------------------------------------

  /** Multimap insertion: after every entry that is not later. */
  function Insert(ps: seq<Pending>, e: Pending): seq<Pending> {
    if ps == [] || ps[0].when > e.when then [e] + ps else [ps[0]] + Insert(ps[1..], e)
  }

  function Schedule(s: State, when: nat, src: Source): State {
    s.(pending := Insert(s.pending, Pending(when, src)))
  }

  function DrainTime(c: Config, p: Packet): nat { p.size * c.psPerByte }

  function QueueBegin(c: Config, s: State): State
    requires s.enqueued != []
  {
    Schedule(s, s.now + DrainTime(c, s.enqueued[0]), QueueDone)
  }

  predicate Accepts(c: Config, s: State, p: Packet) { s.queuesize + p.size <= c.maxsize }

  function QueueReceive(c: Config, s: State, p: Packet): State {
    if !Accepts(c, s, p) then s
    else
      var t := s.(enqueued := s.enqueued + [p], queuesize := s.queuesize + p.size);
      if s.enqueued == [] then QueueBegin(c, t) else t
  }

  function PipeReceive(c: Config, s: State, p: Packet): State {
    var t := if s.inflight == [] then Schedule(s, s.now + c.delay, PipeDone) else s;
    t.(inflight := s.inflight + [Stamp(s.now + c.delay, p)])
  }

  /** The packet in service enters the pipe before the next one begins. */
  function QueueComplete(c: Config, s: State): State
    requires s.enqueued != [] && s.queuesize >= s.enqueued[0].size
  {
    var p := s.enqueued[0];
    var t := PipeReceive(c, s.(enqueued := s.enqueued[1..], queuesize := s.queuesize - p.size), p);
    if t.enqueued == [] then t else QueueBegin(c, t)
  }

  function PipeEmit(s: State): State {
    if s.inflight == [] then s
    else
      var t := s.(inflight := s.inflight[1..]);
      if t.inflight == [] then t else Schedule(t, t.inflight[0].time, PipeDone)
  }

  /** Advance the clock to the first pending event. */
  function Pop(s: State): State
    requires s.pending != []
  {
    s.(now := s.pending[0].when, pending := s.pending[1..])
  }

  /** The packet the pipe delivers when the first event fires. */
  function Delivered(s: State): Option<Packet>
    requires s.pending != []
  {
    if s.pending[0].src.PipeDone? && s.inflight != [] then Some(s.inflight[0].pkt) else None
  }

  // ----- lemmas ---------------------------------------------------------------------

  lemma {:induction false} InsertOrdered(ps: seq<Pending>, e: Pending, now: nat)
    requires InOrder(ps, now) && now <= e.when
    ensures InOrder(Insert(ps, e), now)
    ensures forall x :: x in Insert(ps, e) <==> x == e || x in ps
  {
    if ps == [] || ps[0].when > e.when {
    } else {
      InsertOrdered(ps[1..], e, now);
      var r := Insert(ps[1..], e);
      assert Insert(ps, e) == [ps[0]] + r && ps == [ps[0]] + ps[1..];
      forall j | 0 <= j < |r| ensures ps[0].when <= r[j].when {
        assert r[j] in r;
      }
    }
  }

  /** The events pending for one instant, in the order in which they will fire. */
  function At(ps: seq<Pending>, when: nat): seq<Pending> {
    if ps == [] then []
    else (if ps[0].when == when then [ps[0]] else []) + At(ps[1..], when)
  }

  lemma {:induction false} NoneAt(ps: seq<Pending>, when: nat)
    requires forall i :: 0 <= i < |ps| ==> ps[i].when > when
    ensures At(ps, when) == []
  {
    if ps == [] {
    } else {
      NoneAt(ps[1..], when);
    }
  }

  /** An event goes behind those pending for the same instant, and no other instant notices. */
  lemma {:induction false} InsertAtEnd(ps: seq<Pending>, e: Pending, now: nat, when: nat)
    requires InOrder(ps, now)
    ensures At(Insert(ps, e), when) == At(ps, when) + (if e.when == when then [e] else [])
  {
    if ps == [] {
    } else if ps[0].when > e.when {
      assert ([e] + ps)[1..] == ps;
      if e.when == when {
        NoneAt(ps, when);
      }
    } else {
      InsertAtEnd(ps[1..], e, now, when);
      var h := if ps[0].when == when then [ps[0]] else [];
      assert At(Insert(ps, e), when) == h + At(Insert(ps[1..], e), when);
      assert h + (At(ps[1..], when) + []) == (h + At(ps[1..], when)) + [];
    }
  }

  /** Inserting one event of a kind that is not pending makes it the only one. */
  lemma {:induction false} InsertTimes(ps: seq<Pending>, e: Pending, kind: Source)
    ensures Times(ps, kind) == [] && SameKind(e.src, kind) ==> Times(Insert(ps, e), kind) == [e.when]
    ensures !SameKind(e.src, kind) ==> Times(Insert(ps, e), kind) == Times(ps, kind)
  {
    if !(ps == [] || ps[0].when > e.when) {
      InsertTimes(ps[1..], e, kind);
    } else {
      assert ([e] + ps)[1..] == ps;
      assert Times([e] + ps, kind)
             == (if SameKind(e.src, kind) then [e.when] else []) + Times(ps, kind);
    }
  }

  /** Scheduling at or after `now` keeps the clock's assertion true and touches one kind only. */
  lemma ScheduleKeeps(s: State, when: nat, src: Source)
    requires InOrder(s.pending, s.now) && s.now <= when
    ensures var t := Schedule(s, when, src);
            && InOrder(t.pending, s.now)
            && (forall k :: !SameKind(src, k) ==> Times(t.pending, k) == Times(s.pending, k))
            && (Times(s.pending, src) == [] ==> Times(t.pending, src) == [when])
  {
    InsertOrdered(s.pending, Pending(when, src), s.now);
    forall k ensures !SameKind(src, k) ==>
                       Times(Schedule(s, when, src).pending, k) == Times(s.pending, k) {
      InsertTimes(s.pending, Pending(when, src), k);
    }
    InsertTimes(s.pending, Pending(when, src), src);
  }

  /** Scheduling leaves the events already pending for an instant in front. */
  lemma ScheduleBehind(s: State, at: nat, src: Source, when: nat)
    requires InOrder(s.pending, s.now) && s.now <= at
    ensures InOrder(Schedule(s, at, src).pending, s.now)
    ensures At(s.pending, when) <= At(Schedule(s, at, src).pending, when)
  {
    hide InOrder, Insert;
    InsertOrdered(s.pending, Pending(at, src), s.now);
    InsertAtEnd(s.pending, Pending(at, src), s.now, when);
  }

  lemma {:induction false} TimesAtLeast(ps: seq<Pending>, kind: Source, lo: nat)
    requires forall i :: 0 <= i < |ps| ==> lo <= ps[i].when
    ensures forall i :: 0 <= i < |Times(ps, kind)| ==> lo <= Times(ps, kind)[i]
  {
    if ps == [] {
    } else {
      TimesAtLeast(ps[1..], kind, lo);
    }
  }

  lemma PopInOrder(ps: seq<Pending>, now: nat)
    requires InOrder(ps, now) && ps != []
    ensures ps[0].when >= now && InOrder(ps[1..], ps[0].when)
  {}

  /** Removing the first event removes its time, which no other event precedes. */
  lemma PopTimes(ps: seq<Pending>, now: nat, kind: Source)
    requires InOrder(ps, now) && ps != []
    ensures Times(ps, kind) == (if SameKind(ps[0].src, kind) then [ps[0].when] else []) + Times(ps[1..], kind)
    ensures Times(ps, kind) != [] ==> Times(ps, kind)[0] >= ps[0].when
  {
    TimesAtLeast(ps, kind, ps[0].when);
  }

  /** The clock does not pass the exit time of a packet in the pipe. */
  lemma PopInflight(c: Config, s: State)
    requires InflightOk(c, s) && s.pending != [] && s.now <= s.pending[0].when
    requires s.inflight != [] ==> s.pending[0].when <= s.inflight[0].time
    ensures InflightOk(c, Pop(s))
  {}

  /** What the source of the first event may rely on when it runs. */
  lemma FireReady(c: Config, s: State)
    requires Inv(c, s) && s.pending != []
    ensures var e, t := s.pending[0], Pop(s);
            && e.when >= s.now
            && InOrder(t.pending, t.now) && InflightOk(c, t)
            && (e.src.QueueDone? ==> s.enqueued != [] && s.queuesize >= s.enqueued[0].size
                                     && Times(t.pending, QueueDone) == []
                                     && Times(s.pending, QueueDone) == [e.when])
            && (e.src.PipeDone? ==> s.inflight != [] && s.inflight[0].time == e.when
                                    && Times(t.pending, PipeDone) == [])
            && (!e.src.QueueDone? ==> Times(t.pending, QueueDone) == Times(s.pending, QueueDone))
            && (!e.src.PipeDone? ==> Times(t.pending, PipeDone) == Times(s.pending, PipeDone))
  {
    hide Times, InOrder, InflightOk;
    PopInOrder(s.pending, s.now);
    PopTimes(s.pending, s.now, QueueDone);
    PopTimes(s.pending, s.now, PipeDone);
    PopInflight(c, s);
  }

  function Fire(c: Config, s: State): State
    requires Inv(c, s) && s.pending != []
  {
    FireReady(c, s);
    match s.pending[0].src
    case QueueDone => QueueComplete(c, Pop(s))
    case PipeDone => PipeEmit(Pop(s))
    case Traffic(p) => QueueReceive(c, Pop(s), p)
  }

  lemma PipeReceiveKeeps(c: Config, s: State, p: Packet)
    requires InOrder(s.pending, s.now) && InflightOk(c, s)
    requires Times(s.pending, PipeDone) == (if s.inflight == [] then [] else [s.inflight[0].time])
    ensures var t := PipeReceive(c, s, p);
            && InOrder(t.pending, t.now) && InflightOk(c, t)
            && Times(t.pending, PipeDone) == [t.inflight[0].time]
            && Times(t.pending, QueueDone) == Times(s.pending, QueueDone)
            && t.now == s.now && t.enqueued == s.enqueued && t.queuesize == s.queuesize
            && t.inflight == s.inflight + [Stamp(s.now + c.delay, p)]
  {
    hide Insert, Times;
    ScheduleKeeps(s, s.now + c.delay, PipeDone);
  }

  lemma QueueReceiveInv(c: Config, s: State, p: Packet)
    requires Inv(c, s)
    ensures Inv(c, QueueReceive(c, s, p))
  {
    hide Times, Insert, DrainTime, InOrder;
    if Accepts(c, s, p) {
      BytesConcat(s.enqueued, [p]);
      ScheduleKeeps(s, s.now + DrainTime(c, p), QueueDone);
    }
  }

  lemma QueueCompleteInv(c: Config, s: State)
    requires InOrder(s.pending, s.now) && InflightOk(c, s)
    requires s.enqueued != [] && s.queuesize == Bytes(s.enqueued) <= c.maxsize
    requires Times(s.pending, QueueDone) == []
    requires Times(s.pending, PipeDone) == (if s.inflight == [] then [] else [s.inflight[0].time])
    ensures Inv(c, QueueComplete(c, s))
  {
    hide DrainTime, Insert, Times, PipeReceive, InOrder;
    var p := s.enqueued[0];
    var u := s.(enqueued := s.enqueued[1..], queuesize := s.queuesize - p.size);
    PipeReceiveKeeps(c, u, p);
    var t := PipeReceive(c, u, p);
    if t.enqueued != [] {
      ScheduleKeeps(t, t.now + DrainTime(c, t.enqueued[0]), QueueDone);
    }
  }

  lemma PipeEmitInv(c: Config, s: State)
    requires InOrder(s.pending, s.now) && InflightOk(c, s)
    requires s.queuesize == Bytes(s.enqueued) <= c.maxsize
    requires |Times(s.pending, QueueDone)| == (if s.enqueued == [] then 0 else 1)
    requires s.inflight != [] && Times(s.pending, PipeDone) == []
    ensures Inv(c, PipeEmit(s))
  {
    var t := s.(inflight := s.inflight[1..]);
    if t.inflight != [] {
      ScheduleKeeps(t, t.inflight[0].time, PipeDone);
    }
  }

  /** Firing the first event keeps the invariant; in particular no clock assertion fails. */
  lemma FireInv(c: Config, s: State)
    requires Inv(c, s) && s.pending != []
    ensures Inv(c, Fire(c, s))
  {
    FireReady(c, s);
    var t := Pop(s);
    match s.pending[0].src {
      case QueueDone => QueueCompleteInv(c, t);
      case PipeDone => PipeEmitInv(c, t);
      case Traffic(p) => QueueReceiveInv(c, t, p);
    }
  }

  /** Whatever the first event's source schedules goes behind what is already pending for that time. */
  lemma FireBehind(c: Config, s: State, when: nat)
    requires Inv(c, s) && s.pending != []
    ensures At(s.pending[1..], when) <= At(Fire(c, s).pending, when)
  {
    hide At, Times, Insert, InOrder, DrainTime, Bytes;
    FireReady(c, s);
    var t := Pop(s);
    match s.pending[0].src {
      case QueueDone =>
        var p := t.enqueued[0];
        var u := t.(enqueued := t.enqueued[1..], queuesize := t.queuesize - p.size);
        if u.inflight == [] {
          ScheduleBehind(u, u.now + c.delay, PipeDone, when);
        }
        var v := PipeReceive(c, u, p);
        if v.enqueued != [] {
          ScheduleBehind(v, v.now + DrainTime(c, v.enqueued[0]), QueueDone, when);
        }
      case PipeDone =>
        var u := t.(inflight := t.inflight[1..]);
        if u.inflight != [] {
          assert InflightOk(c, t);
          ScheduleBehind(u, u.inflight[0].time, PipeDone, when);
        }
      case Traffic(p) =>
        var u := t.(enqueued := t.enqueued + [p], queuesize := t.queuesize + p.size);
        ScheduleBehind(u, u.now + DrainTime(c, u.enqueued[0]), QueueDone, when);
    }
  }
}

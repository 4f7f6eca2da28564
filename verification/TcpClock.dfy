/** Runs that keep to the sender's own timer schedule and to a network that takes 100
    microseconds each way and delivers no packet twice. */
module TcpClock {
  import opened Htsim
  import opened TcpSpec
  import opened TcpRuns
  import opened TcpProgress

  const DELAY: nat := 100_000_000   // picoseconds one way

  /** When the sender's periodic event is due, what each side has received, and when each
      acknowledgement was first sent. */
  datatype Clock = Clock(due: nat, heard: set<Data>, taken: set<Ack>, born: map<Ack, nat>)

  function Begin(c: Config): Clock { Clock(c.startTime, {}, {}, map[]) }

  /** Nothing is late for the periodic event, and nothing arrives twice or before its time. */
  ghost predicate OnTime(w: Clock, e: Event) {
    && e.at <= w.due
    && match e
       case Tick(at) => at == w.due
       case DeliverData(d, at) => d !in w.heard && at >= d.ts + DELAY
       case DeliverAck(a, at) => a !in w.taken && a in w.born && at >= w.born[a] + DELAY
  }

  /** The clock after event `e`, which has led to `z`. The periodic event runs again after the
      delay that `TcpSrc.DoNextEvent` returns. */
  function Advance(w: Clock, z: System, e: Event): Clock {
    match e
    case Tick(at) => w.(due := at + (if z.src.rtt != 0 then z.src.rtt else MIN_RTO))
    case DeliverData(d, at) =>
      var a := Ack(z.sink.cumulativeAck, d.ts);
      w.(heard := w.heard + {d}, born := if a in w.born then w.born else w.born[a := at])
    case DeliverAck(a, _) => w.(taken := w.taken + {a})
  }

  ghost predicate IsTimedRun(c: Config, tr: seq<System>, ws: seq<Clock>, es: seq<Event>) {
    && IsRun(c, tr, es)
    && |ws| == |tr| == |es| + 1
    && ws[0] == Begin(c)
    && forall k :: 0 <= k < |es| ==>
         OnTime(ws[k], es[k]) && ws[k + 1] == Advance(ws[k], tr[k + 1], es[k])
  }

  /** Some timed run leads here. */
  ghost predicate Reachable(c: Config, y: System, w: Clock) {
    exists tr, ws, es :: IsTimedRun(c, tr, ws, es) && tr[|es|] == y && ws[|es|] == w
  }

  /** Take one more event. */
  lemma Step(c: Config, y: System, w: Clock, e: Event) returns (z: System, v: Clock)
    requires Reachable(c, y, w) && Enabled(y, e) && OnTime(w, e) && y.src.ssthresh > 0
    ensures z == Next(c, y, e) && v == Advance(w, z, e) && Reachable(c, z, v)
  {
    hide Next, Enabled, OnTime, Advance, IsRun;
    var tr, ws, es :| IsTimedRun(c, tr, ws, es) && tr[|es|] == y && ws[|es|] == w;
    var tr', es' := RunMore(c, tr, es, e);
    z := Next(c, y, e);
    v := Advance(w, z, e);
    var ws' := ws + [v];
    assert IsTimedRun(c, tr', ws', es') && tr'[|es'|] == z && ws'[|es'|] == v;
  }
}

/** All flows of the DPDK client and server together. A burst of the server's receive loop
    mixes packets of several flows; what each flow sees is a run of its own. */
module SlidingWindowFlows {
  import opened SlidingWindowSpec
  import opened SlidingWindowRuns

  /** A phase of the client for one flow, an acknowledgement, or a burst at the server. */
  datatype JointEvent =
    | Phase(fid: nat, e: Event)
    | Burst(packets: seq<FlowPacket>)

  ghost predicate JointEnabled(ys: seq<System>, j: JointEvent) {
    match j
    case Phase(fid, e) => fid < |ys| && !e.ServerRound? && Enabled(ys[fid], e)
    case Burst(ps) => forall i :: 0 <= i < |ps| ==> ps[i].fid < |ys| && ps[i].seqno in ys[ps[i].fid].data
  }

  /** What event `j` is for flow `f`, if it takes part. */
  function Part(j: JointEvent, f: nat): seq<Event> {
    match j
    case Phase(fid, e) => if fid == f then [e] else []
    case Burst(ps) => if SeqsOf(ps, f) == [] then [] else [ServerRound(SeqsOf(ps, f))]
  }

  ghost predicate AllSound(ys: seq<System>) {
    forall f :: 0 <= f < |ys| ==> Sound(ys[f])
  }

  function JointNext(total: nat, ys: seq<System>, j: JointEvent): seq<System>
    requires AllSound(ys)
  {
    seq(|ys|, f requires 0 <= f < |ys| =>
      if Part(j, f) == [] then ys[f] else Next(total, ys[f], Part(j, f)[0]))
  }

  /** A run of `flows` flows. `JointNext` is defined in every state it meets (JointSafe). */
  ghost predicate IsJointRun(total: nat, flows: nat, jtr: seq<seq<System>>, js: seq<JointEvent>) {
    && |jtr| == |js| + 1
    && jtr[0] == seq(flows, _ => Start())
    && (forall k :: 0 <= k < |jtr| ==> |jtr[k]| == flows)
    && forall k :: 0 <= k < |js| ==>
         JointEnabled(jtr[k], js[k]) && (AllSound(jtr[k]) ==> jtr[k + 1] == JointNext(total, jtr[k], js[k]))
  }

  lemma {:induction false} SeqsMember(ps: seq<FlowPacket>, f: nat, n: nat)
    ensures n in SeqsOf(ps, f) <==> FlowPacket(f, n) in ps
  {
    if ps == [] {
    } else {
      var k := |ps| - 1;
      SeqsMember(ps[..k], f, n);
      assert ps == ps[..k] + [ps[k]];
    }
  }

  /** A flow's part of an enabled event is enabled for the flow. */
  lemma PartEnabled(ys: seq<System>, j: JointEvent, f: nat)
    requires JointEnabled(ys, j) && f < |ys| && Part(j, f) != []
    ensures Enabled(ys[f], Part(j, f)[0])
  {
    if j.Burst? {
      var ns := SeqsOf(j.packets, f);
      forall i | 0 <= i < |ns| ensures ns[i] in ys[f].data {
        SeqsMember(j.packets, f, ns[i]);
        var k :| 0 <= k < |j.packets| && j.packets[k] == FlowPacket(f, ns[i]);
      }
    }
  }

  lemma JointStepSafe(total: nat, ys: seq<System>, j: JointEvent)
    requires JointEnabled(ys, j) && forall f :: 0 <= f < |ys| ==> Safe(total, ys[f])
    ensures AllSound(ys) && forall f :: 0 <= f < |ys| ==> Safe(total, JointNext(total, ys, j)[f])
  {
    hide Safe, Next, JointEnabled, Part, Sound;
    forall f | 0 <= f < |ys| ensures Sound(ys[f]) {
      SafeSound(total, ys[f]);
    }
    forall f | 0 <= f < |ys| ensures Safe(total, JointNext(total, ys, j)[f]) {
      if Part(j, f) != [] {
        PartEnabled(ys, j, f);
        NextSafe(total, ys[f], Part(j, f)[0]);
      }
    }
  }

  /** Every flow is safe in every state of every joint run. */
  lemma {:induction false} JointSafe(total: nat, flows: nat, jtr: seq<seq<System>>, js: seq<JointEvent>, n: nat)
    requires IsJointRun(total, flows, jtr, js) && n <= |js|
    ensures |jtr[n]| == flows && forall f :: 0 <= f < flows ==> Safe(total, jtr[n][f])
    ensures n < |js| ==> AllSound(jtr[n]) && jtr[n + 1] == JointNext(total, jtr[n], js[n])
  {
    hide Safe, JointNext, JointEnabled, Sound;
    if n == 0 {
      StartSafe(total);
    } else {
      JointSafe(total, flows, jtr, js, n - 1);
      JointStepSafe(total, jtr[n - 1], js[n - 1]);
    }
    forall f | 0 <= f < flows ensures Sound(jtr[n][f]) {
      SafeSound(total, jtr[n][f]);
    }
  }

  /** The events flow `f` takes part in. */
  function EventsOf(js: seq<JointEvent>, f: nat, n: nat): seq<Event>
    requires n <= |js|
  {
    if n == 0 then [] else EventsOf(js, f, n - 1) + Part(js[n - 1], f)
  }

  /** The states flow `f` passes through. */
  function StatesOf(jtr: seq<seq<System>>, js: seq<JointEvent>, f: nat, n: nat): seq<System>
    requires n <= |js| < |jtr| && forall k :: 0 <= k < |jtr| ==> f < |jtr[k]|
  {
    if n == 0 then [jtr[0][f]]
    else
      StatesOf(jtr, js, f, n - 1) + (if Part(js[n - 1], f) == [] then [] else [jtr[n][f]])
  }

  lemma PartSingle(j: JointEvent, f: nat)
    requires Part(j, f) != []
    ensures Part(j, f) == [Part(j, f)[0]]
  {}

  /** Flows do not disturb each other: what a flow goes through in a joint run is a run of its
      own, so every theorem about one flow holds for each of them. */
  lemma {:induction false} FlowsAreIndependent(total: nat, flows: nat, jtr: seq<seq<System>>,
                                               js: seq<JointEvent>, f: nat, n: nat)
    requires IsJointRun(total, flows, jtr, js) && n <= |js| && f < flows
    ensures var tr, es := StatesOf(jtr, js, f, n), EventsOf(js, f, n);
            IsRun(total, tr, es) && |tr| == |es| + 1 && tr[|es|] == jtr[n][f]
  {
    hide IsRun, Safe, JointEnabled, Part, Next, Sound;
    if n == 0 {
      StartRun(total);
    } else {
      FlowsAreIndependent(total, flows, jtr, js, f, n - 1);
      JointSafe(total, flows, jtr, js, n - 1);
      var tr, es := StatesOf(jtr, js, f, n - 1), EventsOf(js, f, n - 1);
      if Part(js[n - 1], f) == [] {
        assert tr + [] == tr && es + [] == es;
      } else {
        PartEnabled(jtr[n - 1], js[n - 1], f);
        PartSingle(js[n - 1], f);
        var tr', es' := RunMore(total, tr, es, Part(js[n - 1], f)[0]);
      }
    }
  }

  /** When the client's main loop ends, every packet of every flow arrived or was skipped; of a
      flow with fewer than ten stalled rounds, every packet arrived. */
  lemma JointCompletion(total: nat, flows: nat, jtr: seq<seq<System>>, js: seq<JointEvent>, n: nat)
    requires IsJointRun(total, flows, jtr, js) && n <= |js|
    requires !exists f :: 0 <= f < |jtr[n]| && jtr[n][f].client.acked < total
    ensures forall f :: 0 <= f < |jtr[n]| ==>
              && (forall m: nat :: 1 <= m <= total ==> m in jtr[n][f].received || m in jtr[n][f].skipped)
              && (jtr[n][f].stalls < 10 ==> forall m: nat :: 1 <= m <= total ==> m in jtr[n][f].received)
  {
    forall f | 0 <= f < |jtr[n]|
      ensures forall m: nat :: 1 <= m <= total ==> m in jtr[n][f].received || m in jtr[n][f].skipped
      ensures jtr[n][f].stalls < 10 ==> forall m: nat :: 1 <= m <= total ==> m in jtr[n][f].received {
      FlowsAreIndependent(total, flows, jtr, js, f, n);
      var tr, es := StatesOf(jtr, js, f, n), EventsOf(js, f, n);
      Completion(total, tr, es, |es|);
    }
  }
}

/** The flows of `AprxFairQueue`: exactly which packets are queued, and what its hash means for
    the accuracy of the sketch and for fairness. */
module AprxFairQueueFlows {
  import opened Packets
  import opened Arithmetic
  import opened AprxFairQueueSpec
  import opened AprxFairQueueRuns

  /** The packet fits the buffer, and its flow is not charged beyond the calendar. */
  predicate Fits(c: Config, s: State, p: Packet)
    requires Shape(c, s)
  {
    && s.queuesize + p.size <= c.maxsize
    && Estimate(c, s.sketch, p.flow) < (s.nRounds + c.nQueue) * c.bytesPerRound
  }

  /** The packets of `f` that fitted when they arrived. */
  function FittingOf(c: Config, tr: seq<State>, es: seq<Event>, f: nat, n: nat): seq<Packet>
    requires IsRun(c, tr, es) && n <= |es|
  {
    if n == 0 then []
    else
      RunInv(c, tr, es, n - 1);
      FittingOf(c, tr, es, f, n - 1) +
      (if es[n - 1].Arrive? && es[n - 1].pkt.flow == f && Fits(c, tr[n - 1], es[n - 1].pkt)
       then [es[n - 1].pkt] else [])
  }

  lemma AcceptsExactly(c: Config, s: State, p: Packet)
    requires Shape(c, s)
    ensures Accepts(c, s, p) <==> Fits(c, s, p)
  {
    hide Estimate;
    RoundsAhead(Estimate(c, s.sketch, p.flow), c.bytesPerRound, s.nRounds, c.nQueue);
  }

  /** On every run the calendar takes exactly the packets that fit, in the order they arrive. */
  lemma {:induction false} TakenExactly(c: Config, tr: seq<State>, es: seq<Event>, f: nat, n: nat)
    requires IsRun(c, tr, es) && n <= |es|
    ensures var taken, fitting := AllTaken(c, tr, es, f, n), FittingOf(c, tr, es, f, n);
            && |taken| == |fitting|
            && forall i :: 0 <= i < |taken| ==> taken[i].pkt == fitting[i]
  {
    hide Inv, Next, Init, Accepts, Fits, RoundOf;
    if n == 0 {
    } else {
      RunInv(c, tr, es, n - 1);
      TakenExactly(c, tr, es, f, n - 1);
      if es[n - 1].Arrive? {
        AcceptsExactly(c, tr[n - 1], es[n - 1].pkt);
      }
    }
  }

  /** All flows that send are numbered below `nBucket`. */
  ghost predicate SmallFlows(c: Config, es: seq<Event>) {
    forall k :: 0 <= k < |es| && es[k].Arrive? ==> es[k].pkt.flow < c.nBucket
  }

  lemma SmallFlowsAlone(c: Config, es: seq<Event>, f: nat, row: nat)
    requires Valid(c) && SmallFlows(c, es) && f < c.nBucket
    requires row < 4 && c.nBucket % [7643, 7723, 7829, 7919][row] != 0
    ensures Alone(c, es, f, row)
  {
    hide Bucket;
    BucketsSpread(c, row);
  }

  /** With at most `nBucket` flows, numbered from 0, the sketch is exact for all of them, unless
      the first row's prime divides `nBucket`. */
  lemma SmallFlowsExact(c: Config, tr: seq<State>, es: seq<Event>, f: nat, n: nat)
    requires IsRun(c, tr, es) && n <= |es| && SmallFlows(c, es) && f < c.nBucket && c.nBucket % 7643 != 0
    ensures Shape(c, tr[n]) && Estimate(c, tr[n].sketch, f) == Exact(c, tr, es, f, n)
  {
    hide Alone, Bucket, Estimate, Exact, SmallFlows, Inv, Next, Init;
    SmallFlowsAlone(c, es, f, 0);
    ExactWhenAlone(c, tr, es, f, 0, n);
  }

  /** With at most `nBucket` flows, numbered from 0, any two that stay backlogged are served bytes
      that differ by at most two rounds' bytes and two packets, unless the first row's prime
      divides `nBucket`. */
  lemma SmallFlowFairness(c: Config, tr: seq<State>, es: seq<Event>, f: nat, g: nat, a: nat, b: nat, max: nat)
    requires IsRun(c, tr, es) && a <= b <= |es| && SizesAtMost(es, max) && max >= 1
    requires SmallFlows(c, es) && f < c.nBucket && g < c.nBucket && c.nBucket % 7643 != 0
    requires Backlogged(tr, f, a, b) && Backlogged(tr, g, a, b)
    ensures var gap := ServedBetween(tr, es, f, a, b) - ServedBetween(tr, es, g, a, b);
            -(2 * c.bytesPerRound + 2 * (max - 1)) <= gap <= 2 * c.bytesPerRound + 2 * (max - 1)
  {
    hide Alone, SmallFlows, Backlogged, ServedBetween, Inv, Next, Init;
    SmallFlowsAlone(c, es, f, 0);
    SmallFlowsAlone(c, es, g, 0);
    Fairness(c, tr, es, f, 0, g, 0, a, b, max);
  }
}

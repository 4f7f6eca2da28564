/** The client's retransmission timers. 128 time stamps serve all packets of a flow, packet `n`
    in slot `(n-1) % 128`; still a packet is retransmitted exactly when its own timer expires. */
module SlidingWindowTimers {
  import opened SlidingWindowSpec
  import Runs = SlidingWindowRuns

  /** `last` is history: when each packet was last sent. */
  datatype State = State(client: Client, times: seq<nat>, last: map<nat, nat>)

  /** The phases of the client's loop, with the clock readings of each. */
  datatype Event =
    | Retransmitting(read: nat -> nat, stamp: nat -> nat)
    | Populating
    | SendingNew(stamp: nat -> nat)
    | Acknowledged(ack: nat, wnd: nat)

  function Start(): State { State(InitClient(), InitTimes(), map[]) }

  /** The history after sending the packets `ns`. */
  function Note(last: map<nat, nat>, ns: seq<nat>, stamp: nat -> nat): map<nat, nat> {
    if ns == [] then last
    else
      var n := |ns| - 1;
      Note(last, ns[..n], stamp)[ns[n] := stamp(ns[n])]
  }

  predicate Defined(y: State) { |y.times| == BUF_SIZE && y.client.acked <= y.client.sent }

  /** The packets that the retransmission loop sends. */
  function Resent(y: State, read: nat -> nat): (ns: seq<nat>)
    requires Defined(y)
    ensures forall i :: 0 <= i < |ns| ==> ns[i] >= 1
  {
    var ns := Resend(y.client, Due(y.client, y.times, read), y.client.acked + 1);
    assert forall i :: 0 <= i < |ns| ==> ns[i] in ns;
    ns
  }

  function Next(total: nat, y: State, e: Event): State
    requires Defined(y)
  {
    match e
    case Retransmitting(read, stamp) =>
      var ns := Resent(y, read);
      y.(times := Restamp(y.times, ns, stamp), last := Note(y.last, ns, stamp))
    case Populating => y.(client := Populate(y.client, total))
    case SendingNew(stamp) =>
      var ns := Sending(y.client);
      y.(client := Send(y.client), times := Restamp(y.times, ns, stamp), last := Note(y.last, ns, stamp))
    case Acknowledged(ack, wnd) => y.(client := OnAck(y.client, ack, wnd))
  }

  /** A run of one flow's client. Acknowledgements are arbitrary here. */
  ghost predicate IsRun(total: nat, tr: seq<State>, es: seq<Event>) {
    && |tr| == |es| + 1
    && tr[0] == Start()
    && forall k :: 0 <= k < |es| ==> (Defined(tr[k]) ==> tr[k + 1] == Next(total, tr[k], es[k]))
  }

  /** The slot of `n` holds the time `n` was last sent. */
  predicate Tracked(times: seq<nat>, last: map<nat, nat>, n: nat)
    requires |times| == BUF_SIZE && n >= 1
  {
    n in last && times[Slot(n)] == last[n]
  }

  ghost predicate TimersOk(total: nat, y: State) {
    var f := y.client;
    && |y.times| == BUF_SIZE
    && Runs.ClientOk(total, f)
    && forall n: nat :: f.acked < n <= f.sent ==> Tracked(y.times, y.last, n)
  }

  /** Stamping packets of one window leaves the other packets of the window tracked. */
  lemma {:induction false} StampKeeps(times: seq<nat>, last: map<nat, nat>, ns: seq<nat>, stamp: nat -> nat,
                                      lo: nat, n: nat)
    requires |times| == BUF_SIZE && lo < n <= lo + BUF_SIZE
    requires forall i :: 0 <= i < |ns| ==> lo < ns[i] <= lo + BUF_SIZE
    requires Tracked(times, last, n) || n in ns
    ensures Tracked(Restamp(times, ns, stamp), Note(last, ns, stamp), n)
  {
    hide Slot;
    if ns == [] {
    } else {
      var k := |ns| - 1;
      if ns[k] != n {
        assert n in ns ==> n in ns[..k];
        StampKeeps(times, last, ns[..k], stamp, lo, n);
        if Slot(ns[k]) == Slot(n) {
          SlotsDiffer(ns[k], n, lo + 1);
        }
      }
    }
  }

  lemma ResentRange(y: State, read: nat -> nat)
    requires Defined(y)
    ensures forall i :: 0 <= i < |Resent(y, read)| ==>
              y.client.acked < Resent(y, read)[i] <= y.client.sent && Resent(y, read)[i] <= y.client.written
  {
    var ns := Resent(y, read);
    assert forall i :: 0 <= i < |ns| ==> ns[i] in ns;
  }

  lemma NextTimers(total: nat, y: State, e: Event)
    requires TimersOk(total, y)
    ensures TimersOk(total, Next(total, y, e))
  {
    hide Slot, Restamp, Note, Resend, Due, Tracked;
    var f := y.client;
    match e {
      case Retransmitting(read, stamp) =>
        var ns := Resent(y, read);
        ResentRange(y, read);
        forall n: nat | f.acked < n <= f.sent
          ensures Tracked(Restamp(y.times, ns, stamp), Note(y.last, ns, stamp), n) {
          StampKeeps(y.times, y.last, ns, stamp, f.acked, n);
        }
      case Populating =>
      case SendingNew(stamp) =>
        var ns := Sending(f);
        forall n: nat | f.acked < n <= f.sent + |ns|
          ensures Tracked(Restamp(y.times, ns, stamp), Note(y.last, ns, stamp), n) {
          if n > f.sent {
            assert ns[n - f.sent - 1] == n;
          }
          StampKeeps(y.times, y.last, ns, stamp, f.acked, n);
        }
      case Acknowledged(ack, wnd) =>
    }
  }

  lemma {:induction false} RunTimers(total: nat, tr: seq<State>, es: seq<Event>, n: nat)
    requires IsRun(total, tr, es) && n <= |es|
    ensures TimersOk(total, tr[n])
  {
    hide Next;
    if n == 0 {
    } else {
      RunTimers(total, tr, es, n - 1);
      NextTimers(total, tr[n - 1], es[n - 1]);
    }
  }

  /** On every run, an unacknowledged packet is retransmitted if and only if more than 50
      microseconds have passed since this packet was last sent. */
  lemma RetransmitsExactlyOverdue(total: nat, tr: seq<State>, es: seq<Event>, k: nat, n: nat)
    requires IsRun(total, tr, es) && k < |es| && es[k].Retransmitting?
    requires tr[k].client.acked < n <= tr[k].client.sent
    ensures Defined(tr[k]) && n in tr[k].last
    ensures n in Resent(tr[k], es[k].read)
            <==> (es[k].read(n) - tr[k].last[n]) % 0x1_0000_0000_0000_0000 > 50_000
  {
    hide Slot;
    RunTimers(total, tr, es, k);
    var y, read := tr[k], es[k].read;
    assert Tracked(y.times, y.last, n);
    var due := Due(y.client, y.times, read);
    if n in due {
      ResendMember(y.client, due, y.client.acked + 1, n);
    }
  }
}

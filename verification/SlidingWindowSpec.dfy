/** The DPDK sliding window, one flow at a time: the server's receive ring with its
    cumulative acknowledgement and forced skips, and the client's window. */
module SlidingWindowSpec {
  import opened Arithmetic

  const BUF_SIZE: nat := 128
  const MAX_FLOW_NUM: nat := 8
  const TIMEOUT_NS: nat := 50_000
  const TWO64: nat := 0x1_0000_0000_0000_0000

  /** A parsed packet: its flow and its sequence number. */
  datatype FlowPacket = FlowPacket(fid: nat, seqno: nat)

  /** The sequence numbers of flow `fid` in a burst. */
  function SeqsOf(burst: seq<FlowPacket>, fid: nat): seq<nat> {
    if burst == [] then []
    else
      var n := |burst| - 1;
      SeqsOf(burst[..n], fid) + (if burst[n].fid == fid then [burst[n].seqno] else [])
  }

  lemma NoSeqs()
    ensures forall f :: SeqsOf([], f) == []
  {}

  lemma SeqsPush(burst: seq<FlowPacket>, i: nat, f: nat)
    requires i < |burst|
    ensures SeqsOf(burst[..i + 1], f)
            == if burst[i].fid == f then SeqsOf(burst[..i], f) + [burst[i].seqno] else SeqsOf(burst[..i], f)
  {
    assert burst[..i + 1][..i] == burst[..i];
  }

  // ----- server ---------------------------------------------------------------------

  /** `ring[(n-1) % 128]` holds sequence number `n` once received; 0 means never used. */
  datatype Server = Server(ring: seq<nat>, nxt: nat, lastRecvd: nat, sameAck: nat)

  function Slot(n: nat): (k: nat)
    requires n >= 1
    ensures k < BUF_SIZE
  {
    (n - 1) % BUF_SIZE
  }

  /** Each slot holds its own sequence numbers only, none beyond the last one received. */
  ghost predicate RingOk(f: Server) {
    && |f.ring| == BUF_SIZE
    && f.nxt >= 1
    && forall k :: 0 <= k < BUF_SIZE && f.ring[k] != 0 ==>
         Slot(f.ring[k]) == k && f.ring[k] <= f.lastRecvd
  }

  function InitServer(): Server { Server(seq(BUF_SIZE, _ => 0), 1, 0, 0) }

  lemma NextPositive(f: Server)
    requires RingOk(f)
    ensures f.nxt >= 1
  {}

  lemma InitServerOk()
    ensures RingOk(InitServer())
  {}

  function Record(f: Server, n: nat): Server
    requires RingOk(f)
  {
    var ring := if n >= f.nxt then f.ring[Slot(n) := n] else f.ring;
    f.(ring := ring, lastRecvd := Max(f.lastRecvd, n))
  }

  lemma RecordOk(f: Server, n: nat)
    requires RingOk(f)
    ensures RingOk(Record(f, n))
  {}

  function RecordAll(f: Server, ns: seq<nat>): Server
    requires RingOk(f)
    ensures RingOk(RecordAll(f, ns))
  {
    if ns == [] then f
    else
      var g := RecordAll(f, ns[..|ns| - 1]);
      RecordOk(g, ns[|ns| - 1]);
      Record(g, ns[|ns| - 1])
  }

  lemma RecordMore(f: Server, ns: seq<nat>, n: nat)
    requires RingOk(f)
    ensures RecordAll(f, ns + [n]) == Record(RecordAll(f, ns), n)
  {}

  /** First sequence number from `nxt` on that the ring does not hold. */
  function Contiguous(f: Server): (n: nat)
    requires RingOk(f)
    ensures n >= f.nxt && f.ring[Slot(n)] != n
    ensures forall k: nat :: f.nxt <= k < n ==> f.ring[Slot(k)] == k
    decreases f.lastRecvd + 1 - f.nxt
  {
    if f.ring[Slot(f.nxt)] == f.nxt then Contiguous(f.(nxt := f.nxt + 1)) else f.nxt
  }

  /** A round that does not advance is counted; the tenth one skips a packet. */
  function Respond(f: Server): Server
    requires RingOk(f)
  {
    var n := Contiguous(f);
    var same := if n == f.nxt then (f.sameAck + 1) % 256 else f.sameAck;
    if same >= 10 then f.(nxt := n + 1, sameAck := 0, lastRecvd := Max(f.lastRecvd, n))
    else f.(nxt := n, sameAck := same)
  }

  lemma RespondOk(f: Server)
    requires RingOk(f)
    ensures RingOk(Respond(f))
  {}

  lemma RecordNone(f: Server)
    requires RingOk(f)
    ensures RecordAll(f, []) == f
  {}

  /** A receive burst with packets of this flow in it. */
  function Round(f: Server, ns: seq<nat>): Server
    requires RingOk(f)
  {
    Respond(RecordAll(f, ns))
  }

  /** Two numbers of one window never share a slot. */
  lemma SlotsDiffer(m: nat, n: nat, lo: nat)
    requires 1 <= lo <= m < lo + BUF_SIZE && lo <= n < lo + BUF_SIZE && Slot(m) == Slot(n)
    ensures m == n
  {}

  // ----- client ---------------------------------------------------------------------

  datatype Client = Client(acked: nat, sent: nat, written: nat, wnd: nat)

  function InitClient(): Client { Client(0, 0, 0, BUF_SIZE) }

  function InitTimes(): seq<nat> { seq(BUF_SIZE, _ => TWO64 / 2) }

  /** The unacknowledged packets from `i` on whose timer has expired. */
  function Resend(f: Client, due: set<nat>, i: nat): (ns: seq<nat>)
    ensures forall n :: n in ns ==> i <= n <= f.sent && n <= f.written && n in due
    decreases f.sent + 1 - i
  {
    if i > f.sent || i > f.written then []
    else (if i in due then [i] else []) + Resend(f, due, i + 1)
  }

  lemma {:induction false} ResendMember(f: Client, due: set<nat>, i: nat, n: nat)
    requires i <= n <= f.sent && n <= f.written && n in due
    ensures n in Resend(f, due, i)
    decreases f.sent + 1 - i
  {
    if i == n {
    } else {
      ResendMember(f, due, i + 1, n);
    }
  }

  lemma ResendStep(f: Client, due: set<nat>, i: nat)
    requires i <= f.sent && i <= f.written
    ensures Resend(f, due, i) == (if i in due then [i] else []) + Resend(f, due, i + 1)
  {}

  lemma ResendDone(f: Client, due: set<nat>, i: nat)
    ensures i > f.sent || i > f.written ==> Resend(f, due, i) == []
  {}

  /** Nanoseconds from `t` to the reading `now` of a 64-bit clock. */
  function Elapsed(now: nat, t: nat): nat { (now - t) % TWO64 }

  /** The sent packets whose timer has expired: `times[(n-1) % 128]` is when `n` was last sent,
      `read(n)` what the clock shows when the loop looks at it. */
  function Due(f: Client, times: seq<nat>, read: nat -> nat): set<nat>
    requires |times| == BUF_SIZE
  {
    set n: nat | f.acked < n <= f.sent && Elapsed(read(n), times[Slot(n)]) > TIMEOUT_NS
  }

  /** Record the clock, `stamp(n)` for packet `n`, after sending the packets `ns`. */
  function Restamp(times: seq<nat>, ns: seq<nat>, stamp: nat -> nat): (t: seq<nat>)
    requires |times| == BUF_SIZE && forall i :: 0 <= i < |ns| ==> ns[i] >= 1
    ensures |t| == BUF_SIZE
  {
    if ns == [] then times
    else
      var n := |ns| - 1;
      Restamp(times, ns[..n], stamp)[Slot(ns[n]) := stamp(ns[n])]
  }

  function Populate(f: Client, total: nat): Client {
    f.(written := Min(total, f.acked + BUF_SIZE))
  }

  /** How many new packets the receiver's window and the written data allow. */
  function SendCount(f: Client): nat
    requires f.acked <= f.sent
  {
    if f.sent - f.acked < f.wnd && f.sent < f.written
    then Min(f.wnd - (f.sent - f.acked), f.written - f.sent) else 0
  }

  function Send(f: Client): Client
    requires f.acked <= f.sent
  {
    f.(sent := f.sent + SendCount(f))
  }

  function Sending(f: Client): seq<nat>
    requires f.acked <= f.sent
  {
    seq(SendCount(f), i => f.sent + 1 + i)
  }

  /** Sending goes on until the advertised window or the written data is used up, and new packets
      never go past either. */
  lemma SendFills(f: Client)
    requires f.acked <= f.sent
    ensures var t := Send(f);
            && t == f.(sent := t.sent) && t.sent >= f.sent
            && t.sent <= Max(f.sent, f.acked + f.wnd) && t.sent <= Max(f.sent, f.written)
            && (t.sent >= f.acked + f.wnd || t.sent >= f.written)
            && |Sending(f)| == t.sent - f.sent
            && forall i :: 0 <= i < |Sending(f)| ==> Sending(f)[i] == f.sent + 1 + i
  {}

  /** The send buffer is filled up to 128 packets past the acknowledged one, or to the end. */
  lemma PopulateFills(f: Client, total: nat)
    ensures var t := Populate(f, total);
            && t == f.(written := t.written)
            && t.written <= total && t.written <= f.acked + 128
            && (t.written == total || t.written == f.acked + 128)
  {}

  function OnAck(f: Client, ack: nat, wnd: nat): Client {
    var t := f.(wnd := wnd);
    if ack > f.acked then t.(acked := ack, sent := Max(f.sent, ack)) else t
  }
}

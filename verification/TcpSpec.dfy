/** The New Reno sender: the state of `TcpSrc` with DCTCP and deadlines off, and what a
    timer tick and an acknowledgement do to it. 32-bit fields wrap as in the source;
    times and 64-bit byte counts are unbounded. */
module TcpSpec {
  import opened Htsim
  import opened Arithmetic

  datatype Phase = Idle | SlowStart | CongAvoid | FastRecov | Finish

  /** `flowsize == 0` means no limit, `duration == 0` no time limit. */
  datatype Config = Config(flowsize: nat, duration: nat, startTime: nat)

  datatype State = State(
    phase: Phase,
    ssthresh: nat,      // uint32
    cwnd: nat,          // uint32
    recoverSeq: nat,
    dupacks: nat,       // uint16
    drops: nat,
    rtt: nat, rto: nat, mdev: nat,
    timeout: nat,       // 0: timer off
    packetsSent: nat,   // bytes, retransmissions included
    highestSent: nat,
    lastAcked: nat)

  /** A new state and the first bytes of the packets sent on the way. */
  datatype Out = Out(s: State, sent: seq<nat>)

  const TWO32: nat := 0x1_0000_0000
  const TWO64: nat := 0x1_0000_0000_0000_0000

  function U32(x: int): nat { x % TWO32 }
  function U64(x: int): nat { x % TWO64 }
  function Int32(x: int): int { if U32(x) < TWO32 / 2 then U32(x) else U32(x) - TWO32 }

  function Init(): State {
    State(Idle, TWO32 - 1, 0, 0, 0, 0, 0, INIT_RTO, 0, 0, 0, 0, 0)
  }

  // ----- sending --------------------------------------------------------------------

  predicate Exhausted(c: Config, s: State) { c.flowsize > 0 && s.highestSent >= c.flowsize }

  predicate WindowOpen(s: State) { s.lastAcked + s.cwnd >= s.highestSent + MSS }

  /** How many new packets the window and the flow still allow. */
  function SendCount(c: Config, s: State): nat {
    if Exhausted(c, s) || !WindowOpen(s) then 0
    else
      var room := (s.lastAcked + s.cwnd - s.highestSent) / MSS;
      if c.flowsize == 0 then room else Min(room, CeilDiv(c.flowsize - s.highestSent, MSS))
  }

  /** Arm the timer if it is off. */
  function Arm(s: State, now: nat): State {
    if s.timeout == 0 then s.(timeout := now + s.rto) else s
  }

  function SendN(s: State, now: nat, n: nat): Out {
    var t := if n > 0 then Arm(s, now) else s;
    Out(t.(highestSent := s.highestSent + n * MSS, packetsSent := s.packetsSent + n * MSS),
        seq(n, i => s.highestSent + i * MSS + 1))
  }

  function SendPackets(c: Config, s: State, now: nat): Out {
    SendN(s, now, SendCount(c, s))
  }

  function Retransmit(s: State, now: nat): Out {
    Out(Arm(s.(packetsSent := s.packetsSent + MSS), now), [s.lastAcked + 1])
  }

  /** Retransmit the first unacknowledged packet, then send what the window allows. */
  function RetransmitThenSend(c: Config, s: State, now: nat): Out {
    var a := Retransmit(s, now);
    var b := SendPackets(c, a.s, now);
    Out(b.s, a.sent + b.sent)
  }

  // ----- timer ----------------------------------------------------------------------

  function FlightSize(s: State): nat { U32(s.highestSent - s.lastAcked) }

  predicate Expired(s: State, now: nat) {
    s.phase != Idle && s.phase != Finish && s.timeout != 0 && now >= s.timeout
  }

  function DeflatedWindow(s: State): nat {
    if s.phase == FastRecov then Min(s.ssthresh, U32(FlightSize(s) + MSS)) else s.cwnd
  }

  /** Start over from the first unacknowledged packet, remembering half of `window`. */
  function Rewind(s: State, window: nat, now: nat): State {
    s.(ssthresh := Max(window / 2, MSS * 2), cwnd := MSS, phase := SlowStart,
       recoverSeq := s.highestSent, highestSent := s.lastAcked + MSS, dupacks := 0,
       rto := s.rto * 2, timeout := now + s.rto * 2)
  }

  function Timeout(s: State, now: nat): Out {
    Retransmit(Rewind(s, DeflatedWindow(s), now), now)
  }

  function OnTick(c: Config, s: State, now: nat): Out {
    if s.phase == Idle then SendPackets(c, s.(phase := SlowStart, cwnd := 2 * MSS), now)
    else if Expired(s, now) then Timeout(s, now)
    else Out(s, [])
  }

  // ----- acknowledgements -----------------------------------------------------------

  predicate FlowDone(c: Config, ackno: nat, now: nat) {
    (c.flowsize > 0 && ackno >= c.flowsize) || (c.duration > 0 && now > c.startTime + c.duration)
  }

  function UpdateRtt(s: State, m: nat): State {
    if m == 0 then s
    else
      var t := if s.rtt > 0
               then s.(mdev := s.mdev * 3 / 4 + (if m > s.rtt then m - s.rtt else s.rtt - m) / 4,
                       rtt := s.rtt * 7 / 8 + m / 8)
               else s.(rtt := m, mdev := m / 2);
      t.(rto := Max(t.rtt + 4 * t.mdev, MIN_RTO))
  }

  /** Congestion avoidance: about one packet per window. */
  function AdditiveIncrease(newly: nat, cwnd: nat): nat
    requires cwnd > 0
  {
    newly * MSS / cwnd
  }

  function Inflate(s: State): State
    requires s.ssthresh > 0
  {
    var newly := Int32(s.lastAcked + s.cwnd - s.highestSent);
    if newly < 0 then s
    else
      var n := Min(newly, MSS);
      var increment := if s.cwnd < s.ssthresh then Min(s.ssthresh - s.cwnd, n)
                       else Max(AdditiveIncrease(n, s.cwnd), 1);
      s.(cwnd := U32(s.cwnd + increment))
  }

  function NewAck(c: Config, s: State, ackno: nat, now: nat): Out
    requires s.ssthresh > 0
  {
    var r := s.(timeout := if ackno == s.highestSent then 0 else now + s.rto);
    if s.phase != FastRecov then
      SendPackets(c, Inflate(r.(lastAcked := ackno, dupacks := 0)), now)
    else if ackno >= s.recoverSeq then
      var flight := U32(s.highestSent - ackno);
      SendPackets(c, r.(cwnd := Min(s.ssthresh, U32(flight + MSS)), lastAcked := ackno,
                        dupacks := 0, phase := CongAvoid), now)
    else
      var newData := U32(ackno - s.lastAcked);
      var cwnd := if newData < s.cwnd then s.cwnd - newData else 0;
      RetransmitThenSend(c, r.(lastAcked := ackno, cwnd := U32(cwnd + MSS)), now)
  }

  function DupAck(c: Config, s: State, now: nat): Out {
    if s.phase == FastRecov then SendPackets(c, s.(cwnd := U32(s.cwnd + MSS)), now)
    else
      var t := s.(dupacks := (s.dupacks + 1) % 0x1_0000);
      if t.dupacks != 3 then SendPackets(c, t, now)
      else if s.lastAcked < s.recoverSeq then Out(t, [])
      else
        var ssthresh := Max(s.cwnd / 2, MSS * 2);
        Retransmit(t.(drops := s.drops + 1, ssthresh := ssthresh, cwnd := U32(ssthresh + 3 * MSS),
                      phase := FastRecov, recoverSeq := s.highestSent), now)
  }

  function OnAck(c: Config, s: State, ackno: nat, ts: nat, now: nat): Out
    requires s.ssthresh > 0
  {
    if s.phase == Finish then Out(s, [])
    else if FlowDone(c, ackno, now) then Out(s.(phase := Finish), [])
    else if ackno < s.lastAcked then Out(s, [])
    else
      var t := UpdateRtt(s, U64(now - ts));
      if ackno > s.lastAcked then NewAck(c, t, ackno, now) else DupAck(c, t, now)
  }

  /** The smoothed round-trip time never exceeds the larger of the old estimate and the sample, and
      falls at most one picosecond, the rounding of two divisions, below the smaller one; the
      timer covers it and four deviations (RFC 2988, section 2). */
  lemma RttSmoothing(s: State, m: nat)
    requires m > 0
    ensures var t := UpdateRtt(s, m);
            && t.rtt <= Max(s.rtt, m)
            && (s.rtt > 0 ==> t.rtt + 1 >= Min(s.rtt, m) && 7 * s.rtt + m - 14 <= 8 * t.rtt <= 7 * s.rtt + m)
            && t.rto >= MIN_RTO && t.rto >= t.rtt + 4 * t.mdev
            && (t.rto == MIN_RTO || t.rto == t.rtt + 4 * t.mdev)
  {}

  /** The mean deviation is within two picoseconds below the 3:1 mean of itself and the sample's error;
      a first sample is taken as it is, with half of it as deviation. */
  lemma DeviationSmoothing(s: State, m: nat)
    requires m > 0
    ensures var t, error := UpdateRtt(s, m), if m > s.rtt then m - s.rtt else s.rtt - m;
            && (s.rtt > 0 ==> 3 * s.mdev + error - 7 < 4 * t.mdev <= 3 * s.mdev + error)
            && (s.rtt == 0 ==> t.rtt == m && m - 1 <= 2 * t.mdev <= m)
  {}

  // ----- the send loop's closed form ------------------------------------------------

  /** One turn of the send loop leaves one packet less to send. */
  lemma SendOne(c: Config, s: State, now: nat)
    requires !Exhausted(c, s) && WindowOpen(s)
    ensures SendCount(c, s) > 0
    ensures SendCount(c, SendN(s, now, 1).s) == SendCount(c, s) - 1
  {}

  lemma SendMore(s: State, now: nat, n: nat)
    ensures SendN(SendN(s, now, n).s, now, 1).s == SendN(s, now, n + 1).s
    ensures SendN(s, now, n).sent + [SendN(s, now, n).s.highestSent + 1] == SendN(s, now, n + 1).sent
  {}

  lemma SendNone(s: State, now: nat)
    ensures SendN(s, now, 0) == Out(s, [])
  {}

  /** Sending goes on until the flow is exhausted or the window is full, and never past either. */
  lemma SendsAll(c: Config, s: State, now: nat)
    ensures var t := SendPackets(c, s, now).s;
            && (Exhausted(c, t) || !WindowOpen(t))
            && t.highestSent >= s.highestSent
            && (t.highestSent > s.highestSent ==>
                  && t.highestSent <= s.lastAcked + s.cwnd
                  && (c.flowsize > 0 ==> t.highestSent < c.flowsize + MSS))
  {}
}

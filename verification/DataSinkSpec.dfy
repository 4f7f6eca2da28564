/** Reassembly at the receiver: `DataSink` keeps a cumulative acknowledgement and a sorted
    list of out-of-order packets. First any packets at all; then whole segments of MSS bytes,
    as every sender here sends them, so that what has been received is a set of numbers. */
module DataSinkSpec {
  import opened Htsim
  import Packets

  datatype Chunk = Chunk(first: nat, size: nat)

  datatype State = State(cumulativeAck: nat, received: seq<Chunk>)

  const EMPTY: State := State(0, [])

  /** Segment `k` carries bytes k*MSS+1 .. (k+1)*MSS. */
  function Segment(k: nat): Chunk { Chunk(k * MSS + 1, MSS) }

  // ----- what the code does ---------------------------------------------------------

  /** Acknowledge the stored segments that have become contiguous. */
  function Absorb(s: State): State
    decreases |s.received|
  {
    if s.received != [] && s.cumulativeAck + 1 == s.received[0].first
    then Absorb(State(s.cumulativeAck + s.received[0].size, s.received[1..]))
    else s
  }

  /** Sorted insertion; a segment already stored is ignored. */
  function Insert(rs: seq<Chunk>, x: Chunk): seq<Chunk> {
    if rs == [] then [x]
    else if x.first == rs[0].first then rs
    else if x.first < rs[0].first then [x] + rs
    else [rs[0]] + Insert(rs[1..], x)
  }

  function Process(s: State, x: Chunk): State {
    if x.first == s.cumulativeAck + 1 then Absorb(State(x.first + x.size - 1, s.received))
    else if x.first <= s.cumulativeAck then s
    else s.(received := Insert(s.received, x))
  }

  function After(xs: seq<Chunk>): State {
    if xs == [] then EMPTY else Process(After(xs[..|xs| - 1]), xs[|xs| - 1])
  }

  // ----- any packets ----------------------------------------------------------------

  ghost predicate Ordered(rs: seq<Chunk>) {
    forall i, j :: 0 <= i < j < |rs| ==> rs[i].first < rs[j].first
  }

  predicate Carries(x: Chunk, b: nat) { x.first <= b < x.first + x.size }

  ghost predicate Stores(rs: seq<Chunk>, b: nat) {
    exists r :: r in rs && Carries(r, b)
  }

  /** The state accounts for byte `b`. */
  ghost predicate Holds(s: State, b: nat) {
    1 <= b <= s.cumulativeAck || Stores(s.received, b)
  }

  lemma OrderedPush(x: Chunk, rs: seq<Chunk>)
    requires Ordered(rs) && forall r :: r in rs ==> x.first < r.first
    ensures Ordered([x] + rs)
  {}

  lemma OrderedTail(rs: seq<Chunk>)
    requires Ordered(rs) && rs != []
    ensures Ordered(rs[1..]) && forall r :: r in rs[1..] ==> rs[0].first < r.first
  {}

  lemma {:induction false} InsertMembers(rs: seq<Chunk>, x: Chunk)
    ensures forall r :: r in Insert(rs, x) ==> r == x || r in rs
    ensures forall r :: r in rs ==> r in Insert(rs, x)
    ensures x in Insert(rs, x) || exists r :: r in rs && r.first == x.first
  {
    if rs == [] {
    } else {
      assert rs == [rs[0]] + rs[1..];
      assert rs[0] in rs;
      if x.first > rs[0].first {
        InsertMembers(rs[1..], x);
      }
    }
  }

  lemma {:induction false} InsertOrdered(rs: seq<Chunk>, x: Chunk)
    requires Ordered(rs)
    ensures Ordered(Insert(rs, x))
  {
    hide Ordered;
    if rs == [] {
      OrderedPush(x, []);
      assert [x] + [] == [x];
    } else {
      OrderedTail(rs);
      assert rs == [rs[0]] + rs[1..];
      if x.first > rs[0].first {
        InsertOrdered(rs[1..], x);
        InsertMembers(rs[1..], x);
        OrderedPush(rs[0], Insert(rs[1..], x));
      } else if x.first < rs[0].first {
        OrderedPush(x, rs);
      }
    }
  }

  lemma {:induction false} AbsorbOrdered(s: State)
    requires Ordered(s.received)
    ensures Ordered(Absorb(s).received)
    ensures forall r :: r in Absorb(s).received ==> r in s.received
    ensures Absorb(s).cumulativeAck >= s.cumulativeAck
    ensures forall b :: s.cumulativeAck < b <= Absorb(s).cumulativeAck ==> Stores(s.received, b)
    decreases |s.received|
  {
    if s.received == [] || s.cumulativeAck + 1 != s.received[0].first {
    } else {
      var r := s.received[0];
      var t := State(s.cumulativeAck + r.size, s.received[1..]);
      AbsorbOrdered(t);
      assert s.received == [r] + t.received;
      forall b | s.cumulativeAck < b <= Absorb(s).cumulativeAck ensures Stores(s.received, b) {
        if b <= t.cumulativeAck {
          assert Carries(r, b);
        } else {
          assert Stores(t.received, b);
        }
      }
    }
  }

  /** Whatever arrives, the list stays strictly sorted and the acknowledgement never falls. */
  lemma ProcessOrdered(s: State, x: Chunk)
    requires Ordered(s.received)
    ensures Ordered(Process(s, x).received) && Process(s, x).cumulativeAck >= s.cumulativeAck
  {
    if x.first == s.cumulativeAck + 1 {
      AbsorbOrdered(State(x.first + x.size - 1, s.received));
    } else if x.first > s.cumulativeAck {
      InsertOrdered(s.received, x);
    }
  }

  lemma ByteReceived(s: State, x: Chunk, xs: seq<Chunk>, b: nat)
    requires Ordered(s.received) && x in xs && forall r :: r in s.received ==> r in xs
    requires forall a :: 1 <= a <= s.cumulativeAck ==> Stores(xs, a)
    requires 1 <= b <= Process(s, x).cumulativeAck
    ensures Stores(xs, b)
  {
    if b > s.cumulativeAck {
      var u := State(x.first + x.size - 1, s.received);
      AbsorbOrdered(u);
      if b <= u.cumulativeAck {
        assert Carries(x, b);
      } else {
        assert Stores(u.received, b);
      }
    }
  }

  /** Nothing is invented: after any packets of any sizes, overlapping or not, each byte
      acknowledged and each packet stored was received. */
  lemma {:induction false} NeverInvents(xs: seq<Chunk>)
    ensures Ordered(After(xs).received)
    ensures forall r :: r in After(xs).received ==> r in xs
    ensures forall b :: 1 <= b <= After(xs).cumulativeAck ==> Stores(xs, b)
  {
    if xs == [] {
    } else {
      var n := |xs| - 1;
      var s, x := After(xs[..n]), xs[n];
      NeverInvents(xs[..n]);
      assert xs == xs[..n] + [x];
      forall a: nat | Stores(xs[..n], a) ensures Stores(xs, a) {
        var r :| r in xs[..n] && Carries(r, a);
        assert r in xs;
      }
      forall b | 1 <= b <= After(xs).cumulativeAck ensures Stores(xs, b) {
        ByteReceived(s, x, xs, b);
      }
      ProcessOrdered(s, x);
      if x.first == s.cumulativeAck + 1 {
        AbsorbOrdered(State(x.first + x.size - 1, s.received));
      } else if x.first > s.cumulativeAck {
        InsertMembers(s.received, x);
      }
    }
  }

  /** Stored packets are non-empty, in order and disjoint, and begin after byte `lo`. */
  ghost predicate Apart(rs: seq<Chunk>, lo: nat)
    decreases rs
  {
    rs == [] || (rs[0].first > lo && rs[0].size >= 1 && Apart(rs[1..], rs[0].first + rs[0].size - 1))
  }

  /** Nothing stored overlaps, and the next expected byte is missing. */
  ghost predicate Tidy(s: State) { Apart(s.received, s.cumulativeAck + 1) }

  predicate Overlap(x: Chunk, y: Chunk) {
    x.first < y.first + y.size && y.first < x.first + x.size
  }

  /** First byte from `at` on at which the stored packets leave a gap. */
  function Reach(rs: seq<Chunk>, at: nat): nat {
    if rs == [] then at
    else if rs[0].first < at then Reach(rs[1..], at)
    else if rs[0].first == at then Reach(rs[1..], at + rs[0].size)
    else at
  }

  /** A stored packet begins where `x` does. */
  predicate SameFirst(rs: seq<Chunk>, x: Chunk) {
    exists r :: r in rs && r.first == x.first
  }

  /** The code takes `x` for a bad retransmission. */
  predicate Ignored(s: State, x: Chunk) {
    x.first <= s.cumulativeAck || SameFirst(s.received, x)
  }

  /** A packet below the acknowledgement ends there too; one that begins with a stored packet ends
      before the gap that follows; and any other one overlaps nothing stored. */
  predicate Clean(s: State, x: Chunk) {
    if x.first <= s.cumulativeAck then 1 <= x.first && x.first + x.size <= s.cumulativeAck + 1
    else if SameFirst(s.received, x) then x.first + x.size <= Reach(s.received, x.first)
    else forall r :: r in s.received ==> !Overlap(r, x)
  }

  lemma {:induction false} ApartMembers(rs: seq<Chunk>, lo: nat)
    requires Apart(rs, lo)
    ensures Ordered(rs)
    ensures forall r :: r in rs ==> r.first > lo && r.size >= 1
    ensures forall q, r :: q in rs && r in rs && q != r ==> !Overlap(q, r)
    decreases rs
  {
    if rs == [] {
    } else {
      ApartMembers(rs[1..], rs[0].first + rs[0].size - 1);
      assert rs == [rs[0]] + rs[1..];
    }
  }

  lemma StoresFirst(rs: seq<Chunk>, b: nat)
    requires rs != []
    ensures Stores(rs, b) <==> Carries(rs[0], b) || Stores(rs[1..], b)
  {
    assert rs == [rs[0]] + rs[1..];
    if Stores(rs[1..], b) {
      var r :| r in rs[1..] && Carries(r, b);
      assert r in rs;
    }
    if Carries(rs[0], b) {
      assert rs[0] in rs;
    }
  }

  lemma {:induction false} AbsorbTidy(s: State)
    requires Apart(s.received, s.cumulativeAck)
    ensures Tidy(Absorb(s))
    ensures forall b: nat :: Holds(Absorb(s), b) <==> Holds(s, b)
    decreases |s.received|
  {
    if s.received == [] || s.cumulativeAck + 1 != s.received[0].first {
    } else {
      var r := s.received[0];
      var t := State(s.cumulativeAck + r.size, s.received[1..]);
      AbsorbTidy(t);
      assert s.received == [r] + t.received;
      forall b: nat ensures Holds(t, b) <==> Holds(s, b) {
        StoresFirst(s.received, b);
      }
    }
  }

  lemma StoresPush(rs: seq<Chunk>, x: Chunk, b: nat)
    ensures Stores(rs + [x], b) <==> Stores(rs, b) || Carries(x, b)
  {
    var t := rs + [x];
    if Carries(x, b) {
      assert t[|rs|] in t;
    }
    if r :| r in rs && Carries(r, b) {
      assert r in t;
    }
  }

  lemma {:induction false} InsertApart(rs: seq<Chunk>, x: Chunk, lo: nat)
    requires Apart(rs, lo) && x.first > lo && x.size >= 1
    requires forall r :: r in rs ==> !Overlap(r, x)
    ensures Apart(Insert(rs, x), lo)
    ensures forall b: nat :: Stores(Insert(rs, x), b) <==> Stores(rs, b) || Carries(x, b)
    decreases rs
  {
    if rs == [] {
      forall b: nat ensures Stores([x], b) <==> Carries(x, b) {
        StoresFirst([x], b);
      }
    } else {
      assert rs[0] in rs;
      assert !Overlap(rs[0], x);
      var t := Insert(rs, x);
      if x.first > rs[0].first {
        InsertApart(rs[1..], x, rs[0].first + rs[0].size - 1);
      } else {
        assert t[1..] == rs;
      }
      forall b: nat ensures Stores(t, b) <==> Stores(rs, b) || Carries(x, b) {
        StoresFirst(t, b);
        StoresFirst(rs, b);
      }
    }
  }

  /** The list and the acknowledgement account for exactly the bytes of `xs`. */
  ghost predicate Exact(s: State, xs: seq<Chunk>) {
    Tidy(s) && forall b: nat :: Holds(s, b) <==> Stores(xs, b)
  }

  /** The rest of a covered stretch, which ends at byte `lo`. */
  lemma {:induction false} ReachOn(rs: seq<Chunk>, lo: nat)
    requires Apart(rs, lo)
    ensures lo < Reach(rs, lo + 1) && !Stores(rs, Reach(rs, lo + 1))
    ensures forall b :: lo < b < Reach(rs, lo + 1) ==> Stores(rs, b)
    decreases rs
  {
    if rs == [] {
    } else if rs[0].first > lo + 1 {
      ApartMembers(rs, lo);
    } else {
      ReachOn(rs[1..], rs[0].first + rs[0].size - 1);
      forall b | lo < b <= Reach(rs, lo + 1) ensures Stores(rs, b) <==> b < Reach(rs, lo + 1) {
        StoresFirst(rs, b);
      }
    }
  }

  /** From the first byte of a stored packet the list covers everything up to the next gap, and no more. */
  lemma {:induction false} ReachExactly(rs: seq<Chunk>, lo: nat, at: nat)
    requires Apart(rs, lo) && (exists r :: r in rs && r.first == at)
    ensures at < Reach(rs, at) && !Stores(rs, Reach(rs, at))
    ensures forall b :: at <= b < Reach(rs, at) ==> Stores(rs, b)
    decreases rs
  {
    var r := rs[0];
    assert rs == [r] + rs[1..];
    ApartMembers(rs, lo);
    if r.first == at {
      ReachOn(rs[1..], at + r.size - 1);
      forall b | at <= b <= Reach(rs, at) ensures Stores(rs, b) <==> b < Reach(rs, at) {
        StoresFirst(rs, b);
      }
    } else {
      ReachExactly(rs[1..], r.first + r.size - 1, at);
      forall b | at <= b <= Reach(rs, at) ensures Stores(rs, b) <==> b < Reach(rs, at) {
        StoresFirst(rs, b);
      }
    }
  }

  /** An ignored packet is clean exactly when all its bytes are held. */
  lemma IgnoredClean(s: State, x: Chunk)
    requires Tidy(s) && x.size >= 1 && Ignored(s, x)
    ensures Clean(s, x) <==> forall b: nat :: Carries(x, b) ==> Holds(s, b)
  {
    ApartMembers(s.received, s.cumulativeAck + 1);
    if x.first <= s.cumulativeAck {
      if x.first + x.size > s.cumulativeAck + 1 {
        assert Carries(x, s.cumulativeAck + 1) && !Holds(s, s.cumulativeAck + 1);
      } else if x.first == 0 {
        assert Carries(x, 0) && !Holds(s, 0);
      }
    } else {
      ReachExactly(s.received, s.cumulativeAck + 1, x.first);
      var end := Reach(s.received, x.first);
      if x.first + x.size > end {
        assert Carries(x, end) && !Holds(s, end);
      }
    }
  }

  lemma {:induction false} InsertIgnored(rs: seq<Chunk>, x: Chunk, r: Chunk)
    requires Ordered(rs) && r in rs && r.first == x.first
    ensures Insert(rs, x) == rs
  {
    hide Ordered;
    OrderedTail(rs);
    assert rs == [rs[0]] + rs[1..];
    if r == rs[0] {
    } else {
      InsertIgnored(rs[1..], x, r);
    }
  }

  lemma IgnoredKeeps(s: State, x: Chunk)
    requires Ordered(s.received) && Ignored(s, x) && x.first != s.cumulativeAck + 1
    ensures Process(s, x) == s
  {
    if x.first > s.cumulativeAck {
      var r :| r in s.received && r.first == x.first;
      InsertIgnored(s.received, x, r);
    }
  }

  lemma CleanKeepsExact(s: State, x: Chunk)
    requires Tidy(s) && x.size >= 1 && Clean(s, x)
    ensures Tidy(Process(s, x))
    ensures forall b: nat :: Holds(Process(s, x), b) <==> Holds(s, b) || Carries(x, b)
  {
    hide Stores, Reach;
    ApartMembers(s.received, s.cumulativeAck + 1);
    if Ignored(s, x) {
      IgnoredClean(s, x);
      IgnoredKeeps(s, x);
    } else if x.first == s.cumulativeAck + 1 {
      var u := State(x.first + x.size - 1, s.received);
      assert s.received != [] ==> s.received[0] in s.received && !Overlap(s.received[0], x);
      AbsorbTidy(u);
    } else {
      InsertApart(s.received, x, s.cumulativeAck + 1);
    }
  }

  /** A stored packet that begins below the acknowledgement is never absorbed. */
  lemma StuckFront(s: State)
    requires s.received != [] && s.received[0].first <= s.cumulativeAck
    ensures Absorb(s) == s && !Tidy(s)
  {}

  lemma ExactNeedsClean(s: State, x: Chunk)
    requires Tidy(s) && x.size >= 1 && Tidy(Process(s, x))
    requires forall b: nat :: Holds(Process(s, x), b) <==> Holds(s, b) || Carries(x, b)
    ensures Clean(s, x)
  {
    hide Stores, Reach;
    ApartMembers(s.received, s.cumulativeAck + 1);
    if Ignored(s, x) {
      IgnoredClean(s, x);
      IgnoredKeeps(s, x);
    } else if x.first == s.cumulativeAck + 1 {
      var u := State(x.first + x.size - 1, s.received);
      if s.received != [] && s.received[0].first <= u.cumulativeAck {
        StuckFront(u);
      }
    } else {
      InsertMembers(s.received, x);
      ApartMembers(Process(s, x).received, s.cumulativeAck + 1);
    }
  }

  lemma EmptyExact()
    ensures Exact(After([]), [])
  {}

  lemma LastExactly(xs: seq<Chunk>)
    requires xs != [] && xs[|xs| - 1].size >= 1
    requires Exact(After(xs[..|xs| - 1]), xs[..|xs| - 1])
    ensures Exact(After(xs), xs) <==> Clean(After(xs[..|xs| - 1]), xs[|xs| - 1])
  {
    hide Stores, Process, Clean, Tidy, Holds, Carries;
    var n := |xs| - 1;
    var s, x := After(xs[..n]), xs[n];
    assert xs == xs[..n] + [x];
    forall b: nat ensures Stores(xs, b) <==> Stores(xs[..n], b) || Carries(x, b) {
      StoresPush(xs[..n], x, b);
    }
    if Clean(s, x) {
      CleanKeepsExact(s, x);
    }
    if Exact(After(xs), xs) {
      ExactNeedsClean(s, x);
    }
  }

  /** With overlapping packets the list can hide bytes, so this is exact: every byte received
      so far stays accounted for, with nothing stuck in the list, after each of the packets
      if and only if each of them was clean when it arrived. */
  lemma {:induction false} ReassemblyExactly(xs: seq<Chunk>)
    requires forall x :: x in xs ==> x.size >= 1
    ensures (forall n :: 0 <= n <= |xs| ==> Exact(After(xs[..n]), xs[..n]))
            <==> (forall n :: 0 <= n < |xs| ==> Clean(After(xs[..n]), xs[n]))
  {
    hide Exact, Clean, After;
    if xs == [] {
      assert xs[..0] == [];
      EmptyExact();
    } else {
      var k := |xs| - 1;
      var ys := xs[..k];
      ReassemblyExactly(ys);
      assert xs[..k + 1] == xs && ys[..k] == ys;
      assert forall n :: 0 <= n <= k ==> ys[..n] == xs[..n];
      if Exact(After(ys), ys) {
        LastExactly(xs);
      }
    }
  }

  /** In an exact state the acknowledgement is the longest prefix of the bytes received. */
  lemma ExactAcknowledgement(s: State, xs: seq<Chunk>)
    requires Exact(s, xs)
    ensures forall b :: 1 <= b <= s.cumulativeAck ==> Stores(xs, b)
    ensures !Stores(xs, s.cumulativeAck + 1)
  {
    ApartMembers(s.received, s.cumulativeAck + 1);
    assert forall b: nat :: Holds(s, b) <==> Stores(xs, b);
    assert !Holds(s, s.cumulativeAck + 1);
  }

  /** A front entry that begins below the acknowledgement stays, and with it everything stored
      behind it, whatever arrives. */
  lemma StuckStays(s: State, x: Chunk)
    requires Ordered(s.received) && s.received != [] && s.received[0].first <= s.cumulativeAck
    ensures var t := Process(s, x);
            && t.received != [] && t.received[0] == s.received[0]
            && t.received[0].first <= t.cumulativeAck
            && forall r :: r in s.received ==> r in t.received
  {
    if x.first == s.cumulativeAck + 1 {
      StuckFront(State(x.first + x.size - 1, s.received));
    } else if x.first > s.cumulativeAck {
      InsertMembers(s.received, x);
    }
  }

  lemma {:induction false} StuckForEver(xs: seq<Chunk>, ys: seq<Chunk>)
    requires After(xs).received != [] && After(xs).received[0].first <= After(xs).cumulativeAck
    ensures var s, t := After(xs), After(xs + ys);
            && t.received != [] && t.received[0] == s.received[0]
            && t.received[0].first <= t.cumulativeAck
            && forall r :: r in s.received ==> r in t.received
  {
    hide Process;
    if ys == [] {
      assert xs + ys == xs;
    } else {
      var k := |ys| - 1;
      StuckForEver(xs, ys[..k]);
      assert (xs + ys)[..|xs + ys| - 1] == xs + ys[..k];
      NeverInvents(xs + ys[..k]);
      StuckStays(After(xs + ys[..k]), ys[k]);
    }
  }

  /** Two overlapping packets leave received bytes unacknowledged, and the stored entry stuck; only
      further packets that start exactly at the acknowledgement move it, never the list. */
  lemma OverlapHidesBytes()
    ensures var xs := [Chunk(51, 100), Chunk(1, 100)];
            && After(xs) == State(100, [Chunk(51, 100)])
            && (forall b :: 1 <= b <= 150 ==> Stores(xs, b))
            && !Clean(After(xs[..1]), xs[1])
            && After(xs + [Chunk(101, 50)]) == State(150, [Chunk(51, 100)])
  {
    var xs := [Chunk(51, 100), Chunk(1, 100)];
    assert xs[..1] == [Chunk(51, 100)] && xs[..1][..0] == [];
    assert After(xs[..1]) == State(0, [Chunk(51, 100)]);
    assert Chunk(51, 100) in After(xs[..1]).received && Overlap(Chunk(51, 100), Chunk(1, 100));
    assert (xs + [Chunk(101, 50)])[..2] == xs;
    forall b | 1 <= b <= 150 ensures Stores(xs, b) {
      assert xs[0] in xs && xs[1] in xs;
      assert Carries(xs[0], b) || Carries(xs[1], b);
    }
  }

  // ----- whole segments -------------------------------------------------------------

  /** A strictly sorted list of segments, none before number `lo`. */
  ghost predicate Stored(rs: seq<Chunk>, lo: nat) {
    Ordered(rs) && forall r :: r in rs ==> r == Segment(r.first / MSS) && r.first / MSS >= lo
  }

  /** The acknowledgement is on a segment boundary, and the list is strictly sorted and starts
      beyond the next expected segment. */
  ghost predicate Valid(s: State) {
    s.cumulativeAck % MSS == 0 && Stored(s.received, s.cumulativeAck / MSS + 1)
  }

  ghost predicate Has(s: State, k: nat) {
    k < s.cumulativeAck / MSS || Segment(k) in s.received
  }

  lemma SegmentNumber(k: nat)
    ensures Segment(k).first / MSS == k
  {}

  lemma {:induction false} AbsorbGrows(s: State)
    ensures Absorb(s).cumulativeAck >= s.cumulativeAck
    decreases |s.received|
  {
    if s.received == [] || s.cumulativeAck + 1 != s.received[0].first {
    } else {
      AbsorbGrows(State(s.cumulativeAck + s.received[0].size, s.received[1..]));
    }
  }

  lemma InsertStored(rs: seq<Chunk>, k: nat, lo: nat)
    requires Stored(rs, lo) && k >= lo
    ensures Stored(Insert(rs, Segment(k)), lo)
    ensures forall x :: x in Insert(rs, Segment(k)) <==> x in rs || x == Segment(k)
  {
    hide Ordered;
    SegmentNumber(k);
    InsertOrdered(rs, Segment(k));
    InsertMembers(rs, Segment(k));
  }

  /** The segment after the acknowledgement moves from the list into the prefix. */
  lemma AbsorbOne(s: State)
    requires s.cumulativeAck % MSS == 0 && Stored(s.received, s.cumulativeAck / MSS)
    requires s.received != [] && s.cumulativeAck + 1 == s.received[0].first
    ensures var t := State(s.cumulativeAck + s.received[0].size, s.received[1..]);
            && t.cumulativeAck % MSS == 0 && Stored(t.received, t.cumulativeAck / MSS)
            && forall k: nat :: Has(t, k) <==> Has(s, k)
  {
    hide Ordered;
    var m, r := s.cumulativeAck / MSS, s.received[0];
    var t := State(s.cumulativeAck + r.size, s.received[1..]);
    OrderedTail(s.received);
    assert s.received == [r] + t.received;
    assert r in s.received && r == Segment(m);
    forall k: nat ensures Has(t, k) <==> Has(s, k) {
      SegmentNumber(k);
      SegmentNumber(m);
    }
  }

  lemma NoneNext(s: State)
    requires s.cumulativeAck % MSS == 0 && Stored(s.received, s.cumulativeAck / MSS)
    requires s.received != [] && s.cumulativeAck + 1 != s.received[0].first
    ensures Stored(s.received, s.cumulativeAck / MSS + 1)
  {
    var m := s.cumulativeAck / MSS;
    assert s.received[0] in s.received;
    assert s.received[0].first / MSS != m;
    forall r | r in s.received ensures r.first / MSS >= m + 1 {
      assert s.received[0].first <= r.first;
    }
  }

  lemma StoredNone(lo: nat)
    ensures Stored([], lo)
  {}

  lemma {:induction false} AbsorbValid(s: State)
    requires s.cumulativeAck % MSS == 0 && Stored(s.received, s.cumulativeAck / MSS)
    ensures Valid(Absorb(s)) && Absorb(s).cumulativeAck >= s.cumulativeAck
    ensures forall k: nat :: Has(Absorb(s), k) <==> Has(s, k)
    decreases |s.received|
  {
    hide Has, Stored;
    if s.received == [] {
      StoredNone(s.cumulativeAck / MSS + 1);
    } else if s.cumulativeAck + 1 != s.received[0].first {
      NoneNext(s);
    } else {
      AbsorbOne(s);
      AbsorbValid(State(s.cumulativeAck + s.received[0].size, s.received[1..]));
    }
  }

  /** Processing a segment adds exactly that segment to the set received. */
  lemma ProcessAdds(s: State, k: nat)
    requires Valid(s)
    ensures var t := Process(s, Segment(k));
            && Valid(t) && t.cumulativeAck >= s.cumulativeAck
            && forall j: nat :: Has(t, j) <==> Has(s, j) || j == k
  {
    hide Stored, Absorb, Insert;
    var x, m := Segment(k), s.cumulativeAck / MSS;
    SegmentNumber(k);
    if x.first == s.cumulativeAck + 1 {
      var u := State(s.cumulativeAck + MSS, s.received);
      assert k == m && u.cumulativeAck / MSS == m + 1;
      AbsorbValid(u);
    } else if x.first > s.cumulativeAck {
      InsertStored(s.received, k, m + 1);
      forall j: nat ensures Has(Process(s, x), j) <==> Has(s, j) || j == k {
        SegmentNumber(j);
      }
    }
  }

  // ----- the state is a canonical form of the set -----------------------------------

  function Segments(ks: seq<nat>): seq<Chunk> {
    seq(|ks|, i requires 0 <= i < |ks| => Segment(ks[i]))
  }

  /** After any segments, in any order and with repeats, exactly those have been received. */
  lemma {:induction false} ReassemblyRefinesSet(ks: seq<nat>)
    ensures Valid(After(Segments(ks)))
    ensures forall k: nat :: Has(After(Segments(ks)), k) <==> k in ks
  {
    if ks == [] {
    } else {
      var n := |ks| - 1;
      ReassemblyRefinesSet(ks[..n]);
      assert Segments(ks)[..n] == Segments(ks[..n]);
      ProcessAdds(After(Segments(ks[..n])), ks[n]);
      assert ks == ks[..n] + [ks[n]];
    }
  }

  lemma SegmentsDisjoint(j: nat, k: nat)
    ensures j != k ==> !Overlap(Segment(j), Segment(k)) && Segment(j).first != Segment(k).first
  {}

  lemma {:induction false} StoredApart(rs: seq<Chunk>, m: nat, lo: nat)
    requires Stored(rs, m) && lo <= m * MSS
    ensures Apart(rs, lo)
    decreases rs
  {
    if rs == [] {
    } else {
      var k := rs[0].first / MSS;
      assert rs[0] == Segment(k);
      forall i | 0 <= i < |rs[1..]| ensures rs[1..][i].first / MSS >= k + 1 {
        assert rs[1..][i] == rs[i + 1] && rs[0].first < rs[i + 1].first;
      }
      StoredApart(rs[1..], k + 1, rs[0].first + rs[0].size - 1);
    }
  }

  lemma StoredMember(rs: seq<Chunk>, lo: nat, r: Chunk)
    requires Stored(rs, lo) && r in rs
    ensures r == Segment(r.first / MSS)
  {}

  /** Whole segments never overlap in part: each is clean in every state they lead to. */
  lemma SegmentsAreClean(s: State, k: nat)
    requires Valid(s)
    ensures Tidy(s) && Clean(s, Segment(k))
  {
    hide Apart, Stored, Reach;
    StoredApart(s.received, s.cumulativeAck / MSS + 1, s.cumulativeAck + 1);
    forall r | r in s.received ensures r == Segment(k) || (!Overlap(r, Segment(k)) && r.first != Segment(k).first) {
      StoredMember(s.received, s.cumulativeAck / MSS + 1, r);
      SegmentsDisjoint(r.first / MSS, k);
    }
    if Ignored(s, Segment(k)) {
      forall b: nat | Carries(Segment(k), b) ensures Holds(s, b) {
        if Segment(k).first > s.cumulativeAck {
          assert Segment(k) in s.received;
        }
      }
      IgnoredClean(s, Segment(k));
    }
  }

  /** The acknowledgement is the longest received prefix; the list is exactly the rest, sorted. */
  lemma AckIsLongestPrefix(s: State)
    requires Valid(s)
    ensures var m := s.cumulativeAck / MSS;
            && s.cumulativeAck == m * MSS
            && (forall k :: 0 <= k < m ==> Has(s, k)) && !Has(s, m)
            && (forall k: nat :: Segment(k) in s.received <==> Has(s, k) && k >= m)
            && (forall i, j :: 0 <= i < j < |s.received| ==> s.received[i].first < s.received[j].first)
  {}

  function HeadNumber(rs: seq<Chunk>): nat {
    if rs == [] then 0 else rs[0].first / MSS
  }

  lemma HeadStored(rs: seq<Chunk>, lo: nat)
    requires Stored(rs, lo)
    ensures rs != [] ==> rs[0] == Segment(HeadNumber(rs)) && Segment(HeadNumber(rs)) in rs
  {}

  lemma HeadLeast(rs: seq<Chunk>, x: Chunk, lo: nat)
    requires Stored(rs, lo) && x in rs
    ensures rs[0].first <= x.first && (x.first == rs[0].first ==> x == rs[0])
    ensures rs[0] !in rs[1..] && Stored(rs[1..], lo)
  {}

  lemma {:induction false} SortedListUnique(a: seq<Chunk>, b: seq<Chunk>, lo: nat)
    requires Stored(a, lo) && Stored(b, lo)
    requires forall k: nat :: Segment(k) in a <==> Segment(k) in b
    ensures a == b
  {
    HeadStored(a, lo);
    HeadStored(b, lo);
    if a == [] || b == [] {
    } else {
      HeadLeast(a, b[0], lo);
      HeadLeast(b, a[0], lo);
      hide Stored;
      assert a == [a[0]] + a[1..] && b == [b[0]] + b[1..];
      forall k: nat ensures Segment(k) in a[1..] <==> Segment(k) in b[1..] {
        assert Segment(k) in a <==> Segment(k) in b;
      }
      SortedListUnique(a[1..], b[1..], lo);
    }
  }

  /** Equal sets of segments give equal states. */
  lemma SameSetSameState(s: State, t: State)
    requires Valid(s) && Valid(t) && forall k: nat :: Has(s, k) <==> Has(t, k)
    ensures s == t
  {
    AckIsLongestPrefix(s);
    AckIsLongestPrefix(t);
    var m, n := s.cumulativeAck / MSS, t.cumulativeAck / MSS;
    assert m == n;
    SortedListUnique(s.received, t.received, m + 1);
  }

  /** Order and repetition do not matter. */
  lemma OrderIrrelevant(ks: seq<nat>, ls: seq<nat>)
    requires forall k: nat :: k in ks <==> k in ls
    ensures After(Segments(ks)) == After(Segments(ls))
  {
    ReassemblyRefinesSet(ks);
    ReassemblyRefinesSet(ls);
    SameSetSameState(After(Segments(ks)), After(Segments(ls)));
  }

  // ----- the insertion point --------------------------------------------------------

  lemma InsertHere(rs: seq<Chunk>, x: Chunk)
    requires rs != [] && x.first <= rs[0].first
    ensures Insert(rs, x) == if x.first == rs[0].first then rs else [x] + rs
  {}

  /** Insertion passes over the smaller elements. */
  lemma {:induction false} InsertAfterPrefix(rs: seq<Chunk>, n: nat, x: Chunk)
    requires n <= |rs| && forall j :: 0 <= j < n ==> rs[j].first < x.first
    ensures Insert(rs, x) == rs[..n] + Insert(rs[n..], x)
  {
    if n == 0 {
    } else {
      InsertAfterPrefix(rs[1..], n - 1, x);
      assert rs[1..][..n - 1] == rs[1..n] && rs[1..][n - 1..] == rs[n..];
      assert rs[..n] == [rs[0]] + rs[1..n];
      Packets.Associative([rs[0]], rs[1..n], Insert(rs[n..], x));
    }
  }
}

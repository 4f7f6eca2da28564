/** Packets, and the sequence vocabulary every queue model shares. */
module Packets {

  datatype Option<+T> = None | Some(value: T)

  /** What the schedulers read of a packet: its identifier, its flow and its size in bytes. */
  datatype Packet = Packet(id: nat, flow: nat, size: nat)

  /** Total size of the packets in a list. */
  function Bytes(ps: seq<Packet>): nat {
    if ps == [] then 0 else ps[0].size + Bytes(ps[1..])
  }

  /** The packets of flow `f`, in the order of the list. */
  function OfFlow(ps: seq<Packet>, f: nat): seq<Packet> {
    if ps == [] then []
    else if ps[0].flow == f then [ps[0]] + OfFlow(ps[1..], f)
    else OfFlow(ps[1..], f)
  }

  /** The packet of an optional slot, as a list of zero or one packets. */
  function Listed(o: Option<Packet>): seq<Packet> {
    match o
    case None => []
    case Some(p) => [p]
  }

  /** Size of the packet in an optional slot. */
  function SizeOf(o: Option<Packet>): nat {
    match o
    case None => 0
    case Some(p) => p.size
  }

  lemma BytesSingle(p: Packet)
    ensures Bytes([p]) == p.size && Bytes([]) == 0
  {}

  lemma {:induction false} BytesConcat(a: seq<Packet>, b: seq<Packet>)
    ensures Bytes(a + b) == Bytes(a) + Bytes(b)
  {
    if a == [] {
      assert a + b == b;
    } else {
      BytesConcat(a[1..], b);
      assert (a + b)[1..] == a[1..] + b;
    }
  }

  lemma {:induction false} OfFlowConcat(a: seq<Packet>, b: seq<Packet>, f: nat)
    ensures OfFlow(a + b, f) == OfFlow(a, f) + OfFlow(b, f)
  {
    if a == [] {
      assert a + b == b;
    } else {
      OfFlowConcat(a[1..], b, f);
      assert (a + b)[1..] == a[1..] + b;
    }
  }

  lemma OfFlowSingle(p: Packet, f: nat)
    ensures OfFlow([p], f) == if p.flow == f then [p] else []
  {}

  lemma OfFlowEmpty(f: nat)
    ensures OfFlow([], f) == []
  {}

  lemma MultisetConcat<T>(a: seq<T>, b: seq<T>)
    ensures multiset(a + b) == multiset(a) + multiset(b)
  {}

  /** `xs` can be obtained from `ys` by deleting elements and keeping the order of the rest. */
  ghost predicate IsSubsequence<T>(xs: seq<T>, ys: seq<T>) {
    if xs == [] then true
    else if ys == [] then false
    else
      var x, y := |xs| - 1, |ys| - 1;
      (xs[x] == ys[y] && IsSubsequence(xs[..x], ys[..y])) || IsSubsequence(xs, ys[..y])
  }

  lemma EmptySubsequence<T>(ys: seq<T>)
    ensures IsSubsequence([], ys)
  {}

  lemma SubsequencePush<T>(xs: seq<T>, ys: seq<T>, e: T)
    requires IsSubsequence(xs, ys)
    ensures IsSubsequence(xs + [e], ys + [e])
  {}

  lemma {:induction false} SubsequencePop<T>(xs: seq<T>, ys: seq<T>)
    requires xs != [] && IsSubsequence(xs, ys)
    ensures IsSubsequence(xs[..|xs| - 1], ys)
  {
    var x, y := |xs| - 1, |ys| - 1;
    if IsSubsequence(xs, ys[..y]) {
      SubsequencePop(xs, ys[..y]);
    }
    if x > 0 && xs[x] == ys[y] && IsSubsequence(xs[..x], ys[..y]) {
      assert IsSubsequence(xs[..x], ys);
    }
  }

  /** The contents of several lists, one after the other. */
  function Flat(lists: seq<seq<Packet>>): seq<Packet> {
    if lists == [] then [] else lists[0] + Flat(lists[1..])
  }

  lemma Associative<T>(a: seq<T>, b: seq<T>, c: seq<T>)
    ensures a + (b + c) == (a + b) + c
  {}

  lemma {:induction false} FlatConcat(a: seq<seq<Packet>>, b: seq<seq<Packet>>)
    ensures Flat(a + b) == Flat(a) + Flat(b)
  {
    if a == [] {
      assert a + b == b;
    } else {
      FlatConcat(a[1..], b);
      assert (a + b)[1..] == a[1..] + b;
      Associative(a[0], Flat(a[1..]), Flat(b));
    }
  }

  lemma {:induction false} FlatEmpty(a: seq<seq<Packet>>)
    requires forall k :: 0 <= k < |a| ==> a[k] == []
    ensures Flat(a) == []
  {
    if a == [] {
    } else {
      FlatEmpty(a[1..]);
    }
  }

  lemma FlatSplit(a: seq<seq<Packet>>, k: nat)
    requires k < |a|
    ensures Flat(a) == Flat(a[..k]) + a[k] + Flat(a[k + 1..])
  {
    assert a == a[..k] + a[k..];
    FlatConcat(a[..k], a[k..]);
  }

  lemma FlatUpdate(a: seq<seq<Packet>>, k: nat, x: seq<Packet>)
    requires k < |a|
    ensures Flat(a[k := x]) == Flat(a[..k]) + x + Flat(a[k + 1..])
  {
    var u := a[k := x];
    FlatSplit(u, k);
    assert u[..k] == a[..k] && u[k + 1..] == a[k + 1..];
  }

  lemma AppendFlat(a: seq<seq<Packet>>, k: nat, p: Packet)
    requires k < |a|
    ensures var b := a[k := a[k] + [p]];
            && Flat(b) == Flat(a[..k]) + a[k] + [p] + Flat(a[k + 1..])
            && |Flat(b)| == |Flat(a)| + 1
            && Bytes(Flat(b)) == Bytes(Flat(a)) + p.size
  {
    FlatUpdate(a, k, a[k] + [p]);
    FlatSplit(a, k);
    hide Flat;
    var l, r := Flat(a[..k]) + a[k], Flat(a[k + 1..]);
    assert Flat(a[..k]) + (a[k] + [p]) + r == l + [p] + r;
    BytesConcat(l + [p], r);
    BytesConcat(l, [p]);
    BytesConcat(l, r);
  }

  /** Taking the first packet off list `k`. */
  lemma PopFlat(a: seq<seq<Packet>>, k: nat)
    requires k < |a| && a[k] != []
    ensures var b := a[k := a[k][1..]];
            |Flat(b)| == |Flat(a)| - 1 && Bytes(Flat(b)) == Bytes(Flat(a)) - a[k][0].size
  {
    FlatUpdate(a, k, a[k][1..]);
    FlatSplit(a, k);
    hide Flat;
    var l, x, r := Flat(a[..k]), a[k], Flat(a[k + 1..]);
    assert x == [x[0]] + x[1..];
    BytesConcat(l + x, r);
    BytesConcat(l, x);
    BytesConcat(l + x[1..], r);
    BytesConcat(l, x[1..]);
  }
}

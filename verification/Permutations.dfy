/**
  The cartesian product of a list of collections, in the order of nested loops, and the
  position of an index vector in it.  Both permutation iterators are measured against it.
 */
module Permutations {
  /** All ways to put `x` in front. */
  function Each<V>(x: V, rest: seq<seq<V>>): (r: seq<seq<V>>)
    ensures |r| == |rest| && forall i :: 0 <= i < |rest| ==> r[i] == [x] + rest[i]
  {
    seq(|rest|, i requires 0 <= i < |rest| => [x] + rest[i])
  }

  function Loop<V>(c: seq<V>, rest: seq<seq<V>>): seq<seq<V>> {
    if c == [] then [] else Each(c[0], rest) + Loop(c[1..], rest)
  }

  /** Nested loops over the collections, the last one innermost. */
  function Product<V>(cs: seq<seq<V>>): seq<seq<V>> {
    if cs == [] then [[]] else Loop(cs[0], Product(cs[1..]))
  }

  function Sizes<V>(cs: seq<seq<V>>): nat {
    if cs == [] then 1 else |cs[0]| * Sizes(cs[1..])
  }

  predicate InRange<V>(cs: seq<seq<V>>, idx: seq<nat>) {
    |idx| == |cs| && forall i :: 0 <= i < |cs| ==> idx[i] < |cs[i]|
  }

  function Pick<V>(cs: seq<seq<V>>, idx: seq<nat>): (r: seq<V>)
    requires InRange(cs, idx)
    ensures |r| == |cs|
  {
    seq(|cs|, i requires 0 <= i < |cs| => cs[i][idx[i]])
  }

  /** The mixed-radix number that the indexes spell, the first digit being the heaviest. */
  function Rank<V>(cs: seq<seq<V>>, idx: seq<nat>): nat
    requires |idx| == |cs|
  {
    if cs == [] then 0 else idx[0] * Sizes(cs[1..]) + Rank(cs[1..], idx[1..])
  }

  // -------- the product is enumerated by rank --------

  lemma {:induction false} LoopAt<V>(c: seq<V>, rest: seq<seq<V>>, i: nat, j: nat)
    requires i < |c| && j < |rest|
    ensures |Loop(c, rest)| == |c| * |rest|
    ensures 0 <= i * |rest| + j < |c| * |rest|
    ensures Loop(c, rest)[i * |rest| + j] == [c[i]] + rest[j]
    decreases i
  {
    LoopSize(c, rest);
    InBlock(i, |c|, j, |rest|);
    if i > 0 {
      LoopAt(c[1..], rest, i - 1, j);
      assert i * |rest| + j == |rest| + ((i - 1) * |rest| + j);
    }
  }

  lemma InBlock(i: nat, m: nat, j: nat, n: nat)
    requires i < m && j < n
    ensures 0 <= i * n <= i * n + j < m * n
  {
    assert (i + 1) * n <= m * n;
  }

  lemma {:induction false} LoopSize<V>(c: seq<V>, rest: seq<seq<V>>)
    ensures |Loop(c, rest)| == |c| * |rest|
  {
    if c != [] {
      LoopSize(c[1..], rest);
      OneMoreBlock(|c|, |rest|);
    }
  }

  lemma OneMoreBlock(m: nat, n: nat)
    requires m > 0
    ensures n + (m - 1) * n == m * n
  {
  }

  lemma {:induction false} ProductSize<V>(cs: seq<seq<V>>)
    ensures |Product(cs)| == Sizes(cs)
  {
    if cs != [] {
      ProductSize(cs[1..]);
      LoopSize(cs[0], Product(cs[1..]));
    }
  }

  lemma TailInRange<V>(cs: seq<seq<V>>, idx: seq<nat>)
    requires InRange(cs, idx) && cs != []
    ensures InRange(cs[1..], idx[1..]) && idx[0] < |cs[0]|
    ensures Pick(cs, idx) == [cs[0][idx[0]]] + Pick(cs[1..], idx[1..])
  {
  }

  /** The element at the rank of an index vector is what the indexes pick. */
  lemma {:induction false} ProductAt<V>(cs: seq<seq<V>>, idx: seq<nat>)
    requires InRange(cs, idx)
    ensures Rank(cs, idx) < |Product(cs)| == Sizes(cs)
    ensures Product(cs)[Rank(cs, idx)] == Pick(cs, idx)
  {
    ProductSize(cs);
    if cs != [] {
      TailInRange(cs, idx);
      ProductAt(cs[1..], idx[1..]);
      LoopAt(cs[0], Product(cs[1..]), idx[0], Rank(cs[1..], idx[1..]));
    }
  }

  /** Lexicographic order on index vectors. */
  predicate Before(a: seq<nat>, b: seq<nat>)
    requires |a| == |b|
  {
    a != [] && (a[0] < b[0] || (a[0] == b[0] && Before(a[1..], b[1..])))
  }

  /** Ranks order index vectors lexicographically, so no vector comes twice. */
  lemma {:induction false} RankOrder<V>(cs: seq<seq<V>>, a: seq<nat>, b: seq<nat>)
    requires InRange(cs, a) && InRange(cs, b)
    ensures Rank(cs, a) < Rank(cs, b) <==> Before(a, b)
    ensures Rank(cs, a) == Rank(cs, b) <==> a == b
  {
    if cs == [] {
      assert a == b;
    } else {
      TailInRange(cs, a);
      TailInRange(cs, b);
      RankOrder(cs[1..], a[1..], b[1..]);
      ProductAt(cs[1..], a[1..]);
      ProductAt(cs[1..], b[1..]);
      var n := Sizes(cs[1..]);
      if a[0] < b[0] { Heavier(a[0], b[0], n, Rank(cs[1..], a[1..])); }
      if b[0] < a[0] { Heavier(b[0], a[0], n, Rank(cs[1..], b[1..])); }
      assert a == [a[0]] + a[1..] && b == [b[0]] + b[1..];
    }
  }

  lemma Heavier(i: nat, j: nat, n: nat, r: nat)
    requires i < j && r < n
    ensures i * n + r < j * n
  {
    assert (i + 1) * n <= j * n;
  }

  /** Every position of the product is the rank of some index vector. */
  lemma {:induction false} Unrank<V>(cs: seq<seq<V>>, n: nat) returns (idx: seq<nat>)
    requires n < |Product(cs)|
    ensures InRange(cs, idx) && Rank(cs, idx) == n
  {
    hide Product;
    ProductSize(cs);
    idx := [];
    if cs != [] {
      var m := Sizes(cs[1..]);
      ProductSize(cs);
      ProductSize(cs[1..]);
      var i, rest := Digits(n, |cs[0]|, m);
      var tail := Unrank(cs[1..], rest);
      idx := [i] + tail;
      assert idx[1..] == tail;
      assert forall j :: 1 <= j < |cs| ==> cs[j] == cs[1..][j - 1];
    }
  }

  lemma Digits(n: nat, k: nat, m: nat) returns (i: nat, rest: nat)
    requires n < k * m
    ensures i < k && rest < m && i * m + rest == n
  {
    i, rest := n / m, n % m;
    if k <= i {
      Scale(k, i, m);
      assert false;
    }
  }

  lemma Scale(i: nat, j: nat, m: nat)
    requires i <= j
    ensures i * m <= j * m
  {
  }

  // -------- one step of an odometer --------

  /** Add one with carry, the last digit turning fastest; the flag tells that it wrapped around. */
  function Carry<V>(cs: seq<seq<V>>, idx: seq<nat>): (r: (seq<nat>, bool))
    requires |idx| == |cs|
    ensures |r.0| == |cs|
  {
    if cs == [] then ([], true) else
      var (tail, wrapped) := Carry(cs[1..], idx[1..]);
      if !wrapped then ([idx[0]] + tail, false)
      else if idx[0] + 1 == |cs[0]| then ([0] + tail, true)
      else ([idx[0] + 1] + tail, false)
  }

  function Zeros(n: nat): (r: seq<nat>)
    ensures |r| == n && forall i :: 0 <= i < n ==> r[i] == 0
  {
    seq(n, _ => 0)
  }

  lemma {:induction false} RankZeros<V>(cs: seq<seq<V>>)
    ensures Rank(cs, Zeros(|cs|)) == 0
  {
    if cs != [] {
      RankZeros(cs[1..]);
      assert Zeros(|cs|)[1..] == Zeros(|cs[1..]|);
    }
  }

  /** The step moves to the next element of the product, or from the last one back to the start. */
  lemma {:induction false} CarryAdvances<V>(cs: seq<seq<V>>, idx: seq<nat>)
    requires InRange(cs, idx)
    ensures var (next, wrapped) := Carry(cs, idx);
            && InRange(cs, next)
            && (wrapped ==> next == Zeros(|cs|) && Rank(cs, idx) + 1 == |Product(cs)|)
            && (!wrapped ==> Rank(cs, next) == Rank(cs, idx) + 1)
  {
    if cs != [] {
      TailInRange(cs, idx);
      CarryAdvances(cs[1..], idx[1..]);
      ProductSize(cs);
      ProductSize(cs[1..]);
      var (tail, wrapped) := Carry(cs[1..], idx[1..]);
      var (next, all) := Carry(cs, idx);
      assert next[1..] == tail;
      assert forall i :: 1 <= i < |cs| ==> next[i] == tail[i - 1] && cs[i] == cs[1..][i - 1];
      if wrapped {
        RankZeros(cs[1..]);
        assert (idx[0] + 1) * Sizes(cs[1..]) == idx[0] * Sizes(cs[1..]) + Sizes(cs[1..]);
        if all {
          assert next == Zeros(|cs|);
        }
      }
    }
  }
}

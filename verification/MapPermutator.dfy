/** The flat odometer over a map of collections. */
module MapPermutators {
  import opened OrderedMaps
  import opened Permutations

  /** The collections of a map in key order. */
  function Collections<V>(m: OrderedMap<seq<V>>): (cs: seq<seq<V>>)
    ensures |cs| == |m.keys|
    ensures forall i :: 0 <= i < |cs| ==> m.keys[i] in m.at && cs[i] == m.at[m.keys[i]]
  {
    assert forall i :: 0 <= i < |m.keys| ==> m.keys[i] in m.at by {
      forall i | 0 <= i < |m.keys| ensures m.keys[i] in m.at { KeyAt(m, i); }
    }
    seq(|m.keys|, i requires 0 <= i < |m.keys| => m.at[m.keys[i]])
  }

  function Zip<V>(keys: seq<string>, vals: seq<V>): (r: map<string, V>)
    requires |keys| == |vals|
    ensures r.Keys == KeySet(keys)
  {
    if keys == [] then map[] else
      var n := |keys| - 1;
      assert keys == keys[..n] + [keys[n]];
      Zip(keys[..n], vals[..n])[keys[n] := vals[n]]
  }

  /** The map that gives each key its value. */
  function Combination<V>(keys: seq<string>, vals: seq<V>): OrderedMap<V>
    requires Sorted(keys) && |keys| == |vals|
  {
    OMap(keys, Zip(keys, vals))
  }

  lemma {:induction false} CombinationAt<V>(keys: seq<string>, vals: seq<V>, i: nat)
    requires Sorted(keys) && |keys| == |vals| && i < |keys|
    ensures keys[i] in Combination(keys, vals).at && Combination(keys, vals).at[keys[i]] == vals[i]
    decreases |keys|
  {
    var n := |keys| - 1;
    KeysDistinct(keys);
    if i < n {
      CombinationAt(keys[..n], vals[..n], i);
      assert keys[i] != keys[n];
    }
  }

  /** Everything the permutator goes through: the product in key order, and nothing for an empty map. */
  function Enumerate<V>(m: OrderedMap<seq<V>>): (r: seq<OrderedMap<V>>)
    ensures |r| == if m.keys == [] then 0 else |Product(Collections(m))|
  {
    if m.keys == [] then [] else
      var p := Product(Collections(m));
      seq(|p|, n requires 0 <= n < |p| => Combination(m.keys, Element(Collections(m), n)))
  }

  function Element<V>(cs: seq<seq<V>>, n: nat): (vals: seq<V>)
    requires n < |Product(cs)|
    ensures |vals| == |cs|
  {
    ElementSize(cs, n);
    Product(cs)[n]
  }

  lemma ElementSize<V>(cs: seq<seq<V>>, n: nat)
    requires n < |Product(cs)|
    ensures |Product(cs)[n]| == |cs|
  {
    var idx := Unrank(cs, n);
    ProductAt(cs, idx);
  }

  /** The loop of the constructor: all digits at zero, or at the size of their collection from the end on. */
  method StartIndexes<V>(m: OrderedMap<seq<V>>, atEnd: bool) returns (ix: seq<nat>, e: bool)
    ensures |ix| == |m.keys| && forall i :: 0 <= i < |ix| ==> ix[i] <= |Collections(m)[i]|
    ensures atEnd ==> e && ix == Lengths(Collections(m))
    ensures !atEnd ==> (e <==> exists j :: 0 <= j < |m.keys| && Collections(m)[j] == [])
    ensures !e ==> ix == Zeros(|m.keys|) && InRange(Collections(m), ix)
  {
    hide Sorted, KeySet, Less;
    ghost var cs := Collections(m);
    ix, e := [], atEnd;
    for i := 0 to |m.keys|
      invariant |ix| == i
      invariant atEnd ==> e && ix == Lengths(cs)[..i]
      invariant !atEnd ==> (e <==> exists j :: 0 <= j < i && cs[j] == [])
      invariant !e ==> forall j :: 0 <= j < i ==> ix[j] == 0 < |cs[j]|
      invariant forall j :: 0 <= j < i ==> ix[j] <= |cs[j]|
    {
      KeyAt(m, i);
      var values := m.at[m.keys[i]];
      assert values == cs[i];
      if values == [] {
        e := true;
      }
      ix := ix + [if e then |values| else 0];
    }
    assert Lengths(cs)[..|cs|] == Lengths(cs);
  }

  class MapIterator<V(==)> {
    const source: OrderedMap<seq<V>>
    var indexes: seq<nat>
    var end: bool

    ghost predicate Valid()
      reads this
    {
      && |indexes| == |source.keys|
      && (!end ==> InRange(Collections(source), indexes))
      && (end ==> forall i :: 0 <= i < |indexes| ==> indexes[i] <= |Collections(source)[i]|)
    }

    /** How many elements have been passed. */
    ghost function Position(): nat
      requires Valid()
      reads this
    {
      if end || source.keys == [] then |Enumerate(source)| else Rank(Collections(source), indexes)
    }

    constructor (m: OrderedMap<seq<V>>, atEnd: bool)
      ensures Valid() && source == m
      ensures Position() == if atEnd then |Enumerate(m)| else 0
      ensures atEnd ==> end && indexes == Lengths(Collections(m))
    {
      hide Product, Sizes, Rank, Enumerate, Zip, Sorted, KeySet;
      source := m;
      var ix, e := StartIndexes(m, atEnd);
      indexes, end := ix, e;
      new;
      ghost var cs := Collections(m);
      if !atEnd && end {
        ghost var j :| 0 <= j < |cs| && cs[j] == [];
        EnumerateNothing(m, j);
      } else if !atEnd {
        RankZeros(cs);
        EnumerateNone(m);
      }
    }

    /** `operator++`: from the last digit on, add one and carry. */
    method Next()
      requires Valid()
      modifies this
      ensures Valid()
      ensures Position() == if old(Position()) < |Enumerate(source)| then old(Position()) + 1 else old(Position())
      ensures old(end) ==> end && indexes == old(indexes)
    {
      hide Product, Sizes, Rank, Enumerate, Zip, Carry, Less, Combination, Sorted, KeySet;
      EnumerateNone(source);
      if end {
        return;
      }
      ghost var cs, start := Collections(source), indexes;
      CarryAdvances(cs, start);
      ProductAt(cs, start);
      var it := |indexes|;
      assert Carry(cs[it..], start[it..]) == (indexes[it..], true) by { CarryNothing(cs[it..], start[it..]); }
      while it > 0
        invariant it <= |indexes| == |cs| && !end
        invariant indexes[..it] == start[..it]
        invariant Carry(cs[it..], start[it..]) == (indexes[it..], true)
        decreases it
      {
        ghost var tail := indexes[it..];
        it := it - 1;
        CarryDigit(cs, start, it);
        KeyAt(source, it);
        assert indexes[it] == start[it];
        indexes := indexes[it := indexes[it] + 1];
        if indexes[it] == |source.at[source.keys[it]]| {
          indexes := indexes[it := 0];
          assert indexes[it..] == [0] + tail;
        } else {
          assert indexes[it..] == [start[it] + 1] + tail;
          CarryStops(cs, start, it);
          assert indexes == start[..it] + indexes[it..];
          return;
        }
      }
      assert cs[0..] == cs && start[0..] == start && indexes[0..] == indexes;
      end := true;
    }

    /** `operator==`. */
    predicate Equals(other: MapIterator<V>)
      requires |indexes| == |source.keys| && |other.indexes| == |other.source.keys|
      reads this, other
    {
      && source == other.source
      && ((end && end == other.end) || forall i :: 0 <= i < |indexes| ==> indexes[i] == other.indexes[i])
    }

    /** Comparing with an end iterator tells whether all elements have been passed. */
    lemma EqualsEnd(last: MapIterator<V>)
      requires Valid() && last.source == source && last.end && last.indexes == Lengths(Collections(source))
      ensures Equals(last) <==> Position() == |Enumerate(source)|
    {
      var cs := Collections(source);
      if !end && source.keys != [] {
        ProductAt(cs, indexes);
        assert indexes[0] < |cs[0]| == last.indexes[0];
      }
    }

    /** `operator*`. */
    method Deref() returns (result: OrderedMap<V>)
      requires Valid() && Position() < |Enumerate(source)|
      ensures result == Enumerate(source)[Position()]
    {
      hide Product, Sizes, Rank, Pick, Enumerate, Zip, Sorted, KeySet, Collections, Combination;
      ghost var cs := Collections(source);
      ghost var vals := Pick(cs, indexes);
      EnumerateAt(source, indexes);
      PickAt(cs, indexes);
      var at: map<string, V> := map[];
      NoZip<V>();
      for i := 0 to |source.keys|
        invariant at == Zip(source.keys[..i], vals[..i])
      {
        KeyAt(source, i);
        ZipNext(source.keys, vals, i);
        assert vals[i] == cs[i][indexes[i]];
        at := at[source.keys[i] := source.at[source.keys[i]][indexes[i]]];
      }
      assert source.keys[..|source.keys|] == source.keys && vals[..|vals|] == vals;
      ZipIsCombination(source.keys, vals);
      result := OMap(source.keys, at);
    }
  }

  lemma NoZip<V>()
    ensures Zip<V>([], []) == map[]
  {
  }

  lemma ZipIsCombination<V>(keys: seq<string>, vals: seq<V>)
    requires Sorted(keys) && |vals| == |keys|
    ensures IsMap(OMap(keys, Zip(keys, vals))) && OMap(keys, Zip(keys, vals)) == Combination(keys, vals)
  {
  }

  function Lengths<V>(cs: seq<seq<V>>): (r: seq<nat>)
    ensures |r| == |cs| && forall i :: 0 <= i < |cs| ==> r[i] == |cs[i]|
  {
    seq(|cs|, i requires 0 <= i < |cs| => |cs[i]|)
  }

  lemma {:induction false} EmptyProduct<V>(cs: seq<seq<V>>, j: nat)
    requires j < |cs| && cs[j] == []
    ensures Product(cs) == []
  {
    ProductSize(cs);
    if j > 0 {
      EmptyProduct(cs[1..], j - 1);
      ProductSize(cs[1..]);
    }
  }

  lemma ZipNext<V>(keys: seq<string>, vals: seq<V>, i: nat)
    requires i < |keys| == |vals|
    ensures Zip(keys[..i + 1], vals[..i + 1]) == Zip(keys[..i], vals[..i])[keys[i] := vals[i]]
  {
    assert keys[..i + 1][..i] == keys[..i] && vals[..i + 1][..i] == vals[..i];
  }

  lemma PickAt<V>(cs: seq<seq<V>>, idx: seq<nat>)
    requires InRange(cs, idx)
    ensures forall i :: 0 <= i < |cs| ==> Pick(cs, idx)[i] == cs[i][idx[i]]
  {
  }

  lemma EnumerateNone<V>(m: OrderedMap<seq<V>>)
    ensures m.keys == [] ==> |Enumerate(m)| == 0
    ensures m.keys != [] ==> |Enumerate(m)| == |Product(Collections(m))|
  {
  }

  /** The element at the position of an index vector gives each key the value its index picks. */
  lemma EnumerateAt<V>(m: OrderedMap<seq<V>>, idx: seq<nat>)
    requires InRange(Collections(m), idx) && m.keys != []
    ensures Rank(Collections(m), idx) < |Enumerate(m)|
    ensures Enumerate(m)[Rank(Collections(m), idx)] == Combination(m.keys, Pick(Collections(m), idx))
  {
    ProductAt(Collections(m), idx);
  }

  lemma EnumerateNothing<V>(m: OrderedMap<seq<V>>, j: nat)
    requires j < |m.keys| && Collections(m)[j] == []
    ensures Enumerate(m) == []
  {
    EmptyProduct(Collections(m), j);
  }

  lemma CarryNothing<V>(cs: seq<seq<V>>, idx: seq<nat>)
    requires cs == [] && idx == []
    ensures Carry(cs, idx) == ([], true)
  {
  }

  /** The carry reaches digit `i` when all digits after it have wrapped. */
  lemma CarryDigit<V>(cs: seq<seq<V>>, idx: seq<nat>, i: nat)
    requires |idx| == |cs| && i < |cs| && Carry(cs[i + 1..], idx[i + 1..]).1
    ensures Carry(cs[i..], idx[i..]) ==
            var tail := Carry(cs[i + 1..], idx[i + 1..]).0;
            if idx[i] + 1 == |cs[i]| then ([0] + tail, true) else ([idx[i] + 1] + tail, false)
  {
    assert cs[i..][1..] == cs[i + 1..] && idx[i..][1..] == idx[i + 1..];
  }

  /** Once a digit takes the carry, the digits before it stay. */
  lemma {:induction false} CarryStops<V>(cs: seq<seq<V>>, idx: seq<nat>, i: nat)
    requires |idx| == |cs| && i <= |cs| && !Carry(cs[i..], idx[i..]).1
    ensures Carry(cs, idx) == (idx[..i] + Carry(cs[i..], idx[i..]).0, false)
    decreases |cs|
  {
    if i == 0 {
      assert cs[0..] == cs && idx[0..] == idx;
      assert idx[..0] + Carry(cs, idx).0 == Carry(cs, idx).0;
    } else {
      assert cs[1..][i - 1..] == cs[i..] && idx[1..][i - 1..] == idx[i..];
      CarryStops(cs[1..], idx[1..], i - 1);
      var rest := Carry(cs[i..], idx[i..]).0;
      assert idx[..i] + rest == [idx[0]] + (idx[1..][..i - 1] + rest);
    }
  }

  /** `it` is on its way from `begin()` to `last`, the `end()` of the same permutator. */
  ghost predicate Ranging<V>(it: MapIterator<V>, last: MapIterator<V>, m: OrderedMap<seq<V>>)
    reads it, last
  {
    && it != last && it.Valid() && it.source == m
    && last.Valid() && last.source == m && last.end && last.indexes == Lengths(Collections(m))
    && it.Position() <= |Enumerate(m)|
    && (it.Equals(last) <==> it.Position() == |Enumerate(m)|)
  }

  /** `begin()` and `end()`. */
  method Begin<V(==)>(m: OrderedMap<seq<V>>) returns (it: MapIterator<V>, last: MapIterator<V>)
    ensures fresh(it) && fresh(last) && Ranging(it, last, m) && it.Position() == 0
  {
    hide Enumerate, Product, Rank, InRange, Collections, Lengths;
    it := new MapIterator<V>(m, false);
    last := new MapIterator<V>(m, true);
    it.EqualsEnd(last);
  }

  method Advance<V(==)>(it: MapIterator<V>, last: MapIterator<V>, ghost m: OrderedMap<seq<V>>)
    requires Ranging(it, last, m) && it.Position() < |Enumerate(m)|
    modifies it
    ensures Ranging(it, last, m) && it.Position() == old(it.Position()) + 1
  {
    hide Enumerate, Product, Rank, InRange, Collections, Lengths;
    it.Next();
    it.EqualsEnd(last);
  }

  /** A complete run: from `begin()` until equal to `end()`. */
  method Run<V(==)>(m: OrderedMap<seq<V>>) returns (visited: seq<OrderedMap<V>>)
    ensures visited == Enumerate(m)
  {
    hide Enumerate, Product, Rank, InRange, Collections, Lengths;
    var it, last := Begin(m);
    visited := [];
    while !it.Equals(last)
      invariant Ranging(it, last, m) && visited == Enumerate(m)[..it.Position()]
      decreases |Enumerate(m)| - it.Position()
    {
      var combination := it.Deref();
      visited := visited + [combination];
      Advance(it, last, m);
    }
  }
}

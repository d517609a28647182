/** The nested iterator: an outer position and, unless it is the last collection, an inner iterator. */
module PermutationIterators {
  import opened OrderedMaps
  import opened Permutations
  import opened MapPermutators

  class PermutationIterator<V> {
    const outer: seq<V>
    const inner: PermutationIterator?<V>
    var position: nat

    ghost const cs: seq<seq<V>>
    ghost const repr: set<object>

    /** The chain of iterators runs over `cs`. */
    ghost predicate Linked()
      reads this, repr
      decreases |cs|
    {
      && cs != [] && cs[0] == outer && this in repr && position <= |outer|
      && (inner == null <==> |cs| == 1)
      && (inner != null ==> inner.cs == cs[1..] && inner in repr && inner.repr <= repr - {this} && inner.Linked())
    }

    /** No inner iterator is at its end, unless an outer one is. */
    ghost predicate Valid()
      reads this, repr
      decreases |cs|
    {
      Linked() && (inner != null ==> inner.Valid() && (position < |outer| ==> !inner.AtEnd()))
    }

    predicate AtEnd()
      reads this
    {
      position == |outer|
    }

    ghost function Indices(): (r: seq<nat>)
      requires Valid()
      reads this, repr
      ensures |r| == |cs| && r[0] == position
      decreases |cs|
    {
      [position] + if inner == null then [] else inner.Indices()
    }

    lemma IndicesInRange()
      requires Valid() && !AtEnd()
      ensures InRange(cs, Indices())
      decreases |cs|
    {
      if inner != null {
        inner.IndicesInRange();
        assert forall i :: 1 <= i < |cs| ==> Indices()[i] == inner.Indices()[i - 1] && cs[i] == cs[1..][i - 1];
      }
    }

    /** How many elements have been passed. */
    ghost function Position(): nat
      requires Valid()
      reads this, repr
    {
      if AtEnd() then |Product(cs)| else Rank(cs, Indices())
    }

    /** The position, from the parts. */
    lemma PositionSplit()
      requires Valid()
      ensures inner == null ==> Position() == position && |Product(cs)| == |outer|
      ensures inner != null ==> |Product(cs)| == |outer| * |Product(inner.cs)|
      ensures inner != null && !AtEnd() ==>
                && Position() == position * |Product(inner.cs)| + inner.Position()
                && inner.Position() < |Product(inner.cs)|
      ensures !AtEnd() ==> Position() < |Product(cs)|
    {
      ProductSize(cs);
      ProductSize(cs[1..]);
      if !AtEnd() {
        IndicesInRange();
        ProductAt(cs, Indices());
        if inner == null {
          assert cs[1..] == [] && Indices() == [position];
        } else {
          inner.IndicesInRange();
          ProductAt(inner.cs, inner.Indices());
          assert Indices()[1..] == inner.Indices();
        }
      } else if inner == null {
        assert cs[1..] == [];
      }
    }

    constructor (c: seq<seq<V>>)
      requires c != []
      ensures Valid() && fresh(repr) && cs == c
      ensures AtEnd() <==> exists i :: 0 <= i < |c| && c[i] == []
      ensures Position() == 0
      decreases |c|
    {
      hide Product, Sizes, Rank, Pick;
      var rest: PermutationIterator?<V> := null;
      if |c| > 1 {
        rest := new PermutationIterator<V>(c[1..]);
      }
      outer, inner, position := c[0], rest, 0;
      cs, repr := c, {this} + if rest == null then {} else rest.repr;
      new;
      assert c[1..] != [] ==> forall i :: 1 <= i < |c| ==> c[i] == c[1..][i - 1];
      if HasEmptyCollection() {
        position := |outer|;
        ghost var j :| 0 <= j < |c| && c[j] == [];
        EmptyProduct(c, j);
      } else {
        PositionSplit();
      }
    }

    /** Built from end iterators only: every position is at its end. */
    constructor End(c: seq<seq<V>>)
      requires c != []
      ensures Valid() && fresh(repr) && cs == c && AtEnd()
      decreases |c|
    {
      var rest: PermutationIterator?<V> := null;
      if |c| > 1 {
        rest := new PermutationIterator<V>.End(c[1..]);
      }
      outer, inner, position := c[0], rest, |c[0]|;
      cs, repr := c, {this} + if rest == null then {} else rest.repr;
    }

    predicate HasEmptyCollection()
      requires Linked()
      reads this, repr
      ensures HasEmptyCollection() <==> exists i :: 0 <= i < |cs| && cs[i] == []
      decreases |cs|
    {
      assert inner != null ==> forall i :: 1 <= i < |cs| ==> cs[i] == inner.cs[i - 1];
      outer == [] || (inner != null && inner.HasEmptyCollection())
    }

    lemma NoEmptyInside()
      requires Valid() && !AtEnd()
      ensures forall i :: 0 <= i < |cs| ==> cs[i] != []
      ensures inner != null ==> forall i :: 0 <= i < |inner.cs| ==> inner.cs[i] != []
    {
      IndicesInRange();
      assert inner != null ==> forall i :: 0 <= i < |inner.cs| ==> inner.cs[i] == cs[i + 1];
    }

    /** `restart()`. */
    method Restart()
      requires Valid() && forall i :: 0 <= i < |cs| ==> cs[i] != []
      modifies repr
      ensures Valid() && !AtEnd() && Position() == 0
      decreases |cs|
    {
      position := 0;
      if inner != null {
        assert forall i :: 0 <= i < |inner.cs| ==> inner.cs[i] == cs[i + 1];
        inner.Restart();
      }
      PositionSplit();
    }

    /** `operator++`. */
    method Next()
      requires Valid()
      modifies repr
      ensures Valid()
      ensures Position() == if old(AtEnd()) then old(Position()) else old(Position()) + 1
      decreases |cs|
    {
      hide Product, Rank, Sizes, Indices;
      if AtEnd() {
        return;
      }
      PositionSplit();
      if inner == null {
        position := position + 1;
      } else {
        NoEmptyInside();
        inner.Next();
        inner.PositionSplit();
        if inner.AtEnd() {
          inner.Restart();
          position := position + 1;
          Turn(old(position), |Product(inner.cs)|);
        }
      }
      PositionSplit();
    }

    /** `operator==` against an iterator over the same collections. */
    predicate Equals(other: PermutationIterator<V>)
      requires Valid() && other.Valid() && other.cs == cs
      reads this, repr, other, other.repr
      decreases |cs|
    {
      if AtEnd() then position == other.position
      else position == other.position && (inner == null || inner.Equals(other.inner))
    }

    /** `operator*`. */
    method Deref() returns (element: seq<V>)
      requires Valid() && !AtEnd()
      ensures Position() < |Product(cs)| && element == Product(cs)[Position()]
    {
      IndicesInRange();
      ProductAt(cs, Indices());
      element := ElementValue();
    }

    method ElementValue() returns (element: seq<V>)
      requires Valid() && !AtEnd()
      ensures InRange(cs, Indices()) && element == Pick(cs, Indices())
      decreases |cs|
    {
      IndicesInRange();
      TailInRange(cs, Indices());
      element := [outer[position]];
      if inner != null {
        var rest := inner.ElementValue();
        element := element + rest;
        assert Indices()[1..] == inner.Indices();
      }
    }
  }

  lemma Turn(i: nat, n: nat)
    ensures i * n + n == (i + 1) * n
  {
  }

  /** A complete run over at least one collection. */
  method RunNested<V>(c: seq<seq<V>>) returns (visited: seq<seq<V>>)
    requires c != []
    ensures visited == Product(c)
  {
    hide Product, Rank, Sizes, PermutationIterator<V>.Indices;
    var it := new PermutationIterator<V>(c);
    var last := new PermutationIterator<V>.End(c);
    it.PositionSplit();
    visited := [];
    while !it.Equals(last)
      invariant it.Valid() && fresh(it.repr) && it.cs == c
      invariant last.Valid() && last.repr !! it.repr && last.cs == c && last.AtEnd()
      invariant it.Position() <= |Product(c)| && visited == Product(c)[..it.Position()]
      decreases |Product(c)| - it.Position()
    {
      var element := it.Deref();
      visited := visited + [element];
      it.Next();
      it.PositionSplit();
    }
  }

  /** On the collections of a map with at least one key, complete runs of both iterators agree element by element. */
  method Agree<V(==)>(m: OrderedMap<seq<V>>) returns (flat: seq<OrderedMap<V>>, nested: seq<seq<V>>)
    requires m.keys != []
    ensures flat == Enumerate(m) && nested == Product(Collections(m))
    ensures |flat| == |nested|
    ensures forall n :: 0 <= n < |flat| ==> |nested[n]| == |m.keys| && flat[n] == Combination(m.keys, nested[n])
  {
    flat := Run(m);
    nested := RunNested(Collections(m));
    forall n | 0 <= n < |flat| ensures |nested[n]| == |m.keys| {
      ElementSize(Collections(m), n);
    }
  }
}

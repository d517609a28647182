/** `std::map` with string keys: iteration follows the sorted keys, `emplace` keeps what is there. */
module OrderedMaps {
  /** Lexicographic order on strings. */
  predicate Less(a: string, b: string)
    decreases |a|
  {
    b != [] && (a == [] || a[0] < b[0] || (a[0] == b[0] && Less(a[1..], b[1..])))
  }

  lemma {:induction false} LessIrreflexive(a: string)
    ensures !Less(a, a)
    decreases |a|
  {
    if a != [] { LessIrreflexive(a[1..]); }
  }

  lemma {:induction false} LessTransitive(a: string, b: string, c: string)
    requires Less(a, b) && Less(b, c)
    ensures Less(a, c)
    decreases |a|
  {
    if a != [] && a[0] == b[0] == c[0] { LessTransitive(a[1..], b[1..], c[1..]); }
  }

  lemma {:induction false} LessTotal(a: string, b: string)
    ensures a == b || Less(a, b) || Less(b, a)
    decreases |a|
  {
    if a != [] && b != [] && a[0] == b[0] {
      LessTotal(a[1..], b[1..]);
      assert a == [a[0]] + a[1..] && b == [b[0]] + b[1..];
    }
  }

  /** The first difference decides; a proper prefix comes first. */
  predicate DiffersAt(a: string, b: string, p: nat) {
    p < |a| && p < |b| && a[..p] == b[..p] && a[p] < b[p]
  }

  lemma {:induction false} LessExact(a: string, b: string)
    ensures Less(a, b) <==> a < b || exists p: nat :: DiffersAt(a, b, p)
    decreases |a|
  {
    if a != [] && b != [] {
      var s, t := a[1..], b[1..];
      LessExact(s, t);
      assert a == [a[0]] + s && b == [b[0]] + t;
      if a[0] == b[0] {
        forall p: nat ensures DiffersAt(s, t, p) <==> DiffersAt(a, b, p + 1) { DiffersFurther(a, b, p); }
        if p: nat :| DiffersAt(a, b, p) {
          assert p > 0 && DiffersAt(s, t, p - 1);
        }
        assert s < t <==> a < b;
      } else if a[0] < b[0] {
        assert DiffersAt(a, b, 0);
      } else {
        forall p: nat ensures !DiffersAt(a, b, p) {
          if 0 < p <= |a| && p <= |b| {
            assert a[..p][0] == a[0] && b[..p][0] == b[0];
          }
        }
      }
    }
  }

  lemma DiffersFurther(a: string, b: string, p: nat)
    requires a != [] && b != [] && a[0] == b[0]
    ensures DiffersAt(a[1..], b[1..], p) <==> DiffersAt(a, b, p + 1)
  {
    if p < |a[1..]| && p < |b[1..]| {
      assert a[..p + 1] == [a[0]] + a[1..][..p] && b[..p + 1] == [b[0]] + b[1..][..p];
      assert a[..p + 1][1..] == a[1..][..p] && b[..p + 1][1..] == b[1..][..p];
    }
  }

  predicate Sorted(keys: seq<string>) {
    forall i, j :: 0 <= i < j < |keys| ==> Less(keys[i], keys[j])
  }

  function KeySet(keys: seq<string>): set<string> {
    set k | k in keys
  }

  datatype RawMap<+V> = OMap(keys: seq<string>, at: map<string, V>)

  predicate IsMap<V>(m: RawMap<V>) {
    Sorted(m.keys) && KeySet(m.keys) == m.at.Keys
  }

  type OrderedMap<+V> = m: RawMap<V> | IsMap(m) witness OMap([], map[])

  function Empty<V>(): OrderedMap<V> {
    OMap([], map[])
  }

  function Insert(keys: seq<string>, k: string): (r: seq<string>)
    requires Sorted(keys) && k !in keys
    ensures Sorted(r) && KeySet(r) == KeySet(keys) + {k}
  {
    if keys == [] then [k]
    else if Less(k, keys[0]) then
      InsertFirst(keys, k);
      [k] + keys
    else
      var rest := Insert(keys[1..], k);
      InsertLater(keys, k, rest);
      [keys[0]] + rest
  }

  lemma InsertFirst(keys: seq<string>, k: string)
    requires Sorted(keys) && keys != [] && Less(k, keys[0])
    ensures Sorted([k] + keys) && KeySet([k] + keys) == KeySet(keys) + {k}
  {
    forall i | 0 < i < |keys| ensures Less(k, keys[i]) { LessTransitive(k, keys[0], keys[i]); }
  }

  lemma InsertLater(keys: seq<string>, k: string, rest: seq<string>)
    requires Sorted(keys) && keys != [] && k !in keys && !Less(k, keys[0])
    requires Sorted(rest) && KeySet(rest) == KeySet(keys[1..]) + {k}
    ensures Sorted([keys[0]] + rest) && KeySet([keys[0]] + rest) == KeySet(keys) + {k}
  {
    LessTotal(k, keys[0]);
    forall i | 0 <= i < |rest| ensures Less(keys[0], rest[i]) {
      assert rest[i] in KeySet(rest);
      if rest[i] != k {
        var j :| 0 <= j < |keys[1..]| && keys[1..][j] == rest[i];
      }
    }
    assert KeySet(keys) == {keys[0]} + KeySet(keys[1..]);
  }

  /** `emplace`: an existing key keeps its value. */
  function Emplace<V>(m: OrderedMap<V>, k: string, v: V): (r: OrderedMap<V>)
    ensures r.at == if k in m.at then m.at else m.at[k := v]
  {
    if k in m.at then m else
      assert k in m.keys ==> k in KeySet(m.keys);
      OMap(Insert(m.keys, k), m.at[k := v])
  }

  /** Erase, then emplace. */
  function Put<V>(m: OrderedMap<V>, k: string, v: V): (r: OrderedMap<V>)
    ensures r.at == m.at[k := v]
  {
    if k in m.at then
      assert m.at[k := v].Keys == m.at.Keys;
      OMap(m.keys, m.at[k := v])
    else Emplace(m, k, v)
  }

  lemma KeyIn<V>(m: OrderedMap<V>, k: string)
    ensures k in m.keys <==> k in m.at
  {
    assert k in KeySet(m.keys) <==> k in m.at.Keys;
  }

  lemma KeyAt<V>(m: OrderedMap<V>, i: nat)
    requires i < |m.keys|
    ensures m.keys[i] in m.at
  {
    KeyIn(m, m.keys[i]);
  }

  lemma KeysDistinct(keys: seq<string>)
    requires Sorted(keys)
    ensures forall i, j :: 0 <= i < j < |keys| ==> keys[i] != keys[j]
  {
    forall i, j | 0 <= i < j < |keys| ensures keys[i] != keys[j] { LessIrreflexive(keys[i]); }
  }

  /** The content decides the map: there is one sorted list of its keys. */
  lemma {:induction false} SortedUnique(a: seq<string>, b: seq<string>)
    requires Sorted(a) && Sorted(b) && KeySet(a) == KeySet(b)
    ensures a == b
    decreases |a|
  {
    assert b != [] ==> b[0] in KeySet(b);
    if a != [] {
      assert a[0] in KeySet(a);
      FirstIsLeast(a, b);
      FirstIsLeast(b, a);
      LessTail(a);
      LessTail(b);
      assert KeySet(a[1..]) == KeySet(b[1..]);
      SortedUnique(a[1..], b[1..]);
      assert a == [a[0]] + a[1..] && b == [b[0]] + b[1..];
    }
  }

  lemma FirstIsLeast(a: seq<string>, b: seq<string>)
    requires Sorted(a) && Sorted(b) && a != [] && b != [] && KeySet(a) == KeySet(b)
    ensures a[0] == b[0]
  {
    assert a[0] in KeySet(b) && b[0] in KeySet(a);
    var i :| 0 <= i < |b| && b[i] == a[0];
    var j :| 0 <= j < |a| && a[j] == b[0];
    if i > 0 && j > 0 {
      LessTransitive(a[0], a[j], b[i]);
      LessIrreflexive(a[0]);
    }
  }

  lemma LessTail(a: seq<string>)
    requires Sorted(a) && a != []
    ensures KeySet(a[1..]) == KeySet(a) - {a[0]}
  {
    KeysDistinct(a);
    forall k | k in KeySet(a) - {a[0]} ensures k in a[1..] {
      var i :| 0 <= i < |a| && a[i] == k;
      assert a[1..][i - 1] == k;
    }
  }

  lemma SameContent<V>(m: OrderedMap<V>, n: OrderedMap<V>)
    requires m.at == n.at
    ensures m == n
  {
    SortedUnique(m.keys, n.keys);
  }
}

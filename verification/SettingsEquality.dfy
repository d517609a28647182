/** `operator==` on settings trees against equality of unordered nested maps. */
module SettingsEquality {
  import opened SettingsTree

  /** `a == b` as the program decides it: sizes, then a lookup in `b` for each child of `a`. */
  predicate Equal(a: Tree, b: Tree) {
    && a.key == b.key
    && if a.Leaf? || b.Leaf? then a.Leaf? && b.Leaf? else
         && |a.kids| == |b.kids|
         && forall i :: 0 <= i < |a.kids| ==> Has(b, a.kids[i].key) && Equal(a.kids[i], Child(b, a.kids[i].key))
  }

  /** What a settings tree means when order is forgotten; absent and empty stay apart. */
  datatype Nested = Absent(key: string) | Present(key: string, children: map<string, Nested>)

  function Abstract(t: Tree): Nested {
    if t.Leaf? then Absent(t.key) else
      Present(t.key, map k | k in Keys(t.kids) && Has(t, k) && Child(t, k) in t.kids :: Abstract(Child(t, k)))
  }

  function KeySet(kids: seq<Tree>): set<string> {
    set k | k in Keys(kids)
  }

  lemma HasKey(t: Tree, k: string)
    ensures Has(t, k) <==> k in KeySet(Kids(t))
  {
    if k in KeySet(Kids(t)) {
      var i :| 0 <= i < |Keys(Kids(t))| && Keys(Kids(t))[i] == k;
      assert Kids(t)[i].key == k;
    }
    if Has(t, k) {
      assert Keys(Kids(t))[Find(Kids(t), k)] == k;
    }
  }

  lemma {:induction false} DistinctSize(s: seq<string>)
    requires NoDuplicates(s)
    ensures |set k | k in s| == |s|
  {
    if s != [] {
      DistinctSize(s[1..]);
      assert (set k | k in s) == {s[0]} + (set k | k in s[1..]);
    }
  }

  lemma KeySetSize(kids: seq<Tree>)
    requires NoDuplicates(Keys(kids))
    ensures |KeySet(kids)| == |kids|
  {
    DistinctSize(Keys(kids));
  }

  lemma KeySetSubset(a: seq<Tree>, b: seq<Tree>)
    requires NoDuplicates(Keys(a)) && NoDuplicates(Keys(b)) && |a| == |b|
    requires KeySet(a) <= KeySet(b)
    ensures KeySet(a) == KeySet(b)
  {
    KeySetSize(a);
    KeySetSize(b);
    assert |KeySet(b) - KeySet(a)| == 0;
  }

  lemma ChildOfUnique(t: Tree, i: nat)
    requires NoDuplicates(Keys(Kids(t))) && i < |Kids(t)|
    ensures Has(t, Kids(t)[i].key) && Child(t, Kids(t)[i].key) == Kids(t)[i]
  {
    var keys := Keys(Kids(t));
    var f := Find(Kids(t), keys[i]);
    assert f <= i && keys[f] == keys[i];
  }

  lemma AbstractKeys(t: Tree)
    requires t.Node?
    ensures Abstract(t).Present? && Abstract(t).key == t.key && Abstract(t).children.Keys == KeySet(t.kids)
    ensures forall k :: k in KeySet(t.kids) ==> Has(t, k) && Abstract(t).children[k] == Abstract(Child(t, k))
  {
    forall k | k in KeySet(t.kids) ensures Has(t, k) { HasKey(t, k); }
  }

  /** On trees with unique siblings, `==` is equality of the nested maps the trees mean. */
  lemma {:induction false} EqualIffSameMeaning(a: Tree, b: Tree)
    requires Unique(a) && Unique(b)
    ensures Equal(a, b) <==> Abstract(a) == Abstract(b)
    decreases a
  {
    if a.Node? && b.Node? {
      AbstractKeys(a);
      AbstractKeys(b);
      forall i | 0 <= i < |a.kids| && Has(b, a.kids[i].key)
        ensures Equal(a.kids[i], Child(b, a.kids[i].key)) <==> Abstract(a.kids[i]) == Abstract(Child(b, a.kids[i].key))
      {
        EqualIffSameMeaning(a.kids[i], Child(b, a.kids[i].key));
      }
      if Equal(a, b) {
        forall k | k in KeySet(a.kids) ensures SameAt(Abstract(a), Abstract(b), k) { SameChild(a, b, k); }
        EqualSameMeaning(a, b);
      }
      if Abstract(a) == Abstract(b) {
        SameMeaningEqual(a, b);
      }
    }
  }

  lemma EqualSameMeaning(a: Tree, b: Tree)
    requires a.Node? && b.Node? && Equal(a, b) && NoDuplicates(Keys(a.kids)) && NoDuplicates(Keys(b.kids))
    requires forall k :: k in KeySet(a.kids) ==> SameAt(Abstract(a), Abstract(b), k)
    ensures Abstract(a) == Abstract(b)
  {
    hide Abstract, Find, Has, NoDuplicates, Child;
    AbstractKeys(a);
    AbstractKeys(b);
    KeySetSubset(a.kids, b.kids);
    assert Abstract(a).children == Abstract(b).children;
  }

  predicate SameAt(m: Nested, n: Nested, k: string) {
    && m.Present? && n.Present? && k in m.children && k in n.children
    && m.children[k] == n.children[k]
  }

  lemma SameChild(a: Tree, b: Tree, k: string)
    requires a.Node? && b.Node? && Equal(a, b) && k in KeySet(a.kids)
    requires forall i :: 0 <= i < |a.kids| && Has(b, a.kids[i].key) ==>
                           Abstract(a.kids[i]) == Abstract(Child(b, a.kids[i].key))
    ensures SameAt(Abstract(a), Abstract(b), k)
  {
    hide Abstract, Find, NoDuplicates;
    AbstractKeys(a);
    AbstractKeys(b);
    HasKey(a, k);
    var i := Find(a.kids, k);
    assert a.kids[i] == Child(a, k) && Has(b, a.kids[i].key);
    HasKey(b, k);
  }

  lemma SameMeaningEqual(a: Tree, b: Tree)
    requires Unique(a) && Unique(b) && a.Node? && b.Node? && Abstract(a) == Abstract(b)
    requires forall i :: 0 <= i < |a.kids| && Has(b, a.kids[i].key) &&
                         Abstract(a.kids[i]) == Abstract(Child(b, a.kids[i].key)) ==>
                           Equal(a.kids[i], Child(b, a.kids[i].key))
    ensures Equal(a, b)
  {
    AbstractKeys(a);
    AbstractKeys(b);
    KeySetSize(a.kids);
    KeySetSize(b.kids);
    forall i | 0 <= i < |a.kids| ensures Has(b, a.kids[i].key) && Equal(a.kids[i], Child(b, a.kids[i].key)) {
      var k := a.kids[i].key;
      ChildOfUnique(a, i);
      HasKey(a, k);
      HasKey(b, k);
      assert Abstract(a).children[k] == Abstract(b).children[k];
    }
  }

  /** `==` is an equivalence relation on trees with unique siblings. */
  lemma EqualIsEquivalence(a: Tree, b: Tree, c: Tree)
    requires Unique(a) && Unique(b) && Unique(c)
    ensures Equal(a, a)
    ensures Equal(a, b) ==> Equal(b, a)
    ensures Equal(a, b) && Equal(b, c) ==> Equal(a, c)
  {
    EqualIffSameMeaning(a, a);
    EqualIffSameMeaning(a, b);
    EqualIffSameMeaning(b, a);
    EqualIffSameMeaning(b, c);
    EqualIffSameMeaning(a, c);
  }

  // -------- duplicate siblings --------

  /** Every child that is not the first of its key is equal to the first. */
  predicate FirstsStand(t: Tree) {
    forall i :: 0 <= i < |Kids(t)| && i != Find(Kids(t), Kids(t)[i].key) ==> Equal(Kids(t)[i], Child(t, Kids(t)[i].key))
  }

  /** ... wherever a path leads. */
  ghost predicate Coherent(t: Tree) {
    forall p :: Contains(t, p) ==> FirstsStand(At(t, p))
  }

  lemma KidFound(t: Tree, i: nat)
    requires i < |Kids(t)|
    ensures Has(t, Kids(t)[i].key) && Find(Kids(t), Kids(t)[i].key) <= i
    ensures i == Find(Kids(t), Kids(t)[i].key) ==> Child(t, Kids(t)[i].key) == Kids(t)[i]
  {
  }

  /** Looking up a key on both sides of an equality. */
  lemma EqualChild(a: Tree, b: Tree, k: string)
    requires Equal(a, b) && Has(a, k)
    ensures Has(b, k) && Equal(Child(a, k), Child(b, k))
  {
    var i := Find(Kids(a), k);
    assert a.kids[i] == Child(a, k) && a.kids[i].key == k;
  }

  /** For all trees. */
  lemma {:induction false} EqualTransitive(a: Tree, b: Tree, c: Tree)
    requires Equal(a, b) && Equal(b, c)
    ensures Equal(a, c)
    decreases a
  {
    hide Find;
    if a.Node? {
      forall i | 0 <= i < |a.kids| ensures Has(c, a.kids[i].key) && Equal(a.kids[i], Child(c, a.kids[i].key)) {
        var k := a.kids[i].key;
        EqualChild(b, c, k);
        EqualTransitive(a.kids[i], Child(b, k), Child(c, k));
      }
    }
  }

  lemma {:induction false} ReflexiveBelow(t: Tree, p: Path)
    requires Equal(t, t) && Contains(t, p)
    ensures FirstsStand(At(t, p))
    decreases |p|
  {
    if p != [] {
      EqualChild(t, t, p[0]);
      ReflexiveBelow(Child(t, p[0]), p[1..]);
    }
  }

  lemma CoherentChild(t: Tree, k: string)
    requires Coherent(t) && Has(t, k)
    ensures Coherent(Child(t, k))
  {
    forall p | Contains(Child(t, k), p) ensures FirstsStand(At(Child(t, k), p)) {
      var q := [k] + p;
      assert q[0] == k && q[1..] == p;
      assert Contains(t, q) && At(t, q) == At(Child(t, k), p);
    }
  }

  /** The exact condition: a node equals itself if and only if later duplicates repeat the first one. */
  lemma {:induction false} ReflexiveIff(t: Tree)
    ensures Equal(t, t) <==> Coherent(t)
    decreases t
  {
    if Equal(t, t) {
      forall p | Contains(t, p) ensures FirstsStand(At(t, p)) { ReflexiveBelow(t, p); }
    }
    if Coherent(t) && t.Node? {
      assert Contains(t, []) && FirstsStand(At(t, []));
      forall i | 0 <= i < |t.kids| ensures Has(t, t.kids[i].key) && Equal(t.kids[i], Child(t, t.kids[i].key)) {
        KidFound(t, i);
        CoherentChild(t, t.kids[i].key);
        ReflexiveIff(t.kids[i]);
      }
    }
  }

  /** A copy-constructed node (an own key, no collection, then a deep copy) is the same tree. */
  lemma CopyIsEqual(t: Tree)
    ensures DeepCopy(Leaf(t.key), t) == t
    ensures Equal(DeepCopy(Leaf(t.key), t), t) <==> Coherent(t)
    ensures Unique(t) ==> Coherent(t)
  {
    ReflexiveIff(t);
    if Unique(t) { EqualIsEquivalence(t, t, t); }
  }

  lemma {:induction false} EqualContains(a: Tree, b: Tree, p: Path)
    requires Equal(a, b) && Contains(a, p)
    ensures Contains(b, p)
    decreases |p|
  {
    if p != [] {
      EqualChild(a, b, p[0]);
      EqualContains(Child(a, p[0]), Child(b, p[0]), p[1..]);
    }
  }

  /** `a` has every path of `b`. */
  ghost predicate Covers(a: Tree, b: Tree) {
    forall p :: Contains(b, p) ==> Contains(a, p)
  }

  lemma ContainsInChild(b: Tree, a: Tree, k: string)
    requires Has(b, k) && Covers(a, b)
    ensures Has(a, k) && Covers(Child(a, k), Child(b, k))
  {
    assert Contains(b, [k]) by { assert [k][1..] == []; }
    assert Contains(a, [k]);
    forall p | Contains(Child(b, k), p) ensures Contains(Child(a, k), p) {
      var q := [k] + p;
      assert q[0] == k && q[1..] == p;
      assert Contains(b, q) && Contains(a, q);
    }
  }

  lemma {:induction false} EqualBack(a: Tree, b: Tree)
    requires Equal(a, b) && Coherent(b) && Covers(a, b)
    ensures Equal(b, a)
    decreases b
  {
    hide Find, Coherent;
    if b.Node? {
      assert FirstsStand(b) by { CoherentHere(b); }
      forall i | 0 <= i < |b.kids| ensures Has(a, b.kids[i].key) && Equal(b.kids[i], Child(a, b.kids[i].key)) {
        var k := b.kids[i].key;
        KidFound(b, i);
        ContainsInChild(b, a, k);
        CoherentChild(b, k);
        EqualChild(a, b, k);
        EqualBack(Child(a, k), Child(b, k));
        if b.kids[i] != Child(b, k) {
          EqualTransitive(b.kids[i], Child(b, k), Child(a, k));
        }
      }
    }
  }

  lemma CoherentHere(t: Tree)
    requires Coherent(t)
    ensures FirstsStand(t)
  {
    assert Contains(t, []) && At(t, []) == t;
  }

  /** ... and an equality can be turned around if and only if the other tree is coherent and has no path of its own. */
  lemma SymmetricIff(a: Tree, b: Tree)
    requires Equal(a, b)
    ensures Equal(b, a) <==> Coherent(b) && Covers(a, b)
  {
    hide Coherent, Equal;
    if Equal(b, a) {
      EqualTransitive(b, a, b);
      ReflexiveIff(b);
      forall p | Contains(b, p) ensures Contains(a, p) { EqualContains(b, a, p); }
    } else if Coherent(b) && Covers(a, b) {
      EqualBack(a, b);
    }
  }

  /** Duplicate siblings that differ: not equal to itself. */
  lemma DuplicatesBreakReflexivity(r: string, k: string)
    ensures !Equal(Node(r, [Leaf(k), Node(k, [])]), Node(r, [Leaf(k), Node(k, [])]))
  {
    var t := Node(r, [Leaf(k), Node(k, [])]);
    assert t.kids[1] == Node(k, []);
    assert Find(t.kids, k) == 0 && Child(t, k) == Leaf(k);
    assert !Equal(t.kids[1], Child(t, t.kids[1].key));
  }

  /** Duplicate siblings that are alike: equal to itself, and equal to another tree one way only. */
  lemma DuplicatesBreakSymmetry(r: string, k: string, j: string)
    requires k != j
    ensures var twice, both := Node(r, [Leaf(k), Leaf(k)]), Node(r, [Leaf(k), Leaf(j)]);
            !Unique(twice) && Equal(twice, twice) && Equal(twice, both) && !Equal(both, twice)
  {
    var twice, both := Node(r, [Leaf(k), Leaf(k)]), Node(r, [Leaf(k), Leaf(j)]);
    assert Keys(twice.kids)[0] == Keys(twice.kids)[1];
    assert Find(both.kids, k) == 0 && Find(twice.kids, k) == 0;
    assert forall i :: 0 <= i < 2 ==> twice.kids[i] == Leaf(k);
    assert both.kids[1].key == j && !Has(twice, j);
  }
}

/**
  When the root-to-leaf calls build exactly the tree that the document describes.
  They do so if and only if no map entry with content follows a sibling of the same key.
 */
module YamlTranslation {
  import opened Options
  import opened SettingsTree
  import opened SettingsLaws
  import opened YamlWrapper

  datatype Listing = Listing(ok: bool, kids: seq<Tree>)

  /** A node that gets `kids`; without any, its collection is left as it is. */
  function Extend(n: Tree, kids: seq<Tree>): Tree {
    if kids == [] then n else Node(n.key, Kids(n) + kids)
  }

  /** The children a document describes, read top down; reading stops at a bad key. */
  function Translate(y: Yaml): Listing
    decreases y, 0
  {
    match y
    case Null => Listing(true, [])
    case Scalar(text) => Listing(true, [Leaf(text)])
    case Map(entries) => TranslateEntries(entries)
    case Sequence(items) => TranslateItems(items)
  }

  function TranslateEntry(k: string, v: Yaml): Listing
    decreases v, 1
  {
    var l := Translate(v);
    Listing(l.ok, [Extend(Leaf(k), l.kids)])
  }

  function TranslateEntries(es: seq<Entry>): Listing
    decreases es, 0
  {
    if es == [] then Listing(true, [])
    else if es[0].key.None? then Listing(false, [])
    else
      assert es decreases to es[0];
      Then(TranslateEntry(es[0].key.value, es[0].value), TranslateEntries(es[1..]))
  }

  function TranslateItems(ys: seq<Yaml>): Listing
    decreases ys, 0
  {
    if ys == [] then Listing(true, []) else Then(Translate(ys[0]), TranslateItems(ys[1..]))
  }

  function Then(a: Listing, b: Listing): Listing {
    if a.ok then Listing(b.ok, a.kids + b.kids) else a
  }

  // -------- nothing is lost or invented --------

  function Size(t: Tree): (n: nat)
    ensures n >= 1
    decreases t, 0
  {
    match t
    case Leaf(_) => 1
    case Node(_, kids) => 1 + Sizes(kids)
  }

  function Sizes(ts: seq<Tree>): (n: nat)
    ensures n >= |ts|
    decreases ts, 0
  {
    if ts == [] then 0 else Size(ts[0]) + Sizes(ts[1..])
  }

  lemma {:induction false} SizesAppend(a: seq<Tree>, b: seq<Tree>)
    ensures Sizes(a + b) == Sizes(a) + Sizes(b)
  {
    if a == [] {
      assert a + b == b;
    } else {
      assert (a + b)[1..] == a[1..] + b;
      SizesAppend(a[1..], b);
    }
  }

  lemma SizesUpdate(a: seq<Tree>, i: nat, x: Tree)
    requires i < |a|
    ensures Sizes(a[i := x]) == Sizes(a) - Size(a[i]) + Size(x)
  {
    assert a == a[..i] + ([a[i]] + a[i + 1..]);
    assert a[i := x] == a[..i] + ([x] + a[i + 1..]);
    SizesAppend(a[..i], [a[i]] + a[i + 1..]);
    SizesAppend(a[..i], [x] + a[i + 1..]);
    SizesAppend([a[i]], a[i + 1..]);
    SizesAppend([x], a[i + 1..]);
  }

  lemma KidsSize(t: Tree)
    ensures Size(t) == 1 + Sizes(Kids(t))
  {
  }

  /** `b` is `a`, possibly with more below its children and more children at the end. */
  predicate Grown(a: Tree, b: Tree) {
    && a.key == b.key
    && |Kids(a)| <= |Kids(b)|
    && (a.Node? ==> b.Node?)
    && forall i :: 0 <= i < |Kids(a)| ==> Kids(a)[i] == Kids(b)[i] || Size(Kids(a)[i]) < Size(Kids(b)[i])
  }

  lemma GrownTransitive(a: Tree, b: Tree, c: Tree)
    requires Grown(a, b) && Grown(b, c)
    ensures Grown(a, c)
  {
    hide Size;
    forall i | 0 <= i < |Kids(a)| ensures Kids(a)[i] == Kids(c)[i] || Size(Kids(a)[i]) < Size(Kids(c)[i]) {
      assert Kids(a)[i] == Kids(b)[i] || Size(Kids(a)[i]) < Size(Kids(b)[i]);
      assert Kids(b)[i] == Kids(c)[i] || Size(Kids(b)[i]) < Size(Kids(c)[i]);
    }
  }

  /** What every merge does: it grows the node by exactly the translated nodes. */
  predicate Adds(n: Tree, b: Built, l: Listing) {
    && b.ok == l.ok
    && Grown(n, b.tree)
    && |Kids(b.tree)| == |Kids(n)| + |l.kids|
    && Size(b.tree) == Size(n) + Sizes(l.kids)
    && (l.kids == [] ==> b.tree == n)
    && (l.kids != [] ==> b.tree.Node?)
  }

  lemma AddsThen(n: Tree, b: Built, l: Listing, c: Built, m: Listing)
    requires Adds(n, b, l) && Adds(b.tree, c, m) && l.ok
    ensures Adds(n, c, Then(l, m))
  {
    GrownTransitive(n, b.tree, c.tree);
    SizesAppend(l.kids, m.kids);
  }

  /** For every document: the built node has the same number of nodes as its translation. */
  lemma {:induction false} MergeAdds(y: Yaml, n: Tree)
    ensures Adds(n, Merge(y, n), Translate(y))
    decreases y, 0
  {
    match y
    case Null =>
    case Scalar(text) =>
      AppendLeafAdds(n, text);
    case Map(entries) => MergeEntriesAdds(entries, n);
    case Sequence(items) => MergeItemsAdds(items, n);
  }

  lemma AppendLeafAdds(n: Tree, k: string)
    ensures Adds(n, Built(true, AddValues(n, [k])), Listing(true, [Leaf(k)]))
    ensures Kids(AddValues(n, [k])) == Kids(n) + [Leaf(k)]
  {
    assert Leaves([k]) == [Leaf(k)];
    SizesAppend(Kids(n), [Leaf(k)]);
  }

  lemma {:induction false} MergeEntryAdds(k: string, v: Yaml, n: Tree)
    ensures Adds(n, MergeEntry(k, v, n), TranslateEntry(k, v))
    decreases v, 1
  {
    hide Size, Sizes, Find, Child, SetChild, Extend, Merge, Translate;
    var e := AddValues(n, [k]);
    AppendLeafAdds(n, k);
    AddValuesKeeps(n, [k], k);
    var c := Child(e, k);
    MergeAdds(v, c);
    SetChildAdds(n, e, c, Merge(v, c), Translate(v));
    EntrySize(k, Translate(v).kids);
  }

  lemma EntrySize(k: string, kids: seq<Tree>)
    ensures Sizes([Extend(Leaf(k), kids)]) == 1 + Sizes(kids)
  {
    assert [Extend(Leaf(k), kids)][1..] == [];
    assert kids != [] ==> [] + kids == kids;
    KidsSize(Extend(Leaf(k), kids));
  }

  lemma SetChildAdds(n: Tree, e: Tree, c: Tree, b: Built, l: Listing)
    requires e.Node? && e.key == n.key && Has(e, c.key) && c == Child(e, c.key) && Adds(c, b, l)
    requires Kids(e) == Kids(n) + [Leaf(c.key)]
    ensures var r := SetChild(e, b.tree);
            && Grown(n, r) && r.Node? && |Kids(r)| == |Kids(n)| + 1
            && Size(r) == Size(n) + 1 + Sizes(l.kids)
  {
    hide Size, Find;
    var i := Find(Kids(e), c.key);
    var r := SetChild(e, b.tree);
    SizesUpdate(Kids(e), i, b.tree);
    SizesAppend(Kids(n), [Leaf(c.key)]);
    KidsSize(n);
    KidsSize(r);
    LeafSize(c.key);
    assert Kids(r) == Kids(e)[i := b.tree];
    assert c != b.tree ==> Size(c) < Size(b.tree);
  }

  lemma LeafSize(k: string)
    ensures Sizes([Leaf(k)]) == 1
  {
    assert [Leaf(k)][1..] == [];
  }

  lemma {:induction false} MergeEntriesAdds(es: seq<Entry>, n: Tree)
    ensures Adds(n, MergeEntries(es, n), TranslateEntries(es))
    decreases es, 0
  {
    if es != [] && es[0].key.Some? {
      assert es decreases to es[0];
      var b, l := MergeEntry(es[0].key.value, es[0].value, n), TranslateEntry(es[0].key.value, es[0].value);
      MergeEntryAdds(es[0].key.value, es[0].value, n);
      if b.ok {
        MergeEntriesAdds(es[1..], b.tree);
        AddsThen(n, b, l, MergeEntries(es[1..], b.tree), TranslateEntries(es[1..]));
      }
    }
  }

  lemma {:induction false} MergeItemsAdds(ys: seq<Yaml>, n: Tree)
    ensures Adds(n, MergeItems(ys, n), TranslateItems(ys))
    decreases ys, 0
  {
    if ys != [] {
      var b, l := Merge(ys[0], n), Translate(ys[0]);
      MergeAdds(ys[0], n);
      if b.ok {
        MergeItemsAdds(ys[1..], b.tree);
        AddsThen(n, b, l, MergeItems(ys[1..], b.tree), TranslateItems(ys[1..]));
      }
    }
  }

  // -------- the exact condition --------

  /**
    No map entry with content has the key of an earlier sibling, at any level.
    `keys` are the keys of the children that are there already.
   */
  predicate Faithful(y: Yaml, keys: seq<string>)
    decreases y, 0
  {
    match y
    case Null => true
    case Scalar(_) => true
    case Map(entries) => FaithfulEntries(entries, keys)
    case Sequence(items) => FaithfulItems(items, keys)
  }

  predicate FaithfulEntry(k: string, v: Yaml, keys: seq<string>)
    decreases v, 1
  {
    Translate(v).kids != [] ==> k !in keys && Faithful(v, [])
  }

  predicate FaithfulEntries(es: seq<Entry>, keys: seq<string>)
    decreases es, 0
  {
    es == [] || es[0].key.None? || (
      assert es decreases to es[0];
      && FaithfulEntry(es[0].key.value, es[0].value, keys)
      && (Translate(es[0].value).ok ==> FaithfulEntries(es[1..], keys + [es[0].key.value])))
  }

  predicate FaithfulItems(ys: seq<Yaml>, keys: seq<string>)
    decreases ys, 0
  {
    ys == [] || (
      && Faithful(ys[0], keys)
      && (Translate(ys[0]).ok ==> FaithfulItems(ys[1..], keys + Keys(Translate(ys[0]).kids))))
  }

  lemma {:induction false} SameSizes(a: seq<Tree>, b: seq<Tree>)
    requires |a| == |b| && forall j :: 0 <= j < |a| ==> a[j] == b[j] || Size(a[j]) < Size(b[j])
    ensures Sizes(a) <= Sizes(b)
    ensures Sizes(a) == Sizes(b) ==> a == b
  {
    hide Size;
    if a != [] {
      SameSizes(a[1..], b[1..]);
    }
  }

  lemma ExtendTwice(n: Tree, a: seq<Tree>, b: seq<Tree>)
    ensures Extend(Extend(n, a), b) == Extend(n, a + b)
    ensures Keys(Kids(Extend(n, a))) == Keys(Kids(n)) + Keys(a)
  {
    assert a == [] ==> a + b == b;
    assert b == [] ==> a + b == a;
    assert (Kids(n) + a) + b == Kids(n) + (a + b);
    assert a == [] ==> Kids(n) + a == Kids(n);
  }

  /** If two merges in a row gave the concatenated translation, so did the first one alone. */
  lemma ExactThen(n: Tree, b: Built, l: Listing, c: Built, m: Listing)
    requires Adds(n, b, l) && Adds(b.tree, c, m) && l.ok
    requires c.tree == Extend(n, Then(l, m).kids)
    ensures b.tree == Extend(n, l.kids)
  {
    hide Size, Sizes;
    if l.kids != [] {
      var x, z := Kids(b.tree), Kids(n) + l.kids;
      assert Kids(c.tree) == Kids(n) + (l.kids + m.kids);
      forall j | 0 <= j < |x| ensures x[j] == z[j] || Size(x[j]) < Size(z[j]) {
        assert Kids(c.tree)[j] == z[j];
      }
      SameSizes(x, z);
      SizesAppend(Kids(n), l.kids);
      KidsSize(n);
      KidsSize(b.tree);
    }
  }

  /** For every document and node: the calls add the translation if and only if the document is faithful. */
  lemma {:induction false} MergeExact(y: Yaml, n: Tree)
    ensures Merge(y, n).tree == Extend(n, Translate(y).kids) <==> Faithful(y, Keys(Kids(n)))
    decreases y, 0
  {
    match y
    case Null =>
    case Scalar(text) => AppendLeafAdds(n, text);
    case Map(entries) => MergeEntriesExact(entries, n);
    case Sequence(items) => MergeItemsExact(items, n);
  }

  lemma {:induction false} MergeEntryExact(k: string, v: Yaml, n: Tree)
    ensures MergeEntry(k, v, n).tree == Extend(n, TranslateEntry(k, v).kids) <==> FaithfulEntry(k, v, Keys(Kids(n)))
    decreases v, 1
  {
    hide Size, Sizes, Merge, Translate, Faithful, Find;
    var e := AddValues(n, [k]);
    AppendLeafAdds(n, k);
    AddValuesKeeps(n, [k], k);
    AppendFind(Kids(n), Leaf(k), k);
    var c := Child(e, k);
    var b := Merge(v, c);
    var r := SetChild(e, b.tree);
    MergeAdds(v, c);
    HasKey(n, k);
    if Has(n, k) {
      assert r.kids[Find(Kids(n), k)] == b.tree;
      KidsSize(c);
      KidsSize(b.tree);
      SizesPositive(Translate(v).kids);
      assert b.tree == c ==> r.kids == Kids(e);
    } else {
      MergeExact(v, Leaf(k));
      assert Keys(Kids(Leaf(k))) == [];
      assert r.kids[|Kids(n)|] == b.tree;
      assert Extend(n, TranslateEntry(k, v).kids).kids[|Kids(n)|] == Extend(Leaf(k), Translate(v).kids);
      if b.tree == Extend(Leaf(k), Translate(v).kids) {
        assert r.kids == Kids(n) + [b.tree];
      }
    }
  }

  lemma SizesPositive(ts: seq<Tree>)
    ensures ts != [] ==> Sizes(ts) > 0
  {
  }

  lemma HasKey(n: Tree, k: string)
    ensures Has(n, k) <==> k in Keys(Kids(n))
  {
    var i := Find(Kids(n), k);
    assert i < |Kids(n)| ==> Keys(Kids(n))[i] == k;
  }

  lemma {:induction false} MergeEntriesExact(es: seq<Entry>, n: Tree)
    ensures MergeEntries(es, n).tree == Extend(n, TranslateEntries(es).kids) <==> FaithfulEntries(es, Keys(Kids(n)))
    decreases es, 0
  {
    if es != [] && es[0].key.Some? {
      assert es decreases to es[0];
      var k, v := es[0].key.value, es[0].value;
      var b, l := MergeEntry(k, v, n), TranslateEntry(k, v);
      MergeEntryAdds(k, v, n);
      MergeEntryExact(k, v, n);
      if b.ok {
        MergeEntriesAdds(es[1..], b.tree);
        MergeEntriesExact(es[1..], b.tree);
        ExtendTwice(n, l.kids, TranslateEntries(es[1..]).kids);
        assert Keys(l.kids) == [k];
        if MergeEntries(es, n).tree == Extend(n, TranslateEntries(es).kids) {
          ExactThen(n, b, l, MergeEntries(es[1..], b.tree), TranslateEntries(es[1..]));
        }
      }
    }
  }

  lemma {:induction false} MergeItemsExact(ys: seq<Yaml>, n: Tree)
    ensures MergeItems(ys, n).tree == Extend(n, TranslateItems(ys).kids) <==> FaithfulItems(ys, Keys(Kids(n)))
    decreases ys, 0
  {
    if ys != [] {
      var b, l := Merge(ys[0], n), Translate(ys[0]);
      MergeAdds(ys[0], n);
      MergeExact(ys[0], n);
      if b.ok {
        MergeItemsAdds(ys[1..], b.tree);
        MergeItemsExact(ys[1..], b.tree);
        ExtendTwice(n, l.kids, TranslateItems(ys[1..]).kids);
        if MergeItems(ys, n).tree == Extend(n, TranslateItems(ys).kids) {
          ExactThen(n, b, l, MergeItems(ys[1..], b.tree), TranslateItems(ys[1..]));
        }
      }
    }
  }

  /** From an empty root: the settings are the translated document exactly when it is faithful. */
  lemma BuildExact(y: Yaml, root: string)
    ensures Build(y, Leaf(root), []).ok == Translate(y).ok
    ensures Build(y, Leaf(root), []).tree == Extend(Leaf(root), Translate(y).kids) <==> Faithful(y, [])
  {
    BuildIsMerge(y, Leaf(root), []);
    MergeAdds(y, Leaf(root));
    MergeExact(y, Leaf(root));
    assert Keys(Kids(Leaf(root))) == [];
  }

  /** Siblings `kids` below existing keys: distinct here and at every level further down. */
  predicate Distinct(keys: seq<string>, kids: seq<Tree>) {
    NoDuplicates(keys + Keys(kids)) && forall i :: 0 <= i < |kids| ==> Unique(kids[i])
  }

  lemma DistinctSplit(keys: seq<string>, a: seq<Tree>, b: seq<Tree>)
    requires Distinct(keys, a + b)
    ensures Distinct(keys, a) && Distinct(keys + Keys(a), b)
  {
    hide Unique;
    var all := keys + Keys(a + b);
    assert all == keys + Keys(a) + Keys(b);
    assert keys + Keys(a) == all[..|keys| + |a|];
    forall i | 0 <= i < |a| ensures Unique(a[i]) { assert (a + b)[i] == a[i]; }
    forall i | 0 <= i < |b| ensures Unique(b[i]) { assert (a + b)[i + |a|] == b[i]; }
  }

  lemma DistinctFirst(keys: seq<string>, x: Tree)
    requires Distinct(keys, [x])
    ensures x.key !in keys && Distinct([], Kids(x))
  {
    assert forall i :: 0 <= i < |keys| ==> (keys + Keys([x]))[i] == keys[i];
    assert (keys + Keys([x]))[|keys|] == x.key;
    assert Unique([x][0]);
    assert [] + Keys(Kids(x)) == Keys(Kids(x));
  }

  /** Documents whose sibling keys are all distinct, after sequences merged into their parent. */
  lemma {:induction false} DistinctIsFaithful(y: Yaml, keys: seq<string>)
    requires Distinct(keys, Translate(y).kids)
    ensures Faithful(y, keys)
    decreases y, 0
  {
    match y
    case Null =>
    case Scalar(_) =>
    case Map(entries) => DistinctEntriesFaithful(entries, keys);
    case Sequence(items) => DistinctItemsFaithful(items, keys);
  }

  lemma {:induction false} DistinctEntriesFaithful(es: seq<Entry>, keys: seq<string>)
    requires Distinct(keys, TranslateEntries(es).kids)
    ensures FaithfulEntries(es, keys)
    decreases es, 0
  {
    hide Distinct, Translate, Faithful;
    if es != [] && es[0].key.Some? {
      assert es decreases to es[0];
      var k, v := es[0].key.value, es[0].value;
      var l := TranslateEntry(k, v);
      var rest := if l.ok then TranslateEntries(es[1..]).kids else [];
      assert TranslateEntries(es).kids == l.kids + rest;
      DistinctSplit(keys, l.kids, rest);
      DistinctFirst(keys, l.kids[0]);
      if Translate(v).kids != [] {
        assert Kids(l.kids[0]) == Translate(v).kids;
        DistinctIsFaithful(v, []);
      }
      if l.ok {
        assert Keys(l.kids) == [k];
        DistinctEntriesFaithful(es[1..], keys + [k]);
      }
    }
  }

  lemma {:induction false} DistinctItemsFaithful(ys: seq<Yaml>, keys: seq<string>)
    requires Distinct(keys, TranslateItems(ys).kids)
    ensures FaithfulItems(ys, keys)
    decreases ys, 0
  {
    hide Distinct, Translate, Faithful;
    if ys != [] {
      var l := Translate(ys[0]);
      var rest := if l.ok then TranslateItems(ys[1..]).kids else [];
      assert TranslateItems(ys).kids == l.kids + rest;
      DistinctSplit(keys, l.kids, rest);
      DistinctIsFaithful(ys[0], keys);
      if l.ok {
        DistinctItemsFaithful(ys[1..], keys + Keys(l.kids));
      }
    }
  }

  /** The smallest failure: a repeated key whose second entry has content too. */
  lemma RepeatedKeyFails(root: string, k: string, a: string, b: string)
    ensures var y := Map([Entry(Some(k), Scalar(a)), Entry(Some(k), Scalar(b))]);
            !Faithful(y, []) && Build(y, Leaf(root), []).tree != Extend(Leaf(root), Translate(y).kids)
  {
    var e1, e2 := Entry(Some(k), Scalar(a)), Entry(Some(k), Scalar(b));
    var y := Map([e1, e2]);
    assert [e1, e2][1..] == [e2] && [] + [k] == [k];
    assert Translate(e2.value).kids == [Leaf(b)] && k in [k];
    assert !FaithfulEntry(k, e2.value, [k]);
    assert !FaithfulEntries([e2], [k]);
    assert !FaithfulEntries([e1, e2], []);
    BuildExact(y, root);
  }

  // -------- no path is lost --------

  /** Building, even from a document that is rejected half-way, keeps every path there was. */
  lemma {:induction false} BuildKeepsPaths(y: Yaml, t: Tree, path: Path, q: Path)
    requires Contains(t, q)
    ensures Contains(Build(y, t, path).tree, q)
    decreases y, 0
  {
    match y
    case Null =>
    case Scalar(text) => AddContains(t, path, [text], q);
    case Map(entries) => BuildEntriesKeepPaths(entries, t, path, q);
    case Sequence(items) => BuildItemsKeepPaths(items, t, path, q);
  }

  lemma {:induction false} BuildEntriesKeepPaths(es: seq<Entry>, t: Tree, path: Path, q: Path)
    requires Contains(t, q)
    ensures Contains(BuildEntries(es, t, path).tree, q)
    decreases es, 0
  {
    if es != [] && es[0].key.Some? {
      assert es decreases to es[0];
      var k := es[0].key.value;
      var t1 := AddAt(t, path, [k]);
      AddContains(t, path, [k], q);
      BuildKeepsPaths(es[0].value, t1, path + [k], q);
      var b := Build(es[0].value, t1, path + [k]);
      if b.ok {
        BuildEntriesKeepPaths(es[1..], b.tree, path, q);
      }
    }
  }

  lemma {:induction false} BuildItemsKeepPaths(ys: seq<Yaml>, t: Tree, path: Path, q: Path)
    requires Contains(t, q)
    ensures Contains(BuildItems(ys, t, path).tree, q)
    decreases ys, 0
  {
    if ys != [] {
      BuildKeepsPaths(ys[0], t, path, q);
      var b := Build(ys[0], t, path);
      if b.ok {
        BuildItemsKeepPaths(ys[1..], b.tree, path, q);
      }
    }
  }
}

/**
  Turning a YAML document into settings.  The program does so by a series of `add(path, value)`
  calls that each start at the root; `Build` is that series, `Merge` is its effect told locally
  at the node it works on, and `Translate` is the plain structural reading of the document.
 */
module YamlWrapper {
  import opened Options
  import opened SettingsTree
  import opened SettingsLaws
  import opened SettingsPaths

  datatype Yaml =
    | Null                              // also: undefined
    | Scalar(text: string)
    | Map(entries: seq<Entry>)
    | Sequence(items: seq<Yaml>)

  /** The key is `None` when it does not convert to a string. */
  datatype Entry = Entry(key: Option<string>, value: Yaml)

  datatype Built = Built(ok: bool, tree: Tree)

  // -------- the calls made from the root --------

  function Build(y: Yaml, t: Tree, path: Path): (r: Built)
    ensures r.tree.key == t.key
    decreases y, 0
  {
    match y
    case Null => Built(true, t)
    case Scalar(text) => Built(true, AddAt(t, path, [text]))
    case Map(entries) => BuildEntries(entries, t, path)
    case Sequence(items) => BuildItems(items, t, path)
  }

  function BuildEntries(es: seq<Entry>, t: Tree, path: Path): (r: Built)
    ensures r.tree.key == t.key
    decreases es, 0
  {
    if es == [] then Built(true, t)
    else if es[0].key.None? then Built(false, t)
    else
      var k := es[0].key.value;
      assert es decreases to es[0];
      var b := Build(es[0].value, AddAt(t, path, [k]), path + [k]);
      if b.ok then BuildEntries(es[1..], b.tree, path) else b
  }

  function BuildItems(ys: seq<Yaml>, t: Tree, path: Path): (r: Built)
    ensures r.tree.key == t.key
    decreases ys, 0
  {
    if ys == [] then Built(true, t) else
      var b := Build(ys[0], t, path);
      if b.ok then BuildItems(ys[1..], b.tree, path) else b
  }

  // -------- the same, at one node --------

  function Merge(y: Yaml, n: Tree): (r: Built)
    ensures r.tree.key == n.key
    decreases y, 0
  {
    match y
    case Null => Built(true, n)
    case Scalar(text) => Built(true, AddValues(n, [text]))
    case Map(entries) => MergeEntries(entries, n)
    case Sequence(items) => MergeItems(items, n)
  }

  /** A new child `k` is appended, but its content goes to the first child `k`. */
  function MergeEntry(k: string, v: Yaml, n: Tree): (r: Built)
    ensures r.tree.key == n.key
    decreases v, 1
  {
    var e := AddValues(n, [k]);
    AddValuesKeeps(n, [k], k);
    var b := Merge(v, Child(e, k));
    Built(b.ok, SetChild(e, b.tree))
  }

  function MergeEntries(es: seq<Entry>, n: Tree): (r: Built)
    ensures r.tree.key == n.key
    decreases es, 0
  {
    if es == [] then Built(true, n)
    else if es[0].key.None? then Built(false, n)
    else
      assert es decreases to es[0];
      var b := MergeEntry(es[0].key.value, es[0].value, n);
      if b.ok then MergeEntries(es[1..], b.tree) else b
  }

  function MergeItems(ys: seq<Yaml>, n: Tree): (r: Built)
    ensures r.tree.key == n.key
    decreases ys, 0
  {
    if ys == [] then Built(true, n) else
      var b := Merge(ys[0], n);
      if b.ok then MergeItems(ys[1..], b.tree) else b
  }

  predicate PutsAt(r: Built, t: Tree, path: Path, m: Built)
    requires Contains(t, path) && m.tree.key == At(t, path).key
  {
    r == Built(m.ok, PutAt(t, path, m.tree))
  }

  /** Building from the root changes the node at the path, by a local merge, and nothing else. */
  lemma {:induction false} BuildIsMerge(y: Yaml, t: Tree, path: Path)
    requires Contains(t, path)
    ensures PutsAt(Build(y, t, path), t, path, Merge(y, At(t, path)))
    decreases y, 0
  {
    match y
    case Null => PutSame(t, path);
    case Scalar(text) => AddIsPut(t, path, [text]);
    case Map(entries) => BuildEntriesIsMerge(entries, t, path);
    case Sequence(items) => BuildItemsIsMerge(items, t, path);
  }

  lemma {:induction false} BuildEntryIsMerge(k: string, v: Yaml, t: Tree, path: Path)
    requires Contains(t, path)
    ensures PutsAt(Build(v, AddAt(t, path, [k]), path + [k]), t, path, MergeEntry(k, v, At(t, path)))
    decreases v, 1
  {
    var n := At(t, path);
    var e := AddValues(n, [k]);
    var t1 := AddAt(t, path, [k]);
    AddIsPut(t, path, [k]);
    AddValuesKeeps(n, [k], k);
    PutThenAt(t, path, e);
    Below(t1, path, k);
    BuildIsMerge(v, t1, path + [k]);
    var c := Merge(v, Child(e, k)).tree;
    PutBelow(t1, path, c);
    PutTwice(t, path, e, SetChild(e, c));
  }

  lemma {:induction false} BuildEntriesIsMerge(es: seq<Entry>, t: Tree, path: Path)
    requires Contains(t, path)
    ensures PutsAt(BuildEntries(es, t, path), t, path, MergeEntries(es, At(t, path)))
    decreases es, 0
  {
    PutSame(t, path);
    if es != [] && es[0].key.Some? {
      assert es decreases to es[0];
      var m := MergeEntry(es[0].key.value, es[0].value, At(t, path));
      BuildEntryIsMerge(es[0].key.value, es[0].value, t, path);
      PutThenAt(t, path, m.tree);
      if m.ok {
        BuildEntriesIsMerge(es[1..], PutAt(t, path, m.tree), path);
        PutTwice(t, path, m.tree, MergeEntries(es[1..], m.tree).tree);
      }
    }
  }

  lemma {:induction false} BuildItemsIsMerge(ys: seq<Yaml>, t: Tree, path: Path)
    requires Contains(t, path)
    ensures PutsAt(BuildItems(ys, t, path), t, path, MergeItems(ys, At(t, path)))
    decreases ys, 0
  {
    PutSame(t, path);
    if ys != [] {
      var m := Merge(ys[0], At(t, path));
      BuildIsMerge(ys[0], t, path);
      PutThenAt(t, path, m.tree);
      if m.ok {
        BuildItemsIsMerge(ys[1..], PutAt(t, path, m.tree), path);
        PutTwice(t, path, m.tree, MergeItems(ys[1..], m.tree).tree);
      }
    }
  }
}

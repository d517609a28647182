/**
  The settings hierarchy as a value: an ordered tree whose nodes carry a key and
  possibly a list of children.  A node without a child collection and a node with an
  empty one are different.  Every lookup takes the first child with a matching key, so
  the functions are defined (and most laws hold) for duplicate siblings too.
 */
module SettingsTree {
  import opened Options

  type Path = seq<string>

  datatype Tree =
    | Leaf(key: string)                     // no child collection
    | Node(key: string, kids: seq<Tree>)    // a child collection, possibly empty

  // -------- lookup --------

  function Leaves(ks: seq<string>): (r: seq<Tree>)
    ensures |r| == |ks| && forall i :: 0 <= i < |ks| ==> r[i] == Leaf(ks[i])
  {
    seq(|ks|, i requires 0 <= i < |ks| => Leaf(ks[i]))
  }

  function Keys(kids: seq<Tree>): (r: seq<string>)
    ensures |r| == |kids| && forall i :: 0 <= i < |kids| ==> r[i] == kids[i].key
  {
    seq(|kids|, i requires 0 <= i < |kids| => kids[i].key)
  }

  function Kids(t: Tree): seq<Tree> {
    if t.Leaf? then [] else t.kids
  }

  /** Index of the first child with key `k`, or the number of children. */
  function Find(kids: seq<Tree>, k: string): (i: nat)
    ensures i <= |kids|
    ensures i < |kids| ==> kids[i].key == k
    ensures forall j :: 0 <= j < i ==> kids[j].key != k
  {
    if kids == [] || kids[0].key == k then 0 else 1 + Find(kids[1..], k)
  }

  predicate Has(t: Tree, k: string) {
    Find(Kids(t), k) < |Kids(t)|
  }

  function Child(t: Tree, k: string): (c: Tree)
    requires Has(t, k)
    ensures c.key == k && c in Kids(t)
  {
    Kids(t)[Find(Kids(t), k)]
  }

  predicate Contains(t: Tree, path: Path)
    decreases |path|
  {
    path == [] || (Has(t, path[0]) && Contains(Child(t, path[0]), path[1..]))
  }

  function At(t: Tree, path: Path): Tree
    requires Contains(t, path)
    decreases |path|
  {
    if path == [] then t else At(Child(t, path[0]), path[1..])
  }

  function Values(t: Tree): Option<seq<string>> {
    if t.Leaf? then None else Some(Keys(t.kids))
  }

  function Get(t: Tree, path: Path): Option<seq<string>> {
    if Contains(t, path) then Values(At(t, path)) else None
  }

  // -------- modification --------

  function AddValues(t: Tree, vs: seq<string>): Tree {
    Node(t.key, Kids(t) + Leaves(vs))
  }

  /** The node with a child `k`: itself, or with a new last leaf. */
  function Ensure(t: Tree, k: string): (r: Tree)
    ensures Has(r, k)
    ensures Find(Kids(r), k) == Find(Kids(t), k)
    ensures r.Node?
  {
    if Has(t, k) then t else
      var r := AddValues(t, [k]);
      assert Kids(r)[|Kids(t)|].key == k;
      assert forall j :: 0 <= j < |Kids(t)| ==> Kids(r)[j] == Kids(t)[j];
      r
  }

  /** The node whose first child with the key of `c` is replaced by `c`. */
  function SetChild(t: Tree, c: Tree): (r: Tree)
    requires Has(t, c.key)
    ensures Has(r, c.key) && Child(r, c.key) == c
    ensures r.Node? && |Kids(r)| == |Kids(t)|
  {
    var i := Find(Kids(t), c.key);
    var r := Node(t.key, Kids(t)[i := c]);
    SetChildFinds(t, c, r);
    r
  }

  lemma SetChildFinds(t: Tree, c: Tree, r: Tree)
    requires Has(t, c.key)
    requires r == Node(t.key, Kids(t)[Find(Kids(t), c.key) := c])
    ensures forall k :: Find(Kids(r), k) == Find(Kids(t), k)
    ensures forall k :: k != c.key && Has(t, k) ==> Child(r, k) == Child(t, k)
  {
    var i := Find(Kids(t), c.key);
    forall k ensures Find(Kids(r), k) == Find(Kids(t), k) {
      assert forall j :: 0 <= j < |Kids(t)| ==> Kids(r)[j].key == Kids(t)[j].key;
      FindByKeys(Kids(r), Kids(t), k);
    }
  }

  lemma FindByKeys(a: seq<Tree>, b: seq<Tree>, k: string)
    requires |a| == |b| && forall j :: 0 <= j < |a| ==> a[j].key == b[j].key
    ensures Find(a, k) == Find(b, k)
  {
    var i, j := Find(a, k), Find(b, k);
    assert i < |a| ==> b[i].key == k;
    assert j < |b| ==> a[j].key == k;
  }

  /** `add(path, values)`: missing nodes on the path are created as last children. */
  function AddAt(t: Tree, path: Path, vs: seq<string>): (r: Tree)
    ensures r.key == t.key
    decreases |path|
  {
    if path == [] then AddValues(t, vs) else
      var e := Ensure(t, path[0]);
      SetChild(e, AddAt(Child(e, path[0]), path[1..], vs))
  }

  function RemoveAt<T>(s: seq<T>, i: nat): (r: seq<T>)
    requires i < |s|
    ensures |r| == |s| - 1
  {
    s[..i] + s[i + 1..]
  }

  /** `clear(path)`: erases the first node found along the path. */
  function ClearAt(t: Tree, path: Path): (r: Tree)
    ensures r.key == t.key
    decreases |path|
  {
    if path == [] || !Contains(t, path) then t
    else if |path| == 1 then Node(t.key, RemoveAt(Kids(t), Find(Kids(t), path[0])))
    else SetChild(t, ClearAt(Child(t, path[0]), path[1..]))
  }

  lemma ClearMissing(t: Tree, path: Path)
    ensures path == [] || !Contains(t, path) ==> ClearAt(t, path) == t
  {
  }

  /** The tree with `x` for the first node at `path`. */
  function PutAt(t: Tree, path: Path, x: Tree): (r: Tree)
    requires Contains(t, path) && x.key == At(t, path).key
    ensures r.key == t.key
    decreases |path|
  {
    if path == [] then x else SetChild(t, PutAt(Child(t, path[0]), path[1..], x))
  }

  lemma {:induction false} ClearIsPut(t: Tree, path: Path)
    requires path != [] && Contains(t, path)
    ensures var parent := path[..|path| - 1]; var last := path[|path| - 1];
            && Contains(t, parent) && Has(At(t, parent), last)
            && var p := At(t, parent);
               ClearAt(t, path) == PutAt(t, parent, Node(p.key, RemoveAt(Kids(p), Find(Kids(p), last))))
    decreases |path|
  {
    if |path| > 1 {
      ClearIsPut(Child(t, path[0]), path[1..]);
      assert path[..|path| - 1][1..] == path[1..][..|path[1..]| - 1];
    }
  }

  function Replace(t: Tree, path: Path, vs: seq<string>): Tree {
    AddAt(ClearAt(t, path), path, vs)
  }

  /** `deepCopy`: a source without a child collection leaves the target as it is. */
  function DeepCopy(t: Tree, source: Tree): Tree {
    if source.Leaf? then t else Node(t.key, source.kids)
  }

  /** `node[c.key] = c`: find or create the child, then copy-assign. */
  function Assign(t: Tree, c: Tree): Tree {
    var e := Ensure(t, c.key);
    SetChild(e, DeepCopy(Child(e, c.key), c))
  }

  /** The first `n` steps of overwriting `t` with the children of `source`. */
  function OverwriteUpTo(t: Tree, source: Tree, n: nat): Tree
    requires n <= |Kids(source)|
  {
    if n == 0 then t else
      assert Has(source, Kids(source)[n - 1].key);
      Assign(OverwriteUpTo(t, source, n - 1), Child(source, Kids(source)[n - 1].key))
  }

  function Overwrite(t: Tree, source: Tree): Tree {
    OverwriteUpTo(t, source, |Kids(source)|)
  }

  // -------- uniqueness --------

  predicate NoDuplicates<T(==)>(s: seq<T>) {
    forall i, j :: 0 <= i < j < |s| ==> s[i] != s[j]
  }

  predicate Unique(t: Tree) {
    NoDuplicates(Keys(Kids(t))) && forall i :: 0 <= i < |Kids(t)| ==> Unique(Kids(t)[i])
  }
}

/** What adding, clearing, replacing and overwriting do to every path of a settings tree. */
module SettingsLaws {
  import opened Options
  import opened SettingsTree

  // -------- one level --------

  lemma EnsureKeeps(t: Tree, k: string, q: string)
    ensures Has(Ensure(t, k), q) <==> Has(t, q) || q == k
    ensures Has(t, q) ==> Child(Ensure(t, k), q) == Child(t, q)
    ensures !Has(t, k) ==> Child(Ensure(t, k), k) == Leaf(k)
  {
    if !Has(t, k) {
      AppendFind(Kids(t), Leaf(k), q);
      AppendFind(Kids(t), Leaf(k), k);
      assert Kids(Ensure(t, k)) == Kids(t) + [Leaf(k)];
    }
  }

  lemma AppendFind(a: seq<Tree>, c: Tree, q: string)
    ensures Find(a + [c], q) == if Find(a, q) < |a| then Find(a, q) else if c.key == q then |a| else |a| + 1
  {
    var i := Find(a + [c], q);
    assert forall j :: 0 <= j < |a| ==> (a + [c])[j] == a[j];
    assert (a + [c])[|a|] == c;
    assert i < |a| ==> a[i].key == q;
  }

  lemma SetChildKeeps(t: Tree, c: Tree, q: string)
    requires Has(t, c.key)
    ensures Has(SetChild(t, c), q) <==> Has(t, q)
    ensures q != c.key && Has(t, q) ==> Child(SetChild(t, c), q) == Child(t, q)
    ensures Keys(Kids(SetChild(t, c))) == Keys(Kids(t))
  {
    SetChildFinds(t, c, SetChild(t, c));
  }

  lemma FindConcat(a: seq<Tree>, b: seq<Tree>, k: string)
    requires forall j :: 0 <= j < |a| ==> a[j].key != k
    ensures Find(a + b, k) == |a| + Find(b, k)
  {
    hide Find;
    var r := a + b;
    assert forall j :: 0 <= j < |a| ==> r[j] == a[j];
    assert forall j :: |a| <= j < |r| ==> r[j] == b[j - |a|];
    FindIs(r, k, |a| + Find(b, k));
  }

  lemma FindIs(kids: seq<Tree>, k: string, i: nat)
    requires i <= |kids| && (i < |kids| ==> kids[i].key == k) && forall j :: 0 <= j < i ==> kids[j].key != k
    ensures Find(kids, k) == i
  {
  }

  lemma FindInFront(a: seq<Tree>, b: seq<Tree>, k: string)
    requires Find(a, k) < |a|
    ensures Find(a + b, k) == Find(a, k)
  {
    hide Find;
    assert forall j :: 0 <= j < |a| ==> (a + b)[j] == a[j];
    FindIs(a + b, k, Find(a, k));
  }

  lemma FindLeaf(vs: seq<string>, k: string)
    ensures Find(Leaves(vs), k) < |vs| <==> k in vs
    ensures k in vs ==> Leaves(vs)[Find(Leaves(vs), k)] == Leaf(k)
  {
    hide Find;
    if k in vs {
      var i :| 0 <= i < |vs| && vs[i] == k;
      assert Leaves(vs)[i].key == k;
    }
  }

  lemma AddValuesKeeps(t: Tree, vs: seq<string>, q: string)
    ensures Has(AddValues(t, vs), q) <==> Has(t, q) || q in vs
    ensures Has(t, q) ==> Child(AddValues(t, vs), q) == Child(t, q)
    ensures !Has(t, q) && q in vs ==> Child(AddValues(t, vs), q) == Leaf(q)
  {
    hide Find;
    FindLeaf(vs, q);
    if Has(t, q) {
      FindInFront(Kids(t), Leaves(vs), q);
    } else {
      FindConcat(Kids(t), Leaves(vs), q);
    }
  }

  // -------- add --------

  function ValuesOr(v: Option<seq<string>>): seq<string> {
    v.GetOr([])
  }

  /** The node that `add` descends to: the first child `k`, or a fresh leaf. */
  function ChildOrLeaf(t: Tree, k: string): (c: Tree)
    ensures c.key == k
  {
    if Has(t, k) then Child(t, k) else Leaf(k)
  }

  lemma PathSplit(q: Path)
    requires q != []
    ensures q == [q[0]] + q[1..]
  {
  }

  lemma GetBelow(t: Tree, q: Path)
    requires q != []
    ensures Get(t, q) == Get(ChildOrLeaf(t, q[0]), q[1..])
    ensures |q| > 1 ==> (Contains(t, q) <==> Contains(ChildOrLeaf(t, q[0]), q[1..]))
  {
  }

  /** The values that `path` shows after `add(path, vs)`, told from the tree before it. */
  function ValuesAfterAdd(t: Tree, path: Path, vs: seq<string>, q: Path): Option<seq<string>> {
    if q == path then Some(ValuesOr(Get(t, path)) + vs)
    else if q < path && !Contains(t, q + [path[|q|]]) then Some(ValuesOr(Get(t, q)) + [path[|q|]])
    else Get(t, q)
  }

  lemma ValuesAfterAddBelow(t: Tree, path: Path, vs: seq<string>, q: Path)
    requires path != [] && q != [] && q[0] == path[0]
    ensures ValuesAfterAdd(t, path, vs, q) == ValuesAfterAdd(ChildOrLeaf(t, q[0]), path[1..], vs, q[1..])
  {
    PathSplit(q);
    PathSplit(path);
    GetBelow(t, q);
    GetBelow(t, path);
    if q < path {
      assert (q + [path[|q|]])[1..] == q[1..] + [path[1..][|q[1..]|]];
      GetBelow(t, q + [path[|q|]]);
    }
  }

  lemma AddDescends(t: Tree, path: Path, vs: seq<string>, q: Path)
    requires path != [] && q != []
    ensures q[0] == path[0] ==>
              Has(AddAt(t, path, vs), q[0]) &&
              Child(AddAt(t, path, vs), q[0]) == AddAt(ChildOrLeaf(t, q[0]), path[1..], vs)
    ensures q[0] != path[0] ==>
              (Has(AddAt(t, path, vs), q[0]) <==> Has(t, q[0])) &&
              ChildOrLeaf(AddAt(t, path, vs), q[0]) == ChildOrLeaf(t, q[0])
  {
    var e := Ensure(t, path[0]);
    EnsureKeeps(t, path[0], path[0]);
    EnsureKeeps(t, path[0], q[0]);
    SetChildKeeps(e, AddAt(Child(e, path[0]), path[1..], vs), q[0]);
  }

  lemma EnsureKeys(t: Tree, k: string)
    ensures Ensure(t, k).Node?
    ensures Keys(Kids(Ensure(t, k))) == Keys(Kids(t)) + if Has(t, k) then [] else [k]
  {
  }

  lemma AddAtRoot(t: Tree, path: Path, vs: seq<string>)
    requires path != []
    ensures AddAt(t, path, vs).Node?
    ensures Keys(Kids(AddAt(t, path, vs))) == Keys(Kids(t)) + if Has(t, path[0]) then [] else [path[0]]
  {
    hide Find, Has, Ensure, Child, Keys;
    var e := Ensure(t, path[0]);
    var c := AddAt(Child(e, path[0]), path[1..], vs);
    assert AddAt(t, path, vs) == SetChild(e, c);
    SetChildKeeps(e, c, path[0]);
    EnsureKeys(t, path[0]);
  }

  lemma AddFrameRoot(t: Tree, path: Path, vs: seq<string>)
    requires path != []
    ensures Get(AddAt(t, path, vs), []) == ValuesAfterAdd(t, path, vs, [])
  {
    hide AddAt, Find;
    AddAtRoot(t, path, vs);
    assert [] + [path[0]] == [path[0]];
    assert Contains(t, [path[0]]) <==> Has(t, path[0]);
    assert Keys(Kids(t)) + [] == Keys(Kids(t));
  }

  lemma AddFrameHere(t: Tree, vs: seq<string>, q: Path)
    ensures Get(AddValues(t, vs), q) == ValuesAfterAdd(t, [], vs, q)
  {
    if q == [] {
      assert Keys(Kids(t) + Leaves(vs)) == Keys(Kids(t)) + vs;
    } else {
      AddValuesKeeps(t, vs, q[0]);
      GetBelow(t, q);
      GetBelow(AddValues(t, vs), q);
    }
  }

  /** Frame of `add`: every path's values afterwards, for every tree. */
  lemma {:induction false} AddFrame(t: Tree, path: Path, vs: seq<string>, q: Path)
    ensures Get(AddAt(t, path, vs), q) == ValuesAfterAdd(t, path, vs, q)
    decreases |path|
  {
    if path == [] {
      AddFrameHere(t, vs, q);
    } else if q == [] {
      AddFrameRoot(t, path, vs);
    } else {
      if q[0] == path[0] {
        AddFrame(ChildOrLeaf(t, q[0]), path[1..], vs, q[1..]);
      }
      AddFrameBelow(t, path, vs, q);
    }
  }

  lemma AddFrameBelow(t: Tree, path: Path, vs: seq<string>, q: Path)
    requires path != [] && q != []
    requires q[0] == path[0] ==>
               Get(AddAt(ChildOrLeaf(t, q[0]), path[1..], vs), q[1..]) ==
               ValuesAfterAdd(ChildOrLeaf(t, q[0]), path[1..], vs, q[1..])
    ensures Get(AddAt(t, path, vs), q) == ValuesAfterAdd(t, path, vs, q)
  {
    hide AddAt, Get;
    AddDescends(t, path, vs, q);
    GetBelow(AddAt(t, path, vs), q);
    if q[0] == path[0] {
      ValuesAfterAddBelow(t, path, vs, q);
    } else {
      GetBelow(t, q);
    }
  }

  /** `add(path, vs)` creates exactly the nodes of `path` and of `vs` below it; no path is lost. */
  lemma {:induction false} AddContains(t: Tree, path: Path, vs: seq<string>, q: Path)
    ensures Contains(AddAt(t, path, vs), q) <==> Contains(t, q) || Created(path, vs, q)
    decreases |path|
  {
    if q == [] {
    } else if path == [] {
      AddContainsHere(t, vs, q);
    } else {
      if q[0] == path[0] {
        AddContains(ChildOrLeaf(t, q[0]), path[1..], vs, q[1..]);
      }
      AddContainsBelow(t, path, vs, q);
    }
  }

  predicate Created(path: Path, vs: seq<string>, q: Path) {
    q <= path || (path < q && |q| == |path| + 1 && q[|path|] in vs)
  }

  lemma AddContainsHere(t: Tree, vs: seq<string>, q: Path)
    requires q != []
    ensures Contains(AddValues(t, vs), q) <==> Contains(t, q) || Created([], vs, q)
  {
    AddValuesKeeps(t, vs, q[0]);
  }

  lemma AddContainsBelow(t: Tree, path: Path, vs: seq<string>, q: Path)
    requires path != [] && q != []
    requires q[0] == path[0] ==>
               (Contains(AddAt(ChildOrLeaf(t, q[0]), path[1..], vs), q[1..]) <==>
                Contains(ChildOrLeaf(t, q[0]), q[1..]) || Created(path[1..], vs, q[1..]))
    ensures Contains(AddAt(t, path, vs), q) <==> Contains(t, q) || Created(path, vs, q)
  {
    hide AddAt, Find;
    AddDescends(t, path, vs, q);
    PathSplit(q);
    PathSplit(path);
  }

  // -------- clear --------

  function Without(s: seq<string>, x: string): (r: seq<string>)
    ensures x !in s ==> r == s
  {
    if s == [] then [] else if s[0] == x then s[1..] else [s[0]] + Without(s[1..], x)
  }

  lemma {:induction false} WithoutFirst(s: seq<string>, x: string, i: nat)
    requires i < |s| && s[i] == x && x !in s[..i]
    ensures Without(s, x) == RemoveAt(s, i)
  {
    if i == 0 {
      assert RemoveAt(s, 0) == s[1..];
    } else {
      assert s[0] in s[..i] && s[1..][..i - 1] == s[..i][1..];
      WithoutFirst(s[1..], x, i - 1);
      assert RemoveAt(s, i) == [s[0]] + RemoveAt(s[1..], i - 1);
    }
  }

  lemma RemovedKeys(kids: seq<Tree>, k: string)
    requires Find(kids, k) < |kids|
    ensures Keys(RemoveAt(kids, Find(kids, k))) == Without(Keys(kids), k)
  {
    hide Find;
    var i := Find(kids, k);
    WithoutFirst(Keys(kids), k, i);
    assert Keys(RemoveAt(kids, i)) == RemoveAt(Keys(kids), i);
  }

  lemma RemovedFind(kids: seq<Tree>, i: nat, q: string)
    requires i < |kids| && kids[i].key != q
    ensures var r := RemoveAt(kids, i);
            && (Find(r, q) < |r| <==> Find(kids, q) < |kids|)
            && (Find(r, q) < |r| ==> r[Find(r, q)] == kids[Find(kids, q)])
  {
    hide Find;
    var r := RemoveAt(kids, i);
    var a, b := Find(kids, q), Find(r, q);
    assert forall j :: 0 <= j < i ==> r[j] == kids[j];
    assert forall j :: i <= j < |r| ==> r[j] == kids[j + 1];
    assert forall j :: i < j < |kids| ==> kids[j] == r[j - 1];
  }

  lemma RemovedUnique(kids: seq<Tree>, k: string)
    requires NoDuplicates(Keys(kids)) && Find(kids, k) < |kids|
    ensures var r := RemoveAt(kids, Find(kids, k));
            Find(r, k) == |r| && NoDuplicates(Keys(r)) && forall c :: c in r ==> c in kids
  {
    hide Find;
    var i := Find(kids, k);
    var r := RemoveAt(kids, i);
    var keys := Keys(kids);
    assert forall j :: 0 <= j < |r| ==> r[j] == kids[if j < i then j else j + 1];
    forall a, b | 0 <= a < b < |r| ensures Keys(r)[a] != Keys(r)[b] {
      assert keys[if a < i then a else a + 1] != keys[if b < i then b else b + 1];
    }
    forall j | 0 <= j < |r| ensures r[j].key != k {
      if j < i { assert keys[j] != keys[i]; } else { assert keys[i] != keys[j + 1]; }
    }
    FindIs(r, k, |r|);
  }

  lemma UniqueChild(t: Tree, k: string)
    requires Unique(t) && Has(t, k)
    ensures Unique(Child(t, k))
  {
  }

  /** Index of the second child with key `k`, or the number of children. */
  function FindNext(kids: seq<Tree>, k: string): (i: nat)
    ensures i <= |kids|
  {
    var first := Find(kids, k);
    if first == |kids| then |kids| else first + 1 + Find(kids[first + 1..], k)
  }

  /** The next sibling with the key of the first node at `path`. */
  function NextSibling(t: Tree, path: Path): Option<Tree>
    requires path != [] && Contains(t, path)
    decreases |path|
  {
    if |path| > 1 then NextSibling(Child(t, path[0]), path[1..]) else
      var i := FindNext(Kids(t), path[0]);
      if i < |Kids(t)| then Some(Kids(t)[i]) else None
  }

  lemma FindRemoved(kids: seq<Tree>, k: string)
    requires Find(kids, k) < |kids|
    ensures var i := Find(kids, k); var r := RemoveAt(kids, i);
            && Find(r, k) == FindNext(kids, k) - 1
            && (FindNext(kids, k) < |kids| ==> r[Find(r, k)] == kids[FindNext(kids, k)])
  {
    hide Find;
    var i := Find(kids, k);
    FindConcat(kids[..i], kids[i + 1..], k);
  }

  lemma {:induction false} UniqueNext(t: Tree, path: Path)
    requires Unique(t) && path != [] && Contains(t, path)
    ensures NextSibling(t, path) == None
    decreases |path|
  {
    hide Find;
    if |path| > 1 {
      UniqueChild(t, path[0]);
      UniqueNext(Child(t, path[0]), path[1..]);
    } else {
      RemovedUnique(Kids(t), path[0]);
      FindRemoved(Kids(t), path[0]);
    }
  }

  lemma ClearDescends(t: Tree, path: Path, q: Path)
    requires path != [] && Contains(t, path) && q != []
    ensures q[0] != path[0] ==>
              (Has(ClearAt(t, path), q[0]) <==> Has(t, q[0])) &&
              ChildOrLeaf(ClearAt(t, path), q[0]) == ChildOrLeaf(t, q[0])
    ensures q[0] == path[0] && |path| > 1 ==>
              Has(ClearAt(t, path), q[0]) &&
              Child(ClearAt(t, path), q[0]) == ClearAt(Child(t, q[0]), path[1..])
    ensures q[0] == path[0] && |path| == 1 ==>
              (Has(ClearAt(t, path), q[0]) <==> NextSibling(t, path).Some?) &&
              (NextSibling(t, path).Some? ==> Child(ClearAt(t, path), q[0]) == NextSibling(t, path).value)
  {
    hide Find;
    if |path| == 1 {
      if q[0] == path[0] {
        FindRemoved(Kids(t), q[0]);
      } else {
        RemovedFind(Kids(t), Find(Kids(t), path[0]), q[0]);
      }
    } else {
      SetChildKeeps(t, ClearAt(Child(t, path[0]), path[1..]), q[0]);
    }
  }

  /** Clearing a path removes it and what is below it; the next sibling of the same key shows instead. */
  lemma {:induction false} ClearContains(t: Tree, path: Path, q: Path)
    requires path != [] && Contains(t, path)
    ensures Contains(ClearAt(t, path), q) <==>
            if path <= q then NextSibling(t, path).Some? && Contains(NextSibling(t, path).value, q[|path|..])
            else Contains(t, q)
    decreases |path|
  {
    hide ClearAt, Find, At;
    if q != [] {
      PathSplit(path);
      PathSplit(q);
      ClearDescends(t, path, q);
      if q[0] == path[0] && |path| > 1 {
        ClearContains(Child(t, q[0]), path[1..], q[1..]);
        DropPrefix(path, q);
      }
    }
  }

  lemma DropPrefix(path: Path, q: Path)
    requires path != [] && q != [] && q[0] == path[0]
    ensures path <= q <==> path[1..] <= q[1..]
    ensures path <= q ==> q[|path|..] == q[1..][|path[1..]|..]
  {
    PathSplit(path);
    PathSplit(q);
  }

  /** The values that `path` shows after `clear(path)`. */
  function ValuesAfterClear(t: Tree, path: Path, q: Path): Option<seq<string>>
    requires path != [] && Contains(t, path)
  {
    if path <= q then
      match NextSibling(t, path)
      case None => None
      case Some(next) => Get(next, q[|path|..])
    else if q == path[..|path| - 1] then Some(Without(ValuesOr(Get(t, q)), path[|path| - 1]))
    else Get(t, q)
  }

  lemma ValuesAfterClearBelow(t: Tree, path: Path, q: Path)
    requires |path| > 1 && Contains(t, path) && q != [] && q[0] == path[0]
    ensures ValuesAfterClear(t, path, q) == ValuesAfterClear(Child(t, q[0]), path[1..], q[1..])
  {
    hide Find, At;
    GetBelow(t, q);
    DropPrefix(path, q);
    var parent := path[..|path| - 1];
    PathSplit(parent);
    PathSplit(q);
    assert parent[1..] == path[1..][..|path[1..]| - 1];
  }

  lemma ClearFrameRoot(t: Tree, path: Path)
    requires path != [] && Contains(t, path)
    ensures Get(ClearAt(t, path), []) == ValuesAfterClear(t, path, [])
  {
    hide Find;
    if |path| == 1 {
      RemovedKeys(Kids(t), path[0]);
    } else {
      SetChildKeeps(t, ClearAt(Child(t, path[0]), path[1..]), path[0]);
    }
  }

  /** Frame of `clear`, for every tree. */
  lemma {:induction false} ClearFrame(t: Tree, path: Path, q: Path)
    requires path != [] && Contains(t, path)
    ensures Get(ClearAt(t, path), q) == ValuesAfterClear(t, path, q)
    decreases |path|
  {
    hide ClearAt, Find, At;
    if q == [] {
      ClearFrameRoot(t, path);
    } else {
      ClearDescends(t, path, q);
      GetBelow(t, q);
      GetBelow(ClearAt(t, path), q);
      if q[0] == path[0] && |path| > 1 {
        ClearFrame(Child(t, q[0]), path[1..], q[1..]);
        ValuesAfterClearBelow(t, path, q);
      } else if q[0] == path[0] {
        PathSplit(q);
        GetLeaf(q[0], q[1..]);
      }
    }
  }

  lemma GetLeaf(k: string, q: Path)
    ensures Get(Leaf(k), q) == None
  {
  }

  lemma {:induction false} ClearUnique(t: Tree, path: Path)
    requires Unique(t)
    ensures Unique(ClearAt(t, path))
    decreases |path|
  {
    if path != [] && Contains(t, path) {
      if |path| == 1 {
        RemovedUnique(Kids(t), path[0]);
      } else {
        var c := ClearAt(Child(t, path[0]), path[1..]);
        UniqueChild(t, path[0]);
        ClearUnique(Child(t, path[0]), path[1..]);
        SetChildKeeps(t, c, path[0]);
      }
    }
  }

  // -------- uniqueness under add --------

  lemma SetChildUnique(t: Tree, c: Tree)
    requires Has(t, c.key)
    requires forall i :: 0 <= i < |Kids(t)| && i != Find(Kids(t), c.key) ==> Unique(Kids(t)[i])
    requires NoDuplicates(Keys(Kids(t)))
    ensures Unique(SetChild(t, c)) <==> Unique(c)
  {
    SetChildKeeps(t, c, c.key);
    var r := SetChild(t, c);
    assert r.kids[Find(Kids(t), c.key)] == c;
  }

  lemma EnsureUnique(t: Tree, k: string)
    requires Unique(t)
    ensures Unique(Ensure(t, k))
  {
    if !Has(t, k) {
      assert Kids(Ensure(t, k)) == Kids(t) + [Leaf(k)];
    }
  }

  /** `add` keeps siblings unique exactly when the old and new values at the path are distinct. */
  lemma {:induction false} AddUnique(t: Tree, path: Path, vs: seq<string>)
    requires Unique(t)
    ensures Unique(AddAt(t, path, vs)) <==> NoDuplicates(ValuesOr(Get(t, path)) + vs)
    decreases |path|
  {
    if path == [] {
      var r := AddValues(t, vs);
      assert Keys(Kids(r)) == ValuesOr(Get(t, path)) + vs;
      assert forall i :: |Kids(t)| <= i < |Kids(r)| ==> Unique(Kids(r)[i]);
    } else {
      var e := Ensure(t, path[0]);
      EnsureKeeps(t, path[0], path[0]);
      EnsureUnique(t, path[0]);
      var c := Child(e, path[0]);
      assert c == ChildOrLeaf(t, path[0]);
      UniqueChild(e, path[0]);
      AddUnique(c, path[1..], vs);
      GetBelow(t, path);
      SetChildUnique(e, AddAt(c, path[1..], vs));
    }
  }

  // -------- replace --------

  lemma ContainsPrefix(t: Tree, path: Path, q: Path)
    requires Contains(t, path) && q <= path
    ensures Contains(t, q)
    decreases |q|
  {
    if q != [] {
      ContainsPrefix(Child(t, q[0]), path[1..], q[1..]);
    }
  }

  /**
    What stands in the way of replacing the values at `path`: the keys below the next sibling with
    the same last key; for the empty path, which cannot be cleared, the values that are there.
   */
  function Shadowed(t: Tree, path: Path): seq<string> {
    if path == [] then Keys(Kids(t))
    else if !Contains(t, path) then []
    else match NextSibling(t, path)
      case None => []
      case Some(next) => Keys(Kids(next))
  }

  lemma ClearShows(t: Tree, path: Path)
    ensures ValuesOr(Get(ClearAt(t, path), path)) == Shadowed(t, path)
  {
    hide ClearAt, Find, NextSibling;
    ClearMissing(t, path);
    if path != [] && Contains(t, path) {
      ClearFrame(t, path, path);
      assert path[|path|..] == [];
    }
  }

  /**
    Replacing makes `get` return exactly the new values if and only if nothing stands in the way;
    with unique siblings nothing does, unless the path is empty.
   */
  lemma ReplaceThenGet(t: Tree, path: Path, vs: seq<string>)
    ensures Get(Replace(t, path, vs), path) == Some(Shadowed(t, path) + vs)
    ensures Get(Replace(t, path, vs), path) == Some(vs) <==> Shadowed(t, path) == []
    ensures Unique(t) && path != [] ==> Shadowed(t, path) == []
  {
    hide Shadowed, AddAt, ClearAt;
    ClearShows(t, path);
    AddFrame(ClearAt(t, path), path, vs, path);
    if Shadowed(t, path) != [] {
      assert |Shadowed(t, path) + vs| > |vs|;
    } else {
      assert Shadowed(t, path) + vs == vs;
    }
    if Unique(t) && path != [] {
      NothingShadowed(t, path);
    }
  }

  lemma NothingShadowed(t: Tree, path: Path)
    requires Unique(t) && path != []
    ensures Shadowed(t, path) == []
  {
    hide Find, NextSibling;
    if Contains(t, path) { UniqueNext(t, path); }
  }

  /** A second sibling of the same key shows through; so do the values at the empty path. */
  lemma ReplaceShadowed(r: string, a: string, x: string, v: string)
    ensures Get(Replace(Node(r, [Leaf(a), Node(a, [Leaf(x)])]), [a], [v]), [a]) == Some([x, v])
    ensures Unique(Node(r, [Leaf(a)])) && Get(Replace(Node(r, [Leaf(a)]), [], [v]), []) == Some([a, v])
  {
    hide Replace, Get;
    var t, u := Node(r, [Leaf(a), Node(a, [Leaf(x)])]), Node(r, [Leaf(a)]);
    ReplaceThenGet(t, [a], [v]);
    ReplaceThenGet(u, [], [v]);
    assert t.kids[0].key == a && Find(t.kids, a) == 0 && t.kids[0 + 1..] == [Node(a, [Leaf(x)])];
    assert Find([Node(a, [Leaf(x)])], a) == 0 && FindNext(t.kids, a) == 1;
    assert [a][1..] == [];
    assert Contains(t, [a]) && NextSibling(t, [a]) == Some(Node(a, [Leaf(x)]));
    assert Shadowed(t, [a]) == Keys([Leaf(x)]) == [x];
    assert Shadowed(u, []) == Keys([Leaf(a)]) == [a];
    assert [x] + [v] == [x, v] && [a] + [v] == [a, v];
  }

  /** The values that `path` shows after `replace(path, vs)`. */
  function ValuesAfterReplace(t: Tree, path: Path, vs: seq<string>, q: Path): Option<seq<string>>
    requires path != []
  {
    var parent, last := path[..|path| - 1], path[|path| - 1];
    if q == path then Some(Shadowed(t, path) + vs)
    else if !Contains(t, path) then ValuesAfterAdd(t, path, vs, q)
    else if path < q || q != parent then ValuesAfterClear(t, path, q)
    else Some(Without(ValuesOr(Get(t, q)), last) + if NextSibling(t, path).Some? then [] else [last])
  }

  lemma ReplaceFrameAbove(t: Tree, path: Path, vs: seq<string>, q: Path)
    requires path != [] && Contains(t, path) && q < path
    ensures Get(Replace(t, path, vs), q) == ValuesAfterReplace(t, path, vs, q)
  {
    hide ClearAt, AddAt, Find, Contains, At, Values, Without, NextSibling;
    var next := q + [path[|q|]];
    assert next == path[..|q| + 1];
    AddFrame(ClearAt(t, path), path, vs, q);
    ContainsPrefix(t, path, next);
    ClearFrame(t, path, q);
    ClearContains(t, path, next);
    if |q| == |path| - 1 {
      assert q == path[..|path| - 1] && next == path;
      Everything(ClearAt(t, path), NextSibling(t, path), path);
    } else {
      assert q != path[..|path| - 1];
      assert !(path <= next);
    }
    assert Without(ValuesOr(Get(t, q)), path[|path| - 1]) + [] == Without(ValuesOr(Get(t, q)), path[|path| - 1]);
  }

  lemma Everything(cleared: Tree, next: Option<Tree>, path: Path)
    ensures next.Some? ==> Contains(next.value, path[|path|..])
  {
    assert path[|path|..] == [];
  }

  /**
    Full frame of `replace`, for every tree: everything off the path stays.  The key moves last in
    its parent, unless a next sibling with that key takes its place and shows what is below it.
   */
  lemma ReplaceFrame(t: Tree, path: Path, vs: seq<string>, q: Path)
    requires path != []
    ensures Get(Replace(t, path, vs), q) == ValuesAfterReplace(t, path, vs, q)
  {
    ClearMissing(t, path);
    hide AddAt, ClearAt, Find, NextSibling, Shadowed;
    if q == path {
      ReplaceThenGet(t, path, vs);
    } else if !Contains(t, path) {
      AddFrame(t, path, vs, q);
    } else if q < path {
      ReplaceFrameAbove(t, path, vs, q);
    } else {
      AddFrame(ClearAt(t, path), path, vs, q);
      ClearFrame(t, path, q);
      assert q != path[..|path| - 1] || path < q;
    }
  }

  /** With unique siblings: the new values at the path, nothing below them, and the key last in its parent. */
  lemma UniqueReplaceFrame(t: Tree, path: Path, vs: seq<string>, q: Path)
    requires Unique(t) && path != []
    ensures path == q ==> Get(Replace(t, path, vs), q) == Some(vs)
    ensures path < q ==> Get(Replace(t, path, vs), q) == None
    ensures Contains(t, path) && q == path[..|path| - 1] ==>
              Get(Replace(t, path, vs), q) == Some(Without(ValuesOr(Get(t, q)), path[|path| - 1]) + [path[|path| - 1]])
    ensures Contains(t, path) && !(path <= q) && q != path[..|path| - 1] ==> Get(Replace(t, path, vs), q) == Get(t, q)
  {
    hide Replace, Find, NextSibling, Shadowed;
    ReplaceFrame(t, path, vs, q);
    NothingShadowed(t, path);
    assert [] + vs == vs;
    if Contains(t, path) {
      UniqueNext(t, path);
    } else if path < q && Contains(t, q) {
      ContainsPrefix(t, q, path);
    }
  }

  lemma ReplaceUnique(t: Tree, path: Path, vs: seq<string>)
    requires Unique(t) && path != []
    ensures Unique(Replace(t, path, vs)) <==> NoDuplicates(vs)
  {
    hide Shadowed, AddAt, ClearAt, Get;
    ClearUnique(t, path);
    AddUnique(ClearAt(t, path), path, vs);
    ReplaceThenGet(t, path, vs);
    ClearShows(t, path);
    assert [] + vs == vs;
  }

  // -------- assignment and overwrite --------

  lemma AssignLaw(t: Tree, c: Tree, q: string)
    ensures Has(Assign(t, c), q) <==> Has(t, q) || q == c.key
    ensures ChildOrLeaf(Assign(t, c), q) ==
            if q == c.key then DeepCopy(ChildOrLeaf(t, q), c) else ChildOrLeaf(t, q)
  {
    var e := Ensure(t, c.key);
    EnsureKeeps(t, c.key, q);
    SetChildKeeps(e, DeepCopy(Child(e, c.key), c), q);
  }

  lemma {:induction false} OverwriteUpToLaw(t: Tree, source: Tree, n: nat, q: string)
    requires n <= |Kids(source)|
    ensures Has(OverwriteUpTo(t, source, n), q) <==> Has(t, q) || Find(Kids(source), q) < n
    ensures ChildOrLeaf(OverwriteUpTo(t, source, n), q) ==
            if Find(Kids(source), q) < n then DeepCopy(ChildOrLeaf(t, q), Child(source, q)) else ChildOrLeaf(t, q)
  {
    hide OverwriteUpTo, Find, Assign, Has, Child, ChildOrLeaf, Kids, DeepCopy;
    if n > 0 {
      OverwriteUpToLaw(t, source, n - 1, q);
    }
    OverwriteNext(t, source, n, q);
  }

  lemma OverwriteNext(t: Tree, source: Tree, n: nat, q: string)
    requires n <= |Kids(source)|
    requires n > 0 ==> (Has(OverwriteUpTo(t, source, n - 1), q) <==> Has(t, q) || Find(Kids(source), q) < n - 1)
    requires n > 0 ==> (ChildOrLeaf(OverwriteUpTo(t, source, n - 1), q) ==
      if Find(Kids(source), q) < n - 1 then DeepCopy(ChildOrLeaf(t, q), Child(source, q)) else ChildOrLeaf(t, q))
    ensures Has(OverwriteUpTo(t, source, n), q) <==> Has(t, q) || Find(Kids(source), q) < n
    ensures ChildOrLeaf(OverwriteUpTo(t, source, n), q) ==
            if Find(Kids(source), q) < n then DeepCopy(ChildOrLeaf(t, q), Child(source, q)) else ChildOrLeaf(t, q)
  {
    hide Find, Assign, Has, Child, ChildOrLeaf, Kids;
    if n > 0 {
      var k := Kids(source)[n - 1].key;
      FirstIndex(source, n - 1, q);
      FirstIndex(source, n - 1, k);
      AssignLaw(OverwriteUpTo(t, source, n - 1), Child(source, k), q);
    }
  }

  lemma FirstIndex(t: Tree, i: nat, q: string)
    requires i < |Kids(t)|
    ensures Kids(t)[i].key == q ==> Find(Kids(t), q) <= i && Has(t, q) && Child(t, q).key == q
    ensures Find(Kids(t), q) == i ==> Kids(t)[i].key == q
  {
  }

  /** After `overwrite`, a child keeps its old content only where the source has none to give. */
  lemma OverwriteLaw(t: Tree, source: Tree, q: string)
    ensures Has(Overwrite(t, source), q) <==> Has(t, q) || Has(source, q)
    ensures ChildOrLeaf(Overwrite(t, source), q) ==
            if Has(source, q) then DeepCopy(ChildOrLeaf(t, q), Child(source, q)) else ChildOrLeaf(t, q)
  {
    OverwriteUpToLaw(t, source, |Kids(source)|, q);
  }
}

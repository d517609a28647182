/**
  The settings node as the program stores it: mutable nodes that own their children, with
  path operations that walk a pointer down the hierarchy and change the last node in place.
  A ghost `Shape` records which node objects make up a hierarchy.
 */
module SettingsNodes {
  import opened Options
  import opened SettingsTree
  import opened SettingsEquality

  /** The node `obj`, the shapes of its children, and all node objects they may occupy. */
  datatype Shape = Shape(obj: SettingsNode, parts: seq<Shape>, objs: set<SettingsNode>)

  /** No node object belongs to two places. */
  ghost predicate Tidy(s: Shape) {
    && s.obj in s.objs
    && (forall i :: 0 <= i < |s.parts| ==> Tidy(s.parts[i]) && s.parts[i].objs <= s.objs - {s.obj})
    && (forall i, j :: 0 <= i < j < |s.parts| ==> s.parts[i].objs !! s.parts[j].objs)
  }

  /** The child list of the node is the one `s` says. */
  ghost predicate Linked(s: Shape)
    reads s.obj`values
  {
    && (s.obj.values.None? ==> s.parts == [])
    && (s.obj.values.Some? ==>
          && |s.obj.values.value| == |s.parts|
          && forall i :: 0 <= i < |s.parts| ==> s.obj.values.value[i] == s.parts[i].obj)
  }

  /** The objects of `s` are linked as `s` says. */
  ghost predicate Holds(s: Shape)
    requires Tidy(s)
    reads s.objs`values
    decreases s, 1
  {
    Linked(s) && PartsHold(s)
  }

  ghost predicate PartsHold(s: Shape)
    requires Tidy(s)
    reads (s.objs - {s.obj})`values
    decreases s, 0
  {
    forall i :: 0 <= i < |s.parts| ==> Holds(s.parts[i])
  }

  /** The settings tree that the objects of `s` make up. */
  ghost function Abs(s: Shape): (t: Tree)
    requires Tidy(s)
    reads s.objs`values, s.objs`key
    ensures t.key == s.obj.key && t.Leaf? == s.obj.values.None?
    decreases s, 1, 0
  {
    if s.obj.values.None? then Leaf(s.obj.key) else Node(s.obj.key, PartsAbs(s, |s.parts|))
  }

  ghost function PartsAbs(s: Shape, n: nat): (ts: seq<Tree>)
    requires n <= |s.parts| && Tidy(s)
    reads (s.objs - {s.obj})`values, (s.objs - {s.obj})`key
    ensures |ts| == n && forall i :: 0 <= i < n ==> ts[i] == Abs(s.parts[i])
    decreases s, 0, n
  {
    if n == 0 then [] else PartsAbs(s, n - 1) + [Abs(s.parts[n - 1])]
  }

  // -------- a place inside a hierarchy, by child indices --------

  ghost predicate Route(s: Shape, at: seq<nat>)
    decreases |at|
  {
    at == [] || (at[0] < |s.parts| && Route(s.parts[at[0]], at[1..]))
  }

  ghost function Sub(s: Shape, at: seq<nat>): Shape
    requires Route(s, at)
    decreases |at|
  {
    if at == [] then s else Sub(s.parts[at[0]], at[1..])
  }

  ghost function Plug(s: Shape, at: seq<nat>, p: Shape): (r: Shape)
    requires Route(s, at)
    ensures r.objs <= s.objs + p.objs
    decreases |at|
  {
    if at == [] then p else
      var q := Plug(s.parts[at[0]], at[1..], p);
      Shape(s.obj, s.parts[at[0] := q], s.objs + p.objs)
  }

  ghost function PlugTree(t: Tree, at: seq<nat>, p: Tree): Tree
    decreases |at|
  {
    if at == [] then p else
    if at[0] < |Kids(t)| then Node(t.key, Kids(t)[at[0] := PlugTree(Kids(t)[at[0]], at[1..], p)]) else t
  }

  lemma {:induction false} PlugTwice(t: Tree, at: seq<nat>, p: Tree, q: Tree)
    ensures PlugTree(PlugTree(t, at, p), at, q) == PlugTree(t, at, q)
    decreases |at|
  {
    if at != [] && at[0] < |Kids(t)| {
      PlugTwice(Kids(t)[at[0]], at[1..], p, q);
    }
  }

  lemma {:induction false} SubPart(s: Shape, at: seq<nat>)
    requires Route(s, at) && Tidy(s)
    ensures Tidy(Sub(s, at)) && Sub(s, at).objs <= s.objs
    decreases |at|
  {
    if at != [] {
      SubPart(s.parts[at[0]], at[1..]);
    }
  }

  lemma {:induction false} SubHolds(s: Shape, at: seq<nat>)
    requires Route(s, at) && Tidy(s) && Holds(s)
    ensures Tidy(Sub(s, at)) && Holds(Sub(s, at))
    ensures PlugTree(Abs(s), at, Abs(Sub(s, at))) == Abs(s)
    decreases |at|
  {
    if at != [] {
      SubHolds(s.parts[at[0]], at[1..]);
      assert Kids(Abs(s))[at[0] := Kids(Abs(s))[at[0]]] == Kids(Abs(s));
    }
  }

  /** One step further down. */
  lemma {:induction false} Deeper(s: Shape, at: seq<nat>, i: nat)
    requires Route(s, at) && i < |Sub(s, at).parts|
    ensures Route(s, at + [i]) && Sub(s, at + [i]) == Sub(s, at).parts[i]
    decreases |at|
  {
    if at != [] {
      Deeper(s.parts[at[0]], at[1..], i);
      assert (at + [i])[1..] == at[1..] + [i];
    }
  }

  lemma {:induction false} DeeperTree(s: Shape, at: seq<nat>, i: nat, p: Tree)
    requires Route(s, at) && Tidy(s) && Holds(s) && i < |Sub(s, at).parts|
    ensures Tidy(Sub(s, at))
    ensures PlugTree(Abs(s), at + [i], p) == PlugTree(Abs(s), at, PlugTree(Abs(Sub(s, at)), [i], p))
    decreases |at|
  {
    if at == [] {
      assert [] + [i] == [i];
    } else {
      DeeperTree(s.parts[at[0]], at[1..], i, p);
      assert (at + [i])[1..] == at[1..] + [i];
    }
  }

  // -------- taking a hierarchy apart and putting it together --------

  ghost predicate Apart(s: Shape, i: nat, j: nat)
    requires i < |s.parts| && j < |s.parts|
  {
    s.parts[i].objs !! s.parts[j].objs
  }

  /** Everything but the part at `at` is linked as `s` says. */
  ghost predicate HoldsAround(s: Shape, at: seq<nat>)
    requires Route(s, at) && Tidy(s)
    reads (s.objs - Sub(s, at).objs)`values
    decreases |at|
  {
    at == [] || (
      SubPart(s.parts[at[0]], at[1..]);
      && Linked(s)
      && s.obj.values.Some?
      && (forall j :: 0 <= j < |s.parts| && j != at[0] ==> Apart(s, at[0], j) && Holds(s.parts[j]))
      && HoldsAround(s.parts[at[0]], at[1..]))
  }

  /** The tree of `s` with `p` for the part at `at`. */
  ghost function AbsAround(s: Shape, at: seq<nat>, p: Tree): (t: Tree)
    requires Route(s, at) && Tidy(s)
    reads (s.objs - Sub(s, at).objs)`values, (s.objs - Sub(s, at).objs)`key
    decreases |at|, 0
  {
    if at == [] then p else
      SubPart(s.parts[at[0]], at[1..]);
      Node(s.obj.key, AroundUpTo(s, |s.parts|, at[0], AbsAround(s.parts[at[0]], at[1..], p)))
  }

  ghost function AroundUpTo(s: Shape, n: nat, i: nat, p: Tree): (ts: seq<Tree>)
    requires n <= |s.parts| && i < |s.parts| && Tidy(s)
    reads (s.objs - s.parts[i].objs)`values, (s.objs - s.parts[i].objs)`key
    ensures |ts| == n && forall j :: 0 <= j < n ==> ts[j] == if j == i then p else Abs(s.parts[j])
    decreases n
  {
    if n == 0 then [] else
      assert n - 1 != i ==> Apart(s, i, n - 1);
      AroundUpTo(s, n - 1, i, p) + [if n - 1 == i then p else Abs(s.parts[n - 1])]
  }

  /** Take a hierarchy apart at `at` ... */
  lemma {:induction false} Split(s: Shape, at: seq<nat>, p: Tree)
    requires Route(s, at) && Tidy(s) && Holds(s)
    ensures HoldsAround(s, at)
    ensures AbsAround(s, at, p) == PlugTree(Abs(s), at, p)
    decreases |at|
  {
    if at != [] {
      Split(s.parts[at[0]], at[1..], p);
      assert AbsAround(s, at, p).kids == Kids(PlugTree(Abs(s), at, p));
    }
  }

  lemma PartSwapped(s: Shape, i: nat, q: Shape, objs: set<SettingsNode>)
    requires i < |s.parts| && Tidy(s) && Tidy(q)
    requires q.objs * s.objs <= s.parts[i].objs && q.objs <= objs && s.obj !in q.objs
    ensures Tidy(Shape(s.obj, s.parts[i := q], s.objs + objs))
  {
    forall j | 0 <= j < |s.parts| && j != i ensures s.parts[j].objs !! q.objs {
      assert Apart(s, i, j);
    }
  }

  lemma {:induction false} PlugTidy(s: Shape, at: seq<nat>, p: Shape)
    requires Route(s, at) && Tidy(s) && Tidy(p) && p.obj == Sub(s, at).obj
    requires p.objs * s.objs <= Sub(s, at).objs
    ensures Tidy(Plug(s, at, p)) && Plug(s, at, p).obj == s.obj
    ensures Route(Plug(s, at, p), at) && Sub(Plug(s, at, p), at) == p
    decreases |at|
  {
    if at != [] {
      var part := s.parts[at[0]];
      SubPart(part, at[1..]);
      PlugTidy(part, at[1..], p);
      PartSwapped(s, at[0], Plug(part, at[1..], p), s.objs + p.objs);
      assert s.objs + (s.objs + p.objs) == s.objs + p.objs;
    }
  }

  /** ... and put it together again around a changed part. */
  lemma {:induction false} Join(s: Shape, at: seq<nat>, p: Shape)
    requires Route(s, at) && Tidy(s) && HoldsAround(s, at) && Tidy(p) && Holds(p) && p.obj == Sub(s, at).obj
    requires p.objs * s.objs <= Sub(s, at).objs
    ensures Tidy(Plug(s, at, p)) && Holds(Plug(s, at, p))
    ensures Abs(Plug(s, at, p)) == AbsAround(s, at, Abs(p))
    decreases |at|
  {
    PlugTidy(s, at, p);
    if at != [] {
      SubPart(s.parts[at[0]], at[1..]);
      PlugTidy(s.parts[at[0]], at[1..], p);
      Join(s.parts[at[0]], at[1..], p);
      assert Abs(Plug(s, at, p)).kids == AbsAround(s, at, Abs(p)).kids;
    }
  }

  lemma Refit(s: Shape, at: seq<nat>, p: Shape) returns (r: Shape)
    requires Route(s, at) && Tidy(s) && HoldsAround(s, at)
    requires Tidy(p) && Holds(p) && p.obj == Sub(s, at).obj
    requires p.objs * s.objs <= Sub(s, at).objs
    ensures r.obj == s.obj && r.obj in r.objs && r.objs <= s.objs + p.objs && Tidy(r) && Holds(r)
    ensures Route(r, at) && Sub(r, at) == p && Abs(r) == AbsAround(s, at, Abs(p))
  {
    r := Plug(s, at, p);
    PlugTidy(s, at, p);
    Join(s, at, p);
  }

  // -------- one node --------

  /** A node that got `x` as a new last child. */
  lemma AppendedTidy(p: Shape, x: Shape)
    requires Tidy(p) && Tidy(x) && p.objs !! x.objs
    ensures Tidy(Shape(p.obj, p.parts + [x], p.objs + x.objs))
  {
    var parts := p.parts + [x];
    assert forall i :: 0 <= i < |p.parts| ==> parts[i] == p.parts[i];
    assert parts[|p.parts|] == x;
  }

  lemma AppendedHolds(p: Shape, x: Shape, q: Shape)
    requires Tidy(p) && Tidy(x) && Tidy(q) && q == Shape(p.obj, p.parts + [x], p.objs + x.objs)
    requires PartsHold(p) && Holds(x)
    ensures PartsHold(q)
  {
    forall i | 0 <= i < |q.parts| ensures Holds(q.parts[i]) {
      assert q.parts[i] == if i < |p.parts| then p.parts[i] else x;
    }
  }

  lemma {:induction false} SameParts(p: Shape, q: Shape, n: nat)
    requires Tidy(p) && Tidy(q) && n <= |p.parts| <= |q.parts| && p.parts <= q.parts
    ensures PartsAbs(q, n) == PartsAbs(p, n)
  {
    if n > 0 {
      SameParts(p, q, n - 1);
    }
  }

  lemma Appended(p: Shape, x: Shape, q: Shape)
    requires Tidy(p) && Tidy(x) && p.objs !! x.objs && q == Shape(p.obj, p.parts + [x], p.objs + x.objs)
    requires Linked(q) && q.obj.values.Some? && PartsHold(p) && Holds(x)
    ensures Tidy(q) && Holds(q) && Abs(q) == Node(q.obj.key, PartsAbs(p, |p.parts|) + [Abs(x)])
  {
    AppendedTidy(p, x);
    AppendedHolds(p, x, q);
    SameParts(p, q, |p.parts|);
    assert q.parts[|p.parts|] == x;
    assert PartsAbs(q, |q.parts|) == PartsAbs(q, |p.parts|) + [Abs(x)];
  }

  lemma Childless(q: Shape)
    requires q.parts == [] && q.obj in q.objs && q.obj.values == Some([])
    ensures Tidy(q) && Holds(q) && Abs(q) == Node(q.obj.key, [])
  {
  }

  lemma ErasedTidy(p: Shape, i: nat)
    requires Tidy(p) && i < |p.parts|
    ensures Tidy(Shape(p.obj, RemoveAt(p.parts, i), p.objs))
  {
    var parts := RemoveAt(p.parts, i);
    assert forall j :: 0 <= j < |parts| ==> parts[j] == p.parts[if j < i then j else j + 1];
  }

  lemma Erased(p: Shape, i: nat, q: Shape)
    requires Tidy(p) && i < |p.parts| && q == Shape(p.obj, RemoveAt(p.parts, i), p.objs)
    requires Linked(q) && q.obj.values.Some? && PartsHold(p)
    ensures Tidy(q) && Holds(q) && Abs(q) == Node(q.obj.key, RemoveAt(PartsAbs(p, |p.parts|), i))
  {
    ErasedTidy(p, i);
    var kids := RemoveAt(PartsAbs(p, |p.parts|), i);
    forall j | 0 <= j < |q.parts| ensures Holds(q.parts[j]) && PartsAbs(q, |q.parts|)[j] == kids[j] {
      assert q.parts[j] == p.parts[if j < i then j else j + 1];
    }
    assert PartsAbs(q, |q.parts|) == kids;
  }

  /** `std::find_if` over the children: the first one with key `k`, or the end. */
  function FindNode(nodes: seq<SettingsNode>, k: string): (i: nat)
    reads nodes
    ensures i <= |nodes| && (i < |nodes| ==> nodes[i].key == k) && forall j :: 0 <= j < i ==> nodes[j].key != k
  {
    if nodes == [] || nodes[0].key == k then 0 else 1 + FindNode(nodes[1..], k)
  }

  lemma FindNodeFinds(s: Shape, k: string)
    requires Tidy(s) && Holds(s)
    ensures FindNode(s.obj.values.GetOr([]), k) == Find(Kids(Abs(s)), k)
    ensures |s.obj.values.GetOr([])| == |Kids(Abs(s))| == |s.parts|
  {
    var i, j := FindNode(s.obj.values.GetOr([]), k), Find(Kids(Abs(s)), k);
    assert forall n :: 0 <= n < |s.parts| ==> Kids(Abs(s))[n].key == s.parts[n].obj.key;
    assert i < |s.parts| ==> Kids(Abs(s))[i].key == k;
    assert j < |s.parts| ==> s.obj.values.value[j].key == k;
  }

  /** From the node at `at` to its first child with key `x.key`. */
  lemma Down(s: Shape, at: seq<nat>, x: Tree)
    requires Route(s, at) && Tidy(s) && Holds(s) && Tidy(Sub(s, at)) && Has(Abs(Sub(s, at)), x.key)
    ensures var i := Find(Kids(Abs(Sub(s, at))), x.key);
            && i < |Sub(s, at).parts| && Route(s, at + [i]) && Sub(s, at + [i]) == Sub(s, at).parts[i]
            && Sub(s, at).obj.values.Some? && i < |Sub(s, at).obj.values.value|
            && Sub(s, at).obj.values.value[i] == Sub(s, at + [i]).obj
            && Abs(Sub(s, at + [i])) == Child(Abs(Sub(s, at)), x.key)
            && PlugTree(Abs(s), at + [i], x) == PlugTree(Abs(s), at, SetChild(Abs(Sub(s, at)), x))
  {
    var t := Abs(Sub(s, at));
    var i := Find(Kids(t), x.key);
    SubHolds(s, at);
    Deeper(s, at, i);
    DeeperTree(s, at, i, x);
    assert PlugTree(t, [i], x) == SetChild(t, x);
  }

  /** One step along a path that exists. */
  lemma Enter(s: Shape, at: seq<nat>, rest: Path, x: Tree)
    requires Route(s, at) && Tidy(s) && Holds(s) && Tidy(Sub(s, at)) && rest != []
    requires Contains(Abs(Sub(s, at)), rest) && x.key == At(Abs(Sub(s, at)), rest).key
    ensures var node := Sub(s, at).obj; var i := FindNode(node.values.GetOr([]), rest[0]);
            && i < |node.values.GetOr([])|
            && Route(s, at + [i]) && Sub(s, at + [i]).obj == node.values.value[i] && Tidy(Sub(s, at + [i]))
            && Sub(s, at + [i]).obj in s.objs
            && Contains(Abs(Sub(s, at + [i])), rest[1..])
            && At(Abs(Sub(s, at)), rest) == At(Abs(Sub(s, at + [i])), rest[1..])
            && PlugTree(Abs(s), at + [i], PutAt(Abs(Sub(s, at + [i])), rest[1..], x)) ==
               PlugTree(Abs(s), at, PutAt(Abs(Sub(s, at)), rest, x))
  {
    hide Tidy, PartsHold, PartsAbs, Linked, PlugTree;
    SubHolds(s, at);
    FindNodeFinds(Sub(s, at), rest[0]);
    Down(s, at, PutAt(Child(Abs(Sub(s, at)), rest[0]), rest[1..], x));
    SubPart(s, at + [FindNode(Sub(s, at).obj.values.GetOr([]), rest[0])]);
  }

  lemma AtRoot(s: Shape, t: Tree, x: Tree)
    ensures Route(s, []) && Sub(s, []) == s && PlugTree(t, [], x) == x
  {
  }

  lemma PathEnds(t: Tree, x: Tree)
    requires SettingsTree.Contains(t, []) && x.key == SettingsTree.At(t, []).key
    ensures SettingsTree.At(t, []) == t && PutAt(t, [], x) == x
  {
  }

  lemma AddOneLeaf(t: Tree, v: string)
    ensures AddValues(t, [v]) == Node(t.key, Kids(t) + [Leaf(v)])
  {
    assert Leaves([v]) == [Leaf(v)];
  }

  lemma AddNone(t: Tree)
    ensures AddValues(t, []) == Node(t.key, Kids(t))
  {
    assert Kids(t) + Leaves([]) == Kids(t);
  }

  lemma AddOneMore(t: Tree, vs: seq<string>, n: nat)
    requires n < |vs|
    ensures AddValues(AddValues(t, vs[..n]), [vs[n]]) == AddValues(t, vs[..n + 1])
  {
    assert (Kids(t) + Leaves(vs[..n])) + Leaves([vs[n]]) == Kids(t) + Leaves(vs[..n + 1]);
  }

  /** The first `n` children of `a` have an equal one in `b`. */
  predicate EqualUpTo(a: Tree, b: Tree, n: nat)
    requires n <= |Kids(a)|
  {
    forall j :: 0 <= j < n ==> Has(b, Kids(a)[j].key) && Equal(Kids(a)[j], Child(b, Kids(a)[j].key))
  }

  lemma NotEqual(a: Tree, b: Tree)
    ensures a.key != b.key ==> !Equal(a, b)
    ensures a.key == b.key && (a.Leaf? || b.Leaf?) ==> (Equal(a, b) <==> a.Leaf? && b.Leaf?)
    ensures a.Node? && b.Node? && |a.kids| != |b.kids| ==> !Equal(a, b)
    ensures a.key == b.key && a.Node? && b.Node? && |a.kids| == |b.kids| ==>
              (Equal(a, b) <==> EqualUpTo(a, b, |a.kids|))
    ensures EqualUpTo(a, b, 0)
  {
    hide Has, Child, Find;
    if a.key == b.key && a.Node? && b.Node? && |a.kids| == |b.kids| {
      if EqualUpTo(a, b, |a.kids|) {
        forall i | 0 <= i < |a.kids| ensures Has(b, a.kids[i].key) && Equal(a.kids[i], Child(b, a.kids[i].key)) {
          assert Kids(a)[i] == a.kids[i];
        }
      }
    }
  }

  lemma EqualNext(a: Tree, b: Tree, i: nat)
    requires a.Node? && b.Node? && i < |a.kids| && EqualUpTo(a, b, i)
    ensures EqualUpTo(a, b, i + 1) <==> Has(b, a.kids[i].key) && Equal(a.kids[i], Child(b, a.kids[i].key))
    ensures !EqualUpTo(a, b, i + 1) ==> !EqualUpTo(a, b, |a.kids|)
  {
    hide Has, Child, Find, Equal;
    assert Kids(a)[i] == a.kids[i];
  }

  lemma OverwriteNone(t: Tree, source: Tree)
    ensures OverwriteUpTo(t, source, 0) == t
    ensures |SettingsTree.Values(source).GetOr([])| == |Kids(source)|
  {
  }

  lemma OverwriteOneMore(t: Tree, source: Tree, n: nat)
    requires n < |Kids(source)|
    ensures n < |SettingsTree.Values(source).GetOr([])|
    ensures var k := SettingsTree.Values(source).GetOr([])[n];
            Has(source, k) && OverwriteUpTo(t, source, n + 1) == Assign(OverwriteUpTo(t, source, n), Child(source, k))
  {
    assert Has(source, Kids(source)[n].key);
  }

  lemma ChildCount(s: Shape)
    requires Tidy(s) && Holds(s) && s.obj.values.Some?
    ensures Abs(s).Node? && |Abs(s).kids| == |s.obj.values.value| == |s.parts|
  {
  }

  lemma Part(s: Shape, i: nat)
    requires Tidy(s) && Holds(s) && i < |s.parts|
    ensures s.obj.values.Some? && |s.obj.values.value| == |s.parts| == |Kids(Abs(s))|
    ensures s.obj.values.value[i].Owns(s.parts[i]) && Abs(s.parts[i]) == Kids(Abs(s))[i]
  {
    assert PartsHold(s) && Tidy(s.parts[i]) && s.parts[i].obj in s.parts[i].objs;
  }

  class SettingsNode {
    var key: string
    var values: Option<seq<SettingsNode>>
    ghost var shape: Shape

    ghost predicate Owns(s: Shape)
      reads s.objs`values
    {
      s.obj == this && this in s.objs && Tidy(s) && Holds(s)
    }

    ghost predicate Valid()
      reads this, shape.objs
    {
      Owns(shape)
    }

    ghost function Repr(): set<SettingsNode>
      reads this
    {
      shape.objs
    }

    ghost function Tree(): Tree
      requires Valid()
      reads this, shape.objs
    {
      Abs(shape)
    }

    constructor (k: string)
      ensures Valid() && Tree() == Leaf(k) && Repr() == {this}
    {
      key := k;
      values := None;
      shape := Shape(this, [], {this});
      new;
    }

    /** The copy constructor. */
    constructor Copy(t: Tree)
      ensures Valid() && Tree() == t && fresh(Repr())
    {
      key := t.key;
      values := None;
      shape := Shape(this, [], {this});
      new;
      assert Owns(shape) && shape.obj.values.None?;
      ghost var news;
      shape, news := DeepCopy(t, shape);
    }

    /** What a reader of this node sees. */
    method Snapshot(ghost p: Shape) returns (t: Tree)
      requires Owns(p)
      ensures t == Abs(p)
      decreases p
    {
      if values.None? {
        return Leaf(key);
      }
      var kids := [];
      for i := 0 to |values.value|
        invariant kids == PartsAbs(p, i)
      {
        assert PartsHold(p) && Tidy(p.parts[i]) && p.parts[i].obj == values.value[i];
        var kid := values.value[i].Snapshot(p.parts[i]);
        kids := kids + [kid];
      }
      t := Node(key, kids);
    }

    /** `push_back` of a node that this node does not own yet. */
    method AppendNode(node: SettingsNode, ghost x: Shape, ghost p: Shape) returns (ghost q: Shape)
      requires Owns(p) && node.Owns(x) && x.objs !! p.objs
      modifies this`values
      ensures Owns(q) && q.objs == p.objs + x.objs
      ensures Abs(q) == Node(key, Kids(old(Abs(p))) + [old(Abs(x))])
    {
      hide Tidy, PartsHold, PartsAbs;
      ghost var kids, t := PartsAbs(p, |p.parts|), Abs(x);
      assert PartsHold(p) && Kids(Abs(p)) == kids;
      values := Some(values.GetOr([]) + [node]);
      q := Shape(this, p.parts + [x], p.objs + x.objs);
      assert PartsHold(p) && PartsAbs(p, |p.parts|) == kids && Holds(x) && Abs(x) == t && Linked(q);
      Appended(p, x, q);
    }

    /** Make sure that there is a child collection. */
    method EnsureCollection(ghost p: Shape)
      requires Owns(p)
      modifies this`values
      ensures Owns(p) && Abs(p) == AddValues(old(Abs(p)), [])
    {
      ghost var before := Abs(p);
      assert PartsHold(p) && Kids(before) == PartsAbs(p, |p.parts|);
      if values.None? {
        values := Some([]);
      }
      assert PartsHold(p) && Kids(before) == PartsAbs(p, |p.parts|);
      AddNone(before);
    }

    /** `emplace_back` of a node without children. */
    method AppendLeaf(v: string, ghost p: Shape) returns (ghost q: Shape, ghost leaf: SettingsNode)
      requires Owns(p)
      modifies this`values
      ensures Owns(q) && fresh(leaf) && q.objs == p.objs + {leaf}
      ensures Abs(q) == AddValues(old(Abs(p)), [v])
    {
      ghost var before := Abs(p);
      var node := new SettingsNode(v);
      leaf := node;
      assert Owns(p) && Abs(p) == before;
      q := AppendNode(node, node.shape, p);
      AddOneLeaf(before, v);
    }

    /** `add(vs)` on this node itself. */
    method AppendAll(vs: seq<string>, ghost p: Shape) returns (ghost q: Shape, ghost news: set<SettingsNode>)
      requires Owns(p)
      modifies this`values
      ensures Owns(q) && fresh(news) && q.objs == p.objs + news
      ensures Abs(q) == AddValues(old(Abs(p)), vs)
    {
      hide Tidy, Holds, PartsHold, PartsAbs, Abs, AddValues;
      ghost var before := Abs(p);
      EnsureCollection(p);
      q, news := p, {};
      for n := 0 to |vs|
        invariant Owns(q) && fresh(news) && q.objs == p.objs + news
        invariant Abs(q) == AddValues(before, vs[..n])
      {
        ghost var leaf;
        q, leaf := AppendLeaf(vs[n], q);
        news := news + {leaf};
        AddOneMore(before, vs, n);
      }
      assert vs[..|vs|] == vs;
    }

    /** `operator==`. */
    method Equals(other: SettingsNode, ghost p: Shape, ghost q: Shape) returns (same: bool)
      requires Owns(p) && other.Owns(q)
      ensures same <==> Equal(Abs(p), Abs(q))
      decreases p
    {
      hide Tidy, Holds, Linked, PartsHold, Abs, PartsAbs, Find, Equal, EqualUpTo;
      ghost var a, b := Abs(p), Abs(q);
      NotEqual(a, b);
      if key != other.key {
        return false;
      }
      if values.None? || other.values.None? {
        return values.None? && other.values.None?;
      }
      ChildCount(p);
      ChildCount(q);
      if |values.value| != |other.values.value| {
        return false;
      }
      for i := 0 to |values.value|
        invariant EqualUpTo(a, b, i)
      {
        EqualNext(a, b, i);
        var k := values.value[i].key;
        var n := FindNode(other.values.value, k);
        Part(p, i);
        FindNodeFinds(q, k);
        if n == |other.values.value| {
          return false;
        }
        Part(q, n);
        var equal := values.value[i].Equals(other.values.value[n], p.parts[i], q.parts[n]);
        if !equal {
          return false;
        }
      }
      same := true;
    }

    // -------- inside a larger hierarchy --------

    /** `add(vs)` on this node, the part of `s` at `at`. */
    method AppendAt(vs: seq<string>, ghost s: Shape, ghost at: seq<nat>)
      returns (ghost r: Shape, ghost news: set<SettingsNode>)
      requires Route(s, at) && Tidy(s) && Holds(s) && Sub(s, at).obj == this && Tidy(Sub(s, at))
      modifies this`values
      ensures r.obj == s.obj && r.obj in r.objs && Tidy(r) && Holds(r) && fresh(news) && r.objs <= s.objs + news
      ensures Route(r, at) && Sub(r, at).obj == this && Tidy(Sub(r, at))
      ensures Abs(Sub(r, at)) == AddValues(old(Abs(Sub(s, at))), vs)
      ensures Abs(r) == PlugTree(old(Abs(s)), at, Abs(Sub(r, at)))
    {
      ghost var t := AddValues(Abs(Sub(s, at)), vs);
      SubPart(s, at);
      SubHolds(s, at);
      Split(s, at, t);
      ghost var p;
      p, news := AppendAll(vs, Sub(s, at));
      r := Refit(s, at, p);
    }

    /** The first child `k` of this node, the part of `s` at `at`; a missing one is added. */
    method EnsureAt(k: string, ghost s: Shape, ghost at: seq<nat>)
      returns (i: nat, ghost r: Shape, ghost news: set<SettingsNode>)
      requires Route(s, at) && Tidy(s) && Holds(s) && Sub(s, at).obj == this && Tidy(Sub(s, at))
      modifies this`values
      ensures r.obj == s.obj && r.obj in r.objs && Tidy(r) && Holds(r) && fresh(news) && r.objs <= s.objs + news
      ensures Route(r, at) && Sub(r, at).obj == this && Tidy(Sub(r, at))
      ensures Abs(Sub(r, at)) == Ensure(old(Abs(Sub(s, at))), k) && i == Find(Kids(Abs(Sub(r, at))), k)
      ensures Abs(r) == PlugTree(old(Abs(s)), at, Abs(Sub(r, at)))
    {
      SubHolds(s, at);
      FindNodeFinds(Sub(s, at), k);
      i := FindNode(values.GetOr([]), k);
      if i == |values.GetOr([])| {
        r, news := AppendAt([k], s, at);
      } else {
        r, news := s, {};
      }
    }

    /** Walk on to the first child `rest[0]`, adding it first if it is missing. */
    method EnterOrAdd(rest: Path, ghost vs: seq<string>, ghost s: Shape, ghost at: seq<nat>,
                      ghost others: set<SettingsNode>)
      returns (child: SettingsNode, ghost r: Shape, ghost below: seq<nat>)
      requires Route(s, at) && Tidy(s) && Holds(s) && Sub(s, at).obj == this && Tidy(Sub(s, at)) && rest != []
      modifies this`values
      ensures r.obj == s.obj && Tidy(r) && Holds(r) && r.objs * others <= s.objs
      ensures Route(r, below) && Sub(r, below).obj == child && Tidy(Sub(r, below)) && child in r.objs
      ensures PlugTree(Abs(r), below, SettingsTree.AddAt(Abs(Sub(r, below)), rest[1..], vs)) ==
              PlugTree(old(Abs(s)), at, SettingsTree.AddAt(old(Abs(Sub(s, at))), rest, vs))
    {
      var i;
      ghost var news;
      i, r, news := EnsureAt(rest[0], s, at);
      ghost var x := SettingsTree.AddAt(Child(Abs(Sub(r, at)), rest[0]), rest[1..], vs);
      PlugTwice(old(Abs(s)), at, Abs(Sub(r, at)), SetChild(Abs(Sub(r, at)), x));
      Down(r, at, x);
      child := values.value[i];
      below := at + [i];
      SubPart(r, below);
    }

    // -------- along a path from the root --------

    /** Follow a path from the root, creating missing nodes as last children. */
    method Walk(path: Path, ghost vs: seq<string>, ghost s0: Shape)
      returns (settings: SettingsNode, ghost s: Shape, ghost at: seq<nat>)
      requires Owns(s0)
      modifies s0.objs`values
      ensures Owns(s) && fresh(s.objs - s0.objs)
      ensures Route(s, at) && Sub(s, at).obj == settings && Tidy(Sub(s, at)) && settings in s.objs
      ensures PlugTree(Abs(s), at, AddValues(Abs(Sub(s, at)), vs)) == SettingsTree.AddAt(old(Abs(s0)), path, vs)
    {
      settings, s, at := this, s0, [];
      ghost var others := set o: SettingsNode {:trigger o.key} | allocated(o);
      var rest := path;
      while rest != []
        invariant Owns(s) && s.objs * others <= s0.objs
        invariant Route(s, at) && Sub(s, at).obj == settings && Tidy(Sub(s, at)) && settings in s.objs
        invariant PlugTree(Abs(s), at, SettingsTree.AddAt(Abs(Sub(s, at)), rest, vs)) ==
                  SettingsTree.AddAt(old(Abs(s0)), path, vs)
        decreases |rest|
      {
        settings, s, at := settings.EnterOrAdd(rest, vs, s, at, others);
        rest := rest[1..];
      }
    }

    /** `add(path, vs)`: find or create the nodes along the path, then append at its end. */
    method AddAt(path: Path, vs: seq<string>)
      requires Valid()
      modifies Repr()
      ensures Valid() && fresh(Repr() - old(Repr()))
      ensures Tree() == SettingsTree.AddAt(old(Tree()), path, vs)
    {
      hide Tidy, PartsHold, PartsAbs, Linked, PlugTree, SettingsTree.AddAt;
      var settings;
      ghost var s, at, news;
      settings, s, at := Walk(path, vs, shape);
      s, news := settings.AppendAt(vs, s, at);
      shape := s;
    }

    /** `contains(path)`. */
    method Contains(path: Path) returns (found: bool)
      requires Valid()
      ensures found == SettingsTree.Contains(Tree(), path)
    {
      var settings, rest := this, path;
      ghost var at: seq<nat> := [];
      while rest != []
        invariant Route(shape, at) && Sub(shape, at).obj == settings && Tidy(Sub(shape, at))
        invariant SettingsTree.Contains(Tree(), path) <==> SettingsTree.Contains(Abs(Sub(shape, at)), rest)
        decreases |rest|
      {
        SubHolds(shape, at);
        FindNodeFinds(Sub(shape, at), rest[0]);
        var i := FindNode(settings.values.GetOr([]), rest[0]);
        if i == |settings.values.GetOr([])| {
          return false;
        }
        Down(shape, at, Leaf(rest[0]));
        SubPart(shape, at + [i]);
        settings, rest, at := settings.values.value[i], rest[1..], at + [i];
      }
      found := true;
    }

    /** `at(path)` for a path that exists. */
    method At(path: Path, ghost x: Tree) returns (settings: SettingsNode, ghost at: seq<nat>)
      requires Valid() && SettingsTree.Contains(Tree(), path) && x.key == SettingsTree.At(Tree(), path).key
      ensures Route(shape, at) && Sub(shape, at).obj == settings && settings in Repr() && Tidy(Sub(shape, at))
      ensures Abs(Sub(shape, at)) == SettingsTree.At(Tree(), path)
      ensures PlugTree(Tree(), at, x) == PutAt(Tree(), path, x)
    {
      hide Tidy, Holds, PartsHold, PartsAbs, Linked, Find, Route, Sub, PlugTree, PutAt, SettingsTree.At,
        SettingsTree.Contains, Has;
      AtRoot(shape, Tree(), PutAt(Tree(), path, x));
      settings, at := this, [];
      var rest := path;
      while rest != []
        invariant Route(shape, at) && Sub(shape, at).obj == settings && settings in Repr() && Tidy(Sub(shape, at))
        invariant SettingsTree.Contains(Abs(Sub(shape, at)), rest)
        invariant SettingsTree.At(Tree(), path) == SettingsTree.At(Abs(Sub(shape, at)), rest)
        invariant PlugTree(Tree(), at, PutAt(Abs(Sub(shape, at)), rest, x)) == PutAt(Tree(), path, x)
        decreases |rest|
      {
        Enter(shape, at, rest, x);
        var i := FindNode(settings.values.GetOr([]), rest[0]);
        settings, rest, at := settings.values.value[i], rest[1..], at + [i];
      }
      PathEnds(Abs(Sub(shape, at)), x);
    }

    /** `get(path)`: the values of an existing node that has a child collection. */
    method Get(path: Path) returns (result: Option<seq<string>>)
      requires Valid()
      ensures result == SettingsTree.Get(Tree(), path)
    {
      hide Tidy, Holds, PartsHold, Linked, PartsAbs, Route, Sub, PlugTree, PutAt,
        SettingsTree.Contains, SettingsTree.At;
      var found := Contains(path);
      if !found {
        return None;
      }
      var settings;
      ghost var at;
      settings, at := At(path, SettingsTree.At(Tree(), path));
      assert Valid();
      SubHolds(shape, at);
      assert Abs(Sub(shape, at)) == SettingsTree.At(Tree(), path);
      result := settings.Values(Sub(shape, at));
      assert Tree() == old(Tree());
      assert result == SettingsTree.Values(SettingsTree.At(Tree(), path));
    }

    method Values(ghost p: Shape) returns (result: Option<seq<string>>)
      requires Owns(p)
      ensures result == SettingsTree.Values(Abs(p))
    {
      if values.None? {
        return None;
      }
      ghost var kids := Kids(Abs(p));
      assert |kids| == |values.value| && forall i :: 0 <= i < |kids| ==> kids[i].key == values.value[i].key;
      var keys := [];
      for i := 0 to |values.value|
        invariant keys == Keys(kids)[..i]
      {
        keys := keys + [values.value[i].key];
      }
      assert Keys(kids)[..|kids|] == Keys(kids);
      result := Some(keys);
    }

    /** `erase` of one child. */
    method EraseNode(i: nat, ghost p: Shape) returns (ghost q: Shape)
      requires Owns(p) && values.Some? && i < |values.value|
      modifies this`values
      ensures Owns(q) && q.objs == p.objs && i < |Kids(old(Abs(p)))|
      ensures Abs(q) == Node(key, RemoveAt(Kids(old(Abs(p))), i))
    {
      hide Tidy;
      ghost var kids := PartsAbs(p, |p.parts|);
      assert PartsHold(p) && Linked(p) && Kids(Abs(p)) == kids;
      q := Shape(this, RemoveAt(p.parts, i), p.objs);
      values := Some(RemoveAt(values.value, i));
      assert PartsHold(p) && PartsAbs(p, |p.parts|) == kids && Linked(q);
      Erased(p, i, q);
    }

    method EraseAt(i: nat, ghost s: Shape, ghost at: seq<nat>) returns (ghost r: Shape)
      requires Route(s, at) && Tidy(s) && Holds(s) && Sub(s, at).obj == this && Tidy(Sub(s, at))
      requires values.Some? && i < |values.value| == |Kids(Abs(Sub(s, at)))|
      modifies this`values
      ensures r.obj == s.obj && r.obj in r.objs && Tidy(r) && Holds(r) && r.objs <= s.objs
      ensures Abs(r) == PlugTree(old(Abs(s)), at, Node(key, RemoveAt(Kids(old(Abs(Sub(s, at)))), i)))
    {
      hide Tidy, PartsHold, PartsAbs, PlugTree;
      SubPart(s, at);
      SubHolds(s, at);
      Split(s, at, Node(key, RemoveAt(Kids(Abs(Sub(s, at))), i)));
      ghost var q := EraseNode(i, Sub(s, at));
      r := Refit(s, at, q);
    }

    /** `clear(path)`. */
    method Clear(path: Path) returns (ok: bool)
      requires Valid()
      modifies Repr()
      ensures Valid() && Repr() <= old(Repr()) && Tree() == ClearAt(old(Tree()), path)
      ensures ok <==> path != []
    {
      hide Tidy, Holds, PartsHold, Linked, PartsAbs, Route, Sub, ClearAt, PutAt, PlugTree, Find, RemoveAt,
        SettingsTree.At, SettingsTree.Contains;
      ClearMissing(Tree(), path);
      if path == [] {
        return false;
      }
      var found := Contains(path);
      if !found {
        return true;
      }
      ClearIsPut(Tree(), path);
      ghost var parent := SettingsTree.At(Tree(), path[..|path| - 1]);
      var last := path[|path| - 1];
      var settings;
      ghost var at;
      settings, at := At(path[..|path| - 1], Node(parent.key, RemoveAt(Kids(parent), Find(Kids(parent), last))));
      SubHolds(shape, at);
      FindNodeFinds(Sub(shape, at), last);
      var i := FindNode(settings.values.GetOr([]), last);
      ghost var s := settings.EraseAt(i, shape, at);
      shape := s;
      ok := true;
    }

    /** `replace(path, vs)`. */
    method Replace(path: Path, vs: seq<string>)
      requires Valid()
      modifies Repr()
      ensures Valid() && fresh(Repr() - old(Repr()))
      ensures Tree() == SettingsTree.Replace(old(Tree()), path, vs)
    {
      var found := Contains(path);
      if found {
        var _ := Clear(path);
      }
      AddAt(path, vs);
    }

    // -------- copying --------

    /** `deepCopy(source)` into this node: copies of the children of `source`, if it has a collection. */
    method DeepCopy(source: Tree, ghost p: Shape) returns (ghost q: Shape, ghost news: set<SettingsNode>)
      requires Owns(p)
      modifies this`values
      ensures Owns(q) && fresh(news) && q.objs <= p.objs + news
      ensures Abs(q) == SettingsTree.DeepCopy(old(Abs(p)), source)
      decreases source, 0
    {
      hide Tidy, Holds, PartsHold, PartsAbs;
      q, news := p, {};
      if source.Leaf? {
        return;
      }
      values := Some([]);
      q := Shape(this, [], {this});
      Childless(q);
      for n := 0 to |source.kids|
        invariant Owns(q) && fresh(news) && q.objs <= {this} + news
        invariant Abs(q) == Node(key, source.kids[..n])
      {
        ghost var added;
        q, added := AppendCopy(source.kids[n], q);
        news := news + added;
        assert source.kids[..n + 1] == source.kids[..n] + [source.kids[n]];
      }
      assert source.kids[..|source.kids|] == source.kids;
    }

    /** `push_back` of a copy-constructed child. */
    method AppendCopy(c: Tree, ghost p: Shape) returns (ghost q: Shape, ghost news: set<SettingsNode>)
      requires Owns(p)
      modifies this`values
      ensures Owns(q) && fresh(news) && q.objs <= p.objs + news
      ensures Abs(q) == Node(key, Kids(old(Abs(p))) + [c])
      decreases c, 1
    {
      hide Tidy, Holds, PartsHold, PartsAbs;
      ghost var x, added;
      var copy := new SettingsNode(c.key);
      x, added := copy.DeepCopy(c, copy.shape);
      assert Owns(p) && Abs(p) == old(Abs(p));
      news := x.objs;
      q := AppendNode(copy, x, p);
    }

    /** `deepCopy(source)` into this node, the part of `s` at `at`. */
    method CopyAt(source: Tree, ghost s: Shape, ghost at: seq<nat>)
      returns (ghost r: Shape, ghost news: set<SettingsNode>)
      requires Route(s, at) && Tidy(s) && Holds(s) && Sub(s, at).obj == this && Tidy(Sub(s, at))
      modifies this`values
      ensures r.obj == s.obj && r.obj in r.objs && Tidy(r) && Holds(r) && fresh(news) && r.objs <= s.objs + news
      ensures Abs(r) == PlugTree(old(Abs(s)), at, SettingsTree.DeepCopy(old(Abs(Sub(s, at))), source))
    {
      hide Tidy, PartsHold, PartsAbs, PlugTree;
      ghost var t := SettingsTree.DeepCopy(Abs(Sub(s, at)), source);
      SubPart(s, at);
      SubHolds(s, at);
      Split(s, at, t);
      ghost var p;
      p, news := DeepCopy(source, Sub(s, at));
      r := Refit(s, at, p);
    }

    /** `node[c.key] = c`: find or create the child, then copy-assign to it. */
    method Assign(c: Tree)
      requires Valid()
      modifies Repr()
      ensures Valid() && fresh(Repr() - old(Repr()))
      ensures Tree() == SettingsTree.Assign(old(Tree()), c)
    {
      hide Tidy, Holds, PartsHold, Linked, PartsAbs, Ensure, SetChild, Find, Route, Sub, PlugTree, Abs;
      var i;
      ghost var s, news, added;
      AtRoot(shape, Tree(), Ensure(Tree(), c.key));
      i, s, news := EnsureAt(c.key, shape, []);
      ghost var x := SettingsTree.DeepCopy(Child(Abs(s), c.key), c);
      AtRoot(s, Abs(s), SetChild(Abs(s), x));
      assert [] + [i] == [i];
      Down(s, [], x);
      SubPart(s, [i]);
      var child := values.value[i];
      s, added := child.CopyAt(c, s, [i]);
      news := news + added;
      shape := s;
    }

    /** `overwrite(source)`. */
    method Overwrite(source: Tree)
      requires Valid()
      modifies Repr()
      ensures Valid() && fresh(Repr() - old(Repr()))
      ensures Tree() == SettingsTree.Overwrite(old(Tree()), source)
    {
      hide Tidy, Holds, PartsHold, Linked, PartsAbs, Abs, SettingsTree.Assign, Find, Has, Child, OverwriteUpTo;
      ghost var start := Tree();
      var children := SettingsTree.Values(source).GetOr([]);
      OverwriteNone(start, source);
      for n := 0 to |children|
        invariant Valid() && fresh(Repr() - old(Repr()))
        invariant Tree() == OverwriteUpTo(start, source, n)
      {
        OverwriteOneMore(start, source, n);
        Assign(Child(source, children[n]));
      }
    }
  }
}

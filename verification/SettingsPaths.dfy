/** Reading and writing one node of a settings tree by its path. */
module SettingsPaths {
  import opened SettingsTree

  lemma {:induction false} PutThenAt(t: Tree, p: Path, x: Tree)
    requires Contains(t, p) && x.key == At(t, p).key
    ensures Contains(PutAt(t, p, x), p) && At(PutAt(t, p, x), p) == x
    decreases |p|
  {
    if p != [] {
      PutThenAt(Child(t, p[0]), p[1..], x);
    }
  }

  lemma {:induction false} PutTwice(t: Tree, p: Path, x: Tree, y: Tree)
    requires Contains(t, p) && x.key == y.key == At(t, p).key
    ensures Contains(PutAt(t, p, x), p) && At(PutAt(t, p, x), p) == x
    ensures PutAt(PutAt(t, p, x), p, y) == PutAt(t, p, y)
    decreases |p|
  {
    PutThenAt(t, p, x);
    if p != [] {
      var c := PutAt(Child(t, p[0]), p[1..], x);
      PutTwice(Child(t, p[0]), p[1..], x, y);
      SetChildTwice(t, c, PutAt(c, p[1..], y));
    }
  }

  lemma SetChildTwice(t: Tree, c: Tree, d: Tree)
    requires Has(t, c.key) && c.key == d.key
    ensures SetChild(SetChild(t, c), d) == SetChild(t, d)
  {
    SetChildFinds(t, c, SetChild(t, c));
    var i := Find(Kids(t), c.key);
    assert Kids(t)[i := c][i := d] == Kids(t)[i := d];
  }

  lemma SetSameChild(t: Tree, k: string)
    requires Has(t, k)
    ensures SetChild(t, Child(t, k)) == t
  {
    assert Kids(t)[Find(Kids(t), k) := Child(t, k)] == Kids(t);
  }

  lemma {:induction false} PutSame(t: Tree, p: Path)
    requires Contains(t, p)
    ensures PutAt(t, p, At(t, p)) == t
    decreases |p|
  {
    if p != [] {
      PutSame(Child(t, p[0]), p[1..]);
      SetSameChild(t, p[0]);
    }
  }

  lemma {:induction false} Below(t: Tree, p: Path, k: string)
    requires Contains(t, p)
    ensures Contains(t, p + [k]) <==> Has(At(t, p), k)
    ensures Contains(t, p + [k]) ==> At(t, p + [k]) == Child(At(t, p), k)
    decreases |p|
  {
    if p == [] {
      assert [] + [k] == [k] && [k][1..] == [];
      assert Has(t, k) ==> Contains(t, [k]) && At(t, [k]) == Child(t, k);
    } else {
      Below(Child(t, p[0]), p[1..], k);
      assert (p + [k])[1..] == p[1..] + [k];
    }
  }

  lemma {:induction false} PutBelow(t: Tree, p: Path, x: Tree)
    requires Contains(t, p) && Has(At(t, p), x.key)
    ensures Contains(t, p + [x.key]) && At(t, p + [x.key]).key == x.key
    ensures PutAt(t, p + [x.key], x) == PutAt(t, p, SetChild(At(t, p), x))
    decreases |p|
  {
    Below(t, p, x.key);
    if p == [] {
      assert [] + [x.key] == [x.key] && [x.key][1..] == [];
    } else {
      PutBelow(Child(t, p[0]), p[1..], x);
      assert (p + [x.key])[1..] == p[1..] + [x.key];
    }
  }

  lemma {:induction false} AddIsPut(t: Tree, p: Path, vs: seq<string>)
    requires Contains(t, p)
    ensures AddAt(t, p, vs) == PutAt(t, p, AddValues(At(t, p), vs))
    decreases |p|
  {
    if p != [] {
      AddIsPut(Child(t, p[0]), p[1..], vs);
    }
  }
}

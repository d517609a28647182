/**
  The variables a plugin gets: its defaults, overlaid with the settings of the command and then
  with those of the command for the command that led to it.
 */
module Variables {
  import opened Options
  import opened SettingsTree
  import opened SettingsLaws
  import opened SettingsNodes

  /** `index` reads the values of an existing node without asking whether it has any. */
  predicate Indexable(settings: Tree, path: Path) {
    Contains(settings, path) ==> Get(settings, path).Some?
  }

  /** Overlay `variables` with the settings at `path`. */
  function Index(variables: Tree, settings: Tree, path: Path): Tree
    requires path != [] && Indexable(settings, path)
  {
    if !Contains(settings, path) then variables else
      var last := path[|path| - 1];
      Overwrite(Replace(variables, [last], Get(settings, path).value), At(settings, path))
  }

  predicate IndexableFor(settings: Tree, command: string, initial: string) {
    Indexable(settings, [command]) && Indexable(settings, [command, initial])
  }

  function VariablesFor(defaults: Tree, settings: Tree, command: string, initial: string): Tree
    requires IndexableFor(settings, command, initial)
  {
    Index(Index(defaults, settings, [command]), settings, [command, initial])
  }

  method IndexNode(variables: SettingsNode, settings: Tree, path: Path)
    requires variables.Valid() && path != [] && Indexable(settings, path)
    modifies variables.Repr()
    ensures variables.Valid() && fresh(variables.Repr() - old(variables.Repr()))
    ensures variables.Tree() == Index(old(variables.Tree()), settings, path)
  {
    hide Tidy, Holds, Abs, Replace, Assign, Find, Contains, At;
    if !Contains(settings, path) {
      return;
    }
    var values := Get(settings, path).value;
    variables.Replace([path[|path| - 1]], values);
    var depth := At(settings, path);
    ghost var start := variables.Tree();
    for n := 0 to |values|
      invariant variables.Valid() && fresh(variables.Repr() - old(variables.Repr()))
      invariant variables.Tree() == OverwriteUpTo(start, depth, n)
    {
      assert values[n] == Kids(depth)[n].key;
      variables.Assign(Child(depth, values[n]));
    }
  }

  // -------- which setting wins --------

  /** The setting `k` at `path`, if it has a child collection. */
  function Configured(settings: Tree, path: Path, k: string): Option<Tree> {
    if Contains(settings, path) && Has(At(settings, path), k) && Child(At(settings, path), k).Node?
    then Some(Child(At(settings, path), k)) else None
  }

  lemma ReplaceElsewhere(t: Tree, last: string, vs: seq<string>, k: string)
    requires k != last
    ensures ChildOrLeaf(Replace(t, [last], vs), k) == ChildOrLeaf(t, k)
  {
    if Contains(t, [last]) {
      ClearDescends(t, [last], [k]);
    }
    AddDescends(ClearAt(t, [last]), [last], vs, [k]);
  }

  lemma IndexLayer(variables: Tree, settings: Tree, path: Path, k: string)
    requires path != [] && Indexable(settings, path) && k != path[|path| - 1]
    ensures ChildOrLeaf(Index(variables, settings, path), k) ==
            Configured(settings, path, k).GetOr(ChildOrLeaf(variables, k))
  {
    if Contains(settings, path) {
      var replaced := Replace(variables, [path[|path| - 1]], Get(settings, path).value);
      ReplaceElsewhere(variables, path[|path| - 1], Get(settings, path).value, k);
      OverwriteLaw(replaced, At(settings, path), k);
    }
  }

  /**
    For every setting but the two indexed keys themselves: the value for this command and initial
    command if it has a child collection, else the value for the command if that has one, else the
    default of the plugin.
   */
  lemma Layering(defaults: Tree, settings: Tree, command: string, initial: string, k: string)
    requires IndexableFor(settings, command, initial) && k != command && k != initial
    ensures ChildOrLeaf(VariablesFor(defaults, settings, command, initial), k) ==
            Configured(settings, [command, initial], k).GetOr(
              Configured(settings, [command], k).GetOr(ChildOrLeaf(defaults, k)))
  {
    IndexLayer(defaults, settings, [command], k);
    IndexLayer(Index(defaults, settings, [command]), settings, [command, initial], k);
  }

  /** What a plugin reads below such a setting. */
  lemma LayeredGet(defaults: Tree, settings: Tree, command: string, initial: string, k: string, q: Path)
    requires IndexableFor(settings, command, initial) && k != command && k != initial
    ensures Get(VariablesFor(defaults, settings, command, initial), [k] + q) ==
            Get(Configured(settings, [command, initial], k).GetOr(
                  Configured(settings, [command], k).GetOr(ChildOrLeaf(defaults, k))), q)
  {
    Layering(defaults, settings, command, initial, k);
    GetBelow(VariablesFor(defaults, settings, command, initial), [k] + q);
    assert ([k] + q)[1..] == q;
  }

  // -------- the indexed keys themselves --------

  /**
    What a layer shows at its own last key: the values of a setting of that name in it, or else those
    of the layer itself, after what shadows them in `below`.
   */
  function OwnValues(below: Tree, settings: Tree, path: Path): Option<seq<string>>
    requires path != []
  {
    var last := path[|path| - 1];
    if !Contains(settings, path) then Get(below, [last])
    else match Configured(settings, path, last)
      case Some(own) => Values(own)
      case None => Some(Shadowed(below, [last]) + ValuesOr(Get(settings, path)))
  }

  lemma GetChild(t: Tree, k: string)
    ensures Get(t, [k]) == Values(ChildOrLeaf(t, k))
  {
    GetBelow(t, [k]);
    assert [k][1..] == [];
  }

  lemma OwnLayer(variables: Tree, settings: Tree, path: Path)
    requires path != [] && Indexable(settings, path)
    ensures Get(Index(variables, settings, path), [path[|path| - 1]]) == OwnValues(variables, settings, path)
  {
    hide Replace, Overwrite, Shadowed;
    var last := path[|path| - 1];
    if Contains(settings, path) {
      var replaced := Replace(variables, [last], Get(settings, path).value);
      OverwriteLaw(replaced, At(settings, path), last);
      GetChild(Index(variables, settings, path), last);
      GetChild(replaced, last);
      ReplaceThenGet(variables, [last], Get(settings, path).value);
    }
  }

  /** For the two indexed keys: ... */
  lemma OwnKeys(defaults: Tree, settings: Tree, command: string, initial: string)
    requires IndexableFor(settings, command, initial)
    ensures var vars := VariablesFor(defaults, settings, command, initial);
            && Get(vars, [initial]) == OwnValues(Index(defaults, settings, [command]), settings, [command, initial])
            && (command != initial ==>
                  Get(vars, [command]) ==
                  match Configured(settings, [command, initial], command)
                  case Some(own) => Values(own)
                  case None => OwnValues(defaults, settings, [command]))
  {
    hide Index, OwnValues;
    var first := Index(defaults, settings, [command]);
    OwnLayer(defaults, settings, [command]);
    OwnLayer(first, settings, [command, initial]);
    if command != initial {
      IndexLayer(first, settings, [command, initial], command);
      GetChild(VariablesFor(defaults, settings, command, initial), command);
      GetChild(first, command);
    }
  }

  // -------- every setting, when no two defaults have the same key --------

  predicate DistinctKids(t: Tree) {
    NoDuplicates(Keys(Kids(t)))
  }

  lemma NoneShadowed(t: Tree, k: string)
    requires DistinctKids(t)
    ensures Shadowed(t, [k]) == []
  {
    hide Find, NoDuplicates;
    if Contains(t, [k]) {
      RemovedUnique(Kids(t), k);
      FindRemoved(Kids(t), k);
    }
  }

  lemma DistinctEnsured(t: Tree, k: string)
    requires DistinctKids(t)
    ensures DistinctKids(Ensure(t, k))
  {
    EnsureKeys(t, k);
    if !Has(t, k) {
      assert forall i :: 0 <= i < |Kids(t)| ==> Keys(Kids(t))[i] == Kids(t)[i].key != k;
    }
  }

  lemma DistinctReplaced(t: Tree, k: string, vs: seq<string>)
    requires DistinctKids(t)
    ensures DistinctKids(Replace(t, [k], vs))
  {
    hide Find, NoDuplicates;
    var cleared := ClearAt(t, [k]);
    if Contains(t, [k]) { RemovedUnique(Kids(t), k); }
    AddAtRoot(cleared, [k], vs);
    EnsureKeys(cleared, k);
    DistinctEnsured(cleared, k);
  }

  lemma {:induction false} DistinctOverwritten(t: Tree, source: Tree, n: nat)
    requires n <= |Kids(source)| && DistinctKids(t)
    ensures DistinctKids(OverwriteUpTo(t, source, n))
  {
    hide Find, DistinctKids, Assign, Has, Child, Kids;
    if n > 0 {
      var k := Kids(source)[n - 1].key;
      FirstIndex(source, n - 1, k);
      DistinctOverwritten(t, source, n - 1);
      DistinctAssigned(OverwriteUpTo(t, source, n - 1), Child(source, k));
    }
  }

  lemma DistinctAssigned(t: Tree, c: Tree)
    requires DistinctKids(t)
    ensures DistinctKids(Assign(t, c))
  {
    hide Find, NoDuplicates;
    DistinctEnsured(t, c.key);
    var e := Ensure(t, c.key);
    SetChildKeeps(e, DeepCopy(Child(e, c.key), c), c.key);
  }

  lemma DistinctIndexed(variables: Tree, settings: Tree, path: Path)
    requires path != [] && Indexable(settings, path) && DistinctKids(variables)
    ensures DistinctKids(Index(variables, settings, path))
  {
    hide DistinctKids, Replace, OverwriteUpTo;
    if Contains(settings, path) {
      var last, vs := path[|path| - 1], Get(settings, path).value;
      DistinctReplaced(variables, last, vs);
      DistinctOverwritten(Replace(variables, [last], vs), At(settings, path), |Kids(At(settings, path))|);
    }
  }

  /** What the settings at `path` say about `k`: a setting of that name, or the list itself if that is its name. */
  function Says(settings: Tree, path: Path, k: string): Option<seq<string>> {
    if !Contains(settings, path) then None
    else match Configured(settings, path, k)
      case Some(own) => Values(own)
      case None => if path != [] && k == path[|path| - 1] then Get(settings, path) else None
  }

  function Or<T>(first: Option<T>, second: Option<T>): Option<T> {
    if first.Some? then first else second
  }

  lemma LayerSays(variables: Tree, settings: Tree, path: Path, k: string)
    requires path != [] && Indexable(settings, path) && DistinctKids(variables)
    ensures Get(Index(variables, settings, path), [k]) == Or(Says(settings, path, k), Get(variables, [k]))
  {
    hide Index, DistinctKids, Shadowed, Contains, Has, Child, At;
    if k == path[|path| - 1] {
      OwnLayer(variables, settings, path);
      NoneShadowed(variables, k);
      assert [] + ValuesOr(Get(settings, path)) == ValuesOr(Get(settings, path));
    } else {
      IndexLayer(variables, settings, path, k);
      GetChild(Index(variables, settings, path), k);
      GetChild(variables, k);
    }
  }

  /**
    For every setting, the indexed keys included: what the settings say for this command and initial
    command, else what they say for the command, else the default.
   */
  lemma EverySetting(defaults: Tree, settings: Tree, command: string, initial: string, k: string)
    requires IndexableFor(settings, command, initial) && DistinctKids(defaults)
    ensures Get(VariablesFor(defaults, settings, command, initial), [k]) ==
            Or(Says(settings, [command, initial], k), Or(Says(settings, [command], k), Get(defaults, [k])))
  {
    hide Index, DistinctKids, Says, Or;
    DistinctIndexed(defaults, settings, [command]);
    LayerSays(defaults, settings, [command], k);
    LayerSays(Index(defaults, settings, [command]), settings, [command, initial], k);
  }

  /** A default that has values can be overridden, but not made to have none. */
  lemma DefaultStays(defaults: Tree, settings: Tree, command: string, initial: string, k: string)
    requires IndexableFor(settings, command, initial) && k != command && k != initial
    requires Has(defaults, k) && Child(defaults, k).Node?
    ensures Get(VariablesFor(defaults, settings, command, initial), [k]).Some?
  {
    hide VariablesFor, Contains, Has, Child, At;
    LayeredGet(defaults, settings, command, initial, k, []);
    assert [k] + [] == [k];
    NodeHasValues(Configured(settings, [command, initial], k).GetOr(
                    Configured(settings, [command], k).GetOr(ChildOrLeaf(defaults, k))));
  }

  lemma NodeHasValues(t: Tree)
    ensures Get(t, []) == Values(t)
  {
  }
}

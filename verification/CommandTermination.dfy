/**
  Which runs can be ranked, without an assumed set of calls: exactly those where no call that is
  reached leads back to itself.  Without Lua plugins the names that calls are made of come from the
  settings, the defaults of the plugins and the run itself, so there are finitely many calls.
 */
module CommandTermination {
  import opened SettingsTree
  import opened Variables
  import opened Plugins
  import opened AcyclicGraphs
  import opened CommandGraphs

  // -------- the names of a tree --------

  /** All keys of the tree are among `names`. */
  predicate Within(t: Tree, names: set<string>) {
    t.key in names && forall i :: 0 <= i < |Kids(t)| ==> Within(Kids(t)[i], names)
  }

  function Names(t: Tree): set<string>
    decreases t, 0
  {
    {t.key} + match t case Leaf(_) => {} case Node(_, kids) => AllNames(kids)
  }

  function AllNames(kids: seq<Tree>): set<string>
    decreases kids, 1
  {
    if kids == [] then {} else
      assert kids decreases to kids[0];
      Names(kids[0]) + AllNames(kids[1..])
  }

  lemma {:induction false} AllNamesHas(kids: seq<Tree>, i: nat)
    requires i < |kids|
    ensures Names(kids[i]) <= AllNames(kids)
  {
    if i > 0 { AllNamesHas(kids[1..], i - 1); }
  }

  lemma {:induction false} WithinNames(t: Tree, names: set<string>)
    requires Names(t) <= names
    ensures Within(t, names)
    decreases t
  {
    forall i | 0 <= i < |Kids(t)| ensures Within(Kids(t)[i], names) {
      AllNamesHas(Kids(t), i);
      WithinNames(Kids(t)[i], names);
    }
  }

  lemma {:induction false} WithinAt(t: Tree, path: Path, names: set<string>)
    requires Within(t, names) && Contains(t, path)
    ensures Within(At(t, path), names)
    ensures path != [] ==> path[|path| - 1] in names
    decreases |path|
  {
    if path != [] {
      WithinAt(Child(t, path[0]), path[1..], names);
      assert |path| == 1 ==> path[0] == Child(t, path[0]).key;
    }
  }

  lemma WithinGet(t: Tree, path: Path, names: set<string>)
    requires Within(t, names)
    ensures forall v :: v in Get(t, path).GetOr([]) ==> v in names
  {
    if Contains(t, path) {
      WithinAt(t, path, names);
      var kids := Kids(At(t, path));
      forall v | v in Keys(kids) ensures v in names {
        var i :| 0 <= i < |kids| && Keys(kids)[i] == v;
        assert Within(kids[i], names);
      }
      assert Keys([]) == [];
    }
  }

  lemma WithinSet(t: Tree, c: Tree, names: set<string>)
    requires Within(t, names) && Within(c, names) && Has(t, c.key)
    ensures Within(SetChild(t, c), names)
  {
  }

  lemma WithinAdded(t: Tree, vs: seq<string>, names: set<string>)
    requires Within(t, names) && forall v :: v in vs ==> v in names
    ensures Within(AddValues(t, vs), names)
  {
    var r := AddValues(t, vs);
    forall i | 0 <= i < |Kids(r)| ensures Within(Kids(r)[i], names) {
      assert Kids(r)[i] == if i < |Kids(t)| then Kids(t)[i] else Leaf(vs[i - |Kids(t)|]);
    }
  }

  lemma WithinEnsured(t: Tree, k: string, names: set<string>)
    requires Within(t, names) && k in names
    ensures Within(Ensure(t, k), names)
  {
    WithinAdded(t, [k], names);
  }

  lemma WithinReplaced(t: Tree, k: string, vs: seq<string>, names: set<string>)
    requires Within(t, names) && k in names && forall v :: v in vs ==> v in names
    ensures Within(Replace(t, [k], vs), names)
  {
    var cleared := ClearAt(t, [k]);
    WithinCleared(t, k, names);
    var e := Ensure(cleared, k);
    WithinEnsured(cleared, k, names);
    assert [k][1..] == [];
    var c := AddAt(Child(e, k), [], vs);
    WithinAdded(Child(e, k), vs, names);
    WithinSet(e, c, names);
  }

  lemma WithinCleared(t: Tree, k: string, names: set<string>)
    requires Within(t, names)
    ensures Within(ClearAt(t, [k]), names)
  {
    if Contains(t, [k]) {
      var i := Find(Kids(t), k);
      var r := RemoveAt(Kids(t), i);
      forall j | 0 <= j < |r| ensures Within(r[j], names) {
        assert r[j] == Kids(t)[if j < i then j else j + 1];
      }
    }
  }

  lemma WithinAssigned(t: Tree, c: Tree, names: set<string>)
    requires Within(t, names) && Within(c, names)
    ensures Within(Assign(t, c), names)
  {
    var e := Ensure(t, c.key);
    WithinEnsured(t, c.key, names);
    WithinSet(e, DeepCopy(Child(e, c.key), c), names);
  }

  lemma {:induction false} WithinOverwritten(t: Tree, source: Tree, n: nat, names: set<string>)
    requires n <= |Kids(source)| && Within(t, names) && Within(source, names)
    ensures Within(OverwriteUpTo(t, source, n), names)
  {
    hide Within, Find, Assign;
    if n > 0 {
      WithinOverwritten(t, source, n - 1, names);
      WithinKid(source, n - 1, names);
      WithinAssigned(OverwriteUpTo(t, source, n - 1), Child(source, Kids(source)[n - 1].key), names);
    }
  }

  lemma WithinKid(t: Tree, i: nat, names: set<string>)
    requires Within(t, names) && i < |Kids(t)|
    ensures Has(t, Kids(t)[i].key) && Within(Child(t, Kids(t)[i].key), names)
  {
  }

  lemma WithinIndexed(variables: Tree, settings: Tree, path: Path, names: set<string>)
    requires path != [] && Indexable(settings, path) && Within(variables, names) && Within(settings, names)
    ensures Within(Index(variables, settings, path), names)
  {
    hide Within, Replace, OverwriteUpTo, Contains, At, Get;
    if Contains(settings, path) {
      var last := path[|path| - 1];
      WithinAt(settings, path, names);
      WithinGet(settings, path, names);
      var replaced := Replace(variables, [last], Get(settings, path).value);
      WithinReplaced(variables, last, Get(settings, path).value, names);
      WithinOverwritten(replaced, At(settings, path), |Kids(At(settings, path))|, names);
    }
  }

  // -------- finitely many calls --------

  predicate WithoutLua(w: World) {
    && (forall n :: n in w.plugins ==> !w.plugins[n].Lua?)
    && (forall n :: n in w.builtin ==> !w.builtin[n].Lua?)
  }

  /** The names that calls can be made of. */
  ghost function Vocabulary(w: World, commands: seq<string>): set<string> {
    (set c | c in commands) + Names(w.settings)
    + (set n, k | n in w.plugins && k in Names(Defaults(UsePlugin(w.plugins[n]), w.fleeting)) :: k)
    + (set n, k | n in w.builtin && k in Names(Defaults(UsePlugin(w.builtin[n]), w.fleeting)) :: k)
  }

  ghost function Universe(names: set<string>): set<Call> {
    set c, i | c in names && i in names :: (c, i)
  }

  ghost predicate Closed(w: World, calls: set<Call>) {
    forall p, q :: p in calls && Runs(w, p, q) ==> q in calls
  }

  lemma DefaultsWithin(w: World, commands: seq<string>, command: string)
    requires NextStep(w, command).Some? && NextStep(w, command).value.UsePlugin?
    ensures Within(Defaults(NextStep(w, command).value, w.fleeting), Vocabulary(w, commands))
  {
    hide Defaults, Names, Within;
    var defaults := Defaults(NextStep(w, command).value, w.fleeting);
    forall k | k in Names(defaults) ensures k in Vocabulary(w, commands) {
      if command in w.plugins {
        assert k in Names(Defaults(UsePlugin(w.plugins[command]), w.fleeting));
      } else {
        assert k in Names(Defaults(UsePlugin(w.builtin[command]), w.fleeting));
      }
    }
    WithinNames(defaults, Vocabulary(w, commands));
  }

  lemma UniverseClosed(w: World, commands: seq<string>)
    requires WithoutLua(w)
    ensures Closed(w, Universe(Vocabulary(w, commands)))
  {
    var names := Vocabulary(w, commands);
    forall p, q | p in Universe(names) && Runs(w, p, q) ensures q in Universe(names) {
      RunsWithin(w, commands, p, q);
    }
  }

  lemma RunsWithin(w: World, commands: seq<string>, p: Call, q: Call)
    requires WithoutLua(w) && p.0 in Vocabulary(w, commands) && Runs(w, p, q)
    ensures q.0 in Vocabulary(w, commands) && q.1 in Vocabulary(w, commands)
  {
    hide Vocabulary, Within, Defaults, Get, VariablesFor;
    var names := Vocabulary(w, commands);
    SettingsWithin(w, commands);
    match NextStep(w, p.0)
    case Some(UseCommands(_)) => WithinGet(w.settings, [p.0], names);
    case Some(UsePlugin(plugin)) =>
      var vars := NextVariables(w, UsePlugin(plugin), p.0, p.1);
      VariablesWithin(w, commands, p.0, p.1);
      WithinGet(vars, [RUN_COMMAND], names);
      WithinGet(vars, [COMMANDS], names);
  }

  lemma SettingsWithin(w: World, commands: seq<string>)
    ensures Within(w.settings, Vocabulary(w, commands))
  {
    WithinNames(w.settings, Vocabulary(w, commands));
  }

  lemma VariablesWithin(w: World, commands: seq<string>, command: string, initial: string)
    requires NextStep(w, command).Some? && NextStep(w, command).value.UsePlugin?
    requires IndexableFor(w.settings, command, initial)
    ensures Within(NextVariables(w, NextStep(w, command).value, command, initial), Vocabulary(w, commands))
  {
    hide Vocabulary, Within, Defaults, Index, NextStep;
    var names := Vocabulary(w, commands);
    var defaults := Defaults(NextStep(w, command).value, w.fleeting);
    SettingsWithin(w, commands);
    DefaultsWithin(w, commands, command);
    WithinIndexed(defaults, w.settings, [command], names);
    WithinIndexed(Index(defaults, w.settings, [command]), w.settings, [command, initial], names);
  }

  // -------- reachable calls --------

  /** Executing `commands` leads to `q`. */
  ghost predicate Reached(w: World, commands: seq<string>, q: Call) {
    exists path: seq<Call> :: StartsWith(path, commands) && IsPath(path, Edges(w)) && path[|path| - 1] == q
  }

  predicate StartsWith(path: seq<Call>, commands: seq<string>) {
    path != [] && path[0].0 in commands && path[0].1 == path[0].0
  }

  /** A call leads back to itself. */
  ghost predicate Circular(w: World, q: Call) {
    exists path: seq<Call> :: |path| > 1 && IsPath(path, Edges(w)) && path[0] == q == path[|path| - 1]
  }

  lemma {:induction false} StaysInside(w: World, calls: set<Call>, path: seq<Call>)
    requires Closed(w, calls) && path != [] && path[0] in calls && IsPath(path, Edges(w))
    ensures path[|path| - 1] in calls
  {
    hide Runs;
    if |path| > 1 {
      var front := path[..|path| - 1];
      StaysInside(w, calls, front);
      assert Edges(w)(path[|path| - 2], path[|path| - 1]);
    }
  }

  lemma OneFurther(w: World, commands: seq<string>, p: Call, q: Call)
    requires Reached(w, commands, p) && Runs(w, p, q)
    ensures Reached(w, commands, q)
  {
    hide Runs;
    var path: seq<Call> :| StartsWith(path, commands) && IsPath(path, Edges(w)) && path[|path| - 1] == p;
    var longer := path + [q];
    assert Edges(w)(p, q);
    assert IsPath(longer, Edges(w));
    assert StartsWith(longer, commands) && longer[|longer| - 1] == q;
  }

  /** A ranking shows, for every call that is reached, that it is defined and on no circle. */
  lemma RankedIsAcyclic(w: World, commands: seq<string>, rank: Ranks, bound: nat, q: Call)
    requires Certified(w, rank) && Below(rank, commands, commands, bound) && Reached(w, commands, q)
    ensures q in rank && Defined(w, q) && !Circular(w, q)
  {
    hide Runs, Defined, CommandReady;
    RankedDecreases(w, rank);
    var path: seq<Call> :| StartsWith(path, commands) && IsPath(path, Edges(w)) && path[|path| - 1] == q;
    assert path[0] in rank by {
      var i :| 0 <= i < |commands| && commands[i] == path[0].0;
      assert path[0] == (commands[i], commands[i]);
    }
    PathDecreases(rank, Edges(w), path);
    ReadyIff(w, rank, q, rank[q]);
    assert CommandReady(w, rank, q.0, q.1, rank[q]);
    if circle: seq<Call> :| |circle| > 1 && IsPath(circle, Edges(w)) && circle[0] == q == circle[|circle| - 1] {
      PathDecreases(rank, Edges(w), circle);
      assert false;
    }
  }

  lemma RankedDecreases(w: World, rank: Ranks)
    requires Certified(w, rank)
    ensures Decreasing(rank, Edges(w))
  {
    hide Runs, Defined, CommandReady;
    forall p | p in rank ensures Lower(rank, p, rank[p], Edges(w)) {
      assert CommandReady(w, rank, p.0, p.1, rank[p]);
      ReadyIff(w, rank, p, rank[p]);
    }
  }

  lemma {:induction false} BoundExists(rank: Ranks, commands: seq<string>) returns (bound: nat)
    requires forall c :: c in commands ==> (c, c) in rank
    ensures Below(rank, commands, commands, bound)
  {
    bound := 0;
    if commands != [] {
      var rest := BoundExists(rank, commands[1..]);
      var first := rank[(commands[0], commands[0])] + 1;
      bound := if rest > first then rest else first;
      forall i | 0 <= i < |commands| ensures rank[(commands[i], commands[i])] < bound {
        if i > 0 { assert commands[i] == commands[1..][i - 1]; }
      }
    }
  }

  /** Conversely, when all that is reached stays among finitely many calls. */
  lemma AcyclicIsRanked(w: World, commands: seq<string>, universe: set<Call>) returns (rank: Ranks, bound: nat)
    requires Closed(w, universe) && forall c :: c in commands ==> (c, c) in universe
    requires forall q :: Reached(w, commands, q) ==> Defined(w, q) && !Circular(w, q)
    ensures Certified(w, rank) && Below(rank, commands, commands, bound)
  {
    hide Runs, Defined, Certified;
    hide Reached, Circular, NoCircles;
    var calls := set q | q in universe && Reached(w, commands, q);
    forall p, q | p in calls && Runs(w, p, q) ensures q in calls {
      OneFurther(w, commands, p, q);
    }
    NoneCircular(w, calls);
    CertifiedIffAcyclic(w, calls);
    rank :| rank.Keys == calls && Certified(w, rank);
    forall c | c in commands ensures (c, c) in rank {
      StartReached(w, commands, c);
    }
    bound := BoundExists(rank, commands);
  }

  lemma NoneCircular(w: World, calls: set<Call>)
    requires forall q :: q in calls ==> !Circular(w, q)
    ensures NoCircles(calls, Edges(w))
  {
    hide Runs;
    forall path: seq<Call> | |path| > 1 && path[0] in calls && IsPath(path, Edges(w))
      ensures path[0] != path[|path| - 1]
    {
      assert !Circular(w, path[0]);
    }
  }

  lemma StartReached(w: World, commands: seq<string>, c: string)
    requires c in commands
    ensures Reached(w, commands, (c, c))
  {
    hide Runs;
    var path: seq<Call> := [(c, c)];
    assert StartsWith(path, commands) && IsPath(path, Edges(w)) && path[|path| - 1] == (c, c);
  }

  /**
    Whatever the settings: without Lua plugins, a run can be ranked exactly if every call that edges
    lead to finds the values it reads and does not lead back to itself.
   */
  lemma RankedIffNoCircle(w: World, commands: seq<string>)
    requires WithoutLua(w)
    ensures (exists rank: Ranks, bound: nat :: Certified(w, rank) && Below(rank, commands, commands, bound)) <==>
            forall q :: Reached(w, commands, q) ==> Defined(w, q) && !Circular(w, q)
  {
    hide Runs, Defined, Certified, Below, Reached, Circular;
    if rank: Ranks, bound: nat :| Certified(w, rank) && Below(rank, commands, commands, bound) {
      forall q | Reached(w, commands, q) ensures Defined(w, q) && !Circular(w, q) {
        RankedIsAcyclic(w, commands, rank, bound, q);
      }
    }
    if forall q :: Reached(w, commands, q) ==> Defined(w, q) && !Circular(w, q) {
      UniverseClosed(w, commands);
      var rank, bound := AcyclicIsRanked(w, commands, Universe(Vocabulary(w, commands)));
    }
  }
}

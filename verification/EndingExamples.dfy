/** Command graphs with circles: one that runs on forever, one that ends, and one that reads a missing value. */
module EndingExamples {
  import opened Options
  import opened OrderedMaps
  import opened SettingsTree
  import opened SettingsLaws
  import opened Tasks
  import opened Steps
  import opened Variables
  import opened Plugins
  import opened Executions
  import opened AcyclicGraphs
  import opened CommandGraphs
  import opened CommandTermination

  /** A world without plugins. */
  function Plain(root: Tree, dirs: Dirs): World {
    World(Fleeting([], false), root, Empty(), map[], map[], dirs)
  }

  function Alias(command: string, commands: seq<string>): Tree {
    Node(command, Leaves(commands))
  }

  lemma FindAt(kids: seq<Tree>, k: string, i: nat)
    requires i < |kids| && kids[i].key == k && forall j :: 0 <= j < i ==> kids[j].key != k
    ensures Find(kids, k) == i
  {
  }

  /** A command that is listed in the settings, and not below itself with its initial command. */
  lemma AliasFound(root: Tree, i: nat, command: string, commands: seq<string>, initial: string, dirs: Dirs)
    requires root.Node? && i < |root.kids| && root.kids[i] == Alias(command, commands) && initial !in commands
    requires forall j :: 0 <= j < i ==> root.kids[j].key != command
    ensures NextStep(Plain(root, dirs), command) == Some(UseCommands(commands))
    ensures IndexableFor(root, command, initial)
  {
    hide Find;
    FindAt(root.kids, command, i);
    var alias := Alias(command, commands);
    assert Has(root, command) && Child(root, command) == alias;
    assert [command][1..] == [] && [command, initial][1..] == [initial];
    GetBelow(root, [command]);
    NodeHasValues(alias);
    assert Keys(Leaves(commands)) == commands;
    GetBelow(root, [command, initial]);
    NoSuchAlias(alias, commands, initial);
  }

  lemma NoSuchAlias(alias: Tree, commands: seq<string>, initial: string)
    requires Kids(alias) == Leaves(commands) && initial !in commands
    ensures !Contains(alias, [initial])
  {
    forall i | 0 <= i < |Kids(alias)| ensures Kids(alias)[i].key != initial {
      assert Kids(alias)[i].key == commands[i];
    }
    assert [initial][1..] == [];
  }

  // -------- a circle --------

  /** `a` runs `b`, `b` runs `c` and `c` runs `a`. */
  function Circle(): Tree {
    Node("settings", [Alias("a", ["b"]), Alias("b", ["c"]), Alias("c", ["a"])])
  }

  predicate IsLink(command: string, initial: string, only: string) {
    || (command == "a" && only == "b" && (initial == "a" || initial == "c"))
    || (command == "b" && only == "c" && initial == "a")
    || (command == "c" && only == "a" && initial == "b")
  }

  lemma AliasStep(w: World, fuel: nat, command: string, initial: string, only: string, task: TaskValue)
    requires fuel > 0 && NextStep(w, command) == Some(UseCommands([only])) && IndexableFor(w.settings, command, initial)
    ensures ExecutedOne(w, fuel, command, initial, task).Some? ==>
              ExecutedOne(w, fuel - 1, only, command, task).Some?
  {
    hide IndexableFor, NextStep, Succeeds;
    assert ExecutedOne(w, fuel, command, initial, task) == ExecutedAll(w, fuel - 1, [only], Repeat(command, 1), task);
    assert Repeat(command, 1)[0] == command;
  }

  /** A run around it does not end, whatever the fuel. */
  lemma {:induction false} CircleRunsOn(dirs: Dirs, fuel: nat, command: string, initial: string, only: string,
                                        task: TaskValue)
    requires IsLink(command, initial, only)
    ensures ExecutedOne(Plain(Circle(), dirs), fuel, command, initial, task).None?
    decreases fuel
  {
    hide ExecutedOne, NextStep, IndexableFor;
    if fuel == 0 {
      NoFuel(Plain(Circle(), dirs), command, initial, task);
    } else {
      var i := if command == "a" then 0 else if command == "b" then 1 else 2;
      AliasFound(Circle(), i, command, [only], initial, dirs);
      CircleRunsOn(dirs, fuel - 1, only, command, if only == "b" then "c" else if only == "c" then "a" else "b", task);
      AliasStep(Plain(Circle(), dirs), fuel, command, initial, only, task);
    }
  }

  lemma NoFuel(w: World, command: string, initial: string, task: TaskValue)
    ensures ExecutedOne(w, 0, command, initial, task).None?
  {
  }

  lemma CircleDiverges(dirs: Dirs, fuel: nat, task: TaskValue)
    ensures ExecutedAll(Plain(Circle(), dirs), fuel, ["a"], ["a"], task).None?
  {
    hide ExecutedOne;
    CircleRunsOn(dirs, fuel, "a", "a", "b", task);
  }

  // -------- the circle behind a failing command --------

  function Guarded(): Tree {
    Node("settings", [Alias("a", ["missing", "b"]), Alias("b", ["c"]), Alias("c", ["a"])])
  }

  lemma GuardedStep(dirs: Dirs, command: string, initial: string)
    requires IsLink(command, initial, if command == "a" then "b" else if command == "b" then "c" else "a")
    ensures NextStep(Plain(Guarded(), dirs), command) ==
            Some(UseCommands(if command == "a" then ["missing", "b"] else if command == "b" then ["c"] else ["a"]))
    ensures IndexableFor(Guarded(), command, initial)
  {
    var i := if command == "a" then 0 else if command == "b" then 1 else 2;
    var commands := if command == "a" then ["missing", "b"] else if command == "b" then ["c"] else ["a"];
    AliasFound(Guarded(), i, command, commands, initial, dirs);
  }

  lemma MissingIsUnknown(dirs: Dirs)
    ensures NextStep(Plain(Guarded(), dirs), "missing") == None
  {
    var root := Guarded();
    assert forall j :: 0 <= j < |root.kids| ==> root.kids[j].key != "missing";
    assert !Has(root, "missing");
  }

  /** The run ends at the failing command ... */
  lemma GuardedEnds(dirs: Dirs, task: TaskValue)
    ensures ExecutedAll(Plain(Guarded(), dirs), 2, ["a"], ["a"], task) == Some([Fail])
  {
    hide NextStep, IndexableFor;
    var w := Plain(Guarded(), dirs);
    GuardedStep(dirs, "a", "a");
    MissingIsUnknown(dirs);
    assert ExecutedOne(w, 1, "missing", "a", task) == Some([Fail]);
    var ins := Repeat("a", 2);
    assert ["missing", "b"][0] == "missing" && ins[0] == "a";
    assert ExecutedAll(w, 1, ["missing", "b"], ins, task) == Some([Fail]);
    assert ExecutedOne(w, 2, "a", "a", task) == Some([Fail]);
  }

  /** ... though the circle is reached by edges, so that no ranking exists. */
  lemma GuardedIsUnranked(dirs: Dirs, rank: Ranks, bound: nat)
    ensures !(Certified(Plain(Guarded(), dirs), rank) && Below(rank, ["a"], ["a"], bound))
  {
    hide Certified, Runs, Defined, NextStep, Below;
    var w := Plain(Guarded(), dirs);
    GuardedRuns(dirs, "a", "a", "b");
    GuardedRuns(dirs, "b", "a", "c");
    GuardedRuns(dirs, "c", "b", "a");
    GuardedRuns(dirs, "a", "c", "b");
    var path: seq<Call> := [("a", "a"), ("b", "a")];
    assert IsPath(path, Edges(w)) && StartsWith(path, ["a"]) && path[|path| - 1] == ("b", "a");
    assert Reached(w, ["a"], ("b", "a"));
    var circle: seq<Call> := [("b", "a"), ("c", "b"), ("a", "c"), ("b", "a")];
    assert IsPath(circle, Edges(w)) && circle[0] == ("b", "a") == circle[|circle| - 1];
    assert Circular(w, ("b", "a"));
    if Certified(w, rank) && Below(rank, ["a"], ["a"], bound) {
      RankedIsAcyclic(w, ["a"], rank, bound, ("b", "a"));
      assert false;
    }
  }

  lemma GuardedRuns(dirs: Dirs, command: string, initial: string, next: string)
    requires IsLink(command, initial, next)
    ensures Runs(Plain(Guarded(), dirs), (command, initial), (next, command))
  {
    hide NextStep, IndexableFor;
    GuardedStep(dirs, command, initial);
    assert "b" in ["missing", "b"] by { assert ["missing", "b"][1] == "b"; }
  }

  // -------- a command that lists itself --------

  /** Indexing the settings of `a` for the initial command `a` finds a node without values. */
  lemma SelfReadsMissing(dirs: Dirs)
    ensures !Defined(Plain(Node("settings", [Alias("a", ["a"])]), dirs), ("a", "a"))
  {
    var root := Node("settings", [Alias("a", ["a"])]);
    var alias := Alias("a", ["a"]);
    FindAt(root.kids, "a", 0);
    FindAt(Kids(alias), "a", 0);
    assert Child(root, "a") == alias && Child(alias, "a") == Leaf("a");
    assert ["a", "a"][1..] == ["a"] && ["a"][1..] == [];
    GetBelow(root, ["a"]);
    NodeHasValues(alias);
    GetBelow(root, ["a", "a"]);
    GetBelow(alias, ["a"]);
    NodeHasValues(Leaf("a"));
    assert Contains(root, ["a", "a"]) && Get(root, ["a", "a"]) == None;
  }
}

/**
  What the dispatcher knows, and what executing commands means: the in-order flattening of the
  command graph into steps.  Nothing here is cut short; running the steps is.
 */
module Plugins {
  import opened Options
  import opened OrderedMaps
  import opened SettingsTree
  import opened SettingsLaws
  import opened Tasks
  import opened PluginUtils
  import opened Steps
  import opened Variables
  import opened CommandLineCommands
  import opened LuaPlugins

  const PATTERNS := "patterns"
  const RUN_COMMAND := "run-command"
  const COMMANDS := "commands"

  /** The options that count for this run only. */
  datatype Fleeting = Fleeting(commands: seq<string>, verbose: bool)

  /** What a Lua script does: calls of `run_target`, an error, or an end with the registered tasks. */
  datatype LuaRun =
    | Finish(tasks: seq<TaskValue>)
    | Error
    | Target(task: TaskValue, commands: seq<string>, onSuccess: LuaRun, onFailure: LuaRun)

  datatype LcovPlan =
    LcovPlan(zero: Option<TaskValue>, capture: TaskValue, exclude: Option<TaskValue>, html: Option<TaskValue>)

  /** `found` tells whether the settings are there that the plugin reads without asking. */
  datatype Plugin =
    | CommandLine
    | Memory(returnCode: bool)
    | Tool(defaults: Fleeting -> Tree, found: Tree -> bool, prepare: (TaskValue, Tree) -> TaskValue)
    | Valgrind(defaults: Fleeting -> Tree, found: Tree -> bool, prepare: (TaskValue, Tree) -> TaskValue)
    | Lcov(defaults: Fleeting -> Tree, found: Tree -> bool, plan: (TaskValue, Tree) -> LcovPlan)
    | CommandPlugin
    | Lua(defaults: Fleeting -> Tree, script: (TaskValue, Tree, seq<Pattern>) -> LuaRun)

  datatype World = World(
    fleeting: Fleeting, settings: Tree, patterns: OrderedMap<Pattern>,
    plugins: map<string, Plugin>, builtin: map<string, Plugin>, dirs: Dirs)

  // -------- one command --------

  datatype Next = UsePlugin(plugin: Plugin) | UseCommands(commands: seq<string>)

  /** A plugin before a configured command; own plugins before built-in ones. */
  function NextStep(w: World, command: string): Option<Next> {
    if command in w.plugins then Some(UsePlugin(w.plugins[command]))
    else if command in w.builtin then Some(UsePlugin(w.builtin[command]))
    else match Get(w.settings, [command])
      case None => None
      case Some(commands) => Some(UseCommands(commands))
  }

  /** What the name of a plugin stands for does not depend on the settings. */
  lemma PluginNamesWin(w: World, command: string, settings: Tree)
    requires command in w.plugins || command in w.builtin
    ensures NextStep(w.(settings := settings), command) == NextStep(w, command)
    ensures NextStep(w, command) ==
            Some(UsePlugin(if command in w.plugins then w.plugins[command] else w.builtin[command]))
  {
  }

  function Defaults(next: Next, fleeting: Fleeting): Tree {
    match next
    case UseCommands(_) => Leaf("execute-plugin")
    case UsePlugin(CommandLine) => AddAt(AddAt(Leaf("command-line-command"), [COMMAND_LINE], []), [ENVIRONMENT], [])
    case UsePlugin(Memory(_)) => Leaf("memory")
    case UsePlugin(CommandPlugin) => AddAt(Leaf(COMMANDS), [COMMANDS], fleeting.commands)
    case UsePlugin(Tool(defaults, _, _)) => defaults(fleeting)
    case UsePlugin(Valgrind(defaults, _, _)) => defaults(fleeting)
    case UsePlugin(Lcov(defaults, _, _)) => defaults(fleeting)
    case UsePlugin(Lua(defaults, _)) => defaults(fleeting)
  }

  function Known(keys: seq<string>, patterns: OrderedMap<Pattern>): seq<Pattern> {
    if keys == [] then [] else
      (if keys[0] in patterns.at then [patterns.at[keys[0]]] else []) + Known(keys[1..], patterns)
  }

  /** `known` are the patterns of those of the keys that are known, in the order of the keys. */
  ghost predicate KnownAmong(keys: seq<string>, patterns: OrderedMap<Pattern>, known: seq<Pattern>) {
    exists positions: seq<nat> :: KnownAt(keys, patterns, positions, known)
  }

  ghost predicate KnownAt(keys: seq<string>, patterns: OrderedMap<Pattern>, positions: seq<nat>, known: seq<Pattern>) {
    && |known| == |positions|
    && (forall a, b :: 0 <= a < b < |positions| ==> positions[a] < positions[b])
    && (forall i: nat :: i in positions <==> i < |keys| && keys[i] in patterns.at)
    && (forall n :: 0 <= n < |known| ==>
          positions[n] < |keys| && keys[positions[n]] in patterns.at && known[n] == patterns.at[keys[positions[n]]])
  }

  lemma {:induction false} KnownAppend(a: seq<string>, b: seq<string>, patterns: OrderedMap<Pattern>)
    ensures Known(a + b, patterns) == Known(a, patterns) + Known(b, patterns)
  {
    if a == [] {
      assert a + b == b;
    } else {
      assert (a + b)[1..] == a[1..] + b;
      KnownAppend(a[1..], b, patterns);
    }
  }

  lemma {:induction false} KnownPositions(keys: seq<string>, patterns: OrderedMap<Pattern>)
    returns (positions: seq<nat>)
    ensures KnownAt(keys, patterns, positions, Known(keys, patterns))
  {
    if keys == [] {
      positions := [];
    } else {
      var n := |keys| - 1;
      positions := KnownPositions(keys[..n], patterns);
      assert keys == keys[..n] + [keys[n]];
      KnownAppend(keys[..n], [keys[n]], patterns);
      assert [keys[n]][1..] == [];
      if keys[n] in patterns.at {
        positions := positions + [n];
      }
    }
  }

  lemma KnownIsAmong(keys: seq<string>, patterns: OrderedMap<Pattern>)
    ensures KnownAmong(keys, patterns, Known(keys, patterns))
  {
    var positions := KnownPositions(keys, patterns);
  }

  lemma KnownNext(done: seq<Pattern>, keys: seq<string>, i: nat, patterns: OrderedMap<Pattern>)
    requires i < |keys|
    ensures done + Known(keys[i..], patterns) ==
            (if keys[i] in patterns.at then done + [patterns.at[keys[i]]] else done) + Known(keys[i + 1..], patterns)
  {
    assert keys[i..][1..] == keys[i + 1..];
  }

  lemma NoneKnown(done: seq<Pattern>, keys: seq<string>, patterns: OrderedMap<Pattern>)
    ensures done + Known(keys[|keys|..], patterns) == done
  {
    assert keys[|keys|..] == [];
  }

  function NextPatterns(vars: Tree, patterns: OrderedMap<Pattern>): seq<Pattern> {
    Known(Get(vars, [PATTERNS]).GetOr([]), patterns)
  }

  function NextVariables(w: World, next: Next, command: string, initial: string): Tree
    requires IndexableFor(w.settings, command, initial)
  {
    VariablesFor(Defaults(next, w.fleeting), w.settings, command, initial)
  }

  /** An empty command line and an empty environment. */
  lemma CommandLineDefaults(fleeting: Fleeting)
    ensures Defaults(UsePlugin(CommandLine), fleeting) ==
            Node("command-line-command", [Node("command-line", []), Node("environment", [])])
  {
    var root := Leaf("command-line-command");
    var line, environment := Node("command-line", []), Node("environment", []);
    FirstKid(root, "command-line");
    assert Kids(Node("command-line-command", [line])) == [line];
    SecondKid(line, "environment");
  }

  lemma FirstKid(root: Tree, k: string)
    requires root.Leaf?
    ensures AddAt(root, [k], []) == Node(root.key, [Node(k, [])])
  {
    assert [k][1..] == [];
    assert Ensure(root, k) == Node(root.key, [Leaf(k)]) && Find([Leaf(k)], k) == 0;
    assert AddAt(Leaf(k), [], []) == Node(k, []);
    assert [Leaf(k)][0 := Node(k, [])] == [Node(k, [])];
  }

  lemma SecondKid(first: Tree, k: string)
    requires first.key != k
    ensures forall r :: AddAt(Node(r, [first]), [k], []) == Node(r, [first, Node(k, [])])
  {
    assert [k][1..] == [];
    forall r ensures AddAt(Node(r, [first]), [k], []) == Node(r, [first, Node(k, [])]) {
      var root, kids := Node(r, [first]), [first, Leaf(k)];
      assert Find([first], k) == 1 && Find(kids, k) == 1;
      assert Ensure(root, k) == Node(r, kids);
      assert AddAt(Leaf(k), [], []) == Node(k, []);
      assert kids[1 := Node(k, [])] == [first, Node(k, [])];
    }
  }

  /** The command line that the plugin reads without asking is there. */
  lemma CommandLineIsThere(w: World, command: string, initial: string)
    requires IndexableFor(w.settings, command, initial) && command != COMMAND_LINE && initial != COMMAND_LINE
    ensures Get(NextVariables(w, UsePlugin(CommandLine), command, initial), [COMMAND_LINE]).Some?
  {
    hide VariablesFor, IndexableFor, AddAt;
    var root := Leaf("command-line-command");
    var first := AddAt(root, [COMMAND_LINE], []);
    AddDescends(root, [COMMAND_LINE], [], [COMMAND_LINE]);
    AddDescends(first, [ENVIRONMENT], [], [COMMAND_LINE]);
    assert [COMMAND_LINE][1..] == [];
    AddedHere(ChildOrLeaf(root, COMMAND_LINE));
    DefaultStays(Defaults(UsePlugin(CommandLine), w.fleeting), w.settings, command, initial, COMMAND_LINE);
  }

  lemma AddedHere(t: Tree)
    ensures AddAt(t, [], []).Node?
  {
  }

  // -------- the command graph --------

  /** A rank for each command with its initial command. */
  type Ranks = map<(string, string), nat>

  ghost predicate Below(rank: Ranks, commands: seq<string>, initials: seq<string>, bound: nat) {
    && |commands| == |initials|
    && forall i :: 0 <= i < |commands| ==>
         (commands[i], initials[i]) in rank && rank[(commands[i], initials[i])] < bound
  }

  ghost predicate TargetBelow(rank: Ranks, commands: seq<string>, combos: seq<Combination>, bound: nat) {
    forall i :: 0 <= i < |combos| ==>
      Below(rank, ReplaceEach(commands, combos[i]), ReplaceEach(commands, combos[i]), bound)
  }

  ghost predicate LuaBelow(rank: Ranks, run: LuaRun, combos: seq<Combination>, bound: nat) {
    match run
    case Finish(_) => true
    case Error => true
    case Target(_, commands, onSuccess, onFailure) =>
      && TargetBelow(rank, commands, combos, bound)
      && LuaBelow(rank, onSuccess, combos, bound) && LuaBelow(rank, onFailure, combos, bound)
  }

  /** What the plugin reads without asking, before or when it starts its work, is there. */
  ghost predicate ReadsFound(plugin: Plugin, vars: Tree) {
    match plugin
    case CommandLine => CommandLineDefined(vars)
    case Memory(_) => true
    case Tool(_, found, _) => found(vars)
    case Valgrind(_, found, _) => Get(vars, [RUN_COMMAND]).Some? ==> found(vars)
    case Lcov(_, found, _) => Get(vars, [RUN_COMMAND]).GetOr([]) != [] ==> found(vars)
    case CommandPlugin => Get(vars, [COMMANDS]).Some?
    case Lua(_, _) => true
  }

  /** ... and what the plugin runs in turn has a lower rank. */
  ghost predicate PluginReady(w: World, rank: Ranks, plugin: Plugin, vars: Tree, patterns: seq<Pattern>, bound: nat) {
    ReadsFound(plugin, vars) &&
    match plugin
    case CommandLine => true
    case Memory(_) => true
    case Tool(_, _, _) => true
    case Valgrind(_, _, _) =>
      Get(vars, [RUN_COMMAND]).Some? ==>
        Below(rank, Get(vars, [RUN_COMMAND]).value, Get(vars, [RUN_COMMAND]).value, bound)
    case Lcov(_, _, _) =>
      Get(vars, [RUN_COMMAND]).Some? ==>
        Below(rank, Get(vars, [RUN_COMMAND]).value, Get(vars, [RUN_COMMAND]).value, bound)
    case CommandPlugin => Below(rank, Get(vars, [COMMANDS]).value, Get(vars, [COMMANDS]).value, bound)
    case Lua(_, script) =>
      forall task: TaskValue ::
        LuaBelow(rank, script(LuaTask(task, vars, w.dirs), vars, patterns), Combinations(patterns), bound)
  }

  function Repeat(s: string, n: nat): (r: seq<string>)
    ensures |r| == n && forall i :: 0 <= i < n ==> r[i] == s
  {
    seq(n, _ => s)
  }

  ghost predicate CommandReady(w: World, rank: Ranks, command: string, initial: string, bound: nat) {
    match NextStep(w, command)
    case None => true
    case Some(next) =>
      && IndexableFor(w.settings, command, initial)
      && match next
         case UseCommands(commands) => Below(rank, commands, Repeat(command, |commands|), bound)
         case UsePlugin(plugin) =>
           var vars := NextVariables(w, next, command, initial);
           PluginReady(w, rank, plugin, vars, NextPatterns(vars, w.patterns), bound)
  }

  /** The ranks show that the ranked commands do not run in circles. */
  ghost predicate Certified(w: World, rank: Ranks) {
    forall p :: p in rank ==> CommandReady(w, rank, p.0, p.1, rank[p])
  }

  // -------- flattening --------

  ghost function StepsAll(w: World, rank: Ranks, commands: seq<string>, initials: seq<string>,
                          task: TaskValue, bound: nat): seq<Step>
    requires Certified(w, rank) && Below(rank, commands, initials, bound)
    decreases bound, 0, |commands|
  {
    if commands == [] then [] else
      StepsOf(w, rank, commands[0], initials[0], task)
      + StepsAll(w, rank, commands[1..], initials[1..], task, bound)
  }

  ghost function StepsOf(w: World, rank: Ranks, command: string, initial: string, task: TaskValue): seq<Step>
    requires Certified(w, rank) && (command, initial) in rank
    decreases rank[(command, initial)], 4
  {
    assert CommandReady(w, rank, command, initial, rank[(command, initial)]);
    match NextStep(w, command)
    case None => [Fail]
    case Some(UseCommands(commands)) =>
      StepsAll(w, rank, commands, Repeat(command, |commands|), task, rank[(command, initial)])
    case Some(UsePlugin(plugin)) =>
      var vars := NextVariables(w, UsePlugin(plugin), command, initial);
      PluginSteps(w, rank, plugin, vars, NextPatterns(vars, w.patterns), task, rank[(command, initial)])
  }

  ghost function PluginSteps(w: World, rank: Ranks, plugin: Plugin, vars: Tree, patterns: seq<Pattern>,
                             task: TaskValue, bound: nat): seq<Step>
    requires Certified(w, rank) && PluginReady(w, rank, plugin, vars, patterns, bound)
    decreases bound, 3
  {
    match plugin
    case CommandLine => CommandLineSteps(task, vars, patterns, w.dirs)
    case Memory(returnCode) => [Emit(Remembered(task, vars, patterns))] + if returnCode then [] else [Fail]
    case Tool(_, _, prepare) => ByCombination([prepare(task, vars)], Combinations(patterns), w.dirs)
    case Valgrind(_, _, prepare) =>
      var run := Get(vars, [RUN_COMMAND]);
      if run.None? then [Fail]
      else ValgrindSteps(w, rank, run.value, prepare(task, vars), Combinations(patterns), bound)
    case Lcov(_, _, plan) =>
      var run := Get(vars, [RUN_COMMAND]);
      if run.None? || run.value == [] then [Fail]
      else LcovSteps(w, rank, run.value, task, plan(task, vars), Combinations(patterns), bound)
    case CommandPlugin =>
      StepsAll(w, rank, Get(vars, [COMMANDS]).value, Get(vars, [COMMANDS]).value, task, bound)
    case Lua(_, script) =>
      LuaSteps(w, rank, script(LuaTask(task, vars, w.dirs), vars, patterns), Combinations(patterns), bound)
  }

  /** The run command under every combination, each time with the replaced task. */
  ghost function ValgrindSteps(w: World, rank: Ranks, run: seq<string>, task: TaskValue,
                               combos: seq<Combination>, bound: nat): seq<Step>
    requires Certified(w, rank) && Below(rank, run, run, bound)
    decreases bound, 1, |combos|
  {
    if combos == [] then [] else
      StepsAll(w, rank, run, run, ReplaceTask(task, combos[0], w.dirs), bound)
      + ValgrindSteps(w, rank, run, task, combos[1..], bound)
  }

  function Maybe(t: Option<TaskValue>, c: Combination, dirs: Dirs): seq<Step> {
    match t
    case None => []
    case Some(task) => [EmitTask(task, c, dirs)]
  }

  /** Around the run command, with the task as it came: zero the counters; capture, exclude, report. */
  function Bracket(plan: LcovPlan, c: Combination, body: seq<Step>, dirs: Dirs): seq<Step> {
    Maybe(plan.zero, c, dirs) + (body + (Maybe(Some(plan.capture), c, dirs)
    + (Maybe(plan.exclude, c, dirs) + Maybe(plan.html, c, dirs))))
  }

  ghost function LcovSteps(w: World, rank: Ranks, run: seq<string>, task: TaskValue, plan: LcovPlan,
                           combos: seq<Combination>, bound: nat): seq<Step>
    requires Certified(w, rank) && Below(rank, run, run, bound)
    decreases bound, 1, |combos|
  {
    if combos == [] then [] else
      Bracket(plan, combos[0], StepsAll(w, rank, run, run, task, bound), w.dirs)
      + LcovSteps(w, rank, run, task, plan, combos[1..], bound)
  }

  lemma TargetBelowRest(rank: Ranks, commands: seq<string>, combos: seq<Combination>, bound: nat)
    requires TargetBelow(rank, commands, combos, bound) && combos != []
    ensures Below(rank, ReplaceEach(commands, combos[0]), ReplaceEach(commands, combos[0]), bound)
    ensures TargetBelow(rank, commands, combos[1..], bound)
  {
    var rest := combos[1..];
    forall i | 0 <= i < |rest|
      ensures Below(rank, ReplaceEach(commands, rest[i]), ReplaceEach(commands, rest[i]), bound)
    {
      assert rest[i] == combos[i + 1];
    }
  }

  /** One call of `run_target`: commands and task are replaced under every combination. */
  ghost function TargetSteps(w: World, rank: Ranks, commands: seq<string>, task: TaskValue,
                             combos: seq<Combination>, bound: nat): seq<Step>
    requires Certified(w, rank) && TargetBelow(rank, commands, combos, bound)
    decreases bound, 1, |combos|
  {
    if combos == [] then [] else
      var run := ReplaceEach(commands, combos[0]);
      TargetBelowRest(rank, commands, combos, bound);
      StepsAll(w, rank, run, run, ReplaceTask(task, combos[0], w.dirs), bound)
      + TargetSteps(w, rank, commands, task, combos[1..], bound)
  }

  /** A failing target does not fail the plugin: the script decides how to go on. */
  ghost function LuaSteps(w: World, rank: Ranks, run: LuaRun, combos: seq<Combination>, bound: nat): seq<Step>
    requires Certified(w, rank) && LuaBelow(rank, run, combos, bound)
    decreases bound, 2, run
  {
    match run
    case Finish(tasks) => ByTask(tasks, combos, w.dirs)
    case Error => [Fail]
    case Target(task, commands, onSuccess, onFailure) =>
      var steps := TargetSteps(w, rank, commands, task, combos, bound);
      Settled(Trace(steps)) + LuaSteps(w, rank, if Succeeds(steps) then onSuccess else onFailure, combos, bound)
  }
}

/**
  The example configuration of the repository, run: `rebuild` is `clean` and then `build`, both use the
  command-line-command plugin, whose settings stand under a key of its own name.
 */
module ExampleRun {
  import opened Options
  import opened OrderedMaps
  import opened SettingsTree
  import opened Permutations
  import opened MapPermutators
  import opened Patterns
  import opened PatternRendering
  import opened Tasks
  import opened PatternsHandlers
  import opened PluginUtils
  import opened PatternChoices
  import opened Steps
  import opened Variables
  import opened CommandLineCommands
  import opened Plugins
  import opened Executions
  import opened ExecutionLaws
  import opened Commanders
  import opened Executors
  import opened ExampleConfiguration

  // -------- the patterns --------

  function Compiler(): Pattern {
    Pattern("COMPILER", ["g++", "clang++"])
  }

  function BuildMode(): Pattern {
    Pattern("MODE", ["debug", "release"])
  }

  function Directory(dirs: Dirs): Pattern {
    Pattern("EH_WORKING_DIR", [dirs.current])
  }

  /** Any world with this configuration in which these commands are no plugins. */
  ghost predicate IsExample(w: World) {
    && w.settings == Configuration()
    && w.patterns == Handler(WithPredefined([Compiler(), BuildMode()], w.dirs))
    && NextStep(w, PLUGIN) == Some(UsePlugin(CommandLine))
    && (PLUGIN in w.plugins || PLUGIN in w.builtin)
    && (forall c :: c == "build" || c == "clean" || c == "rebuild" ==> c !in w.plugins && c !in w.builtin)
  }

  // -------- the combinations --------

  lemma KnownPatterns(w: World)
    requires IsExample(w)
    ensures NextPatterns(Vars(w.fleeting, "clean"), w.patterns) == [BuildMode(), Directory(w.dirs)]
    ensures NextPatterns(Vars(w.fleeting, "build"), w.patterns) == [Compiler(), BuildMode()]
  {
    hide Vars, Get, Emplace, FirstUpTo;
    CleanVars(w.fleeting);
    BuildVars(w.fleeting);
    var all := WithPredefined([Compiler(), BuildMode()], w.dirs);
    assert all == [Compiler(), BuildMode(), Directory(w.dirs)];
    KnownIs(all, 0);
    KnownIs(all, 1);
    KnownIs(all, 2);
    KnownPair("MODE", "EH_WORKING_DIR", w.patterns);
    KnownPair("COMPILER", "MODE", w.patterns);
  }

  lemma KnownIs(patterns: seq<Pattern>, i: nat)
    requires i < |patterns| && forall j :: 0 <= j < i ==> patterns[j].key != patterns[i].key
    ensures patterns[i].key in Handler(patterns).at && Handler(patterns).at[patterns[i].key] == patterns[i]
  {
    hide FirstUpTo;
    FirstWins(patterns, |patterns|, patterns[i].key);
    assert IsFirst(patterns, patterns[i].key, i);
  }

  lemma KnownPair(a: string, b: string, patterns: OrderedMap<Pattern>)
    requires a in patterns.at && b in patterns.at
    ensures Known([a, b], patterns) == [patterns.at[a], patterns.at[b]]
  {
    assert [a, b][1..] == [b] && [b][1..] == [];
    assert Known([b], patterns) == [patterns.at[b]] + Known([], patterns) == [patterns.at[b]];
  }

  /** Two patterns, whatever their order: that with the lesser key turns slower. */
  lemma TwoPatterns(patterns: seq<Pattern>, slow: Pattern, fast: Pattern, i: nat, j: nat)
    requires (patterns == [slow, fast] || patterns == [fast, slow]) && Less(slow.key, fast.key)
    requires i < |slow.values| && j < |fast.values|
    ensures |Combinations(patterns)| == |slow.values| * |fast.values|
    ensures 0 <= i * |fast.values| + j < |Combinations(patterns)|
    ensures Combinations(patterns)[i * |fast.values| + j].at ==
            map[slow.key := slow.values[i], fast.key := fast.values[j]]
  {
    hide Product, Enumerate, Zip, PatternValues, Less, MapPermutators.Combination, Sizes, Rank;
    var m := PatternValues(patterns);
    TwoValues(patterns, slow, fast);
    var cs := Collections(m);
    LessIrreflexive(slow.key);
    assert m.keys[0] == slow.key && m.keys[1] == fast.key;
    assert cs == [slow.values, fast.values];
    EnumerateAt(m, [i, j]);
    PickAt(cs, [i, j]);
    var vals := Pick(cs, [i, j]);
    TwoSizes(slow.values, fast.values, i, j);
    ProductSize(cs);
    CombinationAt(m.keys, vals, 0);
    CombinationAt(m.keys, vals, 1);
    var c := MapPermutators.Combination(m.keys, vals);
    forall k ensures k in c.at <==> k == slow.key || k == fast.key {
      CombinationHas(m.keys, vals, k);
    }
    assert c.at == map[slow.key := slow.values[i], fast.key := fast.values[j]];
  }

  lemma TwoValues(patterns: seq<Pattern>, slow: Pattern, fast: Pattern)
    requires (patterns == [slow, fast] || patterns == [fast, slow]) && Less(slow.key, fast.key)
    ensures PatternValues(patterns).keys == [slow.key, fast.key]
    ensures PatternValues(patterns).at == map[slow.key := slow.values, fast.key := fast.values]
  {
    hide PatternValues, Less;
    var m, keys := PatternValues(patterns), [slow.key, fast.key];
    LessIrreflexive(slow.key);
    PatternValuesAre(patterns);
    var n := if patterns[0] == slow then 0 else 1;
    assert IsFirst(patterns, slow.key, n) && IsFirst(patterns, fast.key, 1 - n);
    forall k, i: nat | IsFirst(patterns, k, i) ensures k == slow.key || k == fast.key {
    }
    assert m.at.Keys == {slow.key, fast.key};
    assert KeySet(keys) == {slow.key, fast.key};
    SortedUnique(m.keys, keys);
  }

  lemma TwoSizes<V>(a: seq<V>, b: seq<V>, i: nat, j: nat)
    ensures Sizes([a, b]) == |a| * |b| && Rank([a, b], [i, j]) == i * |b| + j
  {
    assert [a, b][1..] == [b] && [b][1..] == [] && [i, j][1..] == [j] && [j][1..] == [];
    assert Sizes([b]) == |b| && Rank([b], [j]) == j;
  }

  // -------- the replaced strings --------

  lemma Stays(s: string, c: Combination)
    requires AllPlain(c.at) && Patterns.Plain(s)
    ensures ReplaceIn(s, c) == s
  {
    hide ReplaceIn, AllPlain, Patterns.Plain;
    var t := [Text(s)];
    assert t[1..] == [] && s + [] == s;
    assert Fill([], c.at) == [] && Print([]) == [];
    assert Print(t) == s && Fill(t, c.at) == t;
    ReplacedRenders(t, c);
  }

  lemma IsFilled(k: string, c: Combination)
    requires AllPlain(c.at) && k in c.at
    ensures ReplaceIn("{" + k + "}", c) == c.at[k]
  {
    hide ReplaceIn;
    var t := [Slot(k)];
    assert t[1..] == [] && c.at[k] + [] == c.at[k] && Needle(k) + [] == Needle(k);
    assert Fill([], c.at) == [];
    assert Print(t) == Needle(k) && Fill(t, c.at) == [Text(c.at[k])] + [];
    assert Print([Text(c.at[k])]) == c.at[k];
    ReplacedRenders(t, c);
  }

  // -------- the runs --------

  /** A step that hands over a task with these arguments, to be executed there. */
  predicate Hands(step: Step, args: seq<string>, dir: string) {
    step.Emit? && step.event.Registered? && step.event.task.args == args && step.event.task.dir == dir
  }

  function Cleaning(mode: string): seq<string> {
    ["echo", "cleaning", "mode.", mode, "wd=$(pwd)"]
  }

  function Building(compiler: string, mode: string): seq<string> {
    ["echo", "building", "using", compiler, "in", mode, "mode.", "wd=$(pwd)"]
  }

  lemma PluginRuns(w: World, fuel: nat, command: string, task: TaskValue)
    requires IsExample(w) && (command == "clean" || command == "build")
    ensures var vars := Vars(w.fleeting, command);
            ExecutedOne(w, fuel + 2, command, "rebuild", task) ==
            ExecutedPlugin(w, fuel, CommandLine, vars, NextPatterns(vars, w.patterns), task)
  {
    hide VariablesFor, Defaults, IndexableFor, Get, ExecutedOne, ExecutedPlugin, NextPatterns;
    Commands();
    NoGrandKid(command);
    PluginIndexable(command);
    CommandConfigures(w, fuel, command, "rebuild", PLUGIN, CommandLine, task);
  }

  lemma OneLine(vars: Tree, line: seq<string>, task: TaskValue, dirs: Dirs)
    requires line != [] && task.args == []
    requires Get(vars, ["command-line"]) == Some(line) && Get(vars, ["command-line", line[0]]) == None
    ensures CommandLineDefined(vars) && CommandLineArgs(vars, 0) == line && task.args + line == line
    ensures CommandLineTasks(task, vars, dirs).Some? && |CommandLineTasks(task, vars, dirs).value| == 1
  {
    hide Get, Environment, PutUpTo, Put;
  }

  lemma PlainWords(c: Combination)
    requires AllPlain(c.at)
    ensures ReplaceIn("echo", c) == "echo" && ReplaceIn("building", c) == "building" && ReplaceIn("using", c) == "using"
    ensures ReplaceIn("in", c) == "in" && ReplaceIn("mode.", c) == "mode." && ReplaceIn("cleaning", c) == "cleaning"
    ensures ReplaceIn("wd=$(pwd)", c) == "wd=$(pwd)"
  {
    hide ReplaceIn, AllPlain;
    Stays("echo", c);
    Stays("building", c);
    Stays("using", c);
    Stays("in", c);
    Stays("mode.", c);
    Stays("cleaning", c);
    Stays("wd=$(pwd)", c);
  }

  lemma PlainKeys()
    ensures Patterns.Plain("COMPILER") && Patterns.Plain("MODE") && Patterns.Plain("EH_WORKING_DIR")
  {
  }

  /** The command lines under one combination. */
  lemma CleanedWith(c: Combination, mode: string, dir: string)
    requires Patterns.Plain(mode) && Patterns.Plain(dir) && c.at == map["EH_WORKING_DIR" := dir, "MODE" := mode]
    ensures ReplaceEach(CleanLine(), c) == Cleaning(mode) && ReplaceIn("{EH_WORKING_DIR}", c) == dir
  {
    hide ReplaceIn, Patterns.Plain;
    PlainKeys();
    PlainWords(c);
    IsFilled("MODE", c);
    IsFilled("EH_WORKING_DIR", c);
    assert "{" + "MODE" + "}" == "{MODE}" && "{" + "EH_WORKING_DIR" + "}" == "{EH_WORKING_DIR}";
  }

  lemma BuiltWith(c: Combination, compiler: string, mode: string)
    requires Patterns.Plain(compiler) && Patterns.Plain(mode) && c.at == map["COMPILER" := compiler, "MODE" := mode]
    ensures ReplaceEach(BuildLine(), c) == Building(compiler, mode) && AllPlain(c.at)
  {
    hide ReplaceIn, Patterns.Plain;
    PlainKeys();
    PlainWords(c);
    IsFilled("COMPILER", c);
    IsFilled("MODE", c);
    assert "{" + "MODE" + "}" == "{MODE}" && "{" + "COMPILER" + "}" == "{COMPILER}";
  }

  lemma KeyOrder()
    ensures Less("COMPILER", "MODE") && Less("EH_WORKING_DIR", "MODE")
  {
  }

  lemma PlainValues(i: nat, j: nat)
    requires i < 2 && j < 2
    ensures Patterns.Plain(Compiler().values[i]) && Patterns.Plain(BuildMode().values[j])
  {
  }

  /** `clean`: for each mode, in the current directory. */
  lemma CleanRuns(w: World, fuel: nat, task: TaskValue, j: nat)
    requires IsExample(w) && task.args == [] && Patterns.Plain(w.dirs.current) && j < 2
    ensures var run := ExecutedOne(w, fuel + 2, "clean", "rebuild", task);
            && run.Some? && Succeeds(run.value) && |run.value| == 2
            && Hands(run.value[j], Cleaning(BuildMode().values[j]), w.dirs.current)
  {
    hide IsExample, Vars, Get, ReplaceIn, CommandLineDefined, CommandLineArgs, CommandLineTasks, Combinations,
      CommandLineSteps, BraceFree, Succeeds, Less, Patterns.Plain, AllPlain, ExecutedOne, NextPatterns;
    var vars, patterns := Vars(w.fleeting, "clean"), [BuildMode(), Directory(w.dirs)];
    CleanVars(w.fleeting);
    KnownPatterns(w);
    PluginRuns(w, fuel, "clean", task);
    OneLine(vars, CleanLine(), task, w.dirs);
    KeyOrder();
    PlainValues(0, j);
    TwoPatterns(patterns, Directory(w.dirs), BuildMode(), 0, j);
    Registrations(task, vars, patterns, w.dirs, j, 0);
    CleanedWith(Combinations(patterns)[j], BuildMode().values[j], w.dirs.current);
  }

  /** `build`: for each compiler and mode, the mode turning faster, in the directory it was called with. */
  lemma BuildRuns(w: World, fuel: nat, task: TaskValue, i: nat, j: nat)
    requires IsExample(w) && task.args == [] && Patterns.Plain(task.dir) && i < 2 && j < 2
    ensures var run := ExecutedOne(w, fuel + 2, "build", "rebuild", task);
            && run.Some? && Succeeds(run.value) && |run.value| == 4
            && Hands(run.value[2 * i + j], Building(Compiler().values[i], BuildMode().values[j]), task.dir)
  {
    hide IsExample, Vars, Get, ReplaceIn, CommandLineDefined, CommandLineArgs, CommandLineTasks, Combinations,
      CommandLineSteps, BraceFree, Succeeds, Less, Patterns.Plain, AllPlain, ExecutedOne, NextPatterns;
    var vars, patterns := Vars(w.fleeting, "build"), [Compiler(), BuildMode()];
    BuildVars(w.fleeting);
    KnownPatterns(w);
    PluginRuns(w, fuel, "build", task);
    OneLine(vars, BuildLine(), task, w.dirs);
    KeyOrder();
    PlainValues(i, j);
    TwoPatterns(patterns, Compiler(), BuildMode(), i, j);
    var n := 2 * i + j;
    Registrations(task, vars, patterns, w.dirs, n, 0);
    BuiltWith(Combinations(patterns)[n], Compiler().values[i], BuildMode().values[j]);
    Stays(task.dir, Combinations(patterns)[n]);
  }

  /** What `rebuild` hands over: `clean` in both modes, then `build` with both compilers in both modes. */
  function Expected(): seq<seq<string>> {
    [Cleaning("debug"), Cleaning("release"),
     Building("g++", "debug"), Building("g++", "release"), Building("clang++", "debug"), Building("clang++", "release")]
  }

  lemma RebuildRuns(w: World, fuel: nat, task: TaskValue)
    requires IsExample(w) && task.args == [] && Patterns.Plain(w.dirs.current) && Patterns.Plain(task.dir)
    ensures var run := ExecutedAll(w, fuel + 3, ["rebuild"], ["rebuild"], task);
            && run.Some? && Succeeds(run.value) && |run.value| == 6
            && forall n :: 0 <= n < 6 ==> Hands(run.value[n], Expected()[n], if n < 2 then w.dirs.current else task.dir)
  {
    hide ExecutedOne, ExecutedAll, Succeeds, Hands, IndexableFor, Get;
    var clean := ExecutedOne(w, fuel + 2, "clean", "rebuild", task);
    var build := ExecutedOne(w, fuel + 2, "build", "rebuild", task);
    CleanRuns(w, fuel, task, 0);
    CleanRuns(w, fuel, task, 1);
    BuildRuns(w, fuel, task, 0, 0);
    BuildRuns(w, fuel, task, 0, 1);
    BuildRuns(w, fuel, task, 1, 0);
    BuildRuns(w, fuel, task, 1, 1);
    CleanThenBuild(w, fuel, task);
    ThenRuns(clean, build);
    var run := ExecutedAll(w, fuel + 3, ["rebuild"], ["rebuild"], task);
    assert run.value == clean.value + build.value;
    assert forall n :: 0 <= n < 2 ==> run.value[n] == clean.value[n];
    assert forall n :: 2 <= n < 6 ==> run.value[n] == build.value[n - 2];
  }

  lemma CleanThenBuild(w: World, fuel: nat, task: TaskValue)
    requires IsExample(w)
    ensures ExecutedAll(w, fuel + 3, ["rebuild"], ["rebuild"], task) ==
            Then(ExecutedOne(w, fuel + 2, "clean", "rebuild", task), ExecutedOne(w, fuel + 2, "build", "rebuild", task))
  {
    hide ExecutedAll, ExecutedOne, IndexableFor, Get, Then, Handler, Configuration;
    Commands();
    NoGrandKid("rebuild");
    AllOfOne(w, fuel + 3, "rebuild", "rebuild", task);
    CommandRuns(w, fuel + 2, "rebuild", "rebuild", ["clean", "build"], task);
    assert Repeat("rebuild", 2) == ["rebuild"] + ["rebuild"] && ["clean", "build"] == ["clean"] + ["build"];
    AllInParts(w, fuel + 2, ["clean"], ["build"], ["rebuild"], ["rebuild"], task);
    AllOfOne(w, fuel + 2, "clean", "rebuild", task);
    AllOfOne(w, fuel + 2, "build", "rebuild", task);
  }

  /** With keep-going, exactly these tasks are executed, in this order. */
  lemma RebuildExecutes(w: World, fuel: nat, task: TaskValue, shell: Shell, executed: seq<TaskValue>, exit: ReturnCode)
    requires IsExample(w) && task.args == [] && Patterns.Plain(w.dirs.current) && Patterns.Plain(task.dir)
    requires var run := ExecutedAll(w, fuel + 3, ["rebuild"], ["rebuild"], task);
             && run.Some?
             && Outcome(KeepGoing, shell, RegisteredTasks(Trace(run.value)), Succeeds(run.value), executed, exit)
    ensures |executed| == 6
    ensures forall n :: 0 <= n < 6 ==>
              executed[n].args == Expected()[n] && executed[n].dir == if n < 2 then w.dirs.current else task.dir
  {
    hide ExecutedAll, Trace, Succeeds;
    RebuildRuns(w, fuel, task);
    var run := ExecutedAll(w, fuel + 3, ["rebuild"], ["rebuild"], task).value;
    AllRegistered(run);
  }

  lemma {:induction false} AllRegistered(steps: seq<Step>)
    requires forall n :: 0 <= n < |steps| ==> steps[n].Emit? && steps[n].event.Registered?
    ensures var tasks := RegisteredTasks(Trace(steps));
            |tasks| == |steps| && forall n :: 0 <= n < |steps| ==> tasks[n] == steps[n].event.task
  {
    hide Trace;
    if steps == [] {
      NoStep();
    } else {
      FirstStep(steps);
      AllRegistered(steps[1..]);
      assert forall n :: 1 <= n < |steps| ==> steps[n] == steps[1..][n - 1];
    }
  }
}

/** The command-line-command plugin, and the registration loop of a Lua plugin. */
module CommandLineCommands {
  import opened Options
  import opened OrderedMaps
  import opened SettingsTree
  import opened Tasks
  import opened Patterns
  import opened PluginUtils
  import opened PatternChoices
  import opened Steps

  const COMMAND_LINE := "command-line"
  const ENVIRONMENT := "environment"
  const WORKING_DIR := "working-dir"

  /** The last value at a path, if there is any. */
  function One(vars: Tree, path: Path): Option<string> {
    match Get(vars, path)
    case None => None
    case Some(values) => if values == [] then None else Some(values[|values| - 1])
  }

  predicate IsLast(value: string, values: seq<string>) {
    values != [] && value == values[|values| - 1]
  }

  // -------- getEnvironment --------

  function EnvironmentUpTo(vars: Tree, names: seq<string>, n: nat): OrderedMap<string>
    requires n <= |names|
  {
    if n == 0 then Empty() else
      var before := EnvironmentUpTo(vars, names, n - 1);
      match One(vars, [ENVIRONMENT, names[n - 1]])
      case None => before
      case Some(value) => Emplace(before, names[n - 1], value)
  }

  function Environment(vars: Tree): OrderedMap<string> {
    var names := Get(vars, [ENVIRONMENT]).GetOr([]);
    EnvironmentUpTo(vars, names, |names|)
  }

  method GetEnvironment(vars: Tree) returns (result: OrderedMap<string>)
    ensures result == Environment(vars)
    ensures forall k :: k in result.at <==>
                        k in Get(vars, ["environment"]).GetOr([]) && Get(vars, ["environment", k]).GetOr([]) != []
    ensures forall k :: k in result.at ==> IsLast(result.at[k], Get(vars, ["environment", k]).GetOr([]))
  {
    EnvironmentIs(vars);
    result := Empty();
    var names := Get(vars, [ENVIRONMENT]).GetOr([]);
    for i := 0 to |names|
      invariant result == EnvironmentUpTo(vars, names, i)
    {
      match One(vars, [ENVIRONMENT, names[i]])
      case None =>
      case Some(value) => result := Emplace(result, names[i], value);
    }
  }

  /** The environment has exactly the listed variables that have a value. */
  lemma {:induction false} EnvironmentOf(vars: Tree, names: seq<string>, n: nat, k: string)
    requires n <= |names|
    ensures k in EnvironmentUpTo(vars, names, n).at <==> k in names[..n] && One(vars, [ENVIRONMENT, k]).Some?
    ensures k in EnvironmentUpTo(vars, names, n).at ==>
              EnvironmentUpTo(vars, names, n).at[k] == One(vars, [ENVIRONMENT, k]).value
  {
    hide Emplace, Sorted, KeySet, One;
    if n > 0 {
      EnvironmentOf(vars, names, n - 1, k);
      assert names[..n] == names[..n - 1] + [names[n - 1]];
    }
  }

  lemma EnvironmentIs(vars: Tree)
    ensures var result, names := Environment(vars), Get(vars, ["environment"]).GetOr([]);
            && (forall k :: k in result.at <==> k in names && Get(vars, ["environment", k]).GetOr([]) != [])
            && (forall k :: k in result.at ==> IsLast(result.at[k], Get(vars, ["environment", k]).GetOr([])))
  {
    hide EnvironmentUpTo, Get;
    var names := Get(vars, [ENVIRONMENT]).GetOr([]);
    assert names[..|names|] == names;
    forall k
      ensures k in Environment(vars).at <==> k in names && Get(vars, ["environment", k]).GetOr([]) != []
      ensures k in Environment(vars).at ==> IsLast(Environment(vars).at[k], Get(vars, ["environment", k]).GetOr([]))
    {
      EnvironmentOf(vars, names, |names|, k);
    }
  }

  // -------- the tasks of one application --------

  predicate HasValues(vars: Tree, path: Path) {
    Get(vars, path).Some? && Get(vars, path).value != []
  }

  /** Whether the values that are read without asking are there. */
  predicate CommandLineDefined(vars: Tree) {
    && Get(vars, [COMMAND_LINE]).Some?
    && var line := Get(vars, [COMMAND_LINE]).value;
       (line != [] && HasValues(vars, [COMMAND_LINE, line[0]]) ==>
          forall k :: k in line ==> Get(vars, [COMMAND_LINE, k]).Some?)
  }

  function BaseTask(task: TaskValue, vars: Tree, dirs: Dirs): TaskValue {
    var t := WithAdded(task, Environment(vars));
    match One(vars, [WORKING_DIR])
    case None => t
    case Some(dir) => WithDirectory(t, dir, dirs)
  }

  function KeyedTasks(base: TaskValue, vars: Tree, keys: seq<string>): (r: seq<TaskValue>)
    requires forall k :: k in keys ==> Get(vars, [COMMAND_LINE, k]).Some?
    ensures |r| == |keys|
    ensures forall i :: 0 <= i < |keys| ==>
              keys[i] in keys && r[i] == WithArgs(base, Get(vars, [COMMAND_LINE, keys[i]]).value)
  {
    seq(|keys|, i requires 0 <= i < |keys| => WithArgs(base, Get(vars, [COMMAND_LINE, keys[i]]).value))
  }

  /** One task for a plain command line; one for each key if the first one has values of its own. */
  function CommandLineTasks(task: TaskValue, vars: Tree, dirs: Dirs): Option<seq<TaskValue>>
    requires CommandLineDefined(vars)
  {
    var base, line := BaseTask(task, vars, dirs), Get(vars, [COMMAND_LINE]).value;
    if line == [] then None
    else if HasValues(vars, [COMMAND_LINE, line[0]]) then Some(KeyedTasks(base, vars, line))
    else Some([WithArgs(base, line)])
  }

  function CommandLineSteps(task: TaskValue, vars: Tree, patterns: seq<Pattern>, dirs: Dirs): seq<Step>
    requires CommandLineDefined(vars)
  {
    match CommandLineTasks(task, vars, dirs)
    case None => [Fail]
    case Some(tasks) => ByCombination(tasks, Combinations(patterns), dirs)
  }

  /** The arguments of the `j`-th task: the command line, or the values of its `j`-th key. */
  function CommandLineArgs(vars: Tree, j: nat): seq<string>
    requires CommandLineDefined(vars) && j < |Get(vars, [COMMAND_LINE]).value|
  {
    var line := Get(vars, [COMMAND_LINE]).value;
    if HasValues(vars, [COMMAND_LINE, line[0]]) then
      assert line[j] in line;
      Get(vars, [COMMAND_LINE, line[j]]).value
    else line
  }

  /** The tasks before patterns are replaced. */
  lemma TasksAre(task: TaskValue, vars: Tree, dirs: Dirs)
    requires CommandLineDefined(vars) && Get(vars, [COMMAND_LINE]).value != []
    ensures var made := CommandLineTasks(task, vars, dirs); var line := Get(vars, [COMMAND_LINE]).value;
            && made.Some? && |made.value| == (if HasValues(vars, [COMMAND_LINE, line[0]]) then |line| else 1)
            && forall j :: 0 <= j < |made.value| ==>
                 && made.value[j].args == task.args + CommandLineArgs(vars, j)
                 && made.value[j].dir == One(vars, [WORKING_DIR]).GetOr(task.dir)
                 && (forall k :: k != PWD ==>
                       (k in made.value[j].env.at <==> k in task.env.at || k in Environment(vars).at)
                       && (k in made.value[j].env.at ==>
                             made.value[j].env.at[k] == (task.env.at + Environment(vars).at)[k]))
  {
    hide Get, One, Environment, HasValues;
    AddedEnvironment(task, Environment(vars));
  }

  /** Arguments and directory have all their holes filled at once, each of them exactly if nothing cascades in it. */
  predicate FilledIfSteady(r: TaskValue, args: seq<string>, dir: string, c: Combination) {
    && |r.args| == |args|
    && (forall n :: 0 <= n < |args| ==> (r.args[n] == Simultaneous(args[n], c.at) <==> Steady(args[n], c)))
    && (r.dir == Simultaneous(dir, c.at) <==> Steady(dir, c))
  }

  /**
    What the plugin registers, in which order: the `j`-th task under the `i`-th combination comes
    after `i` rounds of all tasks.  Its arguments, replaced, keep their number and order; PWD is the
    absolute form of its own replaced directory, whatever the settings say.  With brace-free patterns
    an argument has all its holes filled at once exactly where nothing cascades.
   */
  lemma Registrations(task: TaskValue, vars: Tree, patterns: seq<Pattern>, dirs: Dirs, i: nat, j: nat)
    requires CommandLineDefined(vars) && Get(vars, [COMMAND_LINE]).value != []
    requires i < |Combinations(patterns)| && j < |CommandLineTasks(task, vars, dirs).GetOr([])|
    ensures var steps := CommandLineSteps(task, vars, patterns, dirs);
            var made := CommandLineTasks(task, vars, dirs).GetOr([]);
            && Succeeds(steps) && |steps| == |Combinations(patterns)| * |made|
            && 0 <= i * |made| + j < |steps|
            && steps[i * |made| + j].Emit? && steps[i * |made| + j].event.Registered?
            && var r := steps[i * |made| + j].event.task; var c := Combinations(patterns)[i];
               && r.args == ReplaceEach(task.args + CommandLineArgs(vars, j), c)
               && r.dir == ReplaceIn(One(vars, [WORKING_DIR]).GetOr(task.dir), c)
               && PWD in r.env.at && r.env.at[PWD] == dirs.absolute(r.dir)
               && (BraceFree(patterns) ==>
                     FilledIfSteady(r, task.args + CommandLineArgs(vars, j),
                                    One(vars, [WORKING_DIR]).GetOr(task.dir), c))
  {
    hide Get, One, HasValues, CommandLineDefined, CommandLineTasks, CommandLineArgs, Combinations, ByCombination,
      ReplaceTask, ReplaceIn, BraceFree, AllPlain, Simultaneous, Steady;
    if BraceFree(patterns) { PlainCombinations(patterns, i); }
    TasksAre(task, vars, dirs);
    var made, combos := CommandLineTasks(task, vars, dirs).value, Combinations(patterns);
    ByCombinationAt(made, combos, dirs, i, j);
    ByCombinationSize(made, combos, dirs);
    ReplacedTask(made[j], combos[i], dirs, PWD, 0);
    assert ReplaceTask(made[j], combos[i], dirs).args == ReplaceEach(made[j].args, combos[i]);
  }

  /** A configured directory replaces that of the task, and PWD; a configured PWD counts only without one. */
  predicate Located(made: TaskValue, task: TaskValue, vars: Tree, env: OrderedMap<string>, dirs: Dirs) {
    var configured := Get(vars, ["working-dir"]).GetOr([]);
    if configured == [] then made.dir == task.dir && made.env.at == task.env.at + env.at
    else IsLast(made.dir, configured) && made.env.at == (task.env.at + env.at)["PWD" := dirs.absolute(made.dir)]
  }

  /** The tasks that the settings `vars` ask for; no command line asks for none. */
  predicate MadeFrom(made: Option<seq<TaskValue>>, task: TaskValue, vars: Tree, dirs: Dirs) {
    var line := Get(vars, ["command-line"]).GetOr([]);
    if line == [] then made == None else
      var keyed := Get(vars, ["command-line", line[0]]).GetOr([]) != [];
      && made.Some? && |made.value| == (if keyed then |line| else 1)
      && forall j :: 0 <= j < |made.value| ==>
           && made.value[j].args == task.args + (if keyed then Get(vars, ["command-line", line[j]]).GetOr([]) else line)
           && Located(made.value[j], task, vars, Environment(vars), dirs)
  }

  lemma BaseLocated(task: TaskValue, vars: Tree, dirs: Dirs)
    ensures BaseTask(task, vars, dirs).args == task.args
    ensures Located(BaseTask(task, vars, dirs), task, vars, Environment(vars), dirs)
  {
    hide Get, Environment, PutUpTo, Sorted, KeySet, IsMap;
    AddedEnvironment(task, Environment(vars));
    var t := WithAdded(task, Environment(vars));
    assert t.args == task.args && t.dir == task.dir;
    var configured := Get(vars, [WORKING_DIR]).GetOr([]);
    if configured != [] {
      assert One(vars, [WORKING_DIR]) == Some(configured[|configured| - 1]);
    }
  }

  lemma ArgsLocated(base: TaskValue, args: seq<string>, task: TaskValue, vars: Tree, dirs: Dirs)
    requires base.args == task.args && Located(base, task, vars, Environment(vars), dirs)
    ensures WithArgs(base, args).args == task.args + args
    ensures Located(WithArgs(base, args), task, vars, Environment(vars), dirs)
  {
    hide Get, Environment;
  }

  lemma MadeIs(task: TaskValue, vars: Tree, dirs: Dirs)
    requires CommandLineDefined(vars)
    ensures MadeFrom(CommandLineTasks(task, vars, dirs), task, vars, dirs)
  {
    hide Get, Environment, BaseTask, Located, WithArgs;
    var base, line := BaseTask(task, vars, dirs), Get(vars, [COMMAND_LINE]).value;
    BaseLocated(task, vars, dirs);
    ArgsLocated(base, line, task, vars, dirs);
    if line != [] && HasValues(vars, [COMMAND_LINE, line[0]]) {
      var made := KeyedTasks(base, vars, line);
      forall j | 0 <= j < |line|
        ensures made[j].args == task.args + Get(vars, [COMMAND_LINE, line[j]]).GetOr([])
        ensures Located(made[j], task, vars, Environment(vars), dirs)
      {
        assert line[j] in line;
        ArgsLocated(base, Get(vars, [COMMAND_LINE, line[j]]).value, task, vars, dirs);
      }
    }
  }

  method MakeTasks(task: TaskValue, vars: Tree, dirs: Dirs) returns (result: Option<seq<TaskValue>>)
    requires CommandLineDefined(vars)
    ensures result == CommandLineTasks(task, vars, dirs)
    ensures MadeFrom(result, task, vars, dirs)
  {
    hide Get, Environment, PutUpTo, Put, HasValues, MadeFrom;
    MadeIs(task, vars, dirs);
    var t := new Task.Copy(task, dirs);
    var env := GetEnvironment(vars);
    t.AppendAllToEnvironment(env);
    var workingDir := One(vars, [WORKING_DIR]);
    if workingDir.Some? {
      t.SetWorkingDirectory(workingDir.value);
    }
    ghost var base := t.Value();
    assert base == BaseTask(task, vars, dirs);
    var commandLine := Get(vars, [COMMAND_LINE]).value;
    if commandLine == [] {
      return None;
    }
    var tasks := [];
    if !HasValues(vars, [COMMAND_LINE, commandLine[0]]) {
      t.Append(commandLine);
      tasks := tasks + [t.Value()];
      assert tasks == [WithArgs(base, commandLine)];
    } else {
      ghost var all := KeyedTasks(base, vars, commandLine);
      for i := 0 to |commandLine|
        invariant t.Value() == base
        invariant tasks == all[..i]
      {
        assert commandLine[i] in commandLine;
        var newTask := new Task.Copy(t.Value(), dirs);
        newTask.Append(Get(vars, [COMMAND_LINE, commandLine[i]]).value);
        assert newTask.Value() == all[i];
        tasks := tasks + [newTask.Value()];
        assert all[..i + 1] == all[..i] + [all[i]];
      }
      assert tasks == all;
    }
    result := Some(tasks);
  }

  /** Register every task under one combination. */
  method RegisterAll(log: EventLog, tasks: seq<TaskValue>, c: Combination, dirs: Dirs) returns (ok: bool)
    modifies log
    ensures Ran(old(log.events), log.events, ok, AllUnder(tasks, c, dirs))
  {
    hide ReplaceTask;
    ghost var all := AllUnder(tasks, c, dirs);
    AllEmit(tasks, c, dirs);
    RanNothing(log.events);
    for i := 0 to |tasks|
      invariant Ran(old(log.events), log.events, true, all[..i])
    {
      ghost var before := log.events;
      var newTask := ReplacePatternCombinations(tasks[i], c, dirs);
      ok := log.RegisterTask(newTask);
      RanOne(before, Registered(newTask));
      RanThen(old(log.events), before, log.events, true, all[..i], [all[i]]);
      assert all[..i + 1] == all[..i] + [all[i]];
      if !ok {
        return;
      }
    }
    assert all[..|tasks|] == all;
    ok := true;
  }

  method Apply(log: EventLog, task: TaskValue, vars: Tree, patterns: seq<Pattern>, dirs: Dirs) returns (ok: bool)
    requires CommandLineDefined(vars)
    modifies log
    ensures Ran(old(log.events), log.events, ok, CommandLineSteps(task, vars, patterns, dirs))
    ensures Get(vars, ["command-line"]).GetOr([]) == [] ==> !ok && log.events == old(log.events)
  {
    hide Located, CommandLineTasks, CommandLineDefined, Trace, Succeeds, AllUnder, Combinations, Ran, HasValues, Get;
    var made := MakeTasks(task, vars, dirs);
    if made.None? {
      RanFail(log.events, [Fail]);
      return false;
    }
    ok := RegisterByCombination(log, made.value, patterns, dirs);
  }

  method RegisterByCombination(log: EventLog, tasks: seq<TaskValue>, patterns: seq<Pattern>, dirs: Dirs)
    returns (ok: bool)
    modifies log
    ensures Ran(old(log.events), log.events, ok, ByCombination(tasks, Combinations(patterns), dirs))
  {
    hide Trace, Succeeds, AllUnder, Combinations, Ran;
    var combos := VisitCombinations(patterns);
    ghost var start, done := log.events, [];
    ghost var all := ByCombination(tasks, combos, dirs);
    RanNothing(start);
    for n := 0 to |combos|
      invariant Ran(start, log.events, true, done)
      invariant all == done + ByCombination(tasks, combos[n..], dirs)
    {
      ghost var rest, before := combos[n..], log.events;
      var combination := combos[n];
      ok := RegisterAll(log, tasks, combination, dirs);
      ghost var now := AllUnder(tasks, combination, dirs);
      ghost var later := ByCombination(tasks, rest[1..], dirs);
      RanNext(start, before, log.events, ok, done, now, later, all);
      if !ok {
        return;
      }
      done := done + now;
      assert rest[1..] == combos[n + 1..];
    }
    RanAll(start, log.events, done, all);
    ok := true;
  }
}

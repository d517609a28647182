/** The Lua plugin around its script: the task it offers, and the registration of the script's tasks. */
module LuaPlugins {
  import opened Options
  import opened OrderedMaps
  import opened Permutations
  import opened MapPermutators
  import opened SettingsTree
  import opened Tasks
  import opened PluginUtils
  import opened Steps
  import opened CommandLineCommands

  /** The task a script starts from: the working directory first, then the environment. */
  function LuaTask(task: TaskValue, vars: Tree, dirs: Dirs): TaskValue {
    var t := match One(vars, [WORKING_DIR])
      case None => task
      case Some(dir) => WithDirectory(task, dir, dirs);
    WithAdded(t, Environment(vars))
  }

  /** A configured PWD wins here, unlike with the command-line-command plugin (`Located`). */
  predicate PreparedFrom(prepared: TaskValue, task: TaskValue, vars: Tree, dirs: Dirs) {
    var configured := Get(vars, ["working-dir"]).GetOr([]);
    && prepared.args == task.args
    && if configured == [] then prepared.dir == task.dir && prepared.env.at == task.env.at + Environment(vars).at
       else
         && IsLast(prepared.dir, configured)
         && prepared.env.at == task.env.at["PWD" := dirs.absolute(prepared.dir)] + Environment(vars).at
  }

  lemma LuaTaskIs(task: TaskValue, vars: Tree, dirs: Dirs)
    ensures PreparedFrom(LuaTask(task, vars, dirs), task, vars, dirs)
  {
    hide Environment, Get;
    var configured := One(vars, [WORKING_DIR]);
    AddedEnvironment(if configured.None? then task else WithDirectory(task, configured.value, dirs), Environment(vars));
  }

  method PrepareTask(task: TaskValue, vars: Tree, dirs: Dirs) returns (prepared: TaskValue)
    ensures prepared == LuaTask(task, vars, dirs)
    ensures PreparedFrom(prepared, task, vars, dirs)
  {
    hide Environment, PutUpTo, Put, Get, PreparedFrom;
    LuaTaskIs(task, vars, dirs);
    var t := new Task.Copy(task, dirs);
    var workingDir := One(vars, [WORKING_DIR]);
    if workingDir.Some? {
      t.SetWorkingDirectory(workingDir.value);
    }
    var env := GetEnvironment(vars);
    t.AppendAllToEnvironment(env);
    prepared := t.Value();
  }

  /** Register one task under every combination. */
  method RegisterUnderAll(log: EventLog, task: TaskValue, patterns: seq<Pattern>, dirs: Dirs) returns (ok: bool)
    modifies log
    ensures Ran(old(log.events), log.events, ok, UnderAll(task, Combinations(patterns), dirs))
  {
    hide Trace, Succeeds, Combinations, Ran, ReplaceTask;
    var combos := VisitCombinations(patterns);
    ghost var start, done := log.events, [];
    ghost var all := UnderAll(task, combos, dirs);
    RanNothing(start);
    for n := 0 to |combos|
      invariant Ran(start, log.events, true, done)
      invariant all == done + UnderAll(task, combos[n..], dirs)
    {
      ghost var rest, before := combos[n..], log.events;
      var combination := combos[n];
      var newTask := ReplacePatternCombinations(task, combination, dirs);
      ok := log.RegisterTask(newTask);
      RanOne(before, Registered(newTask));
      ghost var now := [EmitTask(task, combination, dirs)];
      ghost var later := UnderAll(task, rest[1..], dirs);
      RanNext(start, before, log.events, ok, done, now, later, all);
      if !ok {
        return;
      }
      done := done + now;
      assert rest[1..] == combos[n + 1..];
    }
    RanAll(start, log.events, done, all);
    ok := true;
  }

  /** Register the tasks of a script, each under every combination. */
  method RegisterByTask(log: EventLog, tasks: seq<TaskValue>, patterns: seq<Pattern>, dirs: Dirs) returns (ok: bool)
    modifies log
    ensures Ran(old(log.events), log.events, ok, ByTask(tasks, Combinations(patterns), dirs))
  {
    hide Trace, Succeeds, UnderAll, Combinations, Ran;
    ghost var combos := Combinations(patterns);
    ghost var start, done := log.events, [];
    ghost var all := ByTask(tasks, combos, dirs);
    RanNothing(start);
    for i := 0 to |tasks|
      invariant Ran(start, log.events, true, done)
      invariant all == done + ByTask(tasks[i..], combos, dirs)
    {
      ghost var rest, before := tasks[i..], log.events;
      ok := RegisterUnderAll(log, tasks[i], patterns, dirs);
      ghost var now := UnderAll(tasks[i], combos, dirs);
      ghost var later := ByTask(rest[1..], combos, dirs);
      RanNext(start, before, log.events, ok, done, now, later, all);
      if !ok {
        return;
      }
      done := done + now;
      assert rest[1..] == tasks[i + 1..];
    }
    RanAll(start, log.events, done, all);
    ok := true;
  }

  /**
    Given the same tasks and patterns, this loop nest and that of the command-line-command plugin
    register the same tasks equally often: every task once for each element of the product of the
    pattern values.
   */
  lemma SameRegistrations(tasks: seq<TaskValue>, patterns: seq<Pattern>, dirs: Dirs)
    ensures var combos := Combinations(patterns);
            && multiset(ByTask(tasks, combos, dirs)) == multiset(ByCombination(tasks, combos, dirs))
            && |ByTask(tasks, combos, dirs)| == |ByCombination(tasks, combos, dirs)|
            && |ByTask(tasks, combos, dirs)| == |tasks| * Sizes(Collections(PatternValues(patterns)))
            && Succeeds(ByTask(tasks, combos, dirs)) && Succeeds(ByCombination(tasks, combos, dirs))
  {
    hide Combinations, ByTask, ByCombination, Sizes, PatternValues;
    var combos := Combinations(patterns);
    LoopOrders(tasks, combos, dirs);
    Steps.LoopSize(tasks, combos, dirs);
    CombinationCount(patterns);
    AlwaysEmit(tasks, combos, dirs);
    assert |multiset(ByTask(tasks, combos, dirs))| == |multiset(ByCombination(tasks, combos, dirs))|;
  }

  lemma AlwaysEmit(tasks: seq<TaskValue>, combos: seq<Combination>, dirs: Dirs)
    ensures Succeeds(ByTask(tasks, combos, dirs)) && Succeeds(ByCombination(tasks, combos, dirs))
  {
    hide *;
    LoopOrders(tasks, combos, dirs);
    ByCombinationSize(tasks, combos, dirs);
    var a, b := ByTask(tasks, combos, dirs), ByCombination(tasks, combos, dirs);
    forall i | 0 <= i < |a| ensures a[i].Emit? {
      assert a[i] in multiset(a) && a[i] in multiset(b);
      assert a[i] in b;
    }
  }
}

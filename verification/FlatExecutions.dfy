/** On a ranked world, what is executed is the flattening, cut at its first failing step. */
module FlatExecutions {
  import opened Options
  import opened SettingsTree
  import opened Tasks
  import opened PluginUtils
  import opened Steps
  import opened CommandLineCommands
  import opened LuaPlugins
  import opened Plugins
  import opened Executions

  /** The execution ends, with the events and the result of `flat`. */
  predicate Cuts(e: Execution, flat: seq<Step>) {
    e.Some? && Trace(e.value) == Trace(flat) && (Succeeds(e.value) <==> Succeeds(flat))
  }

  lemma CutsThen(now: Execution, flatNow: seq<Step>, later: Execution, flatLater: seq<Step>)
    requires Cuts(now, flatNow) && (Succeeds(flatNow) ==> Cuts(later, flatLater))
    ensures Cuts(Then(now, later), flatNow + flatLater)
  {
    TraceAppend(flatNow, flatLater);
    if Succeeds(flatNow) {
      TraceAppend(now.value, later.value);
    } else {
      assert Trace(flatNow) + [] == Trace(flatNow);
    }
  }

  /** A rank bound is fuel enough, and the execution is that of the flattening. */
  lemma {:induction false} ExecutesFlattening(w: World, rank: Ranks, commands: seq<string>, initials: seq<string>,
                                              task: TaskValue, bound: nat)
    requires Certified(w, rank) && Below(rank, commands, initials, bound)
    ensures Cuts(ExecutedAll(w, bound, commands, initials, task), StepsAll(w, rank, commands, initials, task, bound))
    decreases bound, 1, |commands|
  {
    hide Certified, StepsOf, ExecutedOne, Trace, Succeeds, Then, Cuts;
    if commands == [] {
      CutsSame([]);
    } else {
      FlatOne(w, rank, commands[0], initials[0], task, bound);
      ExecutesFlattening(w, rank, commands[1..], initials[1..], task, bound);
      CutsThen(ExecutedOne(w, bound, commands[0], initials[0], task), StepsOf(w, rank, commands[0], initials[0], task),
               ExecutedAll(w, bound, commands[1..], initials[1..], task),
               StepsAll(w, rank, commands[1..], initials[1..], task, bound));
    }
  }

  lemma CutsSame(steps: seq<Step>)
    ensures Cuts(Some(steps), steps)
  {
  }

  lemma {:induction false} FlatOne(w: World, rank: Ranks, command: string, initial: string, task: TaskValue, fuel: nat)
    requires Certified(w, rank) && (command, initial) in rank && rank[(command, initial)] < fuel
    ensures Cuts(ExecutedOne(w, fuel, command, initial, task), StepsOf(w, rank, command, initial, task))
    decreases fuel, 0
  {
    hide PluginSteps, StepsAll, NextVariables, NextStep, NextPatterns, PluginReady, Below, Trace, Succeeds, Cuts,
      ExecutedAll, ExecutedPlugin;
    var a := rank[(command, initial)];
    assert CommandReady(w, rank, command, initial, a);
    match NextStep(w, command)
    case None => CutsSame([Fail]);
    case Some(UseCommands(commands)) =>
      var ins := Repeat(command, |commands|);
      ExecutesFlattening(w, rank, commands, ins, task, a);
      EnoughFuel(w, a, fuel - 1, commands, ins, task, StepsAll(w, rank, commands, ins, task, a));
    case Some(UsePlugin(plugin)) =>
      var vars := NextVariables(w, UsePlugin(plugin), command, initial);
      var patterns := NextPatterns(vars, w.patterns);
      FlatPlugin(w, rank, plugin, vars, patterns, task, a);
      EnoughForPlugin(w, a, fuel - 1, plugin, vars, patterns, task,
                      PluginSteps(w, rank, plugin, vars, patterns, task, a));
  }

  lemma EnoughFuel(w: World, f: nat, g: nat, commands: seq<string>, initials: seq<string>, task: TaskValue,
                   flat: seq<Step>)
    requires |commands| == |initials| && f <= g && Cuts(ExecutedAll(w, f, commands, initials, task), flat)
    ensures Cuts(ExecutedAll(w, g, commands, initials, task), flat)
  {
    hide ExecutedAll;
    MoreFuel(w, f, g, commands, initials, task);
  }

  lemma EnoughForPlugin(w: World, f: nat, g: nat, plugin: Plugin, vars: Tree, patterns: seq<Pattern>, task: TaskValue,
                        flat: seq<Step>)
    requires f <= g && Cuts(ExecutedPlugin(w, f, plugin, vars, patterns, task), flat)
    ensures Cuts(ExecutedPlugin(w, g, plugin, vars, patterns, task), flat)
  {
    hide ExecutedPlugin;
    MoreFuelPlugin(w, f, g, plugin, vars, patterns, task);
  }

  lemma {:induction false} FlatPlugin(w: World, rank: Ranks, plugin: Plugin, vars: Tree, patterns: seq<Pattern>,
                                      task: TaskValue, bound: nat)
    requires Certified(w, rank) && PluginReady(w, rank, plugin, vars, patterns, bound)
    ensures Cuts(ExecutedPlugin(w, bound, plugin, vars, patterns, task),
                 PluginSteps(w, rank, plugin, vars, patterns, task, bound))
    decreases bound, 4
  {
    hide Certified, StepsAll, LuaBelow, Below, ValgrindSteps, LcovSteps, LuaSteps, Combinations, ByCombination,
      CommandLineSteps, CommandLineDefined, Get, ExecutedAll, ExecutedValgrind, ExecutedLcov, ExecutedLua, Cuts,
      Trace, Succeeds;
    var combos := Combinations(patterns);
    match plugin
    case Valgrind(_, _, prepare) =>
      var run := Get(vars, [RUN_COMMAND]);
      CutsSame([Fail]);
      if run.Some? { FlatValgrind(w, rank, run.value, prepare(task, vars), combos, bound); }
    case Lcov(_, _, plan) =>
      var run := Get(vars, [RUN_COMMAND]);
      CutsSame([Fail]);
      if run.Some? && run.value != [] { FlatLcov(w, rank, run.value, task, plan(task, vars), combos, bound); }
    case CommandPlugin =>
      var commands := Get(vars, [COMMANDS]).value;
      ExecutesFlattening(w, rank, commands, commands, task, bound);
    case Lua(_, script) =>
      FlatLua(w, rank, script(LuaTask(task, vars, w.dirs), vars, patterns), combos, bound);
    case _ => CutsSame(PluginSteps(w, rank, plugin, vars, patterns, task, bound));
  }

  lemma {:induction false} FlatValgrind(w: World, rank: Ranks, run: seq<string>, task: TaskValue,
                                        combos: seq<Combination>, bound: nat)
    requires Certified(w, rank) && Below(rank, run, run, bound)
    ensures Cuts(ExecutedValgrind(w, bound, run, task, combos), ValgrindSteps(w, rank, run, task, combos, bound))
    decreases bound, 2, |combos|
  {
    hide Certified, Below, StepsAll, ExecutedAll, ReplaceTask, Cuts, Then, Trace, Succeeds;
    if combos == [] {
      CutsSame([]);
    } else {
      var t := ReplaceTask(task, combos[0], w.dirs);
      ExecutesFlattening(w, rank, run, run, t, bound);
      FlatValgrind(w, rank, run, task, combos[1..], bound);
      CutsThen(ExecutedAll(w, bound, run, run, t), StepsAll(w, rank, run, run, t, bound),
               ExecutedValgrind(w, bound, run, task, combos[1..]),
               ValgrindSteps(w, rank, run, task, combos[1..], bound));
    }
  }

  lemma AroundCuts(plan: LcovPlan, c: Combination, body: Execution, flat: seq<Step>, dirs: Dirs)
    requires Cuts(body, flat)
    ensures Cuts(Around(plan, c, body, dirs), Bracket(plan, c, flat, dirs))
  {
    hide Cuts, Then, Maybe, Trace, Succeeds;
    var zero := Maybe(plan.zero, c, dirs);
    var after := Maybe(Some(plan.capture), c, dirs) + (Maybe(plan.exclude, c, dirs) + Maybe(plan.html, c, dirs));
    CutsSame(zero);
    CutsSame(after);
    CutsThen(body, flat, Some(after), after);
    CutsThen(Some(zero), zero, Then(body, Some(after)), flat + after);
  }

  lemma {:induction false} FlatLcov(w: World, rank: Ranks, run: seq<string>, task: TaskValue, plan: LcovPlan,
                                    combos: seq<Combination>, bound: nat)
    requires Certified(w, rank) && Below(rank, run, run, bound)
    ensures Cuts(ExecutedLcov(w, bound, run, task, plan, combos), LcovSteps(w, rank, run, task, plan, combos, bound))
    decreases bound, 2, |combos|
  {
    hide Certified, Below, StepsAll, ExecutedAll, Cuts, Then, Trace, Succeeds, Around, Bracket;
    if combos == [] {
      CutsSame([]);
    } else {
      var body, flat := ExecutedAll(w, bound, run, run, task), StepsAll(w, rank, run, run, task, bound);
      ExecutesFlattening(w, rank, run, run, task, bound);
      AroundCuts(plan, combos[0], body, flat, w.dirs);
      FlatLcov(w, rank, run, task, plan, combos[1..], bound);
      CutsThen(Around(plan, combos[0], body, w.dirs), Bracket(plan, combos[0], flat, w.dirs),
               ExecutedLcov(w, bound, run, task, plan, combos[1..]),
               LcovSteps(w, rank, run, task, plan, combos[1..], bound));
    }
  }

  lemma {:induction false} FlatTarget(w: World, rank: Ranks, commands: seq<string>, task: TaskValue,
                                      combos: seq<Combination>, bound: nat)
    requires Certified(w, rank) && TargetBelow(rank, commands, combos, bound)
    ensures Cuts(ExecutedTarget(w, bound, commands, task, combos), TargetSteps(w, rank, commands, task, combos, bound))
    decreases bound, 2, |combos|
  {
    hide Certified, Below, StepsAll, ExecutedAll, TargetBelow, ReplaceTask, ReplaceIn, Cuts, Then, Trace, Succeeds;
    if combos == [] {
      CutsSame([]);
    } else {
      TargetBelowRest(rank, commands, combos, bound);
      var run, t := ReplaceEach(commands, combos[0]), ReplaceTask(task, combos[0], w.dirs);
      ExecutesFlattening(w, rank, run, run, t, bound);
      FlatTarget(w, rank, commands, task, combos[1..], bound);
      CutsThen(ExecutedAll(w, bound, run, run, t), StepsAll(w, rank, run, run, t, bound),
               ExecutedTarget(w, bound, commands, task, combos[1..]),
               TargetSteps(w, rank, commands, task, combos[1..], bound));
    }
  }

  lemma {:induction false} FlatLua(w: World, rank: Ranks, run: LuaRun, combos: seq<Combination>, bound: nat)
    requires Certified(w, rank) && LuaBelow(rank, run, combos, bound)
    ensures Cuts(ExecutedLua(w, bound, run, combos), LuaSteps(w, rank, run, combos, bound))
    decreases bound, 3, run
  {
    hide Certified, TargetBelow, TargetSteps, ExecutedTarget, ByTask, Settled, Trace, Succeeds;
    match run
    case Finish(tasks) => CutsSame(ByTask(tasks, combos, w.dirs));
    case Error => CutsSame([Fail]);
    case Target(task, commands, onSuccess, onFailure) =>
      FlatTarget(w, rank, commands, task, combos, bound);
      var steps := TargetSteps(w, rank, commands, task, combos, bound);
      var next := if Succeeds(steps) then onSuccess else onFailure;
      FlatLua(w, rank, next, combos, bound);
      SettledRuns(Trace(steps));
      CutsSame(Settled(Trace(steps)));
      var later := ExecutedLua(w, bound, next, combos);
      CutsThen(Some(Settled(Trace(steps))), Settled(Trace(steps)), later, LuaSteps(w, rank, next, combos, bound));
      assert Then(Some(Settled(Trace(steps))), later) == Prepend(Settled(Trace(steps)), later);
  }

  /** A run on a ranked world: whatever fuel it was given, it emitted the flattening up to the first failing step. */
  lemma RanFlattening(w: World, fuel: nat, commands: seq<string>, task: TaskValue, rank: Ranks, bound: nat,
                      before: seq<Event>, after: seq<Event>, ok: bool)
    requires ExecutedAll(w, fuel, commands, commands, task).Some?
    requires Ran(before, after, ok, ExecutedAll(w, fuel, commands, commands, task).value)
    requires Certified(w, rank) && Below(rank, commands, commands, bound)
    ensures Ran(before, after, ok, StepsAll(w, rank, commands, commands, task, bound))
  {
    hide Certified, Below, ExecutedAll, StepsAll, Trace, Succeeds;
    ExecutesFlattening(w, rank, commands, commands, task, bound);
    FuelDoesNotMatter(w, fuel, bound, commands, commands, task);
  }
}

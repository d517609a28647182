/**
  What a run executes, step by step: fail-fast, and with fuel for the depth of nested commands.
  There is no result if the fuel runs out or a value is missing that is read without asking.
 */
module Executions {
  import opened Options
  import opened SettingsTree
  import opened Tasks
  import opened PluginUtils
  import opened Steps
  import opened Variables
  import opened CommandLineCommands
  import opened LuaPlugins
  import opened Plugins

  type Execution = Option<seq<Step>>

  /** The steps of `now`, and those of `later` if they all succeed. */
  function Then(now: Execution, later: Execution): Execution {
    if now.None? || !Succeeds(now.value) then now
    else if later.None? then None
    else Some(now.value + later.value)
  }

  /** Steps that have been executed, before what is still to come. */
  function Prepend(done: seq<Step>, later: Execution): Execution {
    if later.None? then None else Some(done + later.value)
  }

  ghost function ExecutedAll(w: World, fuel: nat, commands: seq<string>, initials: seq<string>,
                             task: TaskValue): Execution
    requires |commands| == |initials|
    decreases fuel, 1, |commands|
  {
    if commands == [] then Some([]) else
      Then(ExecutedOne(w, fuel, commands[0], initials[0], task),
           ExecutedAll(w, fuel, commands[1..], initials[1..], task))
  }

  ghost function ExecutedOne(w: World, fuel: nat, command: string, initial: string, task: TaskValue): Execution
    decreases fuel, 0
  {
    if fuel == 0 then None else
      match NextStep(w, command)
      case None => Some([Fail])
      case Some(next) => ExecutedNext(w, fuel - 1, next, command, initial, task)
  }

  ghost function ExecutedNext(w: World, fuel: nat, next: Next, command: string, initial: string,
                              task: TaskValue): Execution
    decreases fuel, 5
  {
    if !IndexableFor(w.settings, command, initial) then None else
      match next
      case UseCommands(commands) => ExecutedAll(w, fuel, commands, Repeat(command, |commands|), task)
      case UsePlugin(plugin) =>
        var vars := NextVariables(w, next, command, initial);
        ExecutedPlugin(w, fuel, plugin, vars, NextPatterns(vars, w.patterns), task)
  }

  ghost function ExecutedPlugin(w: World, fuel: nat, plugin: Plugin, vars: Tree, patterns: seq<Pattern>,
                                task: TaskValue): Execution
    decreases fuel, 4
  {
    if !ReadsFound(plugin, vars) then None else
      match plugin
      case CommandLine => Some(CommandLineSteps(task, vars, patterns, w.dirs))
      case Memory(returnCode) => Some([Emit(Remembered(task, vars, patterns))] + if returnCode then [] else [Fail])
      case Tool(_, _, prepare) => Some(ByCombination([prepare(task, vars)], Combinations(patterns), w.dirs))
      case Valgrind(_, _, prepare) =>
        var run := Get(vars, [RUN_COMMAND]);
        if run.None? then Some([Fail])
        else ExecutedValgrind(w, fuel, run.value, prepare(task, vars), Combinations(patterns))
      case Lcov(_, _, plan) =>
        var run := Get(vars, [RUN_COMMAND]);
        if run.None? || run.value == [] then Some([Fail])
        else ExecutedLcov(w, fuel, run.value, task, plan(task, vars), Combinations(patterns))
      case CommandPlugin =>
        ExecutedAll(w, fuel, Get(vars, [COMMANDS]).value, Get(vars, [COMMANDS]).value, task)
      case Lua(_, script) =>
        ExecutedLua(w, fuel, script(LuaTask(task, vars, w.dirs), vars, patterns), Combinations(patterns))
  }

  ghost function ExecutedValgrind(w: World, fuel: nat, run: seq<string>, task: TaskValue,
                                  combos: seq<Combination>): Execution
    decreases fuel, 2, |combos|
  {
    if combos == [] then Some([]) else
      Then(ExecutedAll(w, fuel, run, run, ReplaceTask(task, combos[0], w.dirs)),
           ExecutedValgrind(w, fuel, run, task, combos[1..]))
  }

  function Around(plan: LcovPlan, c: Combination, body: Execution, dirs: Dirs): Execution {
    var late := Maybe(plan.exclude, c, dirs) + Maybe(plan.html, c, dirs);
    Then(Some(Maybe(plan.zero, c, dirs)), Then(body, Some(Maybe(Some(plan.capture), c, dirs) + late)))
  }

  ghost function ExecutedLcov(w: World, fuel: nat, run: seq<string>, task: TaskValue, plan: LcovPlan,
                              combos: seq<Combination>): Execution
    decreases fuel, 2, |combos|
  {
    if combos == [] then Some([]) else
      Then(Around(plan, combos[0], ExecutedAll(w, fuel, run, run, task), w.dirs),
           ExecutedLcov(w, fuel, run, task, plan, combos[1..]))
  }

  ghost function ExecutedTarget(w: World, fuel: nat, commands: seq<string>, task: TaskValue,
                                combos: seq<Combination>): Execution
    decreases fuel, 2, |combos|
  {
    if combos == [] then Some([]) else
      var run := ReplaceEach(commands, combos[0]);
      Then(ExecutedAll(w, fuel, run, run, ReplaceTask(task, combos[0], w.dirs)),
           ExecutedTarget(w, fuel, commands, task, combos[1..]))
  }

  ghost function ExecutedLua(w: World, fuel: nat, run: LuaRun, combos: seq<Combination>): Execution
    decreases fuel, 3, run
  {
    match run
    case Finish(tasks) => Some(ByTask(tasks, combos, w.dirs))
    case Error => Some([Fail])
    case Target(task, commands, onSuccess, onFailure) =>
      var target := ExecutedTarget(w, fuel, commands, task, combos);
      if target.None? then None else
        Prepend(Settled(Trace(target.value)),
                ExecutedLua(w, fuel, if Succeeds(target.value) then onSuccess else onFailure, combos))
  }

  // -------- running it --------

  /** One command that ends: unknown, a list of commands, or a plugin. */
  lemma OneStep(w: World, fuel: nat, command: string, initial: string, task: TaskValue)
    requires ExecutedOne(w, fuel, command, initial, task).Some?
    ensures fuel > 0
    ensures match NextStep(w, command)
            case None => ExecutedOne(w, fuel, command, initial, task) == Some([Fail])
            case Some(next) =>
              && IndexableFor(w.settings, command, initial)
              && var vars := NextVariables(w, next, command, initial);
                 ExecutedOne(w, fuel, command, initial, task) ==
                 match next
                 case UseCommands(commands) =>
                   ExecutedAll(w, fuel - 1, commands, Repeat(command, |commands|), task)
                 case UsePlugin(plugin) =>
                   ExecutedPlugin(w, fuel - 1, plugin, vars, NextPatterns(vars, w.patterns), task)
  {
    hide ExecutedAll, ExecutedPlugin, NextVariables, NextPatterns, NextStep, IndexableFor;
  }

  /** One part has been run, after what is `done` and before what comes `later`. */
  lemma RanMore(a: seq<Event>, b: seq<Event>, c: seq<Event>, ok: bool,
                done: seq<Step>, now: Execution, later: Execution, all: Execution)
    requires all.Some? && all == Prepend(done, Then(now, later)) && Ran(a, b, true, done)
    requires now.Some? && Ran(b, c, ok, now.value)
    ensures ok ==> Ran(a, c, true, done + now.value) && all == Prepend(done + now.value, later)
    ensures !ok ==> Ran(a, c, false, all.value)
  {
    RanThen(a, b, c, ok, done, now.value);
    if ok {
      assert later.Some? ==> done + (now.value + later.value) == (done + now.value) + later.value;
    }
  }

  lemma RanToEnd(a: seq<Event>, b: seq<Event>, done: seq<Step>, all: Execution)
    requires Ran(a, b, true, done) && all == Prepend(done, Some([]))
    ensures all.Some? && Ran(a, b, true, all.value)
  {
    assert done + [] == done;
  }

  lemma PrependNothing(e: Execution)
    ensures Prepend([], e) == e
  {
    if e.Some? { assert [] + e.value == e.value; }
  }

  lemma PrependTwice(done: seq<Step>, now: seq<Step>, later: Execution)
    ensures Prepend(done, Prepend(now, later)) == Prepend(done + now, later)
  {
    if later.Some? { assert done + (now + later.value) == (done + now) + later.value; }
  }

  // -------- more fuel --------

  /** More fuel does not change what is executed. */
  lemma {:induction false} MoreFuel(w: World, f: nat, g: nat, commands: seq<string>, initials: seq<string>,
                                    task: TaskValue)
    requires |commands| == |initials| && f <= g && ExecutedAll(w, f, commands, initials, task).Some?
    ensures ExecutedAll(w, g, commands, initials, task) == ExecutedAll(w, f, commands, initials, task)
    decreases f, 1, |commands|
  {
    hide ExecutedOne;
    if commands != [] {
      MoreFuelOne(w, f, g, commands[0], initials[0], task);
      if Succeeds(ExecutedOne(w, f, commands[0], initials[0], task).value) {
        MoreFuel(w, f, g, commands[1..], initials[1..], task);
      }
    }
  }

  lemma {:induction false} MoreFuelOne(w: World, f: nat, g: nat, command: string, initial: string, task: TaskValue)
    requires f <= g && ExecutedOne(w, f, command, initial, task).Some?
    ensures ExecutedOne(w, g, command, initial, task) == ExecutedOne(w, f, command, initial, task)
    decreases f, 0
  {
    hide ExecutedAll, ExecutedPlugin, NextStep, NextVariables, NextPatterns, IndexableFor;
    match NextStep(w, command)
    case None =>
    case Some(UseCommands(commands)) =>
      MoreFuel(w, f - 1, g - 1, commands, Repeat(command, |commands|), task);
    case Some(UsePlugin(plugin)) =>
      var vars := NextVariables(w, UsePlugin(plugin), command, initial);
      MoreFuelPlugin(w, f - 1, g - 1, plugin, vars, NextPatterns(vars, w.patterns), task);
  }

  lemma {:induction false} MoreFuelPlugin(w: World, f: nat, g: nat, plugin: Plugin, vars: Tree, patterns: seq<Pattern>,
                                          task: TaskValue)
    requires f <= g && ExecutedPlugin(w, f, plugin, vars, patterns, task).Some?
    ensures ExecutedPlugin(w, g, plugin, vars, patterns, task) == ExecutedPlugin(w, f, plugin, vars, patterns, task)
    decreases f, 4
  {
    hide ReadsFound, ExecutedAll, ExecutedValgrind, ExecutedLcov, ExecutedLua, Combinations, CommandLineSteps,
      ByCombination, Get;
    var combos := Combinations(patterns);
    match plugin
    case Valgrind(_, _, prepare) =>
      var run := Get(vars, [RUN_COMMAND]);
      if run.Some? { MoreFuelValgrind(w, f, g, run.value, prepare(task, vars), combos); }
    case Lcov(_, _, plan) =>
      var run := Get(vars, [RUN_COMMAND]);
      if run.Some? && run.value != [] { MoreFuelLcov(w, f, g, run.value, task, plan(task, vars), combos); }
    case CommandPlugin =>
      CommandsFound(vars);
      MoreFuel(w, f, g, Get(vars, [COMMANDS]).value, Get(vars, [COMMANDS]).value, task);
    case Lua(_, script) =>
      MoreFuelLua(w, f, g, script(LuaTask(task, vars, w.dirs), vars, patterns), combos);
    case _ =>
  }

  lemma CommandsFound(vars: Tree)
    ensures ReadsFound(CommandPlugin, vars) <==> Get(vars, [COMMANDS]).Some?
  {
  }

  lemma {:induction false} MoreFuelValgrind(w: World, f: nat, g: nat, run: seq<string>, task: TaskValue,
                                            combos: seq<Combination>)
    requires f <= g && ExecutedValgrind(w, f, run, task, combos).Some?
    ensures ExecutedValgrind(w, g, run, task, combos) == ExecutedValgrind(w, f, run, task, combos)
    decreases f, 2, |combos|
  {
    hide ExecutedAll, ReplaceTask;
    if combos != [] {
      MoreFuel(w, f, g, run, run, ReplaceTask(task, combos[0], w.dirs));
      if Succeeds(ExecutedAll(w, f, run, run, ReplaceTask(task, combos[0], w.dirs)).value) {
        MoreFuelValgrind(w, f, g, run, task, combos[1..]);
      }
    }
  }

  lemma {:induction false} MoreFuelLcov(w: World, f: nat, g: nat, run: seq<string>, task: TaskValue, plan: LcovPlan,
                                        combos: seq<Combination>)
    requires f <= g && ExecutedLcov(w, f, run, task, plan, combos).Some?
    ensures ExecutedLcov(w, g, run, task, plan, combos) == ExecutedLcov(w, f, run, task, plan, combos)
    decreases f, 2, |combos|
  {
    hide ExecutedAll, Maybe, Around, Succeeds;
    if combos != [] {
      AroundEnds(plan, combos[0], ExecutedAll(w, f, run, run, task), w.dirs);
      MoreFuel(w, f, g, run, run, task);
      if Succeeds(Around(plan, combos[0], ExecutedAll(w, f, run, run, task), w.dirs).value) {
        MoreFuelLcov(w, f, g, run, task, plan, combos[1..]);
      }
    }
  }

  /** The tasks around the run command always succeed, so the run command is reached and decides. */
  lemma AroundEnds(plan: LcovPlan, c: Combination, body: Execution, dirs: Dirs)
    ensures Around(plan, c, body, dirs).Some? <==> body.Some?
    ensures body.Some? ==> (Succeeds(Around(plan, c, body, dirs).value) <==> Succeeds(body.value))
  {
    hide EmitTask;
    MaybeEmits(plan.zero, c, dirs);
    MaybeEmits(Some(plan.capture), c, dirs);
    MaybeEmits(plan.exclude, c, dirs);
    MaybeEmits(plan.html, c, dirs);
    var late := Maybe(plan.exclude, c, dirs) + Maybe(plan.html, c, dirs);
    TraceAppend(Maybe(plan.exclude, c, dirs), Maybe(plan.html, c, dirs));
    TraceAppend(Maybe(Some(plan.capture), c, dirs), late);
    if body.Some? {
      var after := Maybe(Some(plan.capture), c, dirs) + late;
      TraceAppend(body.value, after);
      TraceAppend(Maybe(plan.zero, c, dirs), Then(body, Some(after)).value);
    }
  }

  lemma MaybeEmits(t: Option<TaskValue>, c: Combination, dirs: Dirs)
    ensures Succeeds(Maybe(t, c, dirs))
  {
  }

  lemma {:induction false} MoreFuelTarget(w: World, f: nat, g: nat, commands: seq<string>, task: TaskValue,
                                          combos: seq<Combination>)
    requires f <= g && ExecutedTarget(w, f, commands, task, combos).Some?
    ensures ExecutedTarget(w, g, commands, task, combos) == ExecutedTarget(w, f, commands, task, combos)
    decreases f, 2, |combos|
  {
    hide ExecutedAll, ReplaceTask, ReplaceIn;
    if combos != [] {
      var run := ReplaceEach(commands, combos[0]);
      MoreFuel(w, f, g, run, run, ReplaceTask(task, combos[0], w.dirs));
      if Succeeds(ExecutedAll(w, f, run, run, ReplaceTask(task, combos[0], w.dirs)).value) {
        MoreFuelTarget(w, f, g, commands, task, combos[1..]);
      }
    }
  }

  lemma {:induction false} MoreFuelLua(w: World, f: nat, g: nat, run: LuaRun, combos: seq<Combination>)
    requires f <= g && ExecutedLua(w, f, run, combos).Some?
    ensures ExecutedLua(w, g, run, combos) == ExecutedLua(w, f, run, combos)
    decreases f, 3, run
  {
    hide ExecutedTarget, ByTask, Settled, Trace, Succeeds;
    match run
    case Finish(_) =>
    case Error =>
    case Target(task, commands, onSuccess, onFailure) =>
      MoreFuelTarget(w, f, g, commands, task, combos);
      var target := ExecutedTarget(w, f, commands, task, combos).value;
      MoreFuelLua(w, f, g, if Succeeds(target) then onSuccess else onFailure, combos);
  }

  /** ... so any two amounts that suffice give the same execution. */
  lemma FuelDoesNotMatter(w: World, f: nat, g: nat, commands: seq<string>, initials: seq<string>, task: TaskValue)
    requires |commands| == |initials|
    requires ExecutedAll(w, f, commands, initials, task).Some? && ExecutedAll(w, g, commands, initials, task).Some?
    ensures ExecutedAll(w, f, commands, initials, task) == ExecutedAll(w, g, commands, initials, task)
  {
    hide ExecutedAll;
    if f <= g { MoreFuel(w, f, g, commands, initials, task); } else { MoreFuel(w, g, f, commands, initials, task); }
  }
}

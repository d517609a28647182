/** Laws of the flattening: it does not depend on the ranks, and it is one command after the other. */
module Flattening {
  import opened SettingsTree
  import opened Tasks
  import opened PluginUtils
  import opened Steps
  import opened CommandLineCommands
  import opened LuaPlugins
  import opened Plugins

  /**
    The ranks only show that a command graph is acyclic: any two rankings of the same world give
    the same steps.
   */
  lemma {:induction false} RanksDoNotMatter(w: World, r: Ranks, s: Ranks, commands: seq<string>, initials: seq<string>,
                                            task: TaskValue, a: nat, b: nat)
    requires Certified(w, r) && Below(r, commands, initials, a)
    requires Certified(w, s) && Below(s, commands, initials, b)
    ensures StepsAll(w, r, commands, initials, task, a) == StepsAll(w, s, commands, initials, task, b)
    decreases a, 0, |commands|
  {
    hide Certified, StepsOf, CommandReady;
    if commands != [] {
      OneSame(w, r, s, commands[0], initials[0], task);
      RanksDoNotMatter(w, r, s, commands[1..], initials[1..], task, a, b);
    }
  }

  lemma {:induction false} OneSame(w: World, r: Ranks, s: Ranks, command: string, initial: string, task: TaskValue)
    requires Certified(w, r) && (command, initial) in r
    requires Certified(w, s) && (command, initial) in s
    ensures StepsOf(w, r, command, initial, task) == StepsOf(w, s, command, initial, task)
    decreases r[(command, initial)], 4
  {
    hide PluginSteps, StepsAll, NextVariables, NextStep, PluginReady, Below;
    var a, b := r[(command, initial)], s[(command, initial)];
    assert CommandReady(w, r, command, initial, a) && CommandReady(w, s, command, initial, b);
    match NextStep(w, command)
    case None =>
    case Some(UseCommands(commands)) =>
      RanksDoNotMatter(w, r, s, commands, Repeat(command, |commands|), task, a, b);
    case Some(UsePlugin(plugin)) =>
      var vars := NextVariables(w, UsePlugin(plugin), command, initial);
      PluginSame(w, r, s, plugin, vars, NextPatterns(vars, w.patterns), task, a, b);
  }

  lemma {:induction false} PluginSame(w: World, r: Ranks, s: Ranks, plugin: Plugin, vars: Tree, patterns: seq<Pattern>,
                                      task: TaskValue, a: nat, b: nat)
    requires Certified(w, r) && PluginReady(w, r, plugin, vars, patterns, a)
    requires Certified(w, s) && PluginReady(w, s, plugin, vars, patterns, b)
    ensures PluginSteps(w, r, plugin, vars, patterns, task, a) == PluginSteps(w, s, plugin, vars, patterns, task, b)
    decreases a, 3
  {
    hide Certified, StepsAll, LuaBelow, Below, ValgrindSteps, LcovSteps, LuaSteps, Combinations, ByCombination,
      CommandLineSteps, CommandLineDefined, Get;
    var combos := Combinations(patterns);
    match plugin
    case CommandLine =>
    case Memory(_) =>
    case Tool(_, _, _) =>
    case Valgrind(_, _, prepare) =>
      var run := Get(vars, [RUN_COMMAND]);
      if run.Some? { ValgrindSame(w, r, s, run.value, prepare(task, vars), combos, a, b); }
    case Lcov(_, _, plan) =>
      var run := Get(vars, [RUN_COMMAND]);
      if run.Some? { LcovSame(w, r, s, run.value, task, plan(task, vars), combos, a, b); }
    case CommandPlugin =>
      var commands := Get(vars, [COMMANDS]).value;
      RanksDoNotMatter(w, r, s, commands, commands, task, a, b);
    case Lua(_, script) =>
      LuaSame(w, r, s, script(LuaTask(task, vars, w.dirs), vars, patterns), combos, a, b);
  }

  lemma {:induction false} ValgrindSame(w: World, r: Ranks, s: Ranks, run: seq<string>, task: TaskValue,
                                        combos: seq<Combination>, a: nat, b: nat)
    requires Certified(w, r) && Below(r, run, run, a)
    requires Certified(w, s) && Below(s, run, run, b)
    ensures ValgrindSteps(w, r, run, task, combos, a) == ValgrindSteps(w, s, run, task, combos, b)
    decreases a, 1, |combos|
  {
    hide Certified, Below, StepsAll;
    if combos != [] {
      RanksDoNotMatter(w, r, s, run, run, ReplaceTask(task, combos[0], w.dirs), a, b);
      ValgrindSame(w, r, s, run, task, combos[1..], a, b);
    }
  }

  lemma {:induction false} LcovSame(w: World, r: Ranks, s: Ranks, run: seq<string>, task: TaskValue, plan: LcovPlan,
                                    combos: seq<Combination>, a: nat, b: nat)
    requires Certified(w, r) && Below(r, run, run, a)
    requires Certified(w, s) && Below(s, run, run, b)
    ensures LcovSteps(w, r, run, task, plan, combos, a) == LcovSteps(w, s, run, task, plan, combos, b)
    decreases a, 1, |combos|
  {
    hide Certified, Below, StepsAll, Bracket;
    if combos != [] {
      RanksDoNotMatter(w, r, s, run, run, task, a, b);
      LcovSame(w, r, s, run, task, plan, combos[1..], a, b);
    }
  }

  lemma {:induction false} TargetSame(w: World, r: Ranks, s: Ranks, commands: seq<string>, task: TaskValue,
                                      combos: seq<Combination>, a: nat, b: nat)
    requires Certified(w, r) && TargetBelow(r, commands, combos, a)
    requires Certified(w, s) && TargetBelow(s, commands, combos, b)
    ensures TargetSteps(w, r, commands, task, combos, a) == TargetSteps(w, s, commands, task, combos, b)
    decreases a, 1, |combos|
  {
    hide Certified, Below, StepsAll, TargetBelow, ReplaceTask;
    if combos != [] {
      TargetBelowRest(r, commands, combos, a);
      TargetBelowRest(s, commands, combos, b);
      var run := ReplaceEach(commands, combos[0]);
      RanksDoNotMatter(w, r, s, run, run, ReplaceTask(task, combos[0], w.dirs), a, b);
      TargetSame(w, r, s, commands, task, combos[1..], a, b);
    }
  }

  lemma {:induction false} LuaSame(w: World, r: Ranks, s: Ranks, run: LuaRun, combos: seq<Combination>, a: nat, b: nat)
    requires Certified(w, r) && LuaBelow(r, run, combos, a)
    requires Certified(w, s) && LuaBelow(s, run, combos, b)
    ensures LuaSteps(w, r, run, combos, a) == LuaSteps(w, s, run, combos, b)
    decreases a, 2, run
  {
    hide Certified, Below, TargetBelow, TargetSteps, ByTask, Settled;
    match run
    case Finish(_) =>
    case Error =>
    case Target(task, commands, onSuccess, onFailure) =>
      TargetSame(w, r, s, commands, task, combos, a, b);
      var steps := TargetSteps(w, r, commands, task, combos, a);
      LuaSame(w, r, s, if Succeeds(steps) then onSuccess else onFailure, combos, a, b);
  }

  /** A list of commands is executed as its parts, one after the other. */
  lemma {:induction false} InParts(w: World, rank: Ranks, first: seq<string>, ins: seq<string>,
                                   rest: seq<string>, more: seq<string>, task: TaskValue, bound: nat)
    requires Certified(w, rank) && Below(rank, first, ins, bound) && Below(rank, rest, more, bound)
    ensures Below(rank, first + rest, ins + more, bound)
    ensures StepsAll(w, rank, first + rest, ins + more, task, bound) ==
            StepsAll(w, rank, first, ins, task, bound) + StepsAll(w, rank, rest, more, task, bound)
    decreases |first|
  {
    hide Certified, StepsOf, StepsAll, Below;
    BelowParts(rank, first, ins, rest, more, bound);
    if first == [] {
      assert first + rest == rest && ins + more == more;
      NoCommands(w, rank, task, bound);
    } else {
      FirstCommand(w, rank, first, ins, task, bound);
      FirstCommand(w, rank, first + rest, ins + more, task, bound);
      InParts(w, rank, first[1..], ins[1..], rest, more, task, bound);
      assert (first + rest)[1..] == first[1..] + rest && (ins + more)[1..] == ins[1..] + more;
    }
  }

  lemma NoCommands(w: World, rank: Ranks, task: TaskValue, bound: nat)
    requires Certified(w, rank) && Below(rank, [], [], bound)
    ensures StepsAll(w, rank, [], [], task, bound) == []
  {
  }

  lemma FirstCommand(w: World, rank: Ranks, commands: seq<string>, initials: seq<string>, task: TaskValue, bound: nat)
    requires Certified(w, rank) && Below(rank, commands, initials, bound) && commands != []
    ensures |initials| == |commands| && Below(rank, commands[1..], initials[1..], bound)
    ensures (commands[0], initials[0]) in rank
    ensures StepsAll(w, rank, commands, initials, task, bound) ==
            StepsOf(w, rank, commands[0], initials[0], task)
            + StepsAll(w, rank, commands[1..], initials[1..], task, bound)
  {
    hide Certified, StepsOf;
  }

  lemma BelowParts(rank: Ranks, first: seq<string>, ins: seq<string>, rest: seq<string>, more: seq<string>, bound: nat)
    requires Below(rank, first, ins, bound) && Below(rank, rest, more, bound)
    ensures |first| == |ins| && Below(rank, first + rest, ins + more, bound)
  {
  }

  /** The result: executing a list of commands succeeds if and only if each of them does. */
  lemma {:induction false} SucceedsIff(w: World, rank: Ranks, commands: seq<string>, initials: seq<string>,
                                       task: TaskValue, bound: nat)
    requires Certified(w, rank) && Below(rank, commands, initials, bound)
    ensures Succeeds(StepsAll(w, rank, commands, initials, task, bound)) <==>
            forall i :: 0 <= i < |commands| ==> Succeeds(StepsOf(w, rank, commands[i], initials[i], task))
    decreases |commands|
  {
    hide Certified, StepsOf, Succeeds, StepsAll;
    if commands == [] {
      NoStep();
      NoCommands(w, rank, task, bound);
    } else {
      var cs, ins := commands[1..], initials[1..];
      FirstCommand(w, rank, commands, initials, task, bound);
      TraceAppend(StepsOf(w, rank, commands[0], initials[0], task), StepsAll(w, rank, cs, ins, task, bound));
      SucceedsIff(w, rank, cs, ins, task, bound);
      assert commands == [commands[0]] + cs && initials == [initials[0]] + ins;
      if forall i :: 0 <= i < |commands| ==> Succeeds(StepsOf(w, rank, commands[i], initials[i], task)) {
        forall i | 0 <= i < |cs| ensures Succeeds(StepsOf(w, rank, cs[i], ins[i], task)) {
          assert cs[i] == commands[i + 1] && ins[i] == initials[i + 1];
        }
      }
    }
  }

  /** Where a script ends, given how its targets fare. */
  ghost function Ending(w: World, rank: Ranks, run: LuaRun, combos: seq<Combination>, bound: nat): LuaRun
    requires Certified(w, rank) && LuaBelow(rank, run, combos, bound)
    decreases run
  {
    match run
    case Finish(_) => run
    case Error => run
    case Target(task, commands, onSuccess, onFailure) =>
      var next := if Succeeds(TargetSteps(w, rank, commands, task, combos, bound)) then onSuccess else onFailure;
      Ending(w, rank, next, combos, bound)
  }

  /** A Lua plugin fails exactly if its script ends with an error, however its targets fare. */
  lemma {:induction false} LuaFails(w: World, rank: Ranks, run: LuaRun, combos: seq<Combination>, bound: nat)
    requires Certified(w, rank) && LuaBelow(rank, run, combos, bound)
    ensures Succeeds(LuaSteps(w, rank, run, combos, bound)) <==> Ending(w, rank, run, combos, bound).Finish?
    decreases run
  {
    hide Certified, TargetBelow, TargetSteps, ByTask, Settled, Trace;
    match run
    case Finish(tasks) => AlwaysEmit(tasks, combos, w.dirs);
    case Error =>
    case Target(task, commands, onSuccess, onFailure) =>
      var steps := TargetSteps(w, rank, commands, task, combos, bound);
      var next := if Succeeds(steps) then onSuccess else onFailure;
      LuaFails(w, rank, next, combos, bound);
      SettledRuns(Trace(steps));
      TraceAppend(Settled(Trace(steps)), LuaSteps(w, rank, next, combos, bound));
  }
}

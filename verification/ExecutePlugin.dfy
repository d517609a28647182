/** The dispatcher: an interpreter of the command graph over stacks of contexts. */
module ExecutePlugins {
  import opened Options
  import opened OrderedMaps
  import opened SettingsTree
  import opened SettingsNodes
  import opened Tasks
  import opened PatternsHandlers
  import opened PluginUtils
  import opened Steps
  import opened Variables
  import opened CommandLineCommands
  import opened LuaPlugins
  import opened Plugins
  import opened Executions

  class ExecutePlugin {
    const builtin: map<string, Plugin>
    const dirs: Dirs
    const log: EventLog
    var fleeting: seq<Fleeting>
    var settings: seq<Tree>
    var patterns: seq<OrderedMap<Pattern>>
    var plugins: seq<map<string, Plugin>>

    constructor (builtin: map<string, Plugin>, dirs: Dirs, log: EventLog)
      ensures this.builtin == builtin && this.dirs == dirs && this.log == log
      ensures fleeting == [] && settings == [] && patterns == [] && plugins == []
    {
      this.builtin, this.dirs, this.log := builtin, dirs, log;
      fleeting, settings, patterns, plugins := [], [], [], [];
    }

    method PushFleeting(options: Fleeting)
      modifies this`fleeting
      ensures fleeting == old(fleeting) + [options]
    {
      fleeting := fleeting + [options];
    }

    method PushSettings(root: Tree)
      modifies this`settings
      ensures settings == old(settings) + [root]
    {
      settings := settings + [root];
    }

    method PushPatterns(newPatterns: seq<Pattern>)
      modifies this`patterns
      ensures patterns == old(patterns) + [Handler(newPatterns)]
    {
      var handler := new PatternsHandler(newPatterns);
      patterns := patterns + [handler.known];
    }

    method PushPlugins(newPlugins: map<string, Plugin>)
      modifies this`plugins
      ensures plugins == old(plugins) + [newPlugins]
    {
      plugins := plugins + [newPlugins];
    }

    /** `popPlugins`, `popFleetingOptions`, `popSettingsNode` and `popPatterns`. */
    method PopAll()
      requires Ready()
      modifies this
      ensures plugins == old(plugins)[..|old(plugins)| - 1] && fleeting == old(fleeting)[..|old(fleeting)| - 1]
      ensures settings == old(settings)[..|old(settings)| - 1] && patterns == old(patterns)[..|old(patterns)| - 1]
    {
      plugins := plugins[..|plugins| - 1];
      fleeting := fleeting[..|fleeting| - 1];
      settings := settings[..|settings| - 1];
      patterns := patterns[..|patterns| - 1];
    }

    predicate Ready()
      reads this
    {
      fleeting != [] && settings != [] && patterns != [] && plugins != []
    }

    /** What the tops of the stacks say. */
    ghost function Top(): World
      requires Ready()
      reads this
    {
      World(fleeting[|fleeting| - 1], settings[|settings| - 1], patterns[|patterns| - 1],
            plugins[|plugins| - 1], builtin, dirs)
    }

    method GetNextStep(command: string) returns (next: Option<Next>)
      requires Ready()
      ensures next == NextStep(Top(), command)
      ensures var own := plugins[|plugins| - 1]; var configured := Get(settings[|settings| - 1], [command]);
              && (command in own ==> next == Some(UsePlugin(own[command])))
              && (command !in own && command in builtin ==> next == Some(UsePlugin(builtin[command])))
              && (command !in own && command !in builtin ==>
                    if configured.None? then next == None else next == Some(UseCommands(configured.value)))
    {
      var own := plugins[|plugins| - 1];
      if command in builtin.Keys + own.Keys {
        next := Some(UsePlugin(GetPlugin(own, command)));
        return;
      }
      match Get(settings[|settings| - 1], [command])
      case None => next := None;
      case Some(commands) => next := Some(UseCommands(commands));
    }

    function GetPlugin(own: map<string, Plugin>, name: string): Plugin
      requires name in own || name in builtin
    {
      if name in own then own[name] else builtin[name]
    }

    method GetVariables(next: Next, command: string, initial: string) returns (vars: Tree)
      requires Ready() && IndexableFor(Top().settings, command, initial)
      ensures vars == NextVariables(Top(), next, command, initial)
      ensures vars == VariablesFor(Defaults(next, fleeting[|fleeting| - 1]), settings[|settings| - 1], command, initial)
    {
      hide Tidy, Holds, PartsHold, Linked, PartsAbs, Abs, Index, Indexable, Defaults;
      var root := settings[|settings| - 1];
      var newVariables := new SettingsNode.Copy(Defaults(next, fleeting[|fleeting| - 1]));
      IndexNode(newVariables, root, [command]);
      IndexNode(newVariables, root, [command, initial]);
      vars := newVariables.Snapshot(newVariables.shape);
    }

    method GetNextPatterns(vars: Tree) returns (newPatterns: seq<Pattern>)
      requires Ready()
      ensures newPatterns == NextPatterns(vars, Top().patterns)
      ensures KnownAmong(Get(vars, ["patterns"]).GetOr([]), patterns[|patterns| - 1], newPatterns)
    {
      hide Known, Get, KnownAmong;
      var handler := patterns[|patterns| - 1];
      KnownIsAmong(Get(vars, [PATTERNS]).GetOr([]), handler);
      var keys := Get(vars, [PATTERNS]).GetOr([]);
      newPatterns := [];
      for i := 0 to |keys|
        invariant newPatterns + Known(keys[i..], handler) == Known(keys, handler)
      {
        KnownNext(newPatterns, keys, i, handler);
        if keys[i] !in handler.at {
          continue;
        }
        newPatterns := newPatterns + [handler.at[keys[i]]];
      }
      NoneKnown(newPatterns, keys, handler);
    }

    /** `apply`: one command after the other, until one fails. */
    method Apply(commands: seq<string>, initials: seq<string>, task: TaskValue, ghost fuel: nat) returns (ok: bool)
      requires Ready() && |commands| == |initials|
      requires ExecutedAll(Top(), fuel, commands, initials, task).Some?
      modifies log
      ensures Ran(old(log.events), log.events, ok, ExecutedAll(Top(), fuel, commands, initials, task).value)
      decreases fuel, 1
    {
      hide Trace, Succeeds, NextStep, Ran, ExecutedOne;
      ghost var w, start, done := Top(), log.events, [];
      ghost var all := ExecutedAll(w, fuel, commands, initials, task);
      RanNothing(start);
      PrependNothing(all);
      for i := 0 to |commands|
        invariant Ran(start, log.events, true, done)
        invariant all == Prepend(done, ExecutedAll(w, fuel, commands[i..], initials[i..], task))
      {
        ghost var cs, ins, before := commands[i..], initials[i..], log.events;
        ghost var now := ExecutedOne(w, fuel, commands[i], initials[i], task);
        ghost var later := ExecutedAll(w, fuel, cs[1..], ins[1..], task);
        assert all == Prepend(done, Then(now, later));
        ok := ApplyOne(commands[i], initials[i], task, fuel);
        RanMore(start, before, log.events, ok, done, now, later, all);
        if !ok {
          return;
        }
        done := done + now.value;
        assert cs[1..] == commands[i + 1..] && ins[1..] == initials[i + 1..];
      }
      RanToEnd(start, log.events, done, all);
      ok := true;
    }

    method ApplyOne(command: string, initial: string, task: TaskValue, ghost fuel: nat) returns (ok: bool)
      requires Ready() && ExecutedOne(Top(), fuel, command, initial, task).Some?
      modifies log
      ensures Ran(old(log.events), log.events, ok, ExecutedOne(Top(), fuel, command, initial, task).value)
      ensures && command !in plugins[|plugins| - 1] && command !in builtin
              && Get(settings[|settings| - 1], [command]).None? ==>
                !ok && log.events == old(log.events)
      decreases fuel, 0
    {
      hide *;
      OneStep(Top(), fuel, command, initial, task);
      var next := GetNextStep(command);
      if next.None? {
        RanFail(log.events, [Fail]);
        return false;
      }
      var vars := GetVariables(next.value, command, initial);
      var newPatterns := GetNextPatterns(vars);
      match next.value
      case UseCommands(commands) =>
        ok := Apply(commands, Repeat(command, |commands|), task, fuel - 1);
      case UsePlugin(plugin) =>
        ok := ApplyPlugin(plugin, vars, newPatterns, task, fuel - 1);
    }

    method ApplyPlugin(plugin: Plugin, vars: Tree, newPatterns: seq<Pattern>, task: TaskValue, ghost fuel: nat)
      returns (ok: bool)
      requires Ready() && ExecutedPlugin(Top(), fuel, plugin, vars, newPatterns, task).Some?
      modifies log
      ensures Ran(old(log.events), log.events, ok,
                  ExecutedPlugin(Top(), fuel, plugin, vars, newPatterns, task).value)
      ensures plugin.Memory? ==>
                ok == plugin.returnCode && log.events == old(log.events) + [Remembered(task, vars, newPatterns)]
      ensures || (plugin.CommandLine? && Get(vars, ["command-line"]) == Some([]))
              || (plugin.Valgrind? && Get(vars, ["run-command"]).None?)
              || (plugin.Lcov? && Get(vars, ["run-command"]).GetOr([]) == []) ==>
                !ok && log.events == old(log.events)
      ensures plugin.CommandLine? && CommandLineDefined(vars) ==>
                Ran(old(log.events), log.events, ok, CommandLineSteps(task, vars, newPatterns, dirs))
      ensures plugin.Tool? ==>
                Ran(old(log.events), log.events, ok,
                    ByCombination([plugin.prepare(task, vars)], Combinations(newPatterns), dirs))
      ensures plugin.CommandPlugin? && Get(vars, ["commands"]).Some? ==>
                var commands := Get(vars, ["commands"]).value;
                var steps := ExecutedAll(Top(), fuel, commands, commands, task);
                steps.Some? && Ran(old(log.events), log.events, ok, steps.value)
      ensures plugin.Valgrind? && Get(vars, ["run-command"]).Some? ==>
                var steps := ExecutedValgrind(Top(), fuel, Get(vars, ["run-command"]).value, plugin.prepare(task, vars),
                                              Combinations(newPatterns));
                steps.Some? && Ran(old(log.events), log.events, ok, steps.value)
      ensures plugin.Lcov? && Get(vars, ["run-command"]).GetOr([]) != [] ==>
                var steps := ExecutedLcov(Top(), fuel, Get(vars, ["run-command"]).value, task, plugin.plan(task, vars),
                                          Combinations(newPatterns));
                steps.Some? && Ran(old(log.events), log.events, ok, steps.value)
      ensures plugin.Lua? ==>
                var steps := ExecutedLua(Top(), fuel, plugin.script(LuaTask(task, vars, dirs), vars, newPatterns),
                                         Combinations(newPatterns));
                steps.Some? && Ran(old(log.events), log.events, ok, steps.value)
      decreases fuel, 4
    {
      hide Trace, Succeeds, Ran, CommandLineDefined, CommandLineSteps, ExecutedAll, ExecutedValgrind, ExecutedLcov,
        ExecutedLua, Combinations, ByCombination;
      match plugin
      case CommandLine => ok := CommandLineCommands.Apply(log, task, vars, newPatterns, dirs);
      case Memory(returnCode) =>
        ghost var before := log.events;
        log.Remember(task, vars, newPatterns);
        RanOne(before, Remembered(task, vars, newPatterns));
        RanLast(before, log.events, [Emit(Remembered(task, vars, newPatterns))], returnCode);
        ok := returnCode;
      case Tool(_, _, prepare) => ok := RegisterByCombination(log, [prepare(task, vars)], newPatterns, dirs);
      case Valgrind(_, _, prepare) =>
        var run := Get(vars, [RUN_COMMAND]);
        if run.None? {
          RanFail(log.events, [Fail]);
          return false;
        }
        ok := ApplyValgrind(run.value, prepare(task, vars), newPatterns, fuel);
      case Lcov(_, _, plan) =>
        var run := Get(vars, [RUN_COMMAND]);
        if run.None? || run.value == [] {
          RanFail(log.events, [Fail]);
          return false;
        }
        ok := ApplyLcov(run.value, task, plan(task, vars), newPatterns, fuel);
      case CommandPlugin =>
        var commands := Get(vars, [COMMANDS]).value;
        ok := Apply(commands, commands, task, fuel);
      case Lua(_, script) =>
        var prepared := PrepareTask(task, vars, dirs);
        ok := ApplyLua(script(prepared, vars, newPatterns), newPatterns, fuel);
    }

    method ApplyValgrind(run: seq<string>, task: TaskValue, newPatterns: seq<Pattern>, ghost fuel: nat)
      returns (ok: bool)
      requires Ready() && ExecutedValgrind(Top(), fuel, run, task, Combinations(newPatterns)).Some?
      modifies log
      ensures Ran(old(log.events), log.events, ok,
                  ExecutedValgrind(Top(), fuel, run, task, Combinations(newPatterns)).value)
      decreases fuel, 2
    {
      hide Trace, Succeeds, Ran, ExecutedAll, Combinations, ReplaceTask;
      var combos := VisitCombinations(newPatterns);
      ghost var w, start, done := Top(), log.events, [];
      ghost var all := ExecutedValgrind(w, fuel, run, task, combos);
      RanNothing(start);
      PrependNothing(all);
      for n := 0 to |combos|
        invariant Ran(start, log.events, true, done)
        invariant all == Prepend(done, ExecutedValgrind(w, fuel, run, task, combos[n..]))
      {
        ghost var rest, before := combos[n..], log.events;
        var newTask := ReplacePatternCombinations(task, combos[n], dirs);
        ghost var now := ExecutedAll(w, fuel, run, run, newTask);
        ghost var later := ExecutedValgrind(w, fuel, run, task, rest[1..]);
        assert all == Prepend(done, Then(now, later));
        ok := Apply(run, run, newTask, fuel);
        RanMore(start, before, log.events, ok, done, now, later, all);
        if !ok {
          return;
        }
        done := done + now.value;
        assert rest[1..] == combos[n + 1..];
      }
      RanToEnd(start, log.events, done, all);
      ok := true;
    }

    /** Register one task under a combination, if there is one. */
    method RunMaybe(t: Option<TaskValue>, c: Combination) returns (ok: bool)
      modifies log
      ensures Ran(old(log.events), log.events, ok, Maybe(t, c, dirs))
      ensures ok && log.events == old(log.events) +
                if t.None? then [] else [Registered(ReplaceTask(t.value, c, dirs))]
    {
      ghost var before := log.events;
      match t
      case None =>
        RanNothing(before);
        ok := true;
      case Some(task) =>
        var replaced := ReplacePatternCombinations(task, c, dirs);
        ok := log.RegisterTask(replaced);
        RanOne(before, Registered(replaced));
    }

    /** `Lcov::apply` for one combination. */
    method RunBracket(plan: LcovPlan, c: Combination, run: seq<string>, task: TaskValue, ghost fuel: nat)
      returns (ok: bool)
      requires Ready() && Around(plan, c, ExecutedAll(Top(), fuel, run, run, task), dirs).Some?
      modifies log
      ensures Ran(old(log.events), log.events, ok,
                  Around(plan, c, ExecutedAll(Top(), fuel, run, run, task), dirs).value)
      decreases fuel, 2, 0
    {
      hide Trace, Succeeds, Ran, ExecutedAll, Maybe, EmitTask;
      ghost var start, before, body := log.events, log.events, ExecutedAll(Top(), fuel, run, run, task);
      ghost var zero, capture := Maybe(plan.zero, c, dirs), Maybe(Some(plan.capture), c, dirs);
      ghost var exclude, html := Maybe(plan.exclude, c, dirs), Maybe(plan.html, c, dirs);
      ghost var after := capture + (exclude + html);
      ghost var all := Around(plan, c, body, dirs);
      AroundEnds(plan, c, body, dirs);
      RanNothing(start);
      assert all == Prepend([], Then(Some(zero), Then(body, Some(after)))) by { PrependNothing(all); }
      ok := RunMaybe(plan.zero, c);
      RanMore(start, before, log.events, ok, [], Some(zero), Then(body, Some(after)), all);
      if !ok {
        return;
      }
      ghost var done := [] + zero;
      before := log.events;
      ok := Apply(run, run, task, fuel);
      RanMore(start, before, log.events, ok, done, body, Some(after), all);
      if !ok {
        return;
      }
      done, before := done + body.value, log.events;
      assert all.value == done + (capture + (exclude + html)) && html == html + [];
      ok := RunMaybe(Some(plan.capture), c);
      RanNext(start, before, log.events, ok, done, capture, exclude + html, all.value);
      if !ok {
        return;
      }
      done, before := done + capture, log.events;
      ok := RunMaybe(plan.exclude, c);
      RanNext(start, before, log.events, ok, done, exclude, html, all.value);
      if !ok {
        return;
      }
      done, before := done + exclude, log.events;
      ok := RunMaybe(plan.html, c);
      RanNext(start, before, log.events, ok, done, html, [], all.value);
      if ok {
        RanAll(start, log.events, done + html, all.value);
      }
    }

    method ApplyLcov(run: seq<string>, task: TaskValue, plan: LcovPlan, newPatterns: seq<Pattern>, ghost fuel: nat)
      returns (ok: bool)
      requires Ready() && ExecutedLcov(Top(), fuel, run, task, plan, Combinations(newPatterns)).Some?
      modifies log
      ensures Ran(old(log.events), log.events, ok,
                  ExecutedLcov(Top(), fuel, run, task, plan, Combinations(newPatterns)).value)
      decreases fuel, 2
    {
      hide Trace, Succeeds, Ran, ExecutedAll, Combinations, Around;
      var combos := VisitCombinations(newPatterns);
      ghost var w, start, done := Top(), log.events, [];
      ghost var all := ExecutedLcov(w, fuel, run, task, plan, combos);
      RanNothing(start);
      PrependNothing(all);
      for n := 0 to |combos|
        invariant Ran(start, log.events, true, done)
        invariant all == Prepend(done, ExecutedLcov(w, fuel, run, task, plan, combos[n..]))
      {
        ghost var rest, before := combos[n..], log.events;
        ghost var now := Around(plan, combos[n], ExecutedAll(w, fuel, run, run, task), dirs);
        ghost var later := ExecutedLcov(w, fuel, run, task, plan, rest[1..]);
        assert all == Prepend(done, Then(now, later));
        ok := RunBracket(plan, combos[n], run, task, fuel);
        RanMore(start, before, log.events, ok, done, now, later, all);
        if !ok {
          return;
        }
        done := done + now.value;
        assert rest[1..] == combos[n + 1..];
      }
      RanToEnd(start, log.events, done, all);
      ok := true;
    }

    /** `run_target`: run the commands, themselves replaced, under every combination. */
    method RunTarget(commands: seq<string>, task: TaskValue, newPatterns: seq<Pattern>, ghost fuel: nat)
      returns (ok: bool)
      requires Ready() && ExecutedTarget(Top(), fuel, commands, task, Combinations(newPatterns)).Some?
      modifies log
      ensures Ran(old(log.events), log.events, ok,
                  ExecutedTarget(Top(), fuel, commands, task, Combinations(newPatterns)).value)
      decreases fuel, 2
    {
      hide Trace, Succeeds, Ran, ExecutedAll, Combinations, ReplaceTask, ReplaceIn;
      var combos := VisitCombinations(newPatterns);
      ghost var w, start, done := Top(), log.events, [];
      ghost var all := ExecutedTarget(w, fuel, commands, task, combos);
      RanNothing(start);
      PrependNothing(all);
      for n := 0 to |combos|
        invariant Ran(start, log.events, true, done)
        invariant all == Prepend(done, ExecutedTarget(w, fuel, commands, task, combos[n..]))
      {
        ghost var rest, before, run := combos[n..], log.events, ReplaceEach(commands, combos[n]);
        ghost var now := ExecutedAll(w, fuel, run, run, ReplaceTask(task, combos[n], dirs));
        ghost var later := ExecutedTarget(w, fuel, commands, task, rest[1..]);
        assert all == Prepend(done, Then(now, later));
        ok := RunTargetOnce(commands, task, combos[n], fuel);
        RanMore(start, before, log.events, ok, done, now, later, all);
        if !ok {
          return;
        }
        done := done + now.value;
        assert rest[1..] == combos[n + 1..];
      }
      RanToEnd(start, log.events, done, all);
      ok := true;
    }

    method RunTargetOnce(commands: seq<string>, task: TaskValue, c: Combination, ghost fuel: nat) returns (ok: bool)
      requires Ready()
      requires ExecutedAll(Top(), fuel, ReplaceEach(commands, c), ReplaceEach(commands, c),
                           ReplaceTask(task, c, dirs)).Some?
      modifies log
      ensures Ran(old(log.events), log.events, ok,
                  ExecutedAll(Top(), fuel, ReplaceEach(commands, c), ReplaceEach(commands, c),
                              ReplaceTask(task, c, dirs)).value)
      decreases fuel, 2, 0
    {
      hide *;
      var toExecute := ReplaceCommands(commands, c);
      var newTask := ReplacePatternCombinations(task, c, dirs);
      ok := Apply(toExecute, toExecute, newTask, fuel);
    }

    method ReplaceCommands(commands: seq<string>, c: Combination) returns (replaced: seq<string>)
      ensures replaced == ReplaceEach(commands, c)
    {
      hide ReplaceIn;
      replaced := [];
      for i := 0 to |commands|
        invariant replaced == ReplaceEach(commands, c)[..i]
      {
        var command := ReplaceElement(commands[i], c);
        replaced := replaced + [command];
      }
      assert ReplaceEach(commands, c)[..|commands|] == ReplaceEach(commands, c);
    }

    /** Let the script run, then register the tasks it asked for. */
    method ApplyLua(script: LuaRun, newPatterns: seq<Pattern>, ghost fuel: nat) returns (ok: bool)
      requires Ready() && ExecutedLua(Top(), fuel, script, Combinations(newPatterns)).Some?
      modifies log
      ensures Ran(old(log.events), log.events, ok, ExecutedLua(Top(), fuel, script, Combinations(newPatterns)).value)
      decreases fuel, 3
    {
      hide Trace, Succeeds, Ran, ExecutedTarget, Combinations, ByTask, Settled;
      ghost var w, combos := Top(), Combinations(newPatterns);
      ghost var start, done := log.events, [];
      ghost var all := ExecutedLua(w, fuel, script, combos);
      RanNothing(start);
      PrependNothing(all);
      var run := script;
      while run.Target?
        invariant Ran(start, log.events, true, done)
        invariant all == Prepend(done, ExecutedLua(w, fuel, run, combos))
        decreases run
      {
        ghost var before := log.events;
        ghost var target := ExecutedTarget(w, fuel, run.commands, run.task, combos);
        var success := RunTarget(run.commands, run.task, newPatterns, fuel);
        ghost var now := Settled(Trace(target.value));
        RanCaught(before, log.events, success, target.value);
        RanThen(start, before, log.events, true, done, now);
        run := if success then run.onSuccess else run.onFailure;
        PrependTwice(done, now, ExecutedLua(w, fuel, run, combos));
        done := done + now;
      }
      ghost var before := log.events;
      match run
      case Finish(tasks) =>
        ok := RegisterByTask(log, tasks, newPatterns, dirs);
        RanThen(start, before, log.events, ok, done, ByTask(tasks, combos, dirs));
      case Error =>
        RanFail(before, [Fail]);
        RanThen(start, before, before, false, done, [Fail]);
        ok := false;
    }
  }
}

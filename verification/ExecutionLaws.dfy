/**
  Laws of what is executed: lists of commands and of combinations are executed in parts, a command
  configures the plugins it lists, and scripts go on after a target as it ended.
 */
module ExecutionLaws {
  import opened Options
  import opened SettingsTree
  import opened SettingsLaws
  import opened Tasks
  import opened PluginUtils
  import opened Steps
  import opened Variables
  import opened CommandLineCommands
  import opened Plugins
  import opened Executions

  // -------- one after the other --------

  /** The second part is executed exactly if the first one ends and succeeds. */
  lemma ThenRuns(now: Execution, later: Execution)
    ensures var both := Then(now, later);
            && (both.Some? <==> now.Some? && (Succeeds(now.value) ==> later.Some?))
            && (both.Some? ==>
                  && (Succeeds(both.value) <==> Succeeds(now.value) && Succeeds(later.value))
                  && Trace(both.value) == Trace(now.value) + if Succeeds(now.value) then Trace(later.value) else [])
  {
    hide Trace, Succeeds;
    if now.Some? && later.Some? {
      TraceAppend(now.value, later.value);
    }
    if now.Some? {
      assert Trace(now.value) + [] == Trace(now.value);
    }
  }

  lemma ThenThen(a: Execution, b: Execution, c: Execution)
    ensures Then(Then(a, b), c) == Then(a, Then(b, c))
  {
    hide Succeeds;
    if a.Some? && b.Some? {
      TraceAppend(a.value, b.value);
      if c.Some? {
        assert (a.value + b.value) + c.value == a.value + (b.value + c.value);
      }
    }
  }

  lemma ThenNothing(e: Execution)
    ensures Then(e, Some([])) == e && Then(Some([]), e) == e
  {
    if e.Some? {
      assert e.value + [] == e.value && [] + e.value == e.value;
    }
  }

  lemma {:induction false} AllInParts(w: World, fuel: nat, a: seq<string>, b: seq<string>, ia: seq<string>,
                                      ib: seq<string>, task: TaskValue)
    requires |a| == |ia| && |b| == |ib|
    ensures ExecutedAll(w, fuel, a + b, ia + ib, task) ==
            Then(ExecutedAll(w, fuel, a, ia, task), ExecutedAll(w, fuel, b, ib, task))
  {
    hide ExecutedOne, Then;
    if a == [] {
      assert a + b == b && ia + ib == ib;
      ThenNothing(ExecutedAll(w, fuel, b, ib, task));
    } else {
      assert (a + b)[1..] == a[1..] + b && (ia + ib)[1..] == ia[1..] + ib;
      AllInParts(w, fuel, a[1..], b, ia[1..], ib, task);
      ThenThen(ExecutedOne(w, fuel, a[0], ia[0], task), ExecutedAll(w, fuel, a[1..], ia[1..], task),
               ExecutedAll(w, fuel, b, ib, task));
    }
  }

  lemma AllOfOne(w: World, fuel: nat, command: string, initial: string, task: TaskValue)
    ensures ExecutedAll(w, fuel, [command], [initial], task) == ExecutedOne(w, fuel, command, initial, task)
  {
    hide ExecutedOne, Then;
    ThenNothing(ExecutedOne(w, fuel, command, initial, task));
    assert [command][1..] == [];
  }

  // -------- combination by combination --------

  lemma {:induction false} ValgrindInParts(w: World, fuel: nat, run: seq<string>, task: TaskValue,
                                           a: seq<Combination>, b: seq<Combination>)
    ensures ExecutedValgrind(w, fuel, run, task, a + b) ==
            Then(ExecutedValgrind(w, fuel, run, task, a), ExecutedValgrind(w, fuel, run, task, b))
  {
    hide ExecutedAll, Then, ReplaceTask;
    if a == [] {
      assert a + b == b;
      ThenNothing(ExecutedValgrind(w, fuel, run, task, b));
    } else {
      assert (a + b)[1..] == a[1..] + b;
      ValgrindInParts(w, fuel, run, task, a[1..], b);
      ThenThen(ExecutedAll(w, fuel, run, run, ReplaceTask(task, a[0], w.dirs)),
               ExecutedValgrind(w, fuel, run, task, a[1..]), ExecutedValgrind(w, fuel, run, task, b));
    }
  }

  /** Under one combination: the run command with the replaced task. */
  lemma ValgrindOfOne(w: World, fuel: nat, run: seq<string>, task: TaskValue, c: Combination)
    ensures ExecutedValgrind(w, fuel, run, task, [c]) ==
            ExecutedAll(w, fuel, run, run, ReplaceTask(task, c, w.dirs))
  {
    hide ExecutedAll, Then, ReplaceTask;
    ThenNothing(ExecutedAll(w, fuel, run, run, ReplaceTask(task, c, w.dirs)));
    assert [c][1..] == [];
  }

  lemma {:induction false} LcovInParts(w: World, fuel: nat, run: seq<string>, task: TaskValue, plan: LcovPlan,
                                       a: seq<Combination>, b: seq<Combination>)
    ensures ExecutedLcov(w, fuel, run, task, plan, a + b) ==
            Then(ExecutedLcov(w, fuel, run, task, plan, a), ExecutedLcov(w, fuel, run, task, plan, b))
  {
    hide ExecutedAll, Then, Around;
    if a == [] {
      assert a + b == b;
      ThenNothing(ExecutedLcov(w, fuel, run, task, plan, b));
    } else {
      assert (a + b)[1..] == a[1..] + b;
      LcovInParts(w, fuel, run, task, plan, a[1..], b);
      ThenThen(Around(plan, a[0], ExecutedAll(w, fuel, run, run, task), w.dirs),
               ExecutedLcov(w, fuel, run, task, plan, a[1..]), ExecutedLcov(w, fuel, run, task, plan, b));
    }
  }

  /** What registering the replaced task leaves in the log, if there is a task. */
  function Logged(t: Option<TaskValue>, c: Combination, dirs: Dirs): seq<Event> {
    if t.None? then [] else [Registered(ReplaceTask(t.value, c, dirs))]
  }

  /**
    Under one combination: the run command with the task as it came, after zeroing the counters; and
    if it succeeds, capture, exclude and report in that order.
   */
  lemma LcovOfOne(w: World, fuel: nat, run: seq<string>, task: TaskValue, plan: LcovPlan, c: Combination)
    ensures var body := ExecutedAll(w, fuel, run, run, task); var all := ExecutedLcov(w, fuel, run, task, plan, [c]);
            && (all.Some? <==> body.Some?)
            && (all.Some? ==>
                  && (Succeeds(all.value) <==> Succeeds(body.value))
                  && Trace(all.value) ==
                     Logged(plan.zero, c, w.dirs) + Trace(body.value) +
                     if !Succeeds(body.value) then [] else
                       Logged(Some(plan.capture), c, w.dirs) + Logged(plan.exclude, c, w.dirs)
                       + Logged(plan.html, c, w.dirs))
  {
    hide ExecutedAll, Maybe, Succeeds, Trace, Logged;
    var body := ExecutedAll(w, fuel, run, run, task);
    ThenNothing(Around(plan, c, body, w.dirs));
    assert [c][1..] == [];
    AroundEnds(plan, c, body, w.dirs);
    var zero, capture := Maybe(plan.zero, c, w.dirs), Maybe(Some(plan.capture), c, w.dirs);
    var exclude, html := Maybe(plan.exclude, c, w.dirs), Maybe(plan.html, c, w.dirs);
    MaybeLogs(plan.zero, c, w.dirs);
    MaybeLogs(Some(plan.capture), c, w.dirs);
    MaybeLogs(plan.exclude, c, w.dirs);
    MaybeLogs(plan.html, c, w.dirs);
    TraceAppend(exclude, html);
    TraceAppend(capture, exclude + html);
    var after := Some(capture + (exclude + html));
    ThenRuns(body, after);
    ThenRuns(Some(zero), Then(body, after));
    assert capture + (exclude + html) == after.value;
    assert Trace(capture) + (Trace(exclude) + Trace(html)) == Trace(capture) + Trace(exclude) + Trace(html);
  }

  lemma MaybeLogs(t: Option<TaskValue>, c: Combination, dirs: Dirs)
    ensures Succeeds(Maybe(t, c, dirs)) && Trace(Maybe(t, c, dirs)) == Logged(t, c, dirs)
  {
    hide ReplaceTask;
    assert Trace([]) == [];
  }

  lemma {:induction false} TargetInParts(w: World, fuel: nat, commands: seq<string>, task: TaskValue,
                                         a: seq<Combination>, b: seq<Combination>)
    ensures ExecutedTarget(w, fuel, commands, task, a + b) ==
            Then(ExecutedTarget(w, fuel, commands, task, a), ExecutedTarget(w, fuel, commands, task, b))
  {
    hide ExecutedAll, Then, ReplaceTask, ReplaceIn;
    if a == [] {
      assert a + b == b;
      ThenNothing(ExecutedTarget(w, fuel, commands, task, b));
    } else {
      assert (a + b)[1..] == a[1..] + b;
      TargetInParts(w, fuel, commands, task, a[1..], b);
      var run := ReplaceEach(commands, a[0]);
      ThenThen(ExecutedAll(w, fuel, run, run, ReplaceTask(task, a[0], w.dirs)),
               ExecutedTarget(w, fuel, commands, task, a[1..]), ExecutedTarget(w, fuel, commands, task, b));
    }
  }

  /** Under one combination: the replaced commands with the replaced task. */
  lemma TargetOfOne(w: World, fuel: nat, commands: seq<string>, task: TaskValue, c: Combination, run: seq<string>)
    requires |run| == |commands| && forall i :: 0 <= i < |run| ==> run[i] == ReplaceIn(commands[i], c)
    ensures ExecutedTarget(w, fuel, commands, task, [c]) ==
            ExecutedAll(w, fuel, run, run, ReplaceTask(task, c, w.dirs))
  {
    hide ExecutedAll, Then, ReplaceTask, ReplaceIn;
    assert run == ReplaceEach(commands, c);
    ThenNothing(ExecutedAll(w, fuel, run, run, ReplaceTask(task, c, w.dirs)));
    assert [c][1..] == [];
  }

  // -------- scripts --------

  /** Whether it succeeds or fails, a target leaves its events; the script goes on accordingly and decides alone. */
  lemma ScriptGoesOn(w: World, fuel: nat, task: TaskValue, commands: seq<string>, onSuccess: LuaRun, onFailure: LuaRun,
                     combos: seq<Combination>)
    requires ExecutedTarget(w, fuel, commands, task, combos).Some?
    ensures var target := ExecutedTarget(w, fuel, commands, task, combos).value;
            var rest := ExecutedLua(w, fuel, if Succeeds(target) then onSuccess else onFailure, combos);
            var all := ExecutedLua(w, fuel, Target(task, commands, onSuccess, onFailure), combos);
            && (all.Some? <==> rest.Some?)
            && (all.Some? ==> (Succeeds(all.value) <==> Succeeds(rest.value)))
            && (all.Some? ==> Trace(all.value) == Trace(target) + Trace(rest.value))
  {
    hide ExecutedTarget, Succeeds, Trace;
    var target := ExecutedTarget(w, fuel, commands, task, combos).value;
    var rest := ExecutedLua(w, fuel, if Succeeds(target) then onSuccess else onFailure, combos);
    SettledRuns(Trace(target));
    if rest.Some? {
      TraceAppend(Settled(Trace(target)), rest.value);
    }
  }

  // -------- commands and the plugins they list --------

  lemma CommandRuns(w: World, fuel: nat, command: string, initial: string, commands: seq<string>, task: TaskValue)
    requires NextStep(w, command) == Some(UseCommands(commands)) && IndexableFor(w.settings, command, initial)
    ensures ExecutedOne(w, fuel + 1, command, initial, task) ==
            ExecutedAll(w, fuel, commands, Repeat(command, |commands|), task)
  {
    hide NextStep, IndexableFor, ExecutedAll;
  }

  /** A plugin that a command lists gets the settings of the plugin for that command, whatever led to the command. */
  lemma CommandConfigures(w: World, fuel: nat, command: string, initial: string, name: string, plugin: Plugin,
                          task: TaskValue)
    requires command !in w.plugins && command !in w.builtin && Get(w.settings, [command]) == Some([name])
    requires NextStep(w, name) == Some(UsePlugin(plugin))
    requires IndexableFor(w.settings, command, initial) && IndexableFor(w.settings, name, command)
    ensures var vars := VariablesFor(Defaults(UsePlugin(plugin), w.fleeting), w.settings, name, command);
            ExecutedOne(w, fuel + 2, command, initial, task) ==
            ExecutedPlugin(w, fuel, plugin, vars, NextPatterns(vars, w.patterns), task)
  {
    hide ExecutedPlugin, VariablesFor, Defaults, IndexableFor, Get;
    CommandRuns(w, fuel + 1, command, initial, [name], task);
    AllOfOne(w, fuel + 1, name, command, task);
    assert Repeat(command, 1) == [command];
    assert ExecutedOne(w, fuel + 2, command, initial, task) == ExecutedOne(w, fuel + 1, name, command, task);
  }

  lemma CommandDefaults(fleeting: Fleeting)
    ensures Defaults(UsePlugin(CommandPlugin), fleeting) ==
            Node("commands", [Node("commands", Leaves(fleeting.commands))])
    ensures Get(Defaults(UsePlugin(CommandPlugin), fleeting), ["commands"]) == Some(fleeting.commands)
  {
    var leaf, kid := Leaf("commands"), Node("commands", Leaves(fleeting.commands));
    assert ["commands"][1..] == [];
    assert Ensure(leaf, "commands") == Node("commands", [Leaf("commands")]);
    assert Find([Leaf("commands")], "commands") == 0;
    assert AddAt(Leaf("commands"), [], fleeting.commands) == kid;
    assert [Leaf("commands")][0 := kid] == [kid];
    assert Find([kid], "commands") == 0;
    assert Keys(Leaves(fleeting.commands)) == fleeting.commands;
  }

  /**
    The commands plugin executes the commands that the settings list for it, those for the command
    that led to it first, and the commands of this run only if there are none.
   */
  lemma CommandsAreListed(w: World, fuel: nat, command: string, initial: string, task: TaskValue)
    requires NextStep(w, command) == Some(UsePlugin(CommandPlugin)) && IndexableFor(w.settings, command, initial)
    ensures var listed := Or(Says(w.settings, [command, initial], "commands"), Says(w.settings, [command], "commands"));
            var commands := listed.GetOr(w.fleeting.commands);
            ExecutedOne(w, fuel + 1, command, initial, task) == ExecutedAll(w, fuel, commands, commands, task)
  {
    hide ExecutedAll, VariablesFor, Says, IndexableFor, Get, Leaves, NextStep, NextPatterns;
    var defaults := Defaults(UsePlugin(CommandPlugin), w.fleeting);
    CommandDefaults(w.fleeting);
    assert DistinctKids(defaults);
    EverySetting(defaults, w.settings, command, initial, "commands");
    var next := UsePlugin(CommandPlugin);
    var vars := NextVariables(w, next, command, initial);
    var patterns := NextPatterns(vars, w.patterns);
    assert Get(vars, [COMMANDS]).Some?;
    assert ExecutedOne(w, fuel + 1, command, initial, task) == ExecutedNext(w, fuel, next, command, initial, task);
    assert ExecutedNext(w, fuel, next, command, initial, task) ==
           ExecutedPlugin(w, fuel, CommandPlugin, vars, patterns, task);
  }

  /** Under its own name it executes what is listed under that name. */
  lemma OwnNameIsListed(w: World, fuel: nat, task: TaskValue)
    requires NextStep(w, "commands") == Some(UsePlugin(CommandPlugin))
    requires Get(w.settings, ["commands"]).Some? && !Contains(w.settings, ["commands", "commands"])
    ensures var commands := Get(w.settings, ["commands"]).value;
            ExecutedOne(w, fuel + 1, "commands", "commands", task) == ExecutedAll(w, fuel, commands, commands, task)
  {
    hide ExecutedAll, ExecutedOne, At, NextStep;
    CommandsAreListed(w, fuel, "commands", "commands", task);
    if Configured(w.settings, ["commands"], "commands").Some? {
      SettingsPathsBelow(w.settings);
    }
  }

  lemma SettingsPathsBelow(settings: Tree)
    requires Contains(settings, ["commands"]) && Has(At(settings, ["commands"]), "commands")
    ensures Contains(settings, ["commands", "commands"])
  {
    assert ["commands", "commands"][1..] == ["commands"] && ["commands"][1..] == [];
  }
}

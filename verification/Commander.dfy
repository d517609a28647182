/** The commander: set the contexts up, execute the commands of this run, and take the contexts down. */
module Commanders {
  import opened OrderedMaps
  import opened SettingsTree
  import opened Tasks
  import opened PatternsHandlers
  import opened PluginUtils
  import opened Steps
  import opened Plugins
  import opened Executions
  import opened FlatExecutions
  import opened ExecutePlugins

  const WORKING_DIR_PATTERN_KEY := "EH_WORKING_DIR"

  function WithPredefined(patterns: seq<Pattern>, dirs: Dirs): seq<Pattern> {
    patterns + [Pattern(WORKING_DIR_PATTERN_KEY, [dirs.current])]
  }

  /** The predefined pattern counts unless one with its key is configured. */
  lemma Predefined(patterns: seq<Pattern>, dirs: Dirs, key: string)
    ensures var all := Handler(WithPredefined(patterns, dirs)).at;
            && (key in all <==> key in Handler(patterns).at || key == WORKING_DIR_PATTERN_KEY)
            && (key in Handler(patterns).at ==> all[key] == Handler(patterns).at[key])
            && (key in all && key !in Handler(patterns).at ==> all[key].values == [dirs.current])
  {
    hide Emplace;
    var all := WithPredefined(patterns, dirs);
    FirstOf(all, patterns, |patterns|);
    assert FirstUpTo(all, |all|) == Emplace(FirstUpTo(all, |patterns|), WORKING_DIR_PATTERN_KEY, all[|patterns|]);
  }

  lemma {:induction false} FirstOf(all: seq<Pattern>, patterns: seq<Pattern>, n: nat)
    requires patterns <= all && n <= |patterns|
    ensures FirstUpTo(all, n) == FirstUpTo(patterns, n)
  {
    hide Emplace, Sorted, KeySet;
    if n > 0 { FirstOf(all, patterns, n - 1); }
  }

  /** What the dispatcher sees during a run. */
  function RunWorld(fleeting: Fleeting, settings: Tree, patterns: seq<Pattern>, plugins: map<string, Plugin>,
                    builtin: map<string, Plugin>, dirs: Dirs): World
  {
    World(fleeting, settings, Handler(WithPredefined(patterns, dirs)), plugins, builtin, dirs)
  }

  /**
    The commands of this run are executed from an empty task with the given environment and
    directory; on a ranked world that is their flattening.  Afterwards the context stacks are as
    before; but a run without commands leaves its own contexts behind.
   */
  method Run(ctx: ExecutePlugin, fleeting: Fleeting, settings: Tree, patterns: seq<Pattern>, workingDirectory: string,
             env: OrderedMap<string>, plugins: map<string, Plugin>, ghost fuel: nat)
    returns (ok: bool)
    requires ExecutedAll(RunWorld(fleeting, settings, patterns, plugins, ctx.builtin, ctx.dirs), fuel,
                         fleeting.commands, fleeting.commands, NewTask([], env, workingDirectory, ctx.dirs)).Some?
    modifies ctx, ctx.log
    ensures fleeting.commands == [] ==>
              && !ok && ctx.log.events == old(ctx.log.events)
              && ctx.fleeting == old(ctx.fleeting) + [fleeting] && ctx.settings == old(ctx.settings) + [settings]
              && ctx.patterns == old(ctx.patterns) + [Handler(WithPredefined(patterns, ctx.dirs))]
              && ctx.plugins == old(ctx.plugins) + [plugins]
    ensures fleeting.commands != [] ==>
              && ctx.fleeting == old(ctx.fleeting) && ctx.settings == old(ctx.settings)
              && ctx.patterns == old(ctx.patterns) && ctx.plugins == old(ctx.plugins)
    ensures fleeting.commands != [] ==>
              var w := RunWorld(fleeting, settings, patterns, plugins, ctx.builtin, ctx.dirs);
              var task := NewTask([], env, workingDirectory, ctx.dirs);
              && Ran(old(ctx.log.events), ctx.log.events, ok,
                     ExecutedAll(w, fuel, fleeting.commands, fleeting.commands, task).value)
              && forall rank: Ranks, bound: nat ::
                   Certified(w, rank) && Below(rank, fleeting.commands, fleeting.commands, bound) ==>
                     Ran(old(ctx.log.events), ctx.log.events, ok,
                         StepsAll(w, rank, fleeting.commands, fleeting.commands, task, bound))
  {
    hide Certified, Below, StepsAll, Ran, Handler, ExecutedAll;
    ghost var w := RunWorld(fleeting, settings, patterns, plugins, ctx.builtin, ctx.dirs);
    ghost var before := ctx.log.events;
    var allPatterns := WithPredefined(patterns, ctx.dirs);
    ctx.PushFleeting(fleeting);
    ctx.PushSettings(settings);
    ctx.PushPatterns(allPatterns);
    ctx.PushPlugins(plugins);
    var task := new Task([], env, workingDirectory, ctx.dirs);
    var commands := fleeting.commands;
    if commands == [] {
      return false;
    }
    assert ctx.Top() == w;
    ghost var template := task.Value();
    ok := ctx.Apply(commands, commands, task.Value(), fuel);
    forall rank: Ranks, bound: nat | Certified(w, rank) && Below(rank, commands, commands, bound)
      ensures Ran(before, ctx.log.events, ok, StepsAll(w, rank, commands, commands, template, bound))
    {
      RanFlattening(w, fuel, commands, template, rank, bound, before, ctx.log.events, ok);
    }
    ctx.PopAll();
  }
}

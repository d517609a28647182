/** The command graph: a world can be ranked exactly if its commands do not run in circles. */
module CommandGraphs {
  import opened SettingsTree
  import opened Tasks
  import opened PluginUtils
  import opened Variables
  import opened CommandLineCommands
  import opened LuaPlugins
  import opened Plugins
  import opened AcyclicGraphs

  /** A command and the command that led to it. */
  type Call = (string, string)

  ghost predicate LuaRuns(run: LuaRun, combos: seq<Combination>, command: string) {
    match run
    case Finish(_) => false
    case Error => false
    case Target(_, commands, onSuccess, onFailure) =>
      || (exists i :: 0 <= i < |combos| && command in ReplaceEach(commands, combos[i]))
      || LuaRuns(onSuccess, combos, command) || LuaRuns(onFailure, combos, command)
  }

  ghost predicate PluginRuns(w: World, plugin: Plugin, vars: Tree, patterns: seq<Pattern>, command: string) {
    match plugin
    case CommandLine => false
    case Memory(_) => false
    case Tool(_, _, _) => false
    case Valgrind(_, _, _) => command in Get(vars, [RUN_COMMAND]).GetOr([])
    case Lcov(_, _, _) => command in Get(vars, [RUN_COMMAND]).GetOr([])
    case CommandPlugin => command in Get(vars, [COMMANDS]).GetOr([])
    case Lua(_, script) =>
      exists task: TaskValue ::
        LuaRuns(script(LuaTask(task, vars, w.dirs), vars, patterns), Combinations(patterns), command)
  }

  /** Executing `p` executes `q`: through a list of commands in the settings, or through a plugin. */
  ghost predicate Runs(w: World, p: Call, q: Call) {
    match NextStep(w, p.0)
    case None => false
    case Some(UseCommands(commands)) => q.1 == p.0 && q.0 in commands
    case Some(UsePlugin(plugin)) =>
      && q.1 == q.0 && IndexableFor(w.settings, p.0, p.1)
      && var vars := NextVariables(w, UsePlugin(plugin), p.0, p.1);
         PluginRuns(w, plugin, vars, NextPatterns(vars, w.patterns), q.0)
  }

  /** The settings that are read without asking have values. */
  ghost predicate Defined(w: World, p: Call) {
    match NextStep(w, p.0)
    case None => true
    case Some(next) =>
      && IndexableFor(w.settings, p.0, p.1)
      && var vars := NextVariables(w, next, p.0, p.1);
         next.UsePlugin? ==> ReadsFound(next.plugin, vars)
  }

  ghost function Edges(w: World): (Call, Call) -> bool {
    (p, q) => Runs(w, p, q)
  }

  lemma BelowEach(rank: Ranks, commands: seq<string>, bound: nat)
    ensures Below(rank, commands, commands, bound) <==>
            forall c :: c in commands ==> (c, c) in rank && rank[(c, c)] < bound
  {
  }

  lemma {:induction false} LuaBelowEach(rank: Ranks, run: LuaRun, combos: seq<Combination>, bound: nat)
    ensures LuaBelow(rank, run, combos, bound) <==>
            forall c :: LuaRuns(run, combos, c) ==> (c, c) in rank && rank[(c, c)] < bound
    decreases run
  {
    hide Below, ReplaceEach;
    match run
    case Finish(_) =>
    case Error =>
    case Target(_, commands, onSuccess, onFailure) =>
      LuaBelowEach(rank, onSuccess, combos, bound);
      LuaBelowEach(rank, onFailure, combos, bound);
      forall i | 0 <= i < |combos|
        ensures Below(rank, ReplaceEach(commands, combos[i]), ReplaceEach(commands, combos[i]), bound) <==>
                forall c :: c in ReplaceEach(commands, combos[i]) ==> (c, c) in rank && rank[(c, c)] < bound
      {
        BelowEach(rank, ReplaceEach(commands, combos[i]), bound);
      }
  }

  lemma PluginReadyIff(w: World, rank: Ranks, plugin: Plugin, vars: Tree, patterns: seq<Pattern>, bound: nat)
    ensures PluginReady(w, rank, plugin, vars, patterns, bound) <==>
            && ReadsFound(plugin, vars)
            && forall c :: PluginRuns(w, plugin, vars, patterns, c) ==> (c, c) in rank && rank[(c, c)] < bound
  {
    hide LuaBelow, LuaRuns, CommandLineDefined, LuaTask, Combinations, Get;
    match plugin
    case Valgrind(_, _, _) => BelowEach(rank, Get(vars, [RUN_COMMAND]).GetOr([]), bound);
    case Lcov(_, _, _) => BelowEach(rank, Get(vars, [RUN_COMMAND]).GetOr([]), bound);
    case CommandPlugin => BelowEach(rank, Get(vars, [COMMANDS]).GetOr([]), bound);
    case Lua(_, script) =>
      forall task: TaskValue
        ensures LuaBelow(rank, script(LuaTask(task, vars, w.dirs), vars, patterns), Combinations(patterns), bound) <==>
                forall c :: LuaRuns(script(LuaTask(task, vars, w.dirs), vars, patterns), Combinations(patterns), c) ==>
                  (c, c) in rank && rank[(c, c)] < bound
      {
        LuaBelowEach(rank, script(LuaTask(task, vars, w.dirs), vars, patterns), Combinations(patterns), bound);
      }
    case _ =>
  }

  lemma ReadyIff(w: World, rank: Ranks, p: Call, bound: nat)
    ensures CommandReady(w, rank, p.0, p.1, bound) <==> Defined(w, p) && Lower(rank, p, bound, Edges(w))
  {
    hide NextStep, PluginReady, PluginRuns, NextVariables, NextPatterns, IndexableFor, CommandLineDefined;
    match NextStep(w, p.0)
    case None =>
    case Some(UseCommands(commands)) =>
      assert Below(rank, commands, Repeat(p.0, |commands|), bound) <==>
             forall c :: c in commands ==> (c, p.0) in rank && rank[(c, p.0)] < bound;
      assert forall q :: Edges(w)(p, q) <==> q.1 == p.0 && q.0 in commands;
    case Some(UsePlugin(plugin)) =>
      if IndexableFor(w.settings, p.0, p.1) {
        var vars := NextVariables(w, UsePlugin(plugin), p.0, p.1);
        PluginReadyIff(w, rank, plugin, vars, NextPatterns(vars, w.patterns), bound);
      }
  }

  /**
    On a finite set of calls that edges do not leave: they can be ranked exactly if no call leads back
    to itself and the values that are read are there.
   */
  lemma CertifiedIffAcyclic(w: World, calls: set<Call>)
    requires forall p, q :: p in calls && Runs(w, p, q) ==> q in calls
    ensures (exists rank: Ranks :: rank.Keys == calls && Certified(w, rank)) <==>
            (forall p :: p in calls ==> Defined(w, p)) && NoCircles(calls, Edges(w))
  {
    hide CommandReady, Defined, Runs;
    forall rank: Ranks | rank.Keys == calls
      ensures Certified(w, rank) <==> (forall p :: p in calls ==> Defined(w, p)) && Decreasing(rank, Edges(w))
    {
      forall p | p in calls
        ensures CommandReady(w, rank, p.0, p.1, rank[p]) <==> Defined(w, p) && Lower(rank, p, rank[p], Edges(w))
      {
        ReadyIff(w, rank, p, rank[p]);
      }
    }
    assert forall p, q :: Edges(w)(p, q) == Runs(w, p, q);
    RankedIffAcyclic(calls, Edges(w));
  }
}

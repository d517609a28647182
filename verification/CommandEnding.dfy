/**
  When a run ends.  A circle in the command graph does no harm behind a failing command, so what
  counts are live edges: those to commands that are reached because all before them succeed.
  Without Lua plugins, a run ends exactly if no live circle is reached.
 */
module CommandEnding {
  import opened Options
  import opened SettingsTree
  import opened Tasks
  import opened PluginUtils
  import opened Steps
  import opened Variables
  import opened CommandLineCommands
  import opened Plugins
  import opened Executions
  import opened AcyclicGraphs
  import opened CommandGraphs
  import opened CommandTermination

  // -------- which calls a call makes --------

  function Paired(commands: seq<string>, initials: seq<string>): (calls: seq<Call>)
    requires |commands| == |initials|
    ensures |calls| == |commands| && forall i :: 0 <= i < |calls| ==> calls[i] == (commands[i], initials[i])
  {
    seq(|commands|, i requires 0 <= i < |commands| => (commands[i], initials[i]))
  }

  ghost function PluginCalls(plugin: Plugin, vars: Tree, patterns: seq<Pattern>): seq<Call> {
    var run := Get(vars, [RUN_COMMAND]).GetOr([]);
    match plugin
    case Valgrind(_, _, _) => if Combinations(patterns) == [] then [] else Paired(run, run)
    case Lcov(_, _, _) => if Combinations(patterns) == [] then [] else Paired(run, run)
    case CommandPlugin => Paired(Get(vars, [COMMANDS]).GetOr([]), Get(vars, [COMMANDS]).GetOr([]))
    case _ => []
  }

  /** The calls that `p` makes in order, as long as they succeed. */
  ghost function Calls(w: World, p: Call): seq<Call> {
    match NextStep(w, p.0)
    case None => []
    case Some(next) =>
      if !IndexableFor(w.settings, p.0, p.1) then [] else
        match next
        case UseCommands(commands) => Paired(commands, Repeat(p.0, |commands|))
        case UsePlugin(plugin) =>
          var vars := NextVariables(w, next, p.0, p.1);
          PluginCalls(plugin, vars, NextPatterns(vars, w.patterns))
  }

  predicate PluginSucceeds(plugin: Plugin, vars: Tree) {
    match plugin
    case CommandLine => Get(vars, [COMMAND_LINE]).GetOr([]) != []
    case Memory(returnCode) => returnCode
    case Valgrind(_, _, _) => Get(vars, [RUN_COMMAND]).Some?
    case Lcov(_, _, _) => Get(vars, [RUN_COMMAND]).GetOr([]) != []
    case _ => true
  }

  /** Whether `p` succeeds if all calls it makes do. */
  ghost predicate SucceedsItself(w: World, p: Call) {
    match NextStep(w, p.0)
    case None => false
    case Some(next) =>
      next.UsePlugin? && IndexableFor(w.settings, p.0, p.1) ==>
        PluginSucceeds(next.plugin, NextVariables(w, next, p.0, p.1))
  }

  // -------- the verdict on a call --------

  /** Whether `p` succeeds, if that is decided with this fuel. */
  ghost function Verdict(w: World, fuel: nat, p: Call): Option<bool>
    decreases fuel, 0
  {
    if fuel == 0 || !Defined(w, p) then None else
      match VerdictAll(w, fuel - 1, Calls(w, p))
      case None => None
      case Some(ok) => Some(ok && SucceedsItself(w, p))
  }

  ghost function VerdictAll(w: World, fuel: nat, calls: seq<Call>): Option<bool>
    decreases fuel, 1, |calls|
  {
    if calls == [] then Some(true) else
      match Verdict(w, fuel, calls[0])
      case None => None
      case Some(ok) => if ok then VerdictAll(w, fuel, calls[1..]) else Some(false)
  }

  /** The execution ends exactly if there is a verdict, and succeeds if that says so. */
  predicate Judged(e: Execution, verdict: Option<bool>) {
    && (e.Some? <==> verdict.Some?)
    && (e.Some? ==> (Succeeds(e.value) <==> verdict.value))
  }

  lemma JudgedThen(now: Execution, first: Option<bool>, later: Execution, rest: Option<bool>)
    requires Judged(now, first) && (first == Some(true) ==> Judged(later, rest))
    ensures Judged(Then(now, later),
                   match first case None => None case Some(ok) => if ok then rest else Some(false))
  {
    hide Succeeds;
    if now.Some? && later.Some? { TraceAppend(now.value, later.value); }
  }

  /** Without Lua plugins the task does not matter for whether a run ends and succeeds. */
  lemma {:induction false} AllJudged(w: World, fuel: nat, commands: seq<string>, initials: seq<string>, task: TaskValue)
    requires WithoutLua(w) && |commands| == |initials|
    ensures Judged(ExecutedAll(w, fuel, commands, initials, task), VerdictAll(w, fuel, Paired(commands, initials)))
    decreases fuel, 1, |commands|
  {
    hide ExecutedOne, Verdict, Judged, Then;
    if commands == [] {
      NothingJudged();
    } else {
      OneJudged(w, fuel, commands[0], initials[0], task);
      AllJudged(w, fuel, commands[1..], initials[1..], task);
      assert Paired(commands, initials)[1..] == Paired(commands[1..], initials[1..]);
      JudgedThen(ExecutedOne(w, fuel, commands[0], initials[0], task), Verdict(w, fuel, (commands[0], initials[0])),
                 ExecutedAll(w, fuel, commands[1..], initials[1..], task),
                 VerdictAll(w, fuel, Paired(commands[1..], initials[1..])));
    }
  }

  lemma NothingJudged()
    ensures Judged(Some([]), Some(true)) && Judged(Some([Fail]), Some(false)) && Judged(None, None)
  {
  }

  lemma {:induction false} OneJudged(w: World, fuel: nat, command: string, initial: string, task: TaskValue)
    requires WithoutLua(w)
    ensures Judged(ExecutedOne(w, fuel, command, initial, task), Verdict(w, fuel, (command, initial)))
    decreases fuel, 0
  {
    hide ExecutedAll, ExecutedPlugin, VerdictAll, NextVariables, NextPatterns, IndexableFor, Judged, ReadsFound,
      PluginCalls, PluginSucceeds;
    NothingJudged();
    if fuel > 0 {
      match NextStep(w, command)
      case None => assert VerdictAll(w, fuel - 1, []) == Some(true) by { NoCalls(w, fuel - 1); }
      case Some(UseCommands(commands)) =>
        AllJudged(w, fuel - 1, commands, Repeat(command, |commands|), task);
      case Some(UsePlugin(plugin)) =>
        if IndexableFor(w.settings, command, initial) {
          var vars := NextVariables(w, UsePlugin(plugin), command, initial);
          PluginJudged(w, fuel - 1, plugin, vars, NextPatterns(vars, w.patterns), task);
        }
    }
  }

  lemma NoCalls(w: World, fuel: nat)
    ensures VerdictAll(w, fuel, []) == Some(true)
  {
  }

  lemma {:induction false} PluginJudged(w: World, fuel: nat, plugin: Plugin, vars: Tree, patterns: seq<Pattern>,
                                        task: TaskValue)
    requires WithoutLua(w) && !plugin.Lua?
    ensures var all := VerdictAll(w, fuel, PluginCalls(plugin, vars, patterns));
            Judged(ExecutedPlugin(w, fuel, plugin, vars, patterns, task),
                   if !ReadsFound(plugin, vars) || all.None? then None
                   else Some(all.value && PluginSucceeds(plugin, vars)))
    decreases fuel, 4
  {
    hide ExecutedAll, ExecutedValgrind, ExecutedLcov, VerdictAll, Combinations, Get, Judged, ByCombination, Trace,
      CommandLineSteps, CommandLineDefined, Succeeds;
    NothingJudged();
    NoCalls(w, fuel);
    var combos := Combinations(patterns);
    match plugin
    case CommandLine => CommandLineJudged(vars, task, patterns, w.dirs);
    case Memory(returnCode) => MemoryJudged(Remembered(task, vars, patterns), returnCode);
    case Tool(_, _, prepare) =>
      ByCombinationSize([prepare(task, vars)], combos, w.dirs);
      StepsJudged(ByCombination([prepare(task, vars)], combos, w.dirs), true);
    case Valgrind(_, _, prepare) =>
      if Get(vars, [RUN_COMMAND]).Some? {
        ValgrindJudged(w, fuel, Get(vars, [RUN_COMMAND]).value, prepare(task, vars), combos);
      } else {
        assert Paired([], []) == [];
      }
    case Lcov(_, _, plan) =>
      if Get(vars, [RUN_COMMAND]).GetOr([]) != [] {
        LcovJudged(w, fuel, Get(vars, [RUN_COMMAND]).value, task, plan(task, vars), combos);
      } else {
        assert Paired([], []) == [];
      }
    case CommandPlugin =>
      if ReadsFound(plugin, vars) {
        AllJudged(w, fuel, Get(vars, [COMMANDS]).value, Get(vars, [COMMANDS]).value, task);
      }
  }

  lemma StepsJudged(steps: seq<Step>, ok: bool)
    requires Succeeds(steps) <==> ok
    ensures Judged(Some(steps), Some(ok))
  {
  }

  lemma CommandLineJudged(vars: Tree, task: TaskValue, patterns: seq<Pattern>, dirs: Dirs)
    ensures CommandLineDefined(vars) ==>
              Judged(Some(CommandLineSteps(task, vars, patterns, dirs)),
                     Some(Get(vars, [COMMAND_LINE]).GetOr([]) != []))
  {
    hide Succeeds, ByCombination, Combinations, Get, HasValues, BaseTask;
    if CommandLineDefined(vars) {
      if Get(vars, [COMMAND_LINE]).GetOr([]) == [] {
        NothingJudged();
      } else {
        var made := CommandLineTasks(task, vars, dirs);
        ByCombinationSize(made.value, Combinations(patterns), dirs);
      }
    }
  }

  lemma MemoryJudged(event: Event, returnCode: bool)
    ensures Judged(Some([Emit(event)] + if returnCode then [] else [Fail]), Some(returnCode))
  {
    TraceAppend([Emit(event)], if returnCode then [] else [Fail]);
  }

  lemma {:induction false} ValgrindJudged(w: World, fuel: nat, run: seq<string>, task: TaskValue,
                                          combos: seq<Combination>)
    requires WithoutLua(w)
    ensures Judged(ExecutedValgrind(w, fuel, run, task, combos),
                   if combos == [] then Some(true) else VerdictAll(w, fuel, Paired(run, run)))
    decreases fuel, 2, |combos|
  {
    hide ExecutedAll, VerdictAll, ReplaceTask, Judged, Then;
    NothingJudged();
    if combos != [] {
      var t := ReplaceTask(task, combos[0], w.dirs);
      var verdict := VerdictAll(w, fuel, Paired(run, run));
      AllJudged(w, fuel, run, run, t);
      ValgrindJudged(w, fuel, run, task, combos[1..]);
      JudgedThen(ExecutedAll(w, fuel, run, run, t), verdict, ExecutedValgrind(w, fuel, run, task, combos[1..]),
                 if combos[1..] == [] then Some(true) else verdict);
    }
  }

  lemma AroundJudged(plan: LcovPlan, c: Combination, body: Execution, verdict: Option<bool>, dirs: Dirs)
    requires Judged(body, verdict)
    ensures Judged(Around(plan, c, body, dirs), verdict)
  {
    hide Around, Succeeds;
    AroundEnds(plan, c, body, dirs);
  }

  lemma {:induction false} LcovJudged(w: World, fuel: nat, run: seq<string>, task: TaskValue, plan: LcovPlan,
                                      combos: seq<Combination>)
    requires WithoutLua(w)
    ensures Judged(ExecutedLcov(w, fuel, run, task, plan, combos),
                   if combos == [] then Some(true) else VerdictAll(w, fuel, Paired(run, run)))
    decreases fuel, 2, |combos|
  {
    hide ExecutedAll, VerdictAll, Judged, Then, Around;
    NothingJudged();
    if combos != [] {
      var body, verdict := ExecutedAll(w, fuel, run, run, task), VerdictAll(w, fuel, Paired(run, run));
      AllJudged(w, fuel, run, run, task);
      AroundJudged(plan, combos[0], body, verdict, w.dirs);
      LcovJudged(w, fuel, run, task, plan, combos[1..]);
      JudgedThen(Around(plan, combos[0], body, w.dirs), verdict, ExecutedLcov(w, fuel, run, task, plan, combos[1..]),
                 if combos[1..] == [] then Some(true) else verdict);
    }
  }

  // -------- live edges --------

  ghost predicate Good(w: World, p: Call) {
    exists fuel: nat :: Verdict(w, fuel, p) == Some(true)
  }

  /** The `j`-th of the calls is made, because all before it succeed. */
  ghost predicate LiveAt(w: World, calls: seq<Call>, j: nat)
    requires j < |calls|
  {
    forall i :: 0 <= i < j ==> Good(w, calls[i])
  }

  ghost predicate Live(w: World, p: Call, q: Call) {
    Defined(w, p) && exists j :: 0 <= j < |Calls(w, p)| && LiveAt(w, Calls(w, p), j) && Calls(w, p)[j] == q
  }

  ghost function LiveEdges(w: World): (Call, Call) -> bool {
    (p, q) => Live(w, p, q)
  }

  ghost predicate StartsLive(w: World, commands: seq<string>, j: nat)
    requires j < |commands|
  {
    LiveAt(w, Paired(commands, commands), j)
  }

  ghost predicate LiveStart(w: World, commands: seq<string>, path: seq<Call>) {
    path != [] && exists j :: 0 <= j < |commands| && StartsLive(w, commands, j) && path[0] == (commands[j], commands[j])
  }

  /** Executing `commands` gets as far as calling `q`. */
  ghost predicate LiveReached(w: World, commands: seq<string>, q: Call) {
    exists path: seq<Call> :: LiveStart(w, commands, path) && IsPath(path, LiveEdges(w)) && path[|path| - 1] == q
  }

  /** A call gets as far as calling itself. */
  ghost predicate LiveCircular(w: World, q: Call) {
    exists path: seq<Call> :: |path| > 1 && IsPath(path, LiveEdges(w)) && path[0] == q == path[|path| - 1]
  }

  // -------- a run that ends is on no live circle --------

  lemma {:induction false} VerdictStays(w: World, f: nat, g: nat, p: Call)
    requires f <= g && Verdict(w, f, p).Some?
    ensures Verdict(w, g, p) == Verdict(w, f, p)
    decreases f, 0
  {
    hide Defined, Calls, SucceedsItself, VerdictAll;
    VerdictsStay(w, f - 1, g - 1, Calls(w, p));
  }

  lemma {:induction false} VerdictsStay(w: World, f: nat, g: nat, calls: seq<Call>)
    requires f <= g && VerdictAll(w, f, calls).Some?
    ensures VerdictAll(w, g, calls) == VerdictAll(w, f, calls)
    decreases f, 1, |calls|
  {
    hide Verdict;
    if calls != [] {
      VerdictStays(w, f, g, calls[0]);
      if Verdict(w, f, calls[0]) == Some(true) { VerdictsStay(w, f, g, calls[1..]); }
    }
  }

  lemma GoodVerdict(w: World, f: nat, p: Call)
    requires Good(w, p) && Verdict(w, f, p).Some?
    ensures Verdict(w, f, p) == Some(true)
  {
    hide Verdict;
    var g: nat :| Verdict(w, g, p) == Some(true);
    if f <= g { VerdictStays(w, f, g, p); } else { VerdictStays(w, g, f, p); }
  }

  lemma {:induction false} LiveJudged(w: World, f: nat, calls: seq<Call>, j: nat)
    requires j < |calls| && VerdictAll(w, f, calls).Some? && LiveAt(w, calls, j)
    ensures Verdict(w, f, calls[j]).Some?
    decreases j
  {
    hide Verdict, Good;
    if j > 0 {
      GoodVerdict(w, f, calls[0]);
      assert calls[1..][j - 1] == calls[j];
      assert forall i :: 0 <= i < j - 1 ==> calls[1..][i] == calls[i + 1];
      LiveJudged(w, f, calls[1..], j - 1);
    }
  }

  lemma EdgeJudged(w: World, f: nat, p: Call, q: Call)
    requires Verdict(w, f, p).Some? && Live(w, p, q)
    ensures f > 0 && Verdict(w, f - 1, q).Some?
  {
    hide Defined, Calls, SucceedsItself, VerdictAll, LiveAt;
    var j :| 0 <= j < |Calls(w, p)| && LiveAt(w, Calls(w, p), j) && Calls(w, p)[j] == q;
    LiveJudged(w, f - 1, Calls(w, p), j);
  }

  /** A live path uses up fuel. */
  lemma {:induction false} PathJudged(w: World, f: nat, path: seq<Call>)
    requires path != [] && IsPath(path, LiveEdges(w)) && Verdict(w, f, path[0]).Some?
    ensures f >= |path| - 1 && Verdict(w, f - (|path| - 1), path[|path| - 1]).Some?
  {
    hide Verdict, Live;
    if |path| > 1 {
      var front := path[..|path| - 1];
      PathJudged(w, f, front);
      assert LiveEdges(w)(path[|path| - 2], path[|path| - 1]);
      EdgeJudged(w, f - (|front| - 1), front[|front| - 1], path[|path| - 1]);
    }
  }

  lemma {:induction false} JudgedOnNoCircle(w: World, f: nat, path: seq<Call>)
    requires |path| > 1 && IsPath(path, LiveEdges(w)) && path[0] == path[|path| - 1]
    ensures Verdict(w, f, path[0]).None?
    decreases f
  {
    hide Verdict, IsPath;
    if Verdict(w, f, path[0]).Some? {
      PathJudged(w, f, path);
      JudgedOnNoCircle(w, f - (|path| - 1), path);
      assert false;
    }
  }

  lemma JudgedIsFine(w: World, f: nat, q: Call)
    requires Verdict(w, f, q).Some?
    ensures Defined(w, q) && !LiveCircular(w, q)
  {
    hide Live, Defined, IsPath;
    if circle: seq<Call> :| |circle| > 1 && IsPath(circle, LiveEdges(w)) && circle[0] == q == circle[|circle| - 1] {
      JudgedOnNoCircle(w, f, circle);
      assert false;
    }
  }

  lemma ReachedJudged(w: World, fuel: nat, commands: seq<string>, q: Call) returns (f: nat)
    requires VerdictAll(w, fuel, Paired(commands, commands)).Some? && LiveReached(w, commands, q)
    ensures Verdict(w, f, q).Some?
  {
    hide VerdictAll, Verdict, LiveAt, Live, IsPath;
    var path: seq<Call> :| LiveStart(w, commands, path) && IsPath(path, LiveEdges(w)) && path[|path| - 1] == q;
    var j :| 0 <= j < |commands| && StartsLive(w, commands, j) && path[0] == (commands[j], commands[j]);
    LiveJudged(w, fuel, Paired(commands, commands), j);
    PathJudged(w, fuel, path);
    f := fuel - (|path| - 1);
  }

  lemma EndsWithoutCircle(w: World, fuel: nat, commands: seq<string>, q: Call)
    requires VerdictAll(w, fuel, Paired(commands, commands)).Some? && LiveReached(w, commands, q)
    ensures Defined(w, q) && !LiveCircular(w, q)
  {
    hide *;
    var f := ReachedJudged(w, fuel, commands, q);
    JudgedIsFine(w, f, q);
  }

  // -------- a run without live circle ends --------

  lemma {:induction false} LiveGives(w: World, f: nat, calls: seq<Call>)
    requires forall j :: 0 <= j < |calls| && LiveAt(w, calls, j) ==> Verdict(w, f, calls[j]).Some?
    ensures VerdictAll(w, f, calls).Some?
    decreases |calls|
  {
    hide Verdict;
    if calls != [] {
      assert LiveAt(w, calls, 0);
      if Verdict(w, f, calls[0]) == Some(true) {
        assert Good(w, calls[0]);
        forall j | 0 <= j < |calls[1..]| && LiveAt(w, calls[1..], j)
          ensures Verdict(w, f, calls[1..][j]).Some? {
          LiveTail(w, calls, j);
        }
        LiveGives(w, f, calls[1..]);
      }
    }
  }

  lemma LiveTail(w: World, calls: seq<Call>, j: nat)
    requires calls != [] && Good(w, calls[0]) && j < |calls[1..]| && LiveAt(w, calls[1..], j)
    ensures LiveAt(w, calls, j + 1) && calls[1..][j] == calls[j + 1]
  {
    hide Good;
    forall i | 0 <= i < j + 1 ensures Good(w, calls[i]) {
      if i > 0 { assert calls[i] == calls[1..][i - 1]; }
    }
  }

  /** Ranks along live edges are fuel enough. */
  lemma {:induction false} RankGives(w: World, rank: Ranks, p: Call)
    requires Decreasing(rank, LiveEdges(w)) && p in rank && forall q :: q in rank ==> Defined(w, q)
    ensures Verdict(w, rank[p] + 1, p).Some?
    decreases rank[p]
  {
    hide Defined, Calls, SucceedsItself, VerdictAll;
    assert Lower(rank, p, rank[p], LiveEdges(w));
    var calls := Calls(w, p);
    forall j | 0 <= j < |calls| && LiveAt(w, calls, j) ensures Verdict(w, rank[p], calls[j]).Some? {
      assert Live(w, p, calls[j]) && LiveEdges(w)(p, calls[j]);
      RankGives(w, rank, calls[j]);
      VerdictStays(w, rank[calls[j]] + 1, rank[p], calls[j]);
    }
    LiveGives(w, rank[p], calls);
  }

  lemma LiveRuns(w: World, p: Call, q: Call)
    requires Live(w, p, q)
    ensures Runs(w, p, q)
  {
    hide Get, NextVariables, NextPatterns, Combinations, IndexableFor, Good;
    var j :| 0 <= j < |Calls(w, p)| && LiveAt(w, Calls(w, p), j) && Calls(w, p)[j] == q;
    assert q in Calls(w, p);
  }

  lemma OneLiveFurther(w: World, commands: seq<string>, p: Call, q: Call)
    requires LiveReached(w, commands, p) && Live(w, p, q)
    ensures LiveReached(w, commands, q)
  {
    hide Live, LiveAt;
    var path: seq<Call> :| LiveStart(w, commands, path) && IsPath(path, LiveEdges(w)) && path[|path| - 1] == p;
    var longer := path + [q];
    assert LiveEdges(w)(p, q);
    assert IsPath(longer, LiveEdges(w)) && longer[0] == path[0];
    assert LiveStart(w, commands, longer) && longer[|longer| - 1] == q;
  }

  lemma LiveStartReached(w: World, commands: seq<string>, j: nat)
    requires j < |commands| && StartsLive(w, commands, j)
    ensures LiveReached(w, commands, (commands[j], commands[j]))
  {
    hide Live, StartsLive;
    var path: seq<Call> := [(commands[j], commands[j])];
    assert LiveStart(w, commands, path) && IsPath(path, LiveEdges(w));
  }

  lemma EndsIfNoCircle(w: World, commands: seq<string>, universe: set<Call>) returns (fuel: nat)
    requires Closed(w, universe) && forall c :: c in commands ==> (c, c) in universe
    requires forall q :: LiveReached(w, commands, q) ==> Defined(w, q) && !LiveCircular(w, q)
    ensures VerdictAll(w, fuel, Paired(commands, commands)).Some?
  {
    hide Runs, Live, Defined, LiveReached, LiveCircular, NoCircles, LiveAt, Verdict;
    var calls := set q | q in universe && LiveReached(w, commands, q);
    forall p, q | p in calls && LiveEdges(w)(p, q) ensures q in calls {
      OneLiveFurther(w, commands, p, q);
      LiveRuns(w, p, q);
    }
    NoneLiveCircular(w, calls);
    var rank := RanksExist(calls, LiveEdges(w), map[]);
    fuel := TopFuel(w, commands, rank);
    var starts := Paired(commands, commands);
    forall j | 0 <= j < |starts| && LiveAt(w, starts, j) ensures Verdict(w, fuel, starts[j]).Some? {
      assert StartsLive(w, commands, j);
      LiveStartReached(w, commands, j);
      assert starts[j] in calls;
      RankGives(w, rank, starts[j]);
      VerdictStays(w, rank[starts[j]] + 1, fuel, starts[j]);
    }
    LiveGives(w, fuel, starts);
  }

  lemma NoneLiveCircular(w: World, calls: set<Call>)
    requires forall q :: q in calls ==> !LiveCircular(w, q)
    ensures NoCircles(calls, LiveEdges(w))
  {
    hide Live;
    forall path: seq<Call> | |path| > 1 && path[0] in calls && IsPath(path, LiveEdges(w))
      ensures path[0] != path[|path| - 1]
    {
      assert !LiveCircular(w, path[0]);
    }
  }

  lemma {:induction false} TopFuel(w: World, commands: seq<string>, rank: Ranks) returns (fuel: nat)
    ensures forall c :: c in commands && (c, c) in rank ==> rank[(c, c)] < fuel
  {
    fuel := 0;
    if commands != [] {
      var rest := TopFuel(w, commands[1..], rank);
      var first := if (commands[0], commands[0]) in rank then rank[(commands[0], commands[0])] + 1 else 0;
      fuel := if rest > first then rest else first;
      assert commands == [commands[0]] + commands[1..];
    }
  }

  /**
    Whatever the settings and the task: without Lua plugins, a run ends (and meets no missing value)
    exactly if every call it gets to finds the values it reads and does not get to itself again.
   */
  lemma EndsIffNoLiveCircle(w: World, commands: seq<string>, task: TaskValue)
    requires WithoutLua(w)
    ensures (exists fuel: nat :: ExecutedAll(w, fuel, commands, commands, task).Some?) <==>
            forall q :: LiveReached(w, commands, q) ==> Defined(w, q) && !LiveCircular(w, q)
  {
    hide ExecutedAll, VerdictAll, Defined, LiveReached, LiveCircular, Succeeds;
    if fuel: nat :| ExecutedAll(w, fuel, commands, commands, task).Some? {
      AllJudged(w, fuel, commands, commands, task);
      forall q | LiveReached(w, commands, q) ensures Defined(w, q) && !LiveCircular(w, q) {
        EndsWithoutCircle(w, fuel, commands, q);
      }
    }
    if forall q :: LiveReached(w, commands, q) ==> Defined(w, q) && !LiveCircular(w, q) {
      UniverseClosed(w, commands);
      var fuel := EndsIfNoCircle(w, commands, Universe(Vocabulary(w, commands)));
      AllJudged(w, fuel, commands, commands, task);
    }
  }
}

/** The program as a whole: from the environment and the configuration to what is executed. */
module Application {
  import opened Options
  import opened SettingsTree
  import opened Tasks
  import opened PluginUtils
  import opened Steps
  import opened Plugins
  import opened Executions
  import opened ExecutePlugins
  import opened Commanders
  import opened Environments
  import opened Executors

  /** What the commands of this run execute, from an empty task with the parsed environment. */
  ghost function Execute(w: World, workingDirectory: string, envp: seq<Option<seq<char>>>, fuel: nat): Execution {
    ExecutedAll(w, fuel, w.fleeting.commands, w.fleeting.commands,
                NewTask([], Parse(Denoted(envp)), workingDirectory, w.dirs))
  }

  /**
    What is executed, and with which code the program ends, are decided by what the commands of this
    run execute, which on a ranked world is their flattening; without commands nothing is executed
    and the program fails.
   */
  method ExecHelper(fleeting: Fleeting, settings: Tree, patterns: seq<Pattern>, workingDirectory: string,
                    envp: seq<Option<seq<char>>>, plugins: map<string, Plugin>, builtin: map<string, Plugin>,
                    dirs: Dirs, mode: Mode, shell: Shell, ghost fuel: nat)
    returns (executed: seq<TaskValue>, exit: ReturnCode)
    requires Terminated(envp)
    requires Execute(RunWorld(fleeting, settings, patterns, plugins, builtin, dirs), workingDirectory, envp, fuel).Some?
    ensures fleeting.commands == [] ==> executed == [] && exit == EXIT_FAILURE
    ensures fleeting.commands != [] ==>
              var w := RunWorld(fleeting, settings, patterns, plugins, builtin, dirs);
              var steps := Execute(w, workingDirectory, envp, fuel).value;
              && Outcome(mode, shell, RegisteredTasks(Trace(steps)), Succeeds(steps), executed, exit)
              && TasksOf(Trace(steps), RegisteredTasks(Trace(steps)))
              && (mode.KeepGoing? ==> TasksOf(Trace(steps), executed))
              && forall rank: Ranks, bound: nat ::
                   Certified(w, rank) && Below(rank, fleeting.commands, fleeting.commands, bound) ==>
                     var flat := StepsAll(w, rank, fleeting.commands, fleeting.commands,
                                          NewTask([], Parse(Denoted(envp)), workingDirectory, dirs), bound);
                     Outcome(mode, shell, RegisteredTasks(Trace(flat)), Succeeds(flat), executed, exit)
  {
    hide Certified, Below, StepsAll, Outcome, TasksOf, NewTask, Parse, Denoted, Terminated, Trace, Succeeds,
      ExecutedAll;
    ghost var w := RunWorld(fleeting, settings, patterns, plugins, builtin, dirs);
    var env := ToEnvCollection(envp);
    var log := new EventLog();
    var ctx := new ExecutePlugin(builtin, dirs, log);
    var ok := Commanders.Run(ctx, fleeting, settings, patterns, workingDirectory, env, plugins, fuel);
    executed, exit := RunProgram(mode, shell, log.events, ok);
    if fleeting.commands == [] {
      NothingRegistered(mode, shell, executed, exit);
    } else {
      ghost var steps := Execute(w, workingDirectory, envp, fuel).value;
      assert log.events == Trace(steps);
      TasksAreUnique(log.events, RegisteredTasks(log.events));
      forall rank: Ranks, bound: nat | Certified(w, rank) && Below(rank, fleeting.commands, fleeting.commands, bound)
        ensures var flat := StepsAll(w, rank, fleeting.commands, fleeting.commands,
                                     NewTask([], Parse(Denoted(envp)), workingDirectory, dirs), bound);
                Outcome(mode, shell, RegisteredTasks(Trace(flat)), Succeeds(flat), executed, exit)
      {
        ghost var flat := StepsAll(w, rank, fleeting.commands, fleeting.commands,
                                   NewTask([], env, workingDirectory, dirs), bound);
        assert Ran([], log.events, ok, flat);
        assert log.events == Trace(flat);
      }
    }
  }
}

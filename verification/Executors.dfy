/** What happens to registered tasks: the three execution modes and the exit code of the program. */
module Executors {
  import opened Options
  import opened Tasks
  import opened Steps

  type ReturnCode = c: int | 0 <= c < 256

  const EXIT_SUCCESS: ReturnCode := 0
  const EXIT_FAILURE: ReturnCode := 1

  datatype Mode = DryRun | KeepGoing | StopAtFirst

  /** The shell, given what it has executed before and the task to execute. */
  type Shell = (seq<TaskValue>, TaskValue) -> ReturnCode

  class Executor {
    const mode: Mode
    const shell: Shell
    var executed: seq<TaskValue>
    var lastReturnCode: ReturnCode
    var exited: Option<ReturnCode>

    constructor (mode: Mode, shell: Shell)
      ensures this.mode == mode && this.shell == shell
      ensures executed == [] && lastReturnCode == EXIT_SUCCESS && exited == None
    {
      this.mode, this.shell := mode, shell;
      executed, lastReturnCode, exited := [], EXIT_SUCCESS, None;
    }

    /** `execute`: only report, or run the task and call back on a failure. */
    method Execute(task: TaskValue)
      requires exited.None?
      modifies this
      ensures mode.DryRun? ==> executed == old(executed) && lastReturnCode == old(lastReturnCode) && exited == None
      ensures !mode.DryRun? ==> executed == old(executed) + [task]
      ensures !mode.DryRun? ==>
                var code := shell(old(executed), task);
                && lastReturnCode == (if code != EXIT_SUCCESS && mode.KeepGoing? then code else old(lastReturnCode))
                && exited == (if code != EXIT_SUCCESS && mode.StopAtFirst? then Some(code) else None)
    {
      if mode.DryRun? {
        return;
      }
      var returnCode := shell(executed, task);
      executed := executed + [task];
      if returnCode != EXIT_SUCCESS {
        Callback(returnCode);
      }
    }

    /** Remember the code, or exit with it. */
    method Callback(returnCode: ReturnCode)
      modifies this`lastReturnCode, this`exited
      ensures mode.KeepGoing? ==> lastReturnCode == returnCode && exited == old(exited)
      ensures !mode.KeepGoing? ==> lastReturnCode == old(lastReturnCode) && exited == Some(returnCode)
    {
      if mode.KeepGoing? {
        lastReturnCode := returnCode;
      } else {
        exited := Some(returnCode);
      }
    }
  }

  // -------- what the modes promise --------

  /** The code of the `i`-th task, when all tasks before it have been executed. */
  function Code(shell: Shell, tasks: seq<TaskValue>, i: nat): ReturnCode
    requires i < |tasks|
  {
    shell(tasks[..i], tasks[i])
  }

  predicate FirstFailure(shell: Shell, tasks: seq<TaskValue>, n: nat) {
    n < |tasks| && Code(shell, tasks, n) != 0 && forall i :: 0 <= i < n ==> Code(shell, tasks, i) == 0
  }

  predicate LastFailure(shell: Shell, tasks: seq<TaskValue>, n: nat) {
    n < |tasks| && Code(shell, tasks, n) != 0 && forall i :: n < i < |tasks| ==> Code(shell, tasks, i) == 0
  }

  predicate NoFailureUpTo(shell: Shell, tasks: seq<TaskValue>, n: nat)
    requires n <= |tasks|
  {
    forall i :: 0 <= i < n ==> Code(shell, tasks, i) == 0
  }

  predicate NoFailure(shell: Shell, tasks: seq<TaskValue>) {
    NoFailureUpTo(shell, tasks, |tasks|)
  }

  /** What has been executed, and the exit code of a program whose dispatching ends with `ok`. */
  ghost predicate Outcome(mode: Mode, shell: Shell, tasks: seq<TaskValue>, ok: bool,
                          executed: seq<TaskValue>, exit: ReturnCode)
  {
    match mode
    case DryRun => executed == [] && exit == if ok then EXIT_SUCCESS else EXIT_FAILURE
    case KeepGoing =>
      && executed == tasks
      && (!ok ==> exit == EXIT_FAILURE)
      && (ok && NoFailure(shell, tasks) ==> exit == EXIT_SUCCESS)
      && (ok ==> forall n :: LastFailure(shell, tasks, n) ==> exit == Code(shell, tasks, n))
    case StopAtFirst =>
      && (NoFailure(shell, tasks) ==> executed == tasks && exit == if ok then EXIT_SUCCESS else EXIT_FAILURE)
      && forall n :: FirstFailure(shell, tasks, n) ==> executed == tasks[..n + 1] && exit == Code(shell, tasks, n)
  }

  function RegisteredTasks(events: seq<Event>): seq<TaskValue> {
    if events == [] then []
    else (if events[0].Registered? then [events[0].task] else []) + RegisteredTasks(events[1..])
  }

  /** `positions` are those of the registrations, in order, and `tasks` is what is registered there. */
  ghost predicate TasksAt(events: seq<Event>, positions: seq<nat>, tasks: seq<TaskValue>) {
    && |tasks| == |positions|
    && (forall a, b :: 0 <= a < b < |positions| ==> positions[a] < positions[b])
    && (forall i: nat :: i in positions <==> i < |events| && events[i].Registered?)
    && (forall k :: 0 <= k < |tasks| ==>
          positions[k] < |events| && events[positions[k]].Registered? && tasks[k] == events[positions[k]].task)
  }

  ghost predicate TasksOf(events: seq<Event>, tasks: seq<TaskValue>) {
    exists positions: seq<nat> :: TasksAt(events, positions, tasks)
  }

  lemma {:induction false} RegisteredAppend(a: seq<Event>, b: seq<Event>)
    ensures RegisteredTasks(a + b) == RegisteredTasks(a) + RegisteredTasks(b)
  {
    hide RegisteredTasks;
    if a == [] {
      assert a + b == b;
      NoEvent();
    } else {
      assert (a + b)[0] == a[0] && (a + b)[1..] == a[1..] + b;
      RegisteredAppend(a[1..], b);
      FirstEvent(a);
      FirstEvent(a + b);
      var first := if a[0].Registered? then [a[0].task] else [];
      assert first + (RegisteredTasks(a[1..]) + RegisteredTasks(b)) ==
             (first + RegisteredTasks(a[1..])) + RegisteredTasks(b);
    }
  }

  lemma FirstEvent(events: seq<Event>)
    requires events != []
    ensures RegisteredTasks(events) ==
            (if events[0].Registered? then [events[0].task] else []) + RegisteredTasks(events[1..])
  {
  }

  lemma NoEvent()
    ensures RegisteredTasks([]) == []
  {
  }

  /** Every registration counts, once and in order. */
  lemma {:induction false} RegisteredAt(events: seq<Event>) returns (positions: seq<nat>)
    ensures TasksAt(events, positions, RegisteredTasks(events))
  {
    if events == [] {
      positions := [];
    } else {
      var n := |events| - 1;
      positions := RegisteredAt(events[..n]);
      assert events == events[..n] + [events[n]];
      RegisteredAppend(events[..n], [events[n]]);
      LastEvent(events[n]);
      if events[n].Registered? {
        positions := positions + [n];
      }
    }
  }

  lemma LastEvent(event: Event)
    ensures RegisteredTasks([event]) == if event.Registered? then [event.task] else []
  {
    assert [event][1..] == [];
  }

  /** There is only one such list of tasks. */
  lemma TasksAreUnique(events: seq<Event>, tasks: seq<TaskValue>)
    ensures TasksOf(events, tasks) <==> tasks == RegisteredTasks(events)
  {
    var all := RegisteredAt(events);
    forall positions: seq<nat> | TasksAt(events, positions, tasks) ensures tasks == RegisteredTasks(events) {
      SamePositions(all, positions);
    }
  }

  lemma {:induction false} SamePositions(p: seq<nat>, q: seq<nat>)
    requires forall a, b :: 0 <= a < b < |p| ==> p[a] < p[b]
    requires forall a, b :: 0 <= a < b < |q| ==> q[a] < q[b]
    requires forall i: nat :: i in p <==> i in q
    ensures p == q
  {
    assert p == q == [] || p != [] || q[0] in q;
    if p != [] {
      assert p[0] in q && q[0] in p;
      assert p[0] == q[0];
      forall i: nat ensures i in p[1..] <==> i in q[1..] {
        assert i in p[1..] <==> i in p && i != p[0];
        assert i in q[1..] <==> i in q && i != q[0];
      }
      SamePositions(p[1..], q[1..]);
    }
  }

  /** The code of the last failure among the first `n` tasks, or success if there is none. */
  function LastCode(shell: Shell, tasks: seq<TaskValue>, n: nat): ReturnCode
    requires n <= |tasks|
  {
    if n == 0 then EXIT_SUCCESS
    else if Code(shell, tasks, n - 1) != 0 then Code(shell, tasks, n - 1)
    else LastCode(shell, tasks, n - 1)
  }

  lemma {:induction false} LastCodeIs(shell: Shell, tasks: seq<TaskValue>, n: nat, m: nat)
    requires m < n <= |tasks| && Code(shell, tasks, m) != 0
    requires forall i :: m < i < n ==> Code(shell, tasks, i) == 0
    ensures LastCode(shell, tasks, n) == Code(shell, tasks, m)
  {
    hide Code;
    if m < n - 1 { LastCodeIs(shell, tasks, n - 1, m); }
  }

  lemma {:induction false} LastCodeNone(shell: Shell, tasks: seq<TaskValue>, n: nat)
    requires n <= |tasks| && forall i :: 0 <= i < n ==> Code(shell, tasks, i) == 0
    ensures LastCode(shell, tasks, n) == EXIT_SUCCESS
  {
    hide Code;
    if n > 0 { LastCodeNone(shell, tasks, n - 1); }
  }

  lemma OutcomeAtEnd(mode: Mode, shell: Shell, tasks: seq<TaskValue>, ok: bool,
                     executed: seq<TaskValue>, last: ReturnCode)
    requires executed == if mode.DryRun? then [] else tasks
    requires last == if mode.KeepGoing? then LastCode(shell, tasks, |tasks|) else EXIT_SUCCESS
    requires mode.StopAtFirst? ==> NoFailure(shell, tasks)
    ensures Outcome(mode, shell, tasks, ok, executed, if ok then last else EXIT_FAILURE)
  {
    hide Code, LastCode;
    if NoFailure(shell, tasks) { LastCodeNone(shell, tasks, |tasks|); }
    forall m | LastFailure(shell, tasks, m) ensures LastCode(shell, tasks, |tasks|) == Code(shell, tasks, m) {
      LastCodeIs(shell, tasks, |tasks|, m);
    }
  }

  lemma OutcomeAtFailure(shell: Shell, tasks: seq<TaskValue>, ok: bool, n: nat)
    requires FirstFailure(shell, tasks, n)
    ensures Outcome(StopAtFirst, shell, tasks, ok, tasks[..n + 1], Code(shell, tasks, n))
  {
    hide Code;
    assert forall m :: FirstFailure(shell, tasks, m) ==> m == n;
  }

  /** Hand the tasks over as they are registered, and end the program. */
  method RunProgram(mode: Mode, shell: Shell, events: seq<Event>, ok: bool)
    returns (executed: seq<TaskValue>, exit: ReturnCode)
    ensures forall tasks :: TasksOf(events, tasks) ==> Outcome(mode, shell, tasks, ok, executed, exit)
    ensures Outcome(mode, shell, RegisteredTasks(events), ok, executed, exit)
    ensures mode.KeepGoing? ==> TasksOf(events, executed)
  {
    hide Outcome, Code, LastCode, NoFailureUpTo, FirstFailure, TasksOf;
    ghost var tasks := RegisteredTasks(events);
    var executor := new Executor(mode, shell);
    ghost var n := 0;
    NothingYet(shell, tasks);
    for i := 0 to |events|
      invariant executor.mode == mode && executor.shell == shell && executor.exited.None?
      invariant n <= |tasks| && RegisteredTasks(events[i..]) == tasks[n..]
      invariant executor.executed == if mode.DryRun? then [] else tasks[..n]
      invariant executor.lastReturnCode == if mode.KeepGoing? then LastCode(shell, tasks, n) else EXIT_SUCCESS
      invariant mode.StopAtFirst? ==> NoFailureUpTo(shell, tasks, n)
    {
      assert events[i..][1..] == events[i + 1..];
      if events[i].Registered? {
        NextTask(tasks, n, events[i].task, RegisteredTasks(events[i + 1..]));
        NextCode(shell, tasks, n);
        executor.Execute(events[i].task);
        n := n + 1;
        if executor.exited.Some? {
          OutcomeAtFailure(shell, tasks, ok, n - 1);
          executed, exit := executor.executed, executor.exited.value;
          OutcomeForAll(mode, shell, events, ok, executed, exit);
          return;
        }
      }
    }
    assert tasks[..n] == tasks;
    OutcomeAtEnd(mode, shell, tasks, ok, executor.executed, executor.lastReturnCode);
    executed := executor.executed;
    exit := if ok then executor.lastReturnCode else EXIT_FAILURE;
    OutcomeForAll(mode, shell, events, ok, executed, exit);
  }

  lemma OutcomeForAll(mode: Mode, shell: Shell, events: seq<Event>, ok: bool,
                      executed: seq<TaskValue>, exit: ReturnCode)
    requires Outcome(mode, shell, RegisteredTasks(events), ok, executed, exit)
    ensures forall tasks :: TasksOf(events, tasks) ==> Outcome(mode, shell, tasks, ok, executed, exit)
    ensures mode.KeepGoing? ==> TasksOf(events, executed)
  {
    hide TasksOf, Code, NoFailureUpTo, FirstFailure, LastFailure;
    forall tasks ensures TasksOf(events, tasks) <==> tasks == RegisteredTasks(events) {
      TasksAreUnique(events, tasks);
    }
  }

  lemma NothingYet(shell: Shell, tasks: seq<TaskValue>)
    ensures NoFailureUpTo(shell, tasks, 0) && LastCode(shell, tasks, 0) == EXIT_SUCCESS
  {
  }

  lemma NextCode(shell: Shell, tasks: seq<TaskValue>, n: nat)
    requires n < |tasks|
    ensures Code(shell, tasks, n) == shell(tasks[..n], tasks[n])
    ensures LastCode(shell, tasks, n + 1) ==
            if Code(shell, tasks, n) != 0 then Code(shell, tasks, n) else LastCode(shell, tasks, n)
    ensures NoFailureUpTo(shell, tasks, n) && Code(shell, tasks, n) == 0 ==> NoFailureUpTo(shell, tasks, n + 1)
    ensures NoFailureUpTo(shell, tasks, n) && Code(shell, tasks, n) != 0 ==> FirstFailure(shell, tasks, n)
  {
  }

  lemma NextTask(tasks: seq<TaskValue>, n: nat, task: TaskValue, rest: seq<TaskValue>)
    requires n <= |tasks| && tasks[n..] == [task] + rest
    ensures n < |tasks| && tasks[n] == task && tasks[n + 1..] == rest && tasks[..n + 1] == tasks[..n] + [task]
  {
    assert tasks[n..][0] == task && tasks[n..][1..] == tasks[n + 1..];
  }

  lemma {:induction false} FailureExists(shell: Shell, tasks: seq<TaskValue>, n: nat) returns (m: nat)
    requires n < |tasks| && Code(shell, tasks, n) != 0
    ensures m <= n && FirstFailure(shell, tasks, m)
  {
    hide Code;
    if i :| 0 <= i < n && Code(shell, tasks, i) != 0 {
      m := FailureExists(shell, tasks, i);
    } else {
      m := n;
    }
  }

  lemma {:induction false} LastExists(shell: Shell, tasks: seq<TaskValue>, n: nat) returns (m: nat)
    requires n < |tasks| && Code(shell, tasks, n) != 0
    ensures n <= m && LastFailure(shell, tasks, m)
    decreases |tasks| - n
  {
    hide Code;
    if i :| n < i < |tasks| && Code(shell, tasks, i) != 0 {
      m := LastExists(shell, tasks, i);
    } else {
      m := n;
    }
  }

  /**
    The default mode executes the shortest prefix of what keep-going executes that ends with a
    failure, and exits with its code.  If the dispatching succeeds, both modes report success or
    neither does; and they report the same unless something was left out.
   */
  lemma ModesCompared(shell: Shell, tasks: seq<TaskValue>, ok: bool,
                      stopped: seq<TaskValue>, code: ReturnCode, all: seq<TaskValue>, exit: ReturnCode)
    requires Outcome(StopAtFirst, shell, tasks, ok, stopped, code)
    requires Outcome(KeepGoing, shell, tasks, ok, all, exit)
    ensures stopped <= all == tasks
    ensures stopped != all ==> stopped != [] && Code(shell, all, |stopped| - 1) == code != 0
    ensures forall i :: 0 <= i < |stopped| - 1 ==> Code(shell, all, i) == 0
    ensures ok ==> (code == EXIT_SUCCESS <==> exit == EXIT_SUCCESS)
    ensures ok && stopped == all ==> code == exit
  {
    hide Code, Outcome, NoFailure, FirstFailure, LastFailure;
    if NoFailure(shell, tasks) {
      WithoutFailure(shell, tasks, ok, stopped, code, all, exit);
    } else {
      var i := SomeFailure(shell, tasks);
      var n := FailureExists(shell, tasks, i);
      var m := LastExists(shell, tasks, i);
      WithFailure(shell, tasks, ok, stopped, code, all, exit, n, m);
    }
  }

  lemma WithoutFailure(shell: Shell, tasks: seq<TaskValue>, ok: bool,
                       stopped: seq<TaskValue>, code: ReturnCode, all: seq<TaskValue>, exit: ReturnCode)
    requires Outcome(StopAtFirst, shell, tasks, ok, stopped, code)
    requires Outcome(KeepGoing, shell, tasks, ok, all, exit)
    requires NoFailure(shell, tasks)
    ensures stopped == all == tasks && (ok ==> code == exit == EXIT_SUCCESS)
    ensures forall i :: 0 <= i < |stopped| ==> Code(shell, all, i) == 0
  {
    hide Code;
  }

  lemma WithFailure(shell: Shell, tasks: seq<TaskValue>, ok: bool,
                    stopped: seq<TaskValue>, code: ReturnCode, all: seq<TaskValue>, exit: ReturnCode, n: nat, m: nat)
    requires Outcome(StopAtFirst, shell, tasks, ok, stopped, code)
    requires Outcome(KeepGoing, shell, tasks, ok, all, exit)
    requires FirstFailure(shell, tasks, n) && LastFailure(shell, tasks, m)
    ensures all == tasks && n <= m && stopped == tasks[..n + 1] && |stopped| == n + 1
    ensures code == Code(shell, all, n) != 0 && (ok ==> exit == Code(shell, all, m) != 0)
    ensures forall i :: 0 <= i < n ==> Code(shell, all, i) == 0
    ensures stopped == all ==> m == n
  {
    hide Code;
  }

  lemma NothingRegistered(mode: Mode, shell: Shell, executed: seq<TaskValue>, exit: ReturnCode)
    requires Outcome(mode, shell, RegisteredTasks([]), false, executed, exit)
    ensures executed == [] && exit == EXIT_FAILURE
  {
    assert NoFailure(shell, []);
  }

  lemma SomeFailure(shell: Shell, tasks: seq<TaskValue>) returns (i: nat)
    requires !NoFailure(shell, tasks)
    ensures i < |tasks| && Code(shell, tasks, i) != 0
  {
    i :| 0 <= i < |tasks| && Code(shell, tasks, i) != 0;
  }
}

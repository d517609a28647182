/** What executing commands does, one step after another, and how a failure cuts it short. */
module Steps {
  import opened SettingsTree
  import opened Tasks
  import opened PluginUtils

  datatype Event =
    | Registered(task: TaskValue)                                                  // handed to the executor
    | Remembered(task: TaskValue, variables: Tree, patterns: seq<Pattern>)         // kept by the memory plugin

  datatype Step = Emit(event: Event) | Fail

  /** Whether no step fails. */
  predicate Succeeds(steps: seq<Step>)
    ensures Succeeds(steps) <==> forall i :: 0 <= i < |steps| ==> steps[i].Emit?
  {
    steps == [] || (steps[0].Emit? && Succeeds(steps[1..]))
  }

  /** The events up to the first failure. */
  function Trace(steps: seq<Step>): seq<Event> {
    if steps == [] || steps[0].Fail? then [] else [steps[0].event] + Trace(steps[1..])
  }

  lemma {:induction false} TraceAppend(a: seq<Step>, b: seq<Step>)
    ensures Trace(a + b) == Trace(a) + if Succeeds(a) then Trace(b) else []
    ensures Succeeds(a + b) <==> Succeeds(a) && Succeeds(b)
  {
    hide Trace, Succeeds;
    if a == [] {
      NoStep();
      assert a + b == b;
    } else {
      TraceAppend(a[1..], b);
      FirstStep(a);
      FirstStep(a + b);
      Uncons(a, b);
      if a[0].Emit? {
        var more := if Succeeds(a[1..]) then Trace(b) else [];
        assert [a[0].event] + (Trace(a[1..]) + more) == ([a[0].event] + Trace(a[1..])) + more;
      }
    }
  }

  lemma Uncons(a: seq<Step>, b: seq<Step>)
    requires a != []
    ensures (a + b)[0] == a[0] && (a + b)[1..] == a[1..] + b
  {
  }

  lemma NoStep()
    ensures Trace([]) == [] && Succeeds([])
  {
  }

  lemma FirstStep(steps: seq<Step>)
    requires steps != []
    ensures Trace(steps) == if steps[0].Fail? then [] else [steps[0].event] + Trace(steps[1..])
    ensures Succeeds(steps) <==> steps[0].Emit? && Succeeds(steps[1..])
  {
  }

  /** A failing run emits the events of the steps before its first failing step, and no more. */
  lemma {:induction false} TraceIsPrefix(steps: seq<Step>) returns (n: nat)
    ensures n <= |steps| && (Succeeds(steps) ==> n == |steps|) && (!Succeeds(steps) ==> n < |steps| && steps[n].Fail?)
    ensures |Trace(steps)| == n && forall i :: 0 <= i < n ==> steps[i] == Emit(Trace(steps)[i])
  {
    if steps == [] || steps[0].Fail? {
      n := 0;
    } else {
      hide Trace, Succeeds;
      FirstStep(steps);
      var rest := steps[1..];
      var m := TraceIsPrefix(rest);
      n := m + 1;
      forall i | 0 <= i < n ensures steps[i] == Emit(Trace(steps)[i]) {
        if i > 0 { assert steps[i] == rest[i - 1] && Trace(steps)[i] == Trace(rest)[i - 1]; }
      }
    }
  }

  // -------- tasks multiplied by combinations --------

  function EmitTask(t: TaskValue, c: Combination, dirs: Dirs): Step {
    Emit(Registered(ReplaceTask(t, c, dirs)))
  }

  /** One task under every combination. */
  function UnderAll(t: TaskValue, combos: seq<Combination>, dirs: Dirs): seq<Step> {
    if combos == [] then [] else [EmitTask(t, combos[0], dirs)] + UnderAll(t, combos[1..], dirs)
  }

  /** Every task under one combination. */
  function AllUnder(tasks: seq<TaskValue>, c: Combination, dirs: Dirs): seq<Step> {
    if tasks == [] then [] else [EmitTask(tasks[0], c, dirs)] + AllUnder(tasks[1..], c, dirs)
  }

  function ByCombination(tasks: seq<TaskValue>, combos: seq<Combination>, dirs: Dirs): seq<Step> {
    if combos == [] then [] else AllUnder(tasks, combos[0], dirs) + ByCombination(tasks, combos[1..], dirs)
  }

  function ByTask(tasks: seq<TaskValue>, combos: seq<Combination>, dirs: Dirs): seq<Step> {
    if tasks == [] then [] else UnderAll(tasks[0], combos, dirs) + ByTask(tasks[1..], combos, dirs)
  }

  lemma {:induction false} FirstTask(tasks: seq<TaskValue>, combos: seq<Combination>, dirs: Dirs)
    requires tasks != []
    ensures multiset(ByCombination(tasks, combos, dirs)) ==
            multiset(UnderAll(tasks[0], combos, dirs)) + multiset(ByCombination(tasks[1..], combos, dirs))
  {
    if combos != [] {
      FirstTask(tasks, combos[1..], dirs);
    }
  }

  lemma {:induction false} NoTasks(combos: seq<Combination>, dirs: Dirs)
    ensures ByCombination([], combos, dirs) == []
  {
    if combos != [] { NoTasks(combos[1..], dirs); }
  }

  /** Both loop orders register the same tasks equally often. */
  lemma {:induction false} LoopOrders(tasks: seq<TaskValue>, combos: seq<Combination>, dirs: Dirs)
    ensures multiset(ByCombination(tasks, combos, dirs)) == multiset(ByTask(tasks, combos, dirs))
  {
    if tasks == [] {
      NoTasks(combos, dirs);
    } else {
      FirstTask(tasks, combos, dirs);
      LoopOrders(tasks[1..], combos, dirs);
    }
  }

  /** ... namely once for each task and combination. */
  lemma {:induction false} LoopSize(tasks: seq<TaskValue>, combos: seq<Combination>, dirs: Dirs)
    ensures |ByTask(tasks, combos, dirs)| == |tasks| * |combos|
  {
    hide UnderAll;
    if tasks != [] {
      UnderAllSize(tasks[0], combos, dirs);
      LoopSize(tasks[1..], combos, dirs);
      OneMoreRow(|tasks|, |combos|);
    }
  }

  lemma OneMoreRow(n: nat, m: nat)
    requires n > 0
    ensures m + (n - 1) * m == n * m
  {
  }

  lemma {:induction false} UnderAllSize(t: TaskValue, combos: seq<Combination>, dirs: Dirs)
    ensures |UnderAll(t, combos, dirs)| == |combos|
  {
    if combos != [] { UnderAllSize(t, combos[1..], dirs); }
  }

  lemma {:induction false} AllEmit(tasks: seq<TaskValue>, c: Combination, dirs: Dirs)
    ensures Succeeds(AllUnder(tasks, c, dirs)) && |AllUnder(tasks, c, dirs)| == |tasks|
    ensures forall i :: 0 <= i < |tasks| ==> AllUnder(tasks, c, dirs)[i] == EmitTask(tasks[i], c, dirs)
  {
    hide Succeeds, Trace, EmitTask, ReplaceTask;
    if tasks == [] {
      NoStep();
    } else {
      AllEmit(tasks[1..], c, dirs);
      FirstStep(AllUnder(tasks, c, dirs));
      IsEmit(tasks[0], c, dirs);
    }
  }

  lemma IsEmit(t: TaskValue, c: Combination, dirs: Dirs)
    ensures EmitTask(t, c, dirs).Emit?
  {
  }

  /** Combination by combination: where the `j`-th task under the `i`-th combination is. */
  lemma {:induction false} ByCombinationAt(tasks: seq<TaskValue>, combos: seq<Combination>, dirs: Dirs, i: nat, j: nat)
    requires i < |combos| && j < |tasks|
    ensures 0 <= i * |tasks| + j < |ByCombination(tasks, combos, dirs)|
    ensures ByCombination(tasks, combos, dirs)[i * |tasks| + j] == EmitTask(tasks[j], combos[i], dirs)
  {
    hide AllUnder, EmitTask;
    AllEmit(tasks, combos[0], dirs);
    if i > 0 {
      ByCombinationAt(tasks, combos[1..], dirs, i - 1, j);
      assert i * |tasks| + j == |tasks| + ((i - 1) * |tasks| + j);
    }
  }

  lemma {:induction false} ByCombinationSize(tasks: seq<TaskValue>, combos: seq<Combination>, dirs: Dirs)
    ensures Succeeds(ByCombination(tasks, combos, dirs))
    ensures |ByCombination(tasks, combos, dirs)| == |combos| * |tasks|
  {
    hide AllUnder;
    if combos != [] {
      AllEmit(tasks, combos[0], dirs);
      ByCombinationSize(tasks, combos[1..], dirs);
      TraceAppend(AllUnder(tasks, combos[0], dirs), ByCombination(tasks, combos[1..], dirs));
      OneMoreRow(|combos|, |tasks|);
    }
  }

  lemma {:induction false} UnderAllAt(t: TaskValue, combos: seq<Combination>, dirs: Dirs, j: nat)
    requires j < |combos|
    ensures j < |UnderAll(t, combos, dirs)| && UnderAll(t, combos, dirs)[j] == EmitTask(t, combos[j], dirs)
  {
    hide EmitTask;
    if j > 0 { UnderAllAt(t, combos[1..], dirs, j - 1); }
  }

  /** Task by task: where the `i`-th task under the `j`-th combination is. */
  lemma {:induction false} ByTaskAt(tasks: seq<TaskValue>, combos: seq<Combination>, dirs: Dirs, i: nat, j: nat)
    requires i < |tasks| && j < |combos|
    ensures 0 <= i * |combos| + j < |ByTask(tasks, combos, dirs)|
    ensures ByTask(tasks, combos, dirs)[i * |combos| + j] == EmitTask(tasks[i], combos[j], dirs)
  {
    hide UnderAll, EmitTask;
    UnderAllSize(tasks[0], combos, dirs);
    UnderAllAt(tasks[0], combos, dirs, j);
    if i > 0 {
      ByTaskAt(tasks[1..], combos, dirs, i - 1, j);
      assert i * |combos| + j == |combos| + ((i - 1) * |combos| + j);
    }
  }

  // -------- running steps --------

  /** Where tasks and memories end up. */
  class EventLog {
    var events: seq<Event>

    constructor ()
      ensures events == []
    {
      events := [];
    }

    /** `registerTask`: hand the task over; this always succeeds. */
    method RegisterTask(task: TaskValue) returns (ok: bool)
      modifies this
      ensures events == old(events) + [Registered(task)] && ok
    {
      events := events + [Registered(task)];
      ok := true;
    }

    method Remember(task: TaskValue, variables: Tree, patterns: seq<Pattern>)
      modifies this
      ensures events == old(events) + [Remembered(task, variables, patterns)]
    {
      events := events + [Remembered(task, variables, patterns)];
    }
  }

  /** `ok` and the events between `before` and `after` are those of running `steps`. */
  predicate Ran(before: seq<Event>, after: seq<Event>, ok: bool, steps: seq<Step>) {
    after == before + Trace(steps) && ok == Succeeds(steps)
  }

  /**
    What running means: every step happened, in order, up to the first failing one; and the
    result tells whether there was none.
   */
  lemma RanInOrder(before: seq<Event>, after: seq<Event>, ok: bool, steps: seq<Step>) returns (n: nat)
    requires Ran(before, after, ok, steps)
    ensures n <= |steps| && (ok <==> n == |steps|) && (!ok ==> steps[n].Fail?)
    ensures |after| == |before| + n && before <= after
    ensures forall i :: 0 <= i < n ==> steps[i] == Emit(after[|before| + i])
  {
    n := TraceIsPrefix(steps);
  }

  lemma RanNothing(before: seq<Event>)
    ensures Ran(before, before, true, [])
  {
  }

  lemma RanOne(before: seq<Event>, event: Event)
    ensures Ran(before, before + [event], true, [Emit(event)])
  {
    assert Trace([Emit(event)]) == [event] + Trace([]);
  }

  lemma RanFail(before: seq<Event>, steps: seq<Step>)
    requires steps != [] && steps[0].Fail?
    ensures Ran(before, before, false, steps)
  {
    assert before + [] == before;
  }

  /** Successful steps followed by more steps. */
  lemma RanThen(a: seq<Event>, b: seq<Event>, c: seq<Event>, ok: bool, first: seq<Step>, rest: seq<Step>)
    requires Ran(a, b, true, first) && Ran(b, c, ok, rest)
    ensures Ran(a, c, ok, first + rest)
  {
    TraceAppend(first, rest);
    assert a + (Trace(first) + Trace(rest)) == (a + Trace(first)) + Trace(rest);
  }

  /** A failure: whatever steps were to follow are not run. */
  lemma RanStop(a: seq<Event>, b: seq<Event>, first: seq<Step>, rest: seq<Step>)
    requires Ran(a, b, false, first)
    ensures Ran(a, b, false, first + rest)
  {
    TraceAppend(first, rest);
  }

  /** One part of all steps has been run, after what is `done` and before what comes `later`. */
  lemma RanNext(a: seq<Event>, b: seq<Event>, c: seq<Event>, ok: bool,
                done: seq<Step>, now: seq<Step>, later: seq<Step>, all: seq<Step>)
    requires Ran(a, b, true, done) && Ran(b, c, ok, now) && all == done + (now + later)
    ensures ok ==> Ran(a, c, true, done + now) && all == done + now + later
    ensures !ok ==> Ran(a, c, false, all)
  {
    hide Ran;
    assert all == (done + now) + later;
    RanThen(a, b, c, ok, done, now);
    if !ok { RanStop(a, c, done + now, later); }
  }

  lemma RanAll(a: seq<Event>, b: seq<Event>, done: seq<Step>, all: seq<Step>)
    requires Ran(a, b, true, done) && all == done + []
    ensures Ran(a, b, true, all)
  {
    assert all == done;
  }

  /** A result that is only known at the end. */
  lemma RanLast(a: seq<Event>, b: seq<Event>, first: seq<Step>, ok: bool)
    requires Ran(a, b, true, first)
    ensures Ran(a, b, ok, first + if ok then [] else [Fail])
  {
    TraceAppend(first, if ok then [] else [Fail]);
    assert Trace([Fail]) == [] && b + [] == b;
  }

  /** The steps that were run, up to the first failure. */
  function Settled(events: seq<Event>): (r: seq<Step>)
    ensures |r| == |events| && forall i :: 0 <= i < |r| ==> r[i] == Emit(events[i])
  {
    seq(|events|, i requires 0 <= i < |events| => Emit(events[i]))
  }

  /** A failure that is caught: the events stay. */
  lemma {:induction false} SettledRuns(events: seq<Event>)
    ensures Succeeds(Settled(events)) && Trace(Settled(events)) == events
  {
    if events != [] {
      SettledRuns(events[1..]);
      assert Settled(events)[1..] == Settled(events[1..]);
    }
  }

  lemma RanCaught(a: seq<Event>, b: seq<Event>, ok: bool, steps: seq<Step>)
    requires Ran(a, b, ok, steps)
    ensures Ran(a, b, true, Settled(Trace(steps))) && ok == Succeeds(steps)
  {
    SettledRuns(Trace(steps));
  }
}

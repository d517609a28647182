/** A task: the arguments, the environment and the working directory of a command to execute. */
module Tasks {
  import opened OrderedMaps

  const PWD := "PWD"

  /** The file system's view of directories: the current one, and how paths become absolute. */
  datatype Dirs = Dirs(current: string, absolute: string -> string)

  datatype TaskValue = TaskValue(args: seq<string>, env: OrderedMap<string>, dir: string)

  /** Changing the directory also sets PWD. */
  function WithDirectory(t: TaskValue, dir: string, dirs: Dirs): TaskValue {
    t.(dir := dir, env := Put(t.env, PWD, dirs.absolute(dir)))
  }

  /** A new environment, with PWD put back for the directory of the task. */
  function WithEnvironment(t: TaskValue, env: OrderedMap<string>, dirs: Dirs): TaskValue {
    WithDirectory(t.(env := env), t.dir, dirs)
  }

  function PutUpTo(m: OrderedMap<string>, more: OrderedMap<string>, n: nat): OrderedMap<string>
    requires n <= |more.keys|
  {
    if n == 0 then m else
      KeyAt(more, n - 1);
      Put(PutUpTo(m, more, n - 1), more.keys[n - 1], more.at[more.keys[n - 1]])
  }

  function WithAdded(t: TaskValue, more: OrderedMap<string>): TaskValue {
    t.(env := PutUpTo(t.env, more, |more.keys|))
  }

  function WithArgs(t: TaskValue, args: seq<string>): TaskValue {
    t.(args := t.args + args)
  }

  function NewTask(args: seq<string>, env: OrderedMap<string>, dir: string, dirs: Dirs): TaskValue {
    WithDirectory(TaskValue(args, env, dir), dir, dirs)
  }

  function DefaultTask(dirs: Dirs): TaskValue {
    NewTask([], Empty(), dirs.current, dirs)
  }

  lemma {:induction false} PutUpToAt(m: OrderedMap<string>, more: OrderedMap<string>, n: nat, k: string)
    requires n <= |more.keys|
    ensures k in more.keys[..n] ==>
              k in more.at && k in PutUpTo(m, more, n).at && PutUpTo(m, more, n).at[k] == more.at[k]
    ensures k !in more.keys[..n] ==>
              (k in PutUpTo(m, more, n).at <==> k in m.at) && (k in m.at ==> PutUpTo(m, more, n).at[k] == m.at[k])
  {
    hide Put, Sorted, KeySet;
    if n > 0 {
      PutUpToAt(m, more, n - 1, k);
      KeyAt(more, n - 1);
      assert more.keys[..n] == more.keys[..n - 1] + [more.keys[n - 1]];
    }
  }

  /** Appending to the environment: the added values win, everything else stays. */
  lemma AddedEnvironment(t: TaskValue, more: OrderedMap<string>)
    ensures WithAdded(t, more).env.at == t.env.at + more.at
  {
    var r := WithAdded(t, more).env.at;
    var n := |more.keys|;
    assert more.keys[..n] == more.keys;
    forall k ensures (k in r <==> k in t.env.at + more.at) && (k in r ==> r[k] == (t.env.at + more.at)[k]) {
      PutUpToAt(t.env, more, n, k);
      KeyIn(more, k);
    }
  }

  /** The task object that plugins change in place. */
  class Task {
    const dirs: Dirs
    var args: seq<string>
    var env: OrderedMap<string>
    var dir: string

    function Value(): TaskValue
      reads this
    {
      TaskValue(args, env, dir)
    }

    constructor (args: seq<string>, env: OrderedMap<string>, dir: string, dirs: Dirs)
      ensures this.dirs == dirs && Value() == NewTask(args, env, dir, dirs)
      ensures this.args == args && this.dir == dir && this.env.at == env.at["PWD" := dirs.absolute(dir)]
    {
      this.args, this.env, this.dir, this.dirs := args, env, dir, dirs;
      new;
      SetWorkingDirectory(this.dir);
    }

    constructor Copy(t: TaskValue, dirs: Dirs)
      ensures this.dirs == dirs && Value() == t
    {
      this.args, this.env, this.dir, this.dirs := t.args, t.env, t.dir, dirs;
    }

    method SetWorkingDirectory(workingDirectory: string)
      modifies this
      ensures Value() == WithDirectory(old(Value()), workingDirectory, dirs)
      ensures args == old(args) && dir == workingDirectory
      ensures env.at == old(env.at)["PWD" := dirs.absolute(workingDirectory)]
    {
      dir := workingDirectory;
      AppendToEnvironment(PWD, dirs.absolute(dir));
    }

    method SetEnvironment(newEnv: OrderedMap<string>)
      modifies this
      ensures Value() == WithEnvironment(old(Value()), newEnv, dirs)
      ensures args == old(args) && dir == old(dir) && env.at == newEnv.at["PWD" := dirs.absolute(dir)]
    {
      env := newEnv;
      SetWorkingDirectory(dir);
    }

    method AppendToEnvironment(key: string, value: string)
      modifies this`env
      ensures env == Put(old(env), key, value) && env.at == old(env.at)[key := value]
    {
      env := Put(env, key, value);
    }

    method AppendAllToEnvironment(more: OrderedMap<string>)
      modifies this`env
      ensures Value() == WithAdded(old(Value()), more)
      ensures env.at == old(env.at) + more.at
    {
      AddedEnvironment(Value(), more);
      for i := 0 to |more.keys|
        invariant env == PutUpTo(old(env), more, i)
      {
        KeyAt(more, i);
        AppendToEnvironment(more.keys[i], more.at[more.keys[i]]);
      }
    }

    method Append(newArgs: seq<string>)
      modifies this`args
      ensures Value() == WithArgs(old(Value()), newArgs) && args == old(args) + newArgs
    {
      args := args + newArgs;
    }
  }
}

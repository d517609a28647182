/** What plugins share: the pattern permutator and the replacement of patterns in whole tasks. */
module PluginUtils {
  import opened OrderedMaps
  import opened Permutations
  import opened MapPermutators
  import opened Patterns
  import PatternRendering
  import opened Tasks

  datatype Pattern = Pattern(key: string, values: seq<string>)

  type Combination = OrderedMap<string>

  // -------- makePatternPermutator --------

  function EmplaceUpTo(m: OrderedMap<seq<string>>, patterns: seq<Pattern>, n: nat): OrderedMap<seq<string>>
    requires n <= |patterns|
  {
    if n == 0 then m else Emplace(EmplaceUpTo(m, patterns, n - 1), patterns[n - 1].key, patterns[n - 1].values)
  }

  /** The values of each pattern; a made-up one if there are none, so that there is one combination. */
  function PatternValues(patterns: seq<Pattern>): OrderedMap<seq<string>> {
    var start := if patterns == [] then Emplace(Empty(), "NO-KEY", ["NO-VALUE"]) else Empty();
    EmplaceUpTo(start, patterns, |patterns|)
  }

  function Combinations(patterns: seq<Pattern>): seq<Combination> {
    Enumerate(PatternValues(patterns))
  }

  // -------- of several patterns with the same key the first one counts --------

  predicate IsFirst(patterns: seq<Pattern>, key: string, i: nat) {
    i < |patterns| && patterns[i].key == key && forall j :: 0 <= j < i ==> patterns[j].key != key
  }

  lemma {:induction false} NoneBefore(patterns: seq<Pattern>, n: nat, key: string)
    requires n <= |patterns| && !exists i :: 0 <= i < n && IsFirst(patterns, key, i)
    ensures forall j :: 0 <= j < n ==> patterns[j].key != key
  {
    if n > 0 {
      NoneBefore(patterns, n - 1, key);
      assert !IsFirst(patterns, key, n - 1);
    }
  }

  lemma FirstExists(patterns: seq<Pattern>, n: nat)
    requires n < |patterns|
    ensures exists i: nat :: IsFirst(patterns, patterns[n].key, i)
  {
    if !exists i :: 0 <= i < n + 1 && IsFirst(patterns, patterns[n].key, i) {
      NoneBefore(patterns, n + 1, patterns[n].key);
    }
  }

  lemma {:induction false} EmplacedFirst(m: OrderedMap<seq<string>>, patterns: seq<Pattern>, n: nat, k: string)
    requires n <= |patterns|
    ensures k in EmplaceUpTo(m, patterns, n).at <==> k in m.at || exists i :: 0 <= i < n && IsFirst(patterns, k, i)
    ensures k in m.at ==> EmplaceUpTo(m, patterns, n).at[k] == m.at[k]
    ensures k !in m.at ==> forall i :: 0 <= i < n && IsFirst(patterns, k, i) ==>
              k in EmplaceUpTo(m, patterns, n).at && EmplaceUpTo(m, patterns, n).at[k] == patterns[i].values
  {
    hide Emplace, Sorted, KeySet;
    if n > 0 {
      EmplacedFirst(m, patterns, n - 1, k);
      if patterns[n - 1].key == k && k !in EmplaceUpTo(m, patterns, n - 1).at {
        NoneBefore(patterns, n - 1, k);
        assert IsFirst(patterns, k, n - 1);
      }
    }
  }

  /** Each key of the patterns, with the values of the first pattern that has it. */
  lemma PatternValuesAre(patterns: seq<Pattern>)
    ensures patterns == [] ==> PatternValues(patterns).at == map["NO-KEY" := ["NO-VALUE"]]
    ensures patterns != [] ==>
              forall k :: k in PatternValues(patterns).at <==> exists i: nat :: IsFirst(patterns, k, i)
    ensures forall k, i: nat :: IsFirst(patterns, k, i) ==>
              k in PatternValues(patterns).at && PatternValues(patterns).at[k] == patterns[i].values
  {
    hide Emplace, EmplaceUpTo;
    if patterns != [] {
      forall k ensures k in PatternValues(patterns).at <==> exists i: nat :: IsFirst(patterns, k, i) {
        EmplacedFirst(Empty(), patterns, |patterns|, k);
        FirstBound(patterns, k);
      }
    } else {
      NoPatternValues();
    }
    forall k, i: nat | IsFirst(patterns, k, i)
      ensures k in PatternValues(patterns).at && PatternValues(patterns).at[k] == patterns[i].values
    {
      FirstBound(patterns, k);
      EmplacedFirst(Empty(), patterns, |patterns|, k);
    }
  }

  lemma FirstBound(patterns: seq<Pattern>, k: string)
    ensures forall i: nat :: IsFirst(patterns, k, i) ==> i < |patterns|
  {
  }

  lemma NoPatternValues()
    ensures PatternValues([]).at == map["NO-KEY" := ["NO-VALUE"]]
  {
  }

  method MakePatternPermutator(patterns: seq<Pattern>) returns (values: OrderedMap<seq<string>>)
    ensures values == PatternValues(patterns)
    ensures patterns == [] ==> values.at == map["NO-KEY" := ["NO-VALUE"]]
    ensures patterns != [] ==> forall k :: k in values.at <==> exists i: nat :: IsFirst(patterns, k, i)
    ensures forall k, i: nat :: IsFirst(patterns, k, i) ==> k in values.at && values.at[k] == patterns[i].values
  {
    hide IsFirst;
    PatternValuesAre(patterns);
    values := Empty();
    if patterns == [] {
      values := Emplace(values, "NO-KEY", ["NO-VALUE"]);
    }
    ghost var start := values;
    for i := 0 to |patterns|
      invariant values == EmplaceUpTo(start, patterns, i)
    {
      values := Emplace(values, patterns[i].key, patterns[i].values);
    }
  }

  /** The combinations that a range-for over the permutator visits, in order. */
  method VisitCombinations(patterns: seq<Pattern>) returns (combos: seq<Combination>)
    ensures combos == Combinations(patterns)
  {
    hide Enumerate, PatternValues;
    var permutator := MakePatternPermutator(patterns);
    combos := Run(permutator);
  }

  /** Without patterns a plugin runs once; with patterns it runs the whole product of their values. */
  lemma CombinationCount(patterns: seq<Pattern>)
    ensures patterns == [] ==> |Combinations(patterns)| == 1
    ensures |Combinations(patterns)| == Sizes(Collections(PatternValues(patterns)))
  {
    var m := PatternValues(patterns);
    ProductSize(Collections(m));
    if patterns == [] {
      var cs := Collections(m);
      assert m.keys == ["NO-KEY"] && cs == [["NO-VALUE"]];
      assert cs[1..] == [];
    } else {
      FirstExists(patterns, 0);
      PatternValuesAre(patterns);
      KeyIn(m, patterns[0].key);
    }
  }

  // -------- replacing patterns --------

  function ReplaceIn(s: string, c: Combination): string {
    CombinationKeys(c);
    Sequential(s, c.keys, c.at)
  }

  lemma CombinationKeys(c: Combination)
    ensures forall k :: k in c.keys ==> k in c.at
  {
    forall k | k in c.keys ensures k in c.at { KeyIn(c, k); }
  }

  /** No brace of `s` becomes a hole only by filling others. */
  predicate Steady(s: string, c: Combination) {
    CombinationKeys(c);
    PatternRendering.NoCascade(s, c.keys, c.at)
  }

  /** With brace-free patterns, a string is replaced by filling all its holes at once exactly if nothing cascades. */
  lemma ReplacedExactly(s: string, c: Combination)
    requires AllPlain(c.at)
    ensures ReplaceIn(s, c) == Simultaneous(s, c.at) <==> Steady(s, c)
  {
    hide Sequential, Simultaneous, Sorted, KeySet, Plain, PatternRendering.NoCascade;
    CombinationKeys(c);
    AsPatterns(c);
    PatternRendering.SequentialExact(s, c.keys, c.at);
  }

  lemma AsPatterns(c: Combination)
    requires AllPlain(c.at)
    ensures PatternRendering.PlainPatterns(c.keys, c.at) && PatternRendering.Only(c.keys, c.at) == c.at
  {
    hide Plain;
    CombinationKeys(c);
    KeysDistinct(c.keys);
    forall k | k in c.at ensures k in c.keys { KeyIn(c, k); }
    assert PatternRendering.Only(c.keys, c.at) == c.at;
  }

  /** ... which is rendering, if the string is a printed template. */
  lemma ReplacedRenders(t: seq<PatternRendering.Segment>, c: Combination)
    requires AllPlain(c.at) && PatternRendering.WellFormed(t)
    ensures ReplaceIn(PatternRendering.Print(t), c) == PatternRendering.Render(t, c.at)
  {
    hide Sequential, Sorted, KeySet, Plain, PatternRendering.Render;
    CombinationKeys(c);
    AsPatterns(c);
    PatternRendering.TemplateRenders(t, c.keys, c.at);
  }

  function ReplaceEach(args: seq<string>, c: Combination): (r: seq<string>)
    ensures |r| == |args| && forall i :: 0 <= i < |args| ==> r[i] == ReplaceIn(args[i], c)
  {
    seq(|args|, i requires 0 <= i < |args| => ReplaceIn(args[i], c))
  }

  /** The first `n` entries of the environment, replaced and emplaced in key order. */
  function ReplaceEnvUpTo(env: OrderedMap<string>, c: Combination, n: nat): OrderedMap<string>
    requires n <= |env.keys|
  {
    if n == 0 then Empty() else
      KeyAt(env, n - 1);
      var k := env.keys[n - 1];
      Emplace(ReplaceEnvUpTo(env, c, n - 1), ReplaceIn(k, c), ReplaceIn(env.at[k], c))
  }

  function ReplaceEnv(env: OrderedMap<string>, c: Combination): OrderedMap<string> {
    ReplaceEnvUpTo(env, c, |env.keys|)
  }

  function ReplaceTask(t: TaskValue, c: Combination, dirs: Dirs): TaskValue {
    var env := ReplaceEnv(t.env, c);
    var dir := ReplaceIn(t.dir, c);
    WithArgs(WithDirectory(WithEnvironment(DefaultTask(dirs), env, dirs), dir, dirs), ReplaceEach(t.args, c))
  }

  method ReplaceElement(element: string, c: Combination) returns (r: string)
    ensures r == ReplaceIn(element, c)
    ensures AllPlain(c.at) ==> (r == Simultaneous(element, c.at) <==> Steady(element, c))
  {
    hide AllPlain, Simultaneous, Steady, Plain;
    if AllPlain(c.at) { ReplacedExactly(element, c); }
    CombinationKeys(c);
    r := element;
    for i := 0 to |c.keys|
      invariant r == Sequential(element, c.keys[..i], c.at)
    {
      assert c.keys[..i + 1][..i] == c.keys[..i];
      r := ReplacePattern(r, c.keys[i], c.at[c.keys[i]]);
    }
    assert c.keys[..|c.keys|] == c.keys;
  }

  method ReplacePatternsInEnvironment(env: OrderedMap<string>, c: Combination) returns (replaced: OrderedMap<string>)
    ensures replaced == ReplaceEnv(env, c)
  {
    hide Emplace, Sorted, KeySet, ReplacePattern;
    CombinationKeys(c);
    replaced := Empty();
    for i := 0 to |env.keys|
      invariant replaced == ReplaceEnvUpTo(env, c, i)
    {
      KeyAt(env, i);
      var key, value := env.keys[i], env.at[env.keys[i]];
      ghost var key0, value0 := key, value;
      for j := 0 to |c.keys|
        invariant key == Sequential(key0, c.keys[..j], c.at)
        invariant value == Sequential(value0, c.keys[..j], c.at)
      {
        assert c.keys[..j + 1][..j] == c.keys[..j];
        key := ReplacePattern(key, c.keys[j], c.at[c.keys[j]]);
        value := ReplacePattern(value, c.keys[j], c.at[c.keys[j]]);
      }
      assert c.keys[..|c.keys|] == c.keys;
      replaced := Emplace(replaced, key, value);
    }
  }

  method ReplacePatternCombinations(t: TaskValue, c: Combination, dirs: Dirs) returns (r: TaskValue)
    ensures r == ReplaceTask(t, c, dirs)
  {
    hide ReplaceIn, ReplaceEnv, Put, Sorted, KeySet;
    var replaced := new Task([], Empty(), dirs.current, dirs);
    var env := ReplacePatternsInEnvironment(t.env, c);
    replaced.SetEnvironment(env);
    var dir := ReplaceElement(t.dir, c);
    replaced.SetWorkingDirectory(dir);
    ghost var base := replaced.Value();
    for i := 0 to |t.args|
      invariant replaced.dirs == dirs && replaced.Value() == WithArgs(base, ReplaceEach(t.args, c)[..i])
    {
      var argument := ReplaceElement(t.args[i], c);
      replaced.Append([argument]);
      assert ReplaceEach(t.args, c)[..i + 1] == ReplaceEach(t.args, c)[..i] + [argument];
    }
    assert ReplaceEach(t.args, c)[..|t.args|] == ReplaceEach(t.args, c);
    r := replaced.Value();
  }

  // -------- what the replaced task is --------

  /** The index of the first environment key that is replaced by `k`. */
  predicate FirstSource(env: OrderedMap<string>, c: Combination, k: string, i: nat) {
    && i < |env.keys|
    && ReplaceIn(env.keys[i], c) == k
    && forall j :: 0 <= j < i ==> ReplaceIn(env.keys[j], c) != k
  }

  lemma {:induction false} ReplacedEnv(env: OrderedMap<string>, c: Combination, n: nat, k: string)
    requires n <= |env.keys|
    ensures k in ReplaceEnvUpTo(env, c, n).at <==> exists i :: 0 <= i < n && FirstSource(env, c, k, i)
    ensures forall i :: 0 <= i < n && FirstSource(env, c, k, i) ==>
                          env.keys[i] in env.at && ReplaceEnvUpTo(env, c, n).at[k] == ReplaceIn(env.at[env.keys[i]], c)
  {
    hide Sequential, ReplaceIn, Emplace, Sorted, KeySet, FirstSource;
    if n > 0 {
      ReplacedEnv(env, c, n - 1, k);
      KeyAt(env, n - 1);
      SourceNext(env, c, k, n - 1);
    }
  }

  /** A key is the first source exactly if there is none before it. */
  lemma SourceNext(env: OrderedMap<string>, c: Combination, k: string, n: nat)
    requires n < |env.keys|
    ensures FirstSource(env, c, k, n) <==>
            ReplaceIn(env.keys[n], c) == k && !exists i :: 0 <= i < n && FirstSource(env, c, k, i)
  {
    hide Sequential, ReplaceIn;
    if !exists i :: 0 <= i < n && FirstSource(env, c, k, i) {
      NoSourceBefore(env, c, k, n);
    }
  }

  lemma {:induction false} NoSourceBefore(env: OrderedMap<string>, c: Combination, k: string, n: nat)
    requires n <= |env.keys| && !exists i :: 0 <= i < n && FirstSource(env, c, k, i)
    ensures forall j :: 0 <= j < n ==> ReplaceIn(env.keys[j], c) != k
  {
    hide Sequential, ReplaceIn;
    if n > 0 {
      NoSourceBefore(env, c, k, n - 1);
      assert !FirstSource(env, c, k, n - 1);
    }
  }

  /**
    The arguments keep number and order; PWD is the absolute form of the task's own replaced
    directory, whatever the environment said; every other variable comes from the first
    environment key, in key order, that is replaced by its name.  With brace-free patterns, arguments,
    directory, names and values have all their holes filled at once exactly where nothing cascades.
   */
  lemma ReplacedTask(t: TaskValue, c: Combination, dirs: Dirs, k: string, i: nat)
    ensures var r := ReplaceTask(t, c, dirs);
            && |r.args| == |t.args| && (forall j :: 0 <= j < |t.args| ==> r.args[j] == ReplaceIn(t.args[j], c))
            && r.dir == ReplaceIn(t.dir, c)
            && PWD in r.env.at && r.env.at[PWD] == dirs.absolute(r.dir)
            && (k != PWD ==> (k in r.env.at <==> exists j: nat :: FirstSource(t.env, c, k, j)))
            && (k != PWD && FirstSource(t.env, c, k, i) ==>
                  t.env.keys[i] in t.env.at && k in r.env.at && r.env.at[k] == ReplaceIn(t.env.at[t.env.keys[i]], c))
            && (AllPlain(c.at) ==>
                  && (forall j :: 0 <= j < |t.args| ==>
                        (r.args[j] == Simultaneous(t.args[j], c.at) <==> Steady(t.args[j], c)))
                  && (r.dir == Simultaneous(t.dir, c.at) <==> Steady(t.dir, c))
                  && (k != PWD && FirstSource(t.env, c, k, i) ==>
                        && (k == Simultaneous(t.env.keys[i], c.at) <==> Steady(t.env.keys[i], c))
                        && (r.env.at[k] == Simultaneous(t.env.at[t.env.keys[i]], c.at) <==>
                              Steady(t.env.at[t.env.keys[i]], c))))
  {
    hide Sequential, ReplaceIn, Emplace, Sorted, KeySet, ReplaceEnvUpTo, Simultaneous, Steady, AllPlain;
    if AllPlain(c.at) {
      forall s: string ensures ReplaceIn(s, c) == Simultaneous(s, c.at) <==> Steady(s, c) { ReplacedExactly(s, c); }
    }
    ReplacedEnv(t.env, c, |t.env.keys|, k);
    FirstSourceBound(t.env, c, k);
    if i < |t.env.keys| { KeyAt(t.env, i); }
  }

  lemma FirstSourceBound(env: OrderedMap<string>, c: Combination, k: string)
    ensures forall i: nat :: FirstSource(env, c, k, i) ==> i < |env.keys|
  {
  }

  // -------- tasks that are written as templates --------

  type Template = t: seq<PatternRendering.Segment> | PatternRendering.WellFormed(t) witness []

  datatype TaskTemplate = TaskTemplate(args: seq<Template>, dir: Template, env: seq<(Template, Template)>)

  /** The task has the printed arguments, directory, names and values of the template. */
  predicate Prints(p: TaskTemplate, t: TaskValue) {
    && |t.args| == |p.args| && (forall j :: 0 <= j < |p.args| ==> t.args[j] == PatternRendering.Print(p.args[j]))
    && t.dir == PatternRendering.Print(p.dir)
    && |t.env.keys| == |p.env|
    && (forall j :: 0 <= j < |p.env| ==>
          && t.env.keys[j] == PatternRendering.Print(p.env[j].0)
          && t.env.keys[j] in t.env.at && t.env.at[t.env.keys[j]] == PatternRendering.Print(p.env[j].1))
  }

  predicate FirstRendered(p: TaskTemplate, at: map<string, string>, k: string, i: nat) {
    && i < |p.env| && PatternRendering.Render(p.env[i].0, at) == k
    && forall j :: 0 <= j < i ==> PatternRendering.Render(p.env[j].0, at) != k
  }

  /** The replaced task is the rendered one; of names that render alike the first one counts. */
  lemma RenderedTask(p: TaskTemplate, t: TaskValue, c: Combination, dirs: Dirs, k: string, i: nat)
    requires Prints(p, t) && AllPlain(c.at)
    ensures var r := ReplaceTask(t, c, dirs);
            && |r.args| == |p.args|
            && (forall j :: 0 <= j < |p.args| ==> r.args[j] == PatternRendering.Render(p.args[j], c.at))
            && r.dir == PatternRendering.Render(p.dir, c.at)
            && PWD in r.env.at && r.env.at[PWD] == dirs.absolute(r.dir)
            && (k != PWD ==> (k in r.env.at <==> exists j: nat :: FirstRendered(p, c.at, k, j)))
            && (k != PWD && FirstRendered(p, c.at, k, i) ==>
                  k in r.env.at && r.env.at[k] == PatternRendering.Render(p.env[i].1, c.at))
  {
    hide Sequential, ReplaceIn, Sorted, KeySet, AllPlain, PatternRendering.Print, PatternRendering.Render,
      PatternRendering.WellFormed, Steady, Simultaneous, ReplaceTask;
    ReplacedTask(t, c, dirs, k, i);
    forall u: Template ensures ReplaceIn(PatternRendering.Print(u), c) == PatternRendering.Render(u, c.at) {
      ReplacedRenders(u, c);
    }
    forall j: nat ensures FirstRendered(p, c.at, k, j) <==> FirstSource(t.env, c, k, j) {
    }
  }
}

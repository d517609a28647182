/**
  When replacing patterns one after another fills all holes at once.  For patterns with brace-free
  keys and values: exactly when no brace of the string becomes a hole only by filling others.
  Templates, whose text has no braces, never have such a brace.  Values with braces can bring in
  holes of their own.
 */
module PatternRendering {
  import opened Options
  import opened Patterns

  function Only(keys: seq<string>, at: map<string, string>): map<string, string>
    requires forall k :: k in keys ==> k in at
  {
    map k | k in keys :: at[k]
  }

  /** Distinct keys, with brace-free keys and values. */
  predicate PlainPatterns(keys: seq<string>, at: map<string, string>) {
    && (forall i, j :: 0 <= i < j < |keys| ==> keys[i] != keys[j])
    && (forall k :: k in keys ==> k in at && Plain(k) && Plain(at[k]))
  }

  // -------- holes that only come up by filling others --------

  /** Up to a closing brace, `s` reads `key` once the holes of `at` are filled. */
  predicate Spells(s: string, at: map<string, string>, key: string)
    decreases |s|
  {
    s != [] &&
    if Hole(s).Some? && Hole(s).value in at then
      var v := at[Hole(s).value];
      v <= key && Spells(s[|Hole(s).value| + 2..], at, key[|v|..])
    else if key == [] then s[0] == '}'
    else s[0] == key[0] && Spells(s[1..], at, key[1..])
  }

  /** `s` starts with a brace that is no hole of `at` or `key`, but opens one of `key` once others are filled. */
  predicate Nests(s: string, at: map<string, string>, key: string) {
    && s != [] && s[0] == '{'
    && !(Hole(s).Some? && (Hole(s).value in at || Hole(s).value == key))
    && Spells(s[1..], at, key)
  }

  /** The brace at `p` becomes a hole of the `i`-th pattern only through the patterns before it. */
  predicate CascadesAt(s: string, keys: seq<string>, at: map<string, string>, i: nat, p: nat)
    requires i < |keys| && p < |s| && forall k :: k in keys ==> k in at
  {
    Nests(s[p..], Only(keys[..i], at), keys[i])
  }

  /** No brace of the string becomes a hole only through other patterns. */
  predicate NoCascade(s: string, keys: seq<string>, at: map<string, string>)
    requires forall k :: k in keys ==> k in at
  {
    forall i, p :: 0 <= i < |keys| && 0 <= p < |s| ==> !CascadesAt(s, keys, at, i, p)
  }

  lemma PrefixSplit(v: string, key: string, rest: string)
    requires Plain(v) && Plain(key)
    ensures key + "}" <= v + rest <==> v <= key && key[|v|..] + "}" <= rest
  {
    var whole := v + rest;
    if key + "}" <= whole {
      assert whole[|key|] == (key + "}")[|key|] == '}';
      assert forall j :: 0 <= j < |v| ==> whole[j] == v[j] != '}';
      assert |v| <= |key|;
      assert v == whole[..|v|] == (key + "}")[..|v|] == key[..|v|];
      assert rest == whole[|v|..] && key[|v|..] + "}" == (key + "}")[|v|..];
    }
    if v <= key {
      assert key + "}" == v + (key[|v|..] + "}");
    }
  }

  lemma {:induction false} SpellsIff(s: string, at: map<string, string>, key: string)
    requires AllPlain(at) && Plain(key)
    ensures Spells(s, at, key) <==> key + "}" <= Simultaneous(s, at)
    decreases |s|
  {
    hide Span, Hole;
    if s != [] {
      if Hole(s).Some? && Hole(s).value in at {
        var k := Hole(s).value;
        var rest := s[|k| + 2..];
        PrefixSplit(at[k], key, Simultaneous(rest, at));
        if at[k] <= key {
          SpellsIff(rest, at, key[|at[k]|..]);
        }
      } else {
        var out := Simultaneous(s[1..], at);
        assert Simultaneous(s, at) == [s[0]] + out;
        if key == [] {
          assert key + "}" == ['}'] + [];
          ConsPrefix('}', [], s[0], out);
        } else {
          SpellsIff(s[1..], at, key[1..]);
          assert key + "}" == [key[0]] + (key[1..] + "}");
          ConsPrefix(key[0], key[1..] + "}", s[0], out);
        }
      }
    }
  }

  lemma ConsPrefix(c: char, a: string, d: char, b: string)
    ensures [c] + a <= [d] + b <==> c == d && a <= b
  {
    if [c] + a <= [d] + b {
      assert ([c] + a)[0] == ([d] + b)[0];
      assert ([c] + a)[1..] == a && ([d] + b)[1..|a| + 1] == b[..|a|];
    }
  }

  /** How many braces of `s` nest. */
  function Nested(s: string, at: map<string, string>, key: string): nat {
    if s == [] then 0 else (if Nests(s, at, key) then 1 else 0) + Nested(s[1..], at, key)
  }

  lemma {:induction false} PassNested(p: string, s: string, at: map<string, string>, key: string)
    requires '{' !in p
    ensures Nested(p + s, at, key) == Nested(s, at, key)
  {
    hide Spells, Hole;
    if p == [] {
      assert p + s == s;
    } else {
      assert (p + s)[0] == p[0] && (p + s)[1..] == p[1..] + s;
      PassNested(p[1..], s, at, key);
    }
  }

  /** Filling the holes of `at` keeps the holes of `key`, and adds one for each brace that nests. */
  lemma {:induction false} HolesAfter(s: string, at: map<string, string>, key: string)
    requires AllPlain(at) && Plain(key) && key !in at
    ensures Holes(Simultaneous(s, at), key) == Holes(s, key) + Nested(s, at, key)
    decreases |s|
  {
    hide Span, Hole, ReplacePattern, Simultaneous, Spells;
    if s == [] {
      NothingFilled(at);
    } else if Hole(s).Some? && (Hole(s).value in at || Hole(s).value == key) {
      var k := Hole(s).value;
      var rest := s[|k| + 2..];
      HolesAfter(rest, at, key);
      HoleSplit(s);
      PassNested(k + "}", rest, at, key);
      if k == key {
        OneMoreOwn(s, at, key, "");
        NeedleAhead(key, Simultaneous(rest, at), "");
      } else {
        OneMoreFilled(s, at, key, "");
      }
    } else {
      HolesAfter(s[1..], at, key);
      OneMoreChar(s, at, key, "");
      BraceOpens(s[0], Simultaneous(s[1..], at), key);
      SpellsIff(s[1..], at, key);
    }
  }

  lemma NothingFilled(at: map<string, string>)
    ensures Simultaneous([], at) == []
  {
  }

  lemma BraceOpens(c: char, out: string, key: string)
    requires Plain(key)
    ensures Hole([c] + out) == Some(key) <==> c == '{' && key + "}" <= out
  {
    HoleIsNeedle([c] + out, key);
    assert Needle(key) == ['{'] + (key + "}");
    ConsPrefix('{', key + "}", c, out);
  }

  lemma {:induction false} NestedNone(s: string, at: map<string, string>, key: string)
    ensures Nested(s, at, key) == 0 <==> forall p :: 0 <= p < |s| ==> !Nests(s[p..], at, key)
  {
    hide Nests;
    if s != [] {
      NestedNone(s[1..], at, key);
      assert s[0..] == s;
      assert forall p :: 1 <= p < |s| ==> s[1..][p - 1..] == s[p..];
      if forall p :: 0 <= p < |s| ==> !Nests(s[p..], at, key) {
        forall p | 0 <= p < |s[1..]| ensures !Nests(s[1..][p..], at, key) { assert s[1..][p..] == s[p + 1..]; }
      }
      if Nested(s, at, key) == 0 {
        forall p | 0 <= p < |s| ensures !Nests(s[p..], at, key) {
          if p > 0 { assert s[p..] == s[1..][p - 1..]; }
        }
      }
    }
  }

  /** What it means for the strings in between: filling the earlier holes brings up none of this pattern. */
  predicate Fresh(s: string, keys: seq<string>, at: map<string, string>, i: nat)
    requires i < |keys| && forall k :: k in keys ==> k in at
  {
    Holes(Simultaneous(s, Only(keys[..i], at)), keys[i]) == Holes(s, keys[i])
  }

  lemma FreshIff(s: string, keys: seq<string>, at: map<string, string>, i: nat)
    requires PlainPatterns(keys, at) && i < |keys|
    ensures Fresh(s, keys, at, i) <==> forall p :: 0 <= p < |s| ==> !CascadesAt(s, keys, at, i, p)
  {
    hide Nests, Simultaneous, Holes, Nested;
    var before := Only(keys[..i], at);
    assert keys[i] in keys && forall k :: k in keys[..i] ==> k in keys;
    HolesAfter(s, before, keys[i]);
    NestedNone(s, before, keys[i]);
    forall p | 0 <= p < |s| ensures CascadesAt(s, keys, at, i, p) == Nests(s[p..], before, keys[i]) {
    }
    if forall p :: 0 <= p < |s| ==> !CascadesAt(s, keys, at, i, p) {
      forall p | 0 <= p < |s| ensures !Nests(s[p..], before, keys[i]) {
        assert !CascadesAt(s, keys, at, i, p);
      }
    }
  }

  lemma Front(keys: seq<string>, at: map<string, string>)
    requires PlainPatterns(keys, at) && keys != []
    ensures var n := |keys| - 1;
            && PlainPatterns(keys[..n], at) && AllPlain(Only(keys[..n], at))
            && keys[n] in keys && keys[n] !in keys[..n] && keys[n] !in Only(keys[..n], at)
            && Only(keys, at) == Only(keys[..n], at)[keys[n] := at[keys[n]]]
  {
    var n := |keys| - 1;
    assert keys == keys[..n] + [keys[n]];
  }

  lemma NoCascadeFront(s: string, keys: seq<string>, at: map<string, string>)
    requires PlainPatterns(keys, at) && keys != []
    ensures var n := |keys| - 1;
            NoCascade(s, keys, at) <==> NoCascade(s, keys[..n], at) && Fresh(s, keys, at, n)
  {
    hide Nests, Fresh;
    var n := |keys| - 1;
    Front(keys, at);
    FreshIff(s, keys, at, n);
    forall i, p | 0 <= i < n && 0 <= p < |s|
      ensures CascadesAt(s, keys, at, i, p) == CascadesAt(s, keys[..n], at, i, p)
    {
      assert keys[..n][..i] == keys[..i];
    }
  }

  /** No hole of a pattern still to come is ever lost. */
  lemma {:induction false} HolesSurvive(s: string, keys: seq<string>, at: map<string, string>, other: string)
    requires PlainPatterns(keys, at) && Plain(other) && other !in keys
    ensures Holes(Sequential(s, keys, at), other) >= Holes(s, other)
  {
    if keys != [] {
      var n := |keys| - 1;
      Front(keys, at);
      HolesSurvive(s, keys[..n], at, other);
      ReplaceOne(Sequential(s, keys[..n], at), keys[n], at[keys[n]], other);
    }
  }

  /** Either the two agree, or the sequential replacement has eaten more braces. */
  lemma {:induction false} AgreeOrShorter(s: string, keys: seq<string>, at: map<string, string>)
    requires PlainPatterns(keys, at)
    ensures NoCascade(s, keys, at) ==> Sequential(s, keys, at) == Simultaneous(s, Only(keys, at))
    ensures !NoCascade(s, keys, at) ==> Opens(Sequential(s, keys, at)) < Opens(Simultaneous(s, Only(keys, at)))
  {
    if keys == [] {
      assert Only(keys, at) == map[];
      NoPatterns(s);
    } else {
      var n := |keys| - 1;
      var before := keys[..n];
      Front(keys, at);
      NoCascadeFront(s, keys, at);
      AgreeOrShorter(s, before, at);
      LastStep(s, keys, at);
    }
  }

  lemma LastStep(s: string, keys: seq<string>, at: map<string, string>)
    requires PlainPatterns(keys, at) && keys != []
    requires var before := keys[..|keys| - 1];
             && (NoCascade(s, before, at) ==> Sequential(s, before, at) == Simultaneous(s, Only(before, at)))
             && (!NoCascade(s, before, at) ==>
                   Opens(Sequential(s, before, at)) < Opens(Simultaneous(s, Only(before, at))))
    ensures var all := NoCascade(s, keys[..|keys| - 1], at) && Fresh(s, keys, at, |keys| - 1);
            && (all ==> Sequential(s, keys, at) == Simultaneous(s, Only(keys, at)))
            && (!all ==> Opens(Sequential(s, keys, at)) < Opens(Simultaneous(s, Only(keys, at))))
  {
    hide Simultaneous, Holes, Opens, ReplacePattern, NoCascade;
    var n := |keys| - 1;
    var before, k, v := keys[..n], keys[n], at[keys[n]];
    Front(keys, at);
    var a, b := Sequential(s, before, at), Simultaneous(s, Only(before, at));
    OneMore(s, Only(before, at), k, v);
    HolesSurvive(s, before, at, k);
    OpensAfter(a, k, v);
    assert Sequential(s, keys, at) == ReplacePattern(a, k, v);
  }

  lemma OpensAfter(s: string, key: string, value: string)
    requires Plain(key) && Plain(value)
    ensures Opens(s) == Opens(ReplacePattern(s, key, value)) + Holes(s, key)
  {
    NoPatterns(s);
    OneMore(s, map[], key, value);
  }

  /** For every string and all brace-free patterns, in any order: agreement if and only if nothing cascades. */
  lemma SequentialExact(s: string, keys: seq<string>, at: map<string, string>)
    requires PlainPatterns(keys, at)
    ensures Sequential(s, keys, at) == Simultaneous(s, Only(keys, at)) <==> NoCascade(s, keys, at)
  {
    AgreeOrShorter(s, keys, at);
  }

  // -------- values with braces --------

  /** Text in front adds holes or leaves replacing alone. */
  lemma {:induction false} TextAhead(w: string, x: string, key: string, value: string)
    requires Plain(key)
    ensures Holes(w + x, key) >= Holes(x, key)
    ensures Holes(w + x, key) == Holes(x, key) ==>
              ReplacePattern(w + x, key, value) == w + ReplacePattern(x, key, value)
  {
    hide Hole, ReplacePattern;
    if w == [] {
      assert w + x == x;
    } else {
      assert (w + x)[0] == w[0] && (w + x)[1..] == w[1..] + x;
      TextAhead(w[1..], x, key, value);
      ReplaceStep(w + x, key, value);
      assert w == [w[0]] + w[1..];
    }
  }

  /** One more pattern, whatever the values: if no hole of it came up newly, as if both were filled at once. */
  lemma {:induction false} OneMoreAny(s: string, at: map<string, string>, key: string, value: string)
    requires Plain(key) && key !in at
    ensures Holes(Simultaneous(s, at), key) >= Holes(s, key)
    ensures Holes(Simultaneous(s, at), key) == Holes(s, key) ==>
              ReplacePattern(Simultaneous(s, at), key, value) == Simultaneous(s, at[key := value])
    decreases |s|
  {
    hide Hole, ReplacePattern, Simultaneous, Holes;
    if s == [] {
      NothingFilled(at);
      NothingFilled(at[key := value]);
      NothingReplaced(key, value);
    } else if Hole(s).Some? && (Hole(s).value in at || Hole(s).value == key) {
      var k := Hole(s).value;
      OneMoreAny(s[|k| + 2..], at, key, value);
      HoleAhead(s, at, key, value);
    } else {
      OneMoreAny(s[1..], at, key, value);
      OneMoreChar(s, at, key, value);
    }
  }

  lemma NothingReplaced(key: string, value: string)
    ensures ReplacePattern([], key, value) == [] && Holes([], key) == 0
  {
  }

  /** At a hole of `at` or of `key` itself. */
  lemma HoleAhead(s: string, at: map<string, string>, key: string, value: string)
    requires Plain(key) && key !in at && s != [] && Hole(s).Some? && (Hole(s).value in at || Hole(s).value == key)
    requires var rest := s[|Hole(s).value| + 2..];
             && Holes(Simultaneous(rest, at), key) >= Holes(rest, key)
             && (Holes(Simultaneous(rest, at), key) == Holes(rest, key) ==>
                   ReplacePattern(Simultaneous(rest, at), key, value) == Simultaneous(rest, at[key := value]))
    ensures Holes(Simultaneous(s, at), key) >= Holes(s, key)
    ensures Holes(Simultaneous(s, at), key) == Holes(s, key) ==>
              ReplacePattern(Simultaneous(s, at), key, value) == Simultaneous(s, at[key := value])
  {
    hide ReplacePattern, Simultaneous, Holes, Hole;
    var k := Hole(s).value;
    var rest := s[|k| + 2..];
    if k == key {
      OwnAhead(s, at, key, value);
      NeedleAhead(key, Simultaneous(rest, at), value);
    } else {
      FilledAhead(s, at, key, value);
      TextAhead(at[k], Simultaneous(rest, at), key, value);
    }
  }

  lemma OwnAhead(s: string, at: map<string, string>, key: string, value: string)
    requires Plain(key) && key !in at && s != [] && Hole(s) == Some(key)
    ensures var rest := s[|key| + 2..];
            && Holes(s, key) == 1 + Holes(rest, key)
            && Simultaneous(s, at) == Needle(key) + Simultaneous(rest, at)
            && Simultaneous(s, at[key := value]) == value + Simultaneous(rest, at[key := value])
  {
    hide Span;
    var rest := s[|key| + 2..];
    HoleSplit(s);
    PassCounts(key + "}", rest, key);
    PassSimultaneous(key + "}", rest, at);
    assert Needle(key) + Simultaneous(rest, at) == ['{'] + ((key + "}") + Simultaneous(rest, at));
  }

  lemma FilledAhead(s: string, at: map<string, string>, key: string, value: string)
    requires Plain(key) && key !in at && s != [] && Hole(s).Some? && Hole(s).value in at
    ensures var rest := s[|Hole(s).value| + 2..]; var v := at[Hole(s).value];
            && Holes(s, key) == Holes(rest, key)
            && Simultaneous(s, at) == v + Simultaneous(rest, at)
            && Simultaneous(s, at[key := value]) == v + Simultaneous(rest, at[key := value])
  {
    hide Span;
    HoleSplit(s);
    PassCounts(Hole(s).value + "}", s[|Hole(s).value| + 2..], key);
  }

  /**
    Whatever the values: if filling the earlier holes never brings up one of a later pattern,
    replacing one after another is filling all at once.
   */
  lemma {:induction false} FreshSuffices(s: string, keys: seq<string>, at: map<string, string>)
    requires forall i, j :: 0 <= i < j < |keys| ==> keys[i] != keys[j]
    requires forall k :: k in keys ==> k in at && Plain(k)
    requires forall i :: 0 <= i < |keys| ==> Fresh(s, keys, at, i)
    ensures Sequential(s, keys, at) == Simultaneous(s, Only(keys, at))
  {
    hide Simultaneous, Holes, ReplacePattern;
    if keys == [] {
      assert Only(keys, at) == map[];
      NoPatterns(s);
    } else {
      var n := |keys| - 1;
      assert keys == keys[..n] + [keys[n]];
      forall i | 0 <= i < n ensures Fresh(s, keys[..n], at, i) {
        assert Fresh(s, keys, at, i) && keys[..n][..i] == keys[..i];
      }
      FreshSuffices(s, keys[..n], at);
      assert Only(keys, at) == Only(keys[..n], at)[keys[n] := at[keys[n]]];
      assert Fresh(s, keys, at, n);
      OneMoreAny(s, Only(keys[..n], at), keys[n], at[keys[n]]);
    }
  }

  /** A value that brings in a hole: no brace of the string cascades, but the value does. */
  lemma ValueCascades()
    ensures var at := map["A" := "{B}", "B" := "C"];
            && NoCascade("{A}", ["A", "B"], at) && !Fresh("{A}", ["A", "B"], at, 1)
            && Sequential("{A}", ["A", "B"], at) == "C"
            && Simultaneous("{A}", at) == "{B}"
  {
    hide Sequential, Simultaneous, ReplacePattern, Nests, Holes;
    var at := map["A" := "{B}", "B" := "C"];
    OneAfterAnother("{A}", "A", "B", at);
    ValueSteps(at);
    assert ["A", "B"][..1] == ["A"];
    assert Only(["A"], at) == map["A" := "{B}"];
    forall i, p | 0 <= i < 2 && 0 <= p < 3 ensures !CascadesAt("{A}", ["A", "B"], at, i, p) {
      assert "{A}"[0..] == "{A}" && "{A}"[1..] == "A}" && "{A}"[2..] == "}";
      assert i == 0 || i == 1;
      assert p == 0 || p == 1 || p == 2;
      NotNested("{A}"[p..], Only(["A", "B"][..i], at), ["A", "B"][i]);
    }
    ValueHoles();
  }

  /** ... though it need not show: here the value brings in a hole that is filled by itself. */
  lemma ValueHidden()
    ensures var at := map["A" := "{B}", "B" := "{B}"];
            && !Fresh("{A}", ["A", "B"], at, 1)
            && Sequential("{A}", ["A", "B"], at) == Simultaneous("{A}", at) == "{B}"
  {
    hide Sequential, Simultaneous, ReplacePattern, Holes;
    var at := map["A" := "{B}", "B" := "{B}"];
    OneAfterAnother("{A}", "A", "B", at);
    ValueSteps(at);
    assert ["A", "B"][..1] == ["A"];
    assert Only(["A"], at) == map["A" := "{B}"];
    ValueHoles();
    OwnHole();
  }

  lemma OwnHole()
    ensures ReplacePattern(ReplacePattern("{A}", "A", "{B}"), "B", "{B}") == "{B}"
  {
    assert Needle("A") == "{A}" && Needle("B") == "{B}";
    assert "{A}"[3..] == [] && "{B}"[3..] == [];
    assert ReplacePattern("{A}", "A", "{B}") == "{B}";
  }

  lemma NotNested(s: string, before: map<string, string>, key: string)
    requires s == "{A}" || s == "A}" || s == "}"
    requires key == "A" || "A" in before
    ensures !Nests(s, before, key)
  {
    HoleIsNeedle("{A}", "A");
    assert Needle("A") == "{A}";
  }

  lemma ValueSteps(at: map<string, string>)
    requires "A" in at && at["A"] == "{B}"
    ensures ReplacePattern(ReplacePattern("{A}", "A", "{B}"), "B", "C") == "C"
    ensures Simultaneous("{A}", at) == "{B}"
  {
    assert Needle("A") == "{A}" && Needle("B") == "{B}";
    HoleIsNeedle("{A}", "A");
    assert "{A}"[3..] == [] && "{B}"[3..] == [];
    assert ReplacePattern("{A}", "A", "{B}") == "{B}";
    assert Simultaneous([], at) == [];
  }

  lemma ValueHoles()
    ensures Holes(Simultaneous("{A}", map["A" := "{B}"]), "B") == 1 && Holes("{A}", "B") == 0
  {
    ValueSteps(map["A" := "{B}"]);
    assert Needle("A") == "{A}" && Needle("B") == "{B}";
    HoleIsNeedle("{A}", "A");
    HoleIsNeedle("{B}", "B");
    assert "{A}"[1..] == "A}" && "A}"[1..] == "}" && "{B}"[1..] == "B}" && "B}"[1..] == "}" && "}"[1..] == [];
    assert Holes("}", "B") == 0 && Holes("A}", "B") == 0 && Holes("B}", "B") == 0;
  }

  /** A hole inside braces: filling the inner one makes the outer one a hole of the second pattern. */
  lemma NestedHoleCascades()
    ensures var at := map["A" := "B", "B" := "C"];
            && Sequential("{{A}}", ["A", "B"], at) == "C"
            && Simultaneous("{{A}}", at) == "{B}"
            && Sequential("{{A}}", ["B", "A"], at) == "{B}"
  {
    hide Sequential, Simultaneous, ReplacePattern;
    var at := map["A" := "B", "B" := "C"];
    NestedSteps();
    OneAfterAnother("{{A}}", "A", "B", at);
    OneAfterAnother("{{A}}", "B", "A", at);
    NestedAtOnce(at);
  }

  lemma OneAfterAnother(s: string, first: string, second: string, at: map<string, string>)
    requires first in at && second in at
    ensures Sequential(s, [first, second], at) ==
            ReplacePattern(ReplacePattern(s, first, at[first]), second, at[second])
  {
    hide ReplacePattern;
    assert [first, second][..1] == [first] && [first][..0] == [];
    assert Sequential(s, [], at) == s;
    assert Sequential(s, [first], at) == ReplacePattern(s, first, at[first]);
  }

  lemma NestedAtOnce(at: map<string, string>)
    requires "A" in at && at["A"] == "B"
    ensures Simultaneous("{{A}}", at) == "{B}"
  {
    assert Needle("A") == "{A}";
    assert Hole("{{A}}").None?;
    assert "{{A}}"[1..] == "{A}}";
    HoleIsNeedle("{A}}", "A");
    assert "{A}}"[3..] == "}";
    assert Simultaneous("}", at) == "}";
  }

  lemma NestedSteps()
    ensures ReplacePattern("{{A}}", "A", "B") == "{B}"
    ensures ReplacePattern("{B}", "B", "C") == "C"
    ensures ReplacePattern("{{A}}", "B", "C") == "{{A}}"
  {
  }

  // -------- templates --------

  datatype Segment = Text(text: string) | Slot(key: string)

  /** Brace-free text with holes of brace-free keys. */
  predicate WellFormed(t: seq<Segment>) {
    forall g :: g in t ==> if g.Text? then Plain(g.text) else Plain(g.key)
  }

  function Print(t: seq<Segment>): string {
    if t == [] then [] else (if t[0].Text? then t[0].text else Needle(t[0].key)) + Print(t[1..])
  }

  function Fill(t: seq<Segment>, at: map<string, string>): (r: seq<Segment>)
    ensures |r| == |t|
  {
    if t == [] then [] else
      [if t[0].Slot? && t[0].key in at then Text(at[t[0].key]) else t[0]] + Fill(t[1..], at)
  }

  /** Every mapped hole rendered, everything else as it is. */
  function Render(t: seq<Segment>, at: map<string, string>): string {
    Print(Fill(t, at))
  }

  function Slots(t: seq<Segment>, key: string): nat {
    if t == [] then 0 else (if t[0] == Slot(key) then 1 else 0) + Slots(t[1..], key)
  }

  lemma {:induction false} FillWellFormed(t: seq<Segment>, at: map<string, string>)
    requires WellFormed(t) && AllPlain(at)
    ensures WellFormed(Fill(t, at))
  {
    if t != [] {
      FillWellFormed(t[1..], at);
    }
  }

  /** On a template, filling all holes at once is rendering it. */
  lemma {:induction false} SimultaneousRenders(t: seq<Segment>, at: map<string, string>)
    requires WellFormed(t) && AllPlain(at)
    ensures Simultaneous(Print(t), at) == Render(t, at)
  {
    if t != [] {
      var rest := Print(t[1..]);
      SimultaneousRenders(t[1..], at);
      assert Fill(t, at)[1..] == Fill(t[1..], at);
      if t[0].Text? {
        PassSimultaneous(t[0].text, rest, at);
      } else {
        SlotAhead(t[0].key, rest, at);
      }
    }
  }

  lemma SlotAhead(k: string, rest: string, at: map<string, string>)
    requires Plain(k)
    ensures Simultaneous(Needle(k) + rest, at) ==
            (if k in at then at[k] else Needle(k)) + Simultaneous(rest, at)
  {
    var s := Needle(k) + rest;
    HoleIsNeedle(s, k);
    HoleSplit(s);
    assert s[|k| + 2..] == rest;
    if k !in at {
      PassSimultaneous(k + "}", rest, at);
      assert Needle(k) + Simultaneous(rest, at) == ['{'] + ((k + "}") + Simultaneous(rest, at));
    }
  }

  lemma {:induction false} HolesAreSlots(t: seq<Segment>, key: string)
    requires WellFormed(t) && Plain(key)
    ensures Holes(Print(t), key) == Slots(t, key)
  {
    if t != [] {
      var rest := Print(t[1..]);
      HolesAreSlots(t[1..], key);
      if t[0].Text? {
        PassCounts(t[0].text, rest, key);
      } else {
        var k := t[0].key;
        var s := Needle(k) + rest;
        HoleIsNeedle(s, k);
        HoleSplit(s);
        assert s[|k| + 2..] == rest;
        PassCounts(k + "}", rest, key);
      }
    }
  }

  lemma {:induction false} SlotsAfterFill(t: seq<Segment>, at: map<string, string>, key: string)
    ensures Slots(Fill(t, at), key) == if key in at then 0 else Slots(t, key)
  {
    if t != [] {
      SlotsAfterFill(t[1..], at, key);
      assert Fill(t, at)[1..] == Fill(t[1..], at);
    }
  }

  lemma OnlyPlain(keys: seq<string>, at: map<string, string>)
    requires PlainPatterns(keys, at)
    ensures AllPlain(Only(keys, at))
  {
  }

  /** Nothing cascades in a template. */
  lemma TemplatesDoNotCascade(t: seq<Segment>, keys: seq<string>, at: map<string, string>)
    requires WellFormed(t) && PlainPatterns(keys, at)
    ensures NoCascade(Print(t), keys, at)
  {
    forall i, p | 0 <= i < |keys| && 0 <= p < |Print(t)| ensures !CascadesAt(Print(t), keys, at, i, p) {
      TemplateFresh(t, keys, at, i);
      FreshIff(Print(t), keys, at, i);
    }
  }

  lemma TemplateFresh(t: seq<Segment>, keys: seq<string>, at: map<string, string>, i: nat)
    requires WellFormed(t) && PlainPatterns(keys, at) && i < |keys|
    ensures Fresh(Print(t), keys, at, i)
  {
    var before := Only(keys[..i], at);
    assert keys[i] in keys && keys[i] !in keys[..i];
    SimultaneousRenders(t, before);
    FillWellFormed(t, before);
    HolesAreSlots(Fill(t, before), keys[i]);
    HolesAreSlots(t, keys[i]);
    SlotsAfterFill(t, before, keys[i]);
  }

  /** On every template, replacing the patterns one after another is rendering all its holes. */
  lemma TemplateRenders(t: seq<Segment>, keys: seq<string>, at: map<string, string>)
    requires WellFormed(t) && PlainPatterns(keys, at)
    ensures Sequential(Print(t), keys, at) == Render(t, Only(keys, at))
  {
    TemplatesDoNotCascade(t, keys, at);
    SequentialExact(Print(t), keys, at);
    OnlyPlain(keys, at);
    SimultaneousRenders(t, Only(keys, at));
  }

  /** ... so the order of the patterns does not matter, ... */
  lemma OrderDoesNotMatter(t: seq<Segment>, keys: seq<string>, other: seq<string>, at: map<string, string>)
    requires WellFormed(t) && PlainPatterns(keys, at) && PlainPatterns(other, at)
    requires forall k :: k in keys <==> k in other
    ensures Sequential(Print(t), keys, at) == Sequential(Print(t), other, at)
  {
    TemplateRenders(t, keys, at);
    TemplateRenders(t, other, at);
    assert Only(keys, at) == Only(other, at);
  }

  /** ... no hole of a pattern is left, ... */
  lemma NoHoleLeft(t: seq<Segment>, keys: seq<string>, at: map<string, string>, key: string)
    requires WellFormed(t) && PlainPatterns(keys, at) && key in keys
    ensures Holes(Sequential(Print(t), keys, at), key) == 0
  {
    TemplateRenders(t, keys, at);
    OnlyPlain(keys, at);
    FillWellFormed(t, Only(keys, at));
    HolesAreSlots(Fill(t, Only(keys, at)), key);
    SlotsAfterFill(t, Only(keys, at), key);
  }

  lemma {:induction false} FillTwice(t: seq<Segment>, at: map<string, string>)
    ensures Fill(Fill(t, at), at) == Fill(t, at)
  {
    if t != [] {
      FillTwice(t[1..], at);
      assert Fill(t, at)[1..] == Fill(t[1..], at);
    }
  }

  /** ... and doing it again changes nothing. */
  lemma ReplacingIsIdempotent(t: seq<Segment>, keys: seq<string>, at: map<string, string>)
    requires WellFormed(t) && PlainPatterns(keys, at)
    ensures Sequential(Sequential(Print(t), keys, at), keys, at) == Sequential(Print(t), keys, at)
  {
    var only := Only(keys, at);
    TemplateRenders(t, keys, at);
    OnlyPlain(keys, at);
    FillWellFormed(t, only);
    TemplateRenders(Fill(t, only), keys, at);
    FillTwice(t, only);
  }
}

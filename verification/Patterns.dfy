/**
  Filling the `{KEY}` holes of a string.  The program replaces one pattern after another over
  the whole string; `Simultaneous` fills every hole of the original string at once.
 */
module Patterns {
  import opened Options

  // -------- the replacement the program does --------

  /** Replace every occurrence of `needle`, left to right, never looking into what was put in. */
  function ReplaceAll(s: string, needle: string, value: string): string
    requires needle != []
    decreases |s|
  {
    if s == [] then []
    else if needle <= s then value + ReplaceAll(s[|needle|..], needle, value)
    else [s[0]] + ReplaceAll(s[1..], needle, value)
  }

  function Needle(key: string): string {
    "{" + key + "}"
  }

  function ReplacePattern(s: string, key: string, value: string): string {
    ReplaceAll(s, Needle(key), value)
  }

  /** All patterns, one after another. */
  function Sequential(s: string, keys: seq<string>, at: map<string, string>): string
    requires forall k :: k in keys ==> k in at
  {
    if keys == [] then s else
      var n := |keys| - 1;
      ReplacePattern(Sequential(s, keys[..n], at), keys[n], at[keys[n]])
  }

  // -------- filling all holes at once --------

  predicate Plain(s: string) {
    '{' !in s && '}' !in s
  }

  /** The length of the brace-free start of `s`. */
  function Span(s: string): (n: nat)
    ensures n <= |s| && Plain(s[..n]) && (n < |s| ==> s[n] == '{' || s[n] == '}')
  {
    if s == [] || s[0] == '{' || s[0] == '}' then 0 else
      var n := Span(s[1..]);
      assert s[..n + 1] == [s[0]] + s[1..][..n];
      n + 1
  }

  /** The key of the hole that `s` starts with, if it starts with one. */
  function Hole(s: string): (key: Option<string>)
    ensures key.Some? ==> Plain(key.value) && Needle(key.value) <= s
  {
    if s == [] || s[0] != '{' then None else
      var n := Span(s[1..]);
      if n < |s[1..]| && s[1..][n] == '}' then
        assert s[..n + 2] == Needle(s[1..][..n]);
        Some(s[1..][..n])
      else None
  }

  function Simultaneous(s: string, at: map<string, string>): string
    decreases |s|
  {
    if s == [] then []
    else if Hole(s).Some? && Hole(s).value in at then
      at[Hole(s).value] + Simultaneous(s[|Hole(s).value| + 2..], at)
    else [s[0]] + Simultaneous(s[1..], at)
  }

  // -------- counting holes and braces --------

  /** How often the hole of `key` occurs in `s`. */
  function Holes(s: string, key: string): nat {
    if s == [] then 0 else (if Hole(s) == Some(key) then 1 else 0) + Holes(s[1..], key)
  }

  function Opens(s: string): nat {
    if s == [] then 0 else (if s[0] == '{' then 1 else 0) + Opens(s[1..])
  }

  lemma {:induction false} SpanOf(p: string, s: string)
    requires Plain(p) && s != [] && (s[0] == '{' || s[0] == '}')
    ensures Span(p + s) == |p|
  {
    if p == [] {
      assert p + s == s;
    } else {
      assert (p + s)[1..] == p[1..] + s;
      SpanOf(p[1..], s);
    }
  }

  /** A string starts with the hole of a plain key exactly when it starts with its needle. */
  lemma HoleIsNeedle(s: string, key: string)
    requires Plain(key)
    ensures Hole(s) == Some(key) <==> Needle(key) <= s
  {
    if Needle(key) <= s {
      var rest := s[|key| + 1..];
      assert s[..|key| + 2] == Needle(key);
      assert s[0] == Needle(key)[0] && rest[0] == Needle(key)[|key| + 1];
      assert s[1..] == key + rest by {
        assert s[1..|key| + 1] == Needle(key)[1..|key| + 1] == key;
      }
      SpanOf(key, rest);
      assert s[1..][..|key|] == key;
    }
  }

  lemma ReplaceStep(s: string, key: string, value: string)
    requires Plain(key) && s != []
    ensures ReplacePattern(s, key, value) ==
            if Hole(s) == Some(key) then value + ReplacePattern(s[|key| + 2..], key, value)
            else [s[0]] + ReplacePattern(s[1..], key, value)
  {
    HoleIsNeedle(s, key);
  }

  // -------- text without an opening brace is passed through --------

  lemma {:induction false} PassSimultaneous(p: string, s: string, at: map<string, string>)
    requires '{' !in p
    ensures Simultaneous(p + s, at) == p + Simultaneous(s, at)
  {
    if p == [] {
      assert p + s == s;
    } else {
      assert (p + s)[0] == p[0] && (p + s)[1..] == p[1..] + s;
      PassSimultaneous(p[1..], s, at);
      assert p == [p[0]] + p[1..];
    }
  }

  lemma {:induction false} PassReplace(p: string, s: string, key: string, value: string)
    requires '{' !in p && Plain(key)
    ensures ReplacePattern(p + s, key, value) == p + ReplacePattern(s, key, value)
  {
    hide ReplacePattern, Span;
    if p == [] {
      assert p + s == s;
    } else {
      assert (p + s)[0] == p[0] && (p + s)[1..] == p[1..] + s;
      PassReplace(p[1..], s, key, value);
      ReplaceStep(p + s, key, value);
      assert p == [p[0]] + p[1..];
    }
  }

  lemma {:induction false} PassCounts(p: string, s: string, key: string)
    requires '{' !in p
    ensures Holes(p + s, key) == Holes(s, key) && Opens(p + s) == Opens(s)
  {
    if p == [] {
      assert p + s == s;
    } else {
      assert (p + s)[0] == p[0] && (p + s)[1..] == p[1..] + s;
      PassCounts(p[1..], s, key);
    }
  }

  /** A string that starts with a hole, taken apart. */
  lemma HoleSplit(s: string)
    requires Hole(s).Some?
    ensures var k := Hole(s).value;
            && s == Needle(k) + s[|k| + 2..] && s[1..] == (k + "}") + s[|k| + 2..] && '{' !in k + "}"
  {
    var k := Hole(s).value;
    assert s[..|k| + 2] == Needle(k);
    assert s[1..|k| + 2] == Needle(k)[1..];
  }

  // -------- one more pattern --------

  predicate AllPlain(at: map<string, string>) {
    forall k :: k in at ==> Plain(k) && Plain(at[k])
  }

  /**
    Filling the holes of `at`, then replacing `key`.  No hole of `key` gets lost, and if none
    came up newly, the result is that of filling both at once.
   */
  lemma {:induction false} OneMore(s: string, at: map<string, string>, key: string, value: string)
    requires AllPlain(at) && Plain(key) && Plain(value) && key !in at
    ensures Holes(Simultaneous(s, at), key) >= Holes(s, key)
    ensures Holes(Simultaneous(s, at), key) == Holes(s, key) ==>
              ReplacePattern(Simultaneous(s, at), key, value) == Simultaneous(s, at[key := value])
    ensures Opens(Simultaneous(s, at)) == Opens(Simultaneous(s, at[key := value])) + Holes(s, key)
    decreases |s|
  {
    if s != [] {
      if Hole(s) == Some(key) {
        var rest := s[|key| + 2..];
        OneMore(rest, at, key, value);
        OneMoreOwn(s, at, key, value);
        NeedleAhead(key, Simultaneous(rest, at), value);
      } else if Hole(s).Some? && Hole(s).value in at {
        OneMore(s[|Hole(s).value| + 2..], at, key, value);
        OneMoreFilled(s, at, key, value);
      } else {
        OneMore(s[1..], at, key, value);
        OneMoreChar(s, at, key, value);
      }
    }
  }

  /** At a hole that is filled already: nothing of `key` in it. */
  lemma OneMoreFilled(s: string, at: map<string, string>, key: string, value: string)
    requires AllPlain(at) && Plain(key) && Plain(value) && key !in at && s != []
    requires Hole(s).Some? && Hole(s).value in at
    ensures var rest := s[|Hole(s).value| + 2..]; var v := at[Hole(s).value];
            && Holes(s, key) == Holes(rest, key)
            && Simultaneous(s, at) == v + Simultaneous(rest, at)
            && Holes(Simultaneous(s, at), key) == Holes(Simultaneous(rest, at), key)
            && Opens(Simultaneous(s, at)) == Opens(Simultaneous(rest, at))
            && Simultaneous(s, at[key := value]) == v + Simultaneous(rest, at[key := value])
            && Opens(Simultaneous(s, at[key := value])) == Opens(Simultaneous(rest, at[key := value]))
            && ReplacePattern(Simultaneous(s, at), key, value) == v + ReplacePattern(Simultaneous(rest, at), key, value)
  {
    hide ReplacePattern, Span;
    var k := Hole(s).value;
    var rest := s[|k| + 2..];
    HoleSplit(s);
    PassCounts(k + "}", rest, key);
    PassCounts(at[k], Simultaneous(rest, at), key);
    PassCounts(at[k], Simultaneous(rest, at[key := value]), key);
    PassReplace(at[k], Simultaneous(rest, at), key, value);
  }

  /** At a hole of `key` itself: it stays as it is until `key` is replaced. */
  lemma OneMoreOwn(s: string, at: map<string, string>, key: string, value: string)
    requires AllPlain(at) && Plain(key) && Plain(value) && key !in at && s != [] && Hole(s) == Some(key)
    ensures var rest := s[|key| + 2..];
            && Holes(s, key) == 1 + Holes(rest, key)
            && Simultaneous(s, at) == Needle(key) + Simultaneous(rest, at)
            && Simultaneous(s, at[key := value]) == value + Simultaneous(rest, at[key := value])
            && Opens(Simultaneous(s, at[key := value])) == Opens(Simultaneous(rest, at[key := value]))
  {
    hide ReplacePattern, Span;
    var rest := s[|key| + 2..];
    HoleSplit(s);
    PassCounts(key + "}", rest, key);
    PassSimultaneous(key + "}", rest, at);
    assert Needle(key) + Simultaneous(rest, at) == ['{'] + ((key + "}") + Simultaneous(rest, at));
    PassCounts(value, Simultaneous(rest, at[key := value]), key);
  }

  lemma NeedleAhead(key: string, out: string, value: string)
    requires Plain(key)
    ensures var whole := Needle(key) + out;
            && Holes(whole, key) == 1 + Holes(out, key)
            && Opens(whole) == 1 + Opens(out)
            && ReplacePattern(whole, key, value) == value + ReplacePattern(out, key, value)
  {
    hide ReplacePattern, Span;
    var whole := Needle(key) + out;
    HoleIsNeedle(whole, key);
    HoleSplit(whole);
    assert whole[|key| + 2..] == out;
    PassCounts(key + "}", out, key);
    ReplaceStep(whole, key, value);
  }

  lemma OneMoreChar(s: string, at: map<string, string>, key: string, value: string)
    requires Plain(key) && s != []
    requires Hole(s).None? || (Hole(s).value !in at && Hole(s).value != key)
    ensures var out := Simultaneous(s[1..], at);
            var new1 := if Hole([s[0]] + out) == Some(key) then 1 else 0;
            && Holes(s, key) == Holes(s[1..], key)
            && Simultaneous(s, at) == [s[0]] + out
            && Holes(Simultaneous(s, at), key) == new1 + Holes(out, key)
            && Simultaneous(s, at[key := value]) == [s[0]] + Simultaneous(s[1..], at[key := value])
            && (new1 == 0 ==>
                  ReplacePattern(Simultaneous(s, at), key, value) == [s[0]] + ReplacePattern(out, key, value))
  {
    var out := Simultaneous(s[1..], at);
    assert ([s[0]] + out)[1..] == out;
    ReplaceStep([s[0]] + out, key, value);
  }

  lemma {:induction false} NoPatterns(s: string)
    ensures Simultaneous(s, map[]) == s
    decreases |s|
  {
    if s != [] {
      NoPatterns(s[1..]);
      assert s == [s[0]] + s[1..];
    }
  }

  /** Replacing one pattern removes its holes' braces and loses no hole of another key. */
  lemma ReplaceOne(s: string, key: string, value: string, other: string)
    requires Plain(key) && Plain(value) && Plain(other) && other != key
    ensures Opens(s) == Opens(ReplacePattern(s, key, value)) + Holes(s, key)
    ensures Holes(ReplacePattern(s, key, value), other) >= Holes(s, other)
  {
    NoPatterns(s);
    OneMore(s, map[], key, value);
    var at := map[key := value];
    assert map[][key := value] == at;
    OneMore(s, at, other, value);
  }
}

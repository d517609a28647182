/** The environment as C strings: what is printed for a child process, and what `main` parses. */
module Environments {
  import opened Options
  import opened OrderedMaps

  const NUL := '\0'
  const DELIMITER := '='

  // -------- C strings --------

  /** Index of the first `c`, or the length. */
  function IndexOf(s: string, c: char): (i: nat)
    ensures i <= |s| && (i < |s| ==> s[i] == c) && forall j :: 0 <= j < i ==> s[j] != c
  {
    if s == [] || s[0] == c then 0 else 1 + IndexOf(s[1..], c)
  }

  /** The string that a pointer to these characters denotes. */
  function CString(buffer: seq<char>): (s: string)
    ensures NUL !in s && s <= buffer
  {
    buffer[..IndexOf(buffer, NUL)]
  }

  /** `strncpy(new char[size], s.c_str(), size)`. */
  function StrNCpy(s: string, size: nat): (buffer: seq<char>)
    requires size > |CString(s)|
    ensures |buffer| == size
  {
    CString(s) + seq(size - |CString(s)|, _ => NUL)
  }

  lemma IndexIs(s: string, c: char, i: nat)
    requires i <= |s| && (i < |s| ==> s[i] == c) && forall j :: 0 <= j < i ==> s[j] != c
    ensures IndexOf(s, c) == i
  {
  }

  lemma CopyDenotes(s: string, size: nat)
    requires size > |CString(s)|
    ensures CString(StrNCpy(s, size)) == CString(s)
  {
    IndexIs(StrNCpy(s, size), NUL, |CString(s)|);
  }

  // -------- printing --------

  function Entry(env: OrderedMap<string>, i: nat): string
    requires i < |env.keys|
  {
    KeyAt(env, i);
    env.keys[i] + [DELIMITER] + env.at[env.keys[i]]
  }

  /** The strings that a null-terminated array of pointers denotes. */
  function Denoted(envp: seq<Option<seq<char>>>): seq<string> {
    if envp == [] || envp[0].None? then [] else [CString(envp[0].value)] + Denoted(envp[1..])
  }

  predicate Terminated(envp: seq<Option<seq<char>>>) {
    envp != [] && envp[|envp| - 1].None? && forall i :: 0 <= i < |envp| - 1 ==> envp[i].Some?
  }

  lemma {:induction false} DenotedAt(envp: seq<Option<seq<char>>>)
    requires Terminated(envp)
    ensures |Denoted(envp)| == |envp| - 1
    ensures forall i :: 0 <= i < |envp| - 1 ==> Denoted(envp)[i] == CString(envp[i].value)
  {
    if |envp| > 1 { DenotedAt(envp[1..]); }
  }

  class Envp {
    var envp: seq<Option<seq<char>>>

    predicate Valid()
      reads this
    {
      Terminated(envp)
    }

    constructor (env: OrderedMap<string>)
      ensures Valid() && |Denoted(envp)| == |env.keys|
      ensures forall i :: 0 <= i < |env.keys| ==> Denoted(envp)[i] == CString(Entry(env, i))
    {
      var pointers: seq<Option<seq<char>>> := [];
      for i := 0 to |env.keys|
        invariant |pointers| == i
        invariant forall j :: 0 <= j < i ==> pointers[j].Some? && CString(pointers[j].value) == CString(Entry(env, j))
      {
        var envVarString := Entry(env, i);
        CopyDenotes(envVarString, |envVarString| + 1);
        pointers := pointers + [Some(StrNCpy(envVarString, |envVarString| + 1))];
      }
      envp := pointers + [None];
      new;
      DenotedAt(envp);
    }

    constructor Copy(other: Envp)
      requires other.Valid()
      ensures Valid() && Denoted(envp) == Denoted(other.envp)
    {
      envp := [];
      new;
      DeepCopy(other);
    }

    method DeepCopy(other: Envp)
      requires other.Valid() && other != this
      modifies this
      ensures Valid() && Denoted(envp) == Denoted(other.envp)
    {
      envp := [];
      var i := 0;
      while i < |other.envp| && other.envp[i].Some?
        invariant i == |envp| < |other.envp|
        invariant forall j :: 0 <= j < i ==> envp[j].Some? && other.envp[j].Some? &&
                                             CString(envp[j].value) == CString(other.envp[j].value)
      {
        var length := |CString(other.envp[i].value)| + 1;
        CopyDenotes(other.envp[i].value, length);
        envp := envp + [Some(StrNCpy(other.envp[i].value, length))];
        i := i + 1;
      }
      envp := envp + [None];
      DenotedAt(envp);
      DenotedAt(other.envp);
      assert Denoted(envp) == Denoted(other.envp);
    }
  }

  // -------- parsing --------

  /** Key and value: around the first delimiter; without one both are the whole string. */
  function Split(s: string): (string, string) {
    var pos := IndexOf(s, DELIMITER);
    if pos < |s| then (s[..pos], s[pos + 1..]) else (s, s)
  }

  /** `s` is key, delimiter and value; without a delimiter it is both key and value. */
  predicate Reads(s: string, key: string, value: string) {
    if '=' in s then '=' !in key && s == key + "=" + value else key == value == s
  }

  lemma SplitExact(s: string, key: string, value: string)
    ensures Reads(s, key, value) <==> Split(s) == (key, value)
  {
    var pos := IndexOf(s, DELIMITER);
    if pos < |s| {
      assert s == s[..pos] + "=" + s[pos + 1..];
    }
    if '=' in s && Reads(s, key, value) {
      assert s[|key|] == DELIMITER;
      IndexIs(s, DELIMITER, |key|);
      assert s[..|key|] == key && s[|key| + 1..] == value;
    }
  }

  predicate FirstNamed(strings: seq<string>, key: string, i: nat) {
    i < |strings| && Split(strings[i]).0 == key && forall j :: 0 <= j < i ==> Split(strings[j]).0 != key
  }

  function ParseUpTo(strings: seq<string>, n: nat): OrderedMap<string>
    requires n <= |strings|
  {
    if n == 0 then Empty() else
      Emplace(ParseUpTo(strings, n - 1), Split(strings[n - 1]).0, Split(strings[n - 1]).1)
  }

  function Parse(strings: seq<string>): OrderedMap<string> {
    ParseUpTo(strings, |strings|)
  }

  /** Of several strings with the same key the first one counts. */
  lemma {:induction false} ParsedFirst(strings: seq<string>, n: nat, key: string)
    requires n <= |strings|
    ensures key in ParseUpTo(strings, n).at <==> exists i :: 0 <= i < n && FirstNamed(strings, key, i)
    ensures forall i :: 0 <= i < n && FirstNamed(strings, key, i) ==>
                          key in ParseUpTo(strings, n).at && ParseUpTo(strings, n).at[key] == Split(strings[i]).1
  {
    hide Emplace, Sorted, KeySet, Split, ParseUpTo;
    ParsedNext(strings, n);
    if n > 0 {
      ParsedFirst(strings, n - 1, key);
      if Split(strings[n - 1]).0 == key && key !in ParseUpTo(strings, n - 1).at {
        NoneNamed(strings, n - 1, key);
        assert FirstNamed(strings, key, n - 1);
      }
    }
  }

  lemma ParsedNext(strings: seq<string>, n: nat)
    requires n <= |strings|
    ensures n == 0 ==> ParseUpTo(strings, n).at == map[]
    ensures n > 0 ==>
              var before, (k, v) := ParseUpTo(strings, n - 1).at, Split(strings[n - 1]);
              ParseUpTo(strings, n).at == if k in before then before else before[k := v]
  {
    hide Sorted, KeySet, Split;
  }

  lemma {:induction false} NoneNamed(strings: seq<string>, n: nat, key: string)
    requires n <= |strings| && !exists i :: 0 <= i < n && FirstNamed(strings, key, i)
    ensures forall j :: 0 <= j < n ==> Split(strings[j]).0 != key
  {
    hide Split;
    if n > 0 {
      NoneNamed(strings, n - 1, key);
      assert !FirstNamed(strings, key, n - 1);
    }
  }

  method ToEnvCollection(envp: seq<Option<seq<char>>>) returns (result: OrderedMap<string>)
    requires Terminated(envp)
    ensures result == Parse(Denoted(envp))
    ensures forall key :: key in result.at <==> exists i: nat :: FirstNamed(Denoted(envp), key, i)
    ensures forall key, i: nat :: FirstNamed(Denoted(envp), key, i) ==>
                                    key in result.at && Reads(Denoted(envp)[i], key, result.at[key])
  {
    hide Emplace, Sorted, KeySet, Split, Denoted, CString, FirstNamed, Reads;
    ParsedReads(Denoted(envp));
    DenotedAt(envp);
    result := Empty();
    var index := 0;
    while envp[index].Some?
      invariant index < |envp| && result == ParseUpTo(Denoted(envp), index)
      decreases |envp| - index
    {
      var newEnv := CString(envp[index].value);
      var (key, value) := Split(newEnv);
      result := Emplace(result, key, value);
      index := index + 1;
    }
    assert index == |envp| - 1;
  }

  lemma ParsedReads(strings: seq<string>)
    ensures forall key :: key in Parse(strings).at <==> exists i: nat :: FirstNamed(strings, key, i)
    ensures forall key, i: nat :: FirstNamed(strings, key, i) ==>
                                    key in Parse(strings).at && Reads(strings[i], key, Parse(strings).at[key])
  {
    hide Split, Reads, ParseUpTo;
    forall key ensures key in Parse(strings).at <==> exists i: nat :: FirstNamed(strings, key, i) {
      ParsedFirst(strings, |strings|, key);
    }
    forall key, i: nat | FirstNamed(strings, key, i)
      ensures key in Parse(strings).at && Reads(strings[i], key, Parse(strings).at[key])
    {
      ParsedFirst(strings, |strings|, key);
      SplitExact(strings[i], key, Parse(strings).at[key]);
    }
  }

  // -------- round trip --------

  predicate PlainEntry(key: string, value: string) {
    DELIMITER !in key && NUL !in key && NUL !in value
  }

  predicate Plain(env: OrderedMap<string>) {
    forall k :: k in env.at ==> PlainEntry(k, env.at[k])
  }

  lemma PlainSplit(key: string, value: string)
    requires PlainEntry(key, value)
    ensures CString(key + [DELIMITER] + value) == key + [DELIMITER] + value
    ensures Split(key + [DELIMITER] + value) == (key, value)
  {
    var s := key + [DELIMITER] + value;
    IndexIs(s, NUL, |s|);
    IndexIs(s, DELIMITER, |key|);
    assert s[..|key|] == key && s[|key| + 1..] == value;
  }

  lemma {:induction false} ParsedPlain(strings: seq<string>, n: nat)
    requires n <= |strings| && forall i :: 0 <= i < |strings| ==> NUL !in strings[i]
    ensures Plain(ParseUpTo(strings, n))
  {
    hide Emplace, Sorted, KeySet;
    if n > 0 {
      ParsedPlain(strings, n - 1);
      var (key, value) := Split(strings[n - 1]);
      assert PlainEntry(key, value);
    }
  }

  lemma {:induction false} ParsesBack(env: OrderedMap<string>, strings: seq<string>, n: nat, k: string)
    requires Plain(env) && |strings| == |env.keys| && n <= |strings|
    requires forall i :: 0 <= i < |strings| ==> strings[i] == CString(Entry(env, i))
    ensures k in ParseUpTo(strings, n).at <==> k in env.keys[..n]
    ensures k in env.keys[..n] ==> k in env.at && ParseUpTo(strings, n).at[k] == env.at[k]
  {
    hide Emplace, Sorted, KeySet, Split, CString, Plain;
    if n > 0 {
      ParsesBack(env, strings, n - 1, k);
      EntrySplits(env, strings[n - 1], n - 1);
      NewKey(env, n - 1);
      assert env.keys[..n] == env.keys[..n - 1] + [env.keys[n - 1]];
    }
  }

  lemma NewKey(env: OrderedMap<string>, i: nat)
    requires i < |env.keys|
    ensures env.keys[i] !in env.keys[..i]
  {
    KeysDistinct(env.keys);
  }

  lemma EntrySplits(env: OrderedMap<string>, s: string, i: nat)
    requires Plain(env) && i < |env.keys| && s == CString(Entry(env, i))
    ensures env.keys[i] in env.at && Split(s) == (env.keys[i], env.at[env.keys[i]])
  {
    hide Split, CString, Sorted, KeySet;
    KeyAt(env, i);
    PlainSplit(env.keys[i], env.at[env.keys[i]]);
  }

  /**
    Parsing what was printed gives the same environment exactly if no key contains the delimiter
    and neither keys nor values contain a NUL.
   */
  lemma RoundTrip(env: OrderedMap<string>, strings: seq<string>)
    requires |strings| == |env.keys| && forall i :: 0 <= i < |strings| ==> strings[i] == CString(Entry(env, i))
    ensures Parse(strings) == env <==> Plain(env)
  {
    ParsedPlain(strings, |strings|);
    if Plain(env) {
      assert env.keys[..|strings|] == env.keys;
      forall k
        ensures (k in Parse(strings).at <==> k in env.at) && (k in env.at ==> Parse(strings).at[k] == env.at[k])
      {
        ParsesBack(env, strings, |strings|, k);
        KeyIn(env, k);
      }
      assert Parse(strings).at == env.at;
      SameContent(Parse(strings), env);
    }
  }

  /** The strings that are printed for `env`. */
  function Printed(env: OrderedMap<string>): (strings: seq<string>)
    ensures |strings| == |env.keys| && forall i :: 0 <= i < |strings| ==> strings[i] == CString(Entry(env, i))
  {
    seq(|env.keys|, i requires 0 <= i < |env.keys| => CString(Entry(env, i)))
  }

  /** Print, copy and parse. */
  method Pass(env: OrderedMap<string>) returns (result: OrderedMap<string>)
    ensures result == Parse(Printed(env))
    ensures result == env <==> Plain(env)
  {
    var printed := new Envp(env);
    assert Denoted(printed.envp) == Printed(env);
    var copy := new Envp.Copy(printed);
    result := ToEnvCollection(copy.envp);
    RoundTrip(env, Printed(env));
  }

  /** A key with a delimiter, and a value with a NUL: neither comes back. */
  lemma NotPlain()
    ensures var env: OrderedMap<string> := Emplace(Empty(), "A=B", "C"); Parse(Printed(env)) != env
    ensures var env: OrderedMap<string> := Emplace(Empty(), "A", "B\0C"); Parse(Printed(env)) != env
  {
    var delimited: OrderedMap<string> := Emplace(Empty(), "A=B", "C");
    var cut: OrderedMap<string> := Emplace(Empty(), "A", "B\0C");
    assert "A=B" in delimited.at && "A=B"[1] == DELIMITER;
    assert "A" in cut.at && "B\0C"[1] == NUL;
    RoundTrip(delimited, Printed(delimited));
    RoundTrip(cut, Printed(cut));
  }
}

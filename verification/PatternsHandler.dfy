/** The patterns known to the dispatcher, by key: of several with the same key the first one counts. */
module PatternsHandlers {
  import opened OrderedMaps
  import opened PluginUtils

  function FirstUpTo(patterns: seq<Pattern>, n: nat): OrderedMap<Pattern>
    requires n <= |patterns|
  {
    if n == 0 then Empty() else Emplace(FirstUpTo(patterns, n - 1), patterns[n - 1].key, patterns[n - 1])
  }

  function Handler(patterns: seq<Pattern>): OrderedMap<Pattern> {
    FirstUpTo(patterns, |patterns|)
  }

  class PatternsHandler {
    var known: OrderedMap<Pattern>

    constructor (patterns: seq<Pattern>)
      ensures known == Handler(patterns)
    {
      known := Empty();
      new;
      for i := 0 to |patterns|
        invariant known == FirstUpTo(patterns, i)
      {
        AddPattern(patterns[i]);
      }
    }

    method AddPattern(pattern: Pattern)
      modifies this
      ensures known == Emplace(old(known), pattern.key, pattern)
    {
      known := Emplace(known, pattern.key, pattern);
    }
  }

  /** A key is known if some pattern has it, and it stands for the first such pattern. */
  lemma {:induction false} FirstWins(patterns: seq<Pattern>, n: nat, key: string)
    requires n <= |patterns|
    ensures key in FirstUpTo(patterns, n).at <==> exists i :: 0 <= i < n && IsFirst(patterns, key, i)
    ensures forall i :: 0 <= i < n && IsFirst(patterns, key, i) ==>
                          key in FirstUpTo(patterns, n).at && FirstUpTo(patterns, n).at[key] == patterns[i]
  {
    hide Emplace, Sorted, KeySet;
    if n > 0 {
      FirstWins(patterns, n - 1, key);
      if patterns[n - 1].key == key && key !in FirstUpTo(patterns, n - 1).at {
        NoneBefore(patterns, n - 1, key);
        assert IsFirst(patterns, key, n - 1);
      }
    }
  }
}

/**
  What the combinations of patterns are, told from the patterns alone: every choice of one value for
  each key, once, in lexicographic order.  A key has the values of the first pattern that has it.
 */
module PatternChoices {
  import opened OrderedMaps
  import opened Permutations
  import opened MapPermutators
  import opened Patterns
  import opened PluginUtils

  /** For each key of the patterns, which of its values is chosen. */
  type Choice = map<string, nat>

  ghost predicate IsChoice(patterns: seq<Pattern>, choice: Choice) {
    && (forall k :: k in choice <==> exists i: nat :: IsFirst(patterns, k, i))
    && (forall k, i: nat :: k in choice && IsFirst(patterns, k, i) ==> choice[k] < |patterns[i].values|)
  }

  /** The combination has the keys of the patterns and no others, and the chosen values. */
  ghost predicate Gives(patterns: seq<Pattern>, choice: Choice, c: Combination) {
    && (forall k :: k in c.at <==> exists i: nat :: IsFirst(patterns, k, i))
    && (forall k, i: nat :: k in choice && IsFirst(patterns, k, i) && choice[k] < |patterns[i].values| ==>
          k in c.at && c.at[k] == patterns[i].values[choice[k]])
  }

  /** At the first key where they differ, `a` has the earlier value. */
  ghost predicate Earlier(a: Choice, b: Choice) {
    exists k :: k in a && k in b && a[k] < b[k] && forall j :: j in a && Less(j, k) ==> j in b && a[j] == b[j]
  }

  lemma {:induction false} AllRanks<V>(cs: seq<seq<V>>, n: nat) returns (all: seq<seq<nat>>)
    requires n <= |Product(cs)|
    ensures |all| == n && forall i :: 0 <= i < n ==> InRange(cs, all[i]) && Rank(cs, all[i]) == i
  {
    hide Product, Rank, InRange;
    all := [];
    if n > 0 {
      all := AllRanks(cs, n - 1);
      var idx := Unrank(cs, n - 1);
      all := all + [idx];
    }
  }

  lemma {:induction false} FirstDifference(a: seq<nat>, b: seq<nat>) returns (p: nat)
    requires |a| == |b| && Before(a, b)
    ensures p < |a| && a[p] < b[p] && forall q :: 0 <= q < p ==> a[q] == b[q]
  {
    if a[0] < b[0] {
      p := 0;
    } else {
      p := FirstDifference(a[1..], b[1..]);
      p := p + 1;
      assert forall q :: 1 <= q < p ==> a[q] == a[1..][q - 1] && b[q] == b[1..][q - 1];
    }
  }

  lemma SmallerKey(keys: seq<string>, q: nat, p: nat)
    requires Sorted(keys) && q < |keys| && p < |keys| && Less(keys[q], keys[p])
    ensures q < p
  {
    if q >= p {
      if q > p { LessTransitive(keys[q], keys[p], keys[q]); }
      LessIrreflexive(keys[q]);
      assert false;
    }
  }

  lemma ZipAt(keys: seq<string>, idx: seq<nat>)
    requires Sorted(keys) && |keys| == |idx|
    ensures Zip(keys, idx).Keys == KeySet(keys)
    ensures forall p :: 0 <= p < |keys| ==> keys[p] in Zip(keys, idx) && Zip(keys, idx)[keys[p]] == idx[p]
  {
    forall p | 0 <= p < |keys| ensures keys[p] in Zip(keys, idx) && Zip(keys, idx)[keys[p]] == idx[p] {
      CombinationAt(keys, idx, p);
    }
  }

  lemma ZipEarlier(keys: seq<string>, a: seq<nat>, b: seq<nat>)
    requires Sorted(keys) && |keys| == |a| == |b| && Before(a, b)
    ensures Earlier(Zip(keys, a), Zip(keys, b))
  {
    hide Zip, Sorted, Less, Before;
    ZipAt(keys, a);
    ZipAt(keys, b);
    var p := FirstDifference(a, b);
    var k, u, v := keys[p], Zip(keys, a), Zip(keys, b);
    forall j | j in u && Less(j, k) ensures j in v && u[j] == v[j] {
      assert j in KeySet(keys);
      var q :| 0 <= q < |keys| && keys[q] == j;
      SmallerKey(keys, q, p);
    }
    assert k in u && k in v && u[k] < v[k];
  }

  lemma KeysOf(patterns: seq<Pattern>, k: string)
    requires patterns != []
    ensures k in PatternValues(patterns).keys <==> exists i: nat :: IsFirst(patterns, k, i)
    ensures forall i: nat :: IsFirst(patterns, k, i) ==>
              k in PatternValues(patterns).at && PatternValues(patterns).at[k] == patterns[i].values
  {
    hide PatternValues;
    PatternValuesAre(patterns);
    KeyIn(PatternValues(patterns), k);
  }

  /** Index vectors into the values in key order are choices. */
  lemma IndexesChoose(patterns: seq<Pattern>, idx: seq<nat>)
    requires patterns != [] && InRange(Collections(PatternValues(patterns)), idx)
    ensures |idx| == |PatternValues(patterns).keys| && IsChoice(patterns, Zip(PatternValues(patterns).keys, idx))
  {
    hide Zip, Sorted, PatternValues, IsFirst;
    var m := PatternValues(patterns);
    var choice := Zip(m.keys, idx);
    ZipAt(m.keys, idx);
    forall k ensures k in choice <==> exists i: nat :: IsFirst(patterns, k, i) { KeysOf(patterns, k); }
    forall k, i: nat | k in choice && IsFirst(patterns, k, i)
      ensures i < |patterns| && choice[k] < |patterns[i].values|
    {
      FirstBound(patterns, k);
      KeysOf(patterns, k);
      var p :| 0 <= p < |m.keys| && m.keys[p] == k;
      assert Collections(m)[p] == m.at[k];
    }
  }

  /** ... and pick the combinations at their ranks. */
  lemma IndexesGive(patterns: seq<Pattern>, idx: seq<nat>)
    requires patterns != [] && InRange(Collections(PatternValues(patterns)), idx)
    ensures var m := PatternValues(patterns); var n := Rank(Collections(m), idx);
            && |idx| == |m.keys| && n < |Combinations(patterns)|
            && Gives(patterns, Zip(m.keys, idx), Combinations(patterns)[n])
  {
    hide Enumerate, Product, Rank, Zip, Sorted, MapPermutators.Combination, PatternValues, IsFirst;
    var m := PatternValues(patterns);
    var cs := Collections(m);
    SomeKeys(patterns);
    ZipAt(m.keys, idx);
    EnumerateAt(m, idx);
    PickAt(cs, idx);
    var choice, vals := Zip(m.keys, idx), Pick(cs, idx);
    var c := MapPermutators.Combination(m.keys, vals);
    forall k ensures k in c.at <==> exists i: nat :: IsFirst(patterns, k, i) {
      CombinationHas(m.keys, vals, k);
      KeysOf(patterns, k);
    }
    forall k, i: nat | k in choice && IsFirst(patterns, k, i)
      ensures i < |patterns| && choice[k] < |patterns[i].values|
      ensures k in c.at && c.at[k] == patterns[i].values[choice[k]]
    {
      FirstBound(patterns, k);
      KeysOf(patterns, k);
      var p :| 0 <= p < |m.keys| && m.keys[p] == k;
      assert cs[p] == m.at[k];
      CombinationAt(m.keys, vals, p);
    }
  }

  lemma CombinationHas(keys: seq<string>, vals: seq<string>, k: string)
    requires Sorted(keys) && |keys| == |vals|
    ensures k in MapPermutators.Combination(keys, vals).at <==> k in keys
  {
  }

  lemma SomeKeys(patterns: seq<Pattern>)
    requires patterns != []
    ensures PatternValues(patterns).keys != []
  {
    hide PatternValues;
    FirstExists(patterns, 0);
    PatternValuesAre(patterns);
    KeyIn(PatternValues(patterns), patterns[0].key);
  }

  /** Every choice comes from an index vector. */
  lemma ChoiceIndexes(patterns: seq<Pattern>, choice: Choice) returns (idx: seq<nat>)
    requires patterns != [] && IsChoice(patterns, choice)
    ensures var m := PatternValues(patterns);
            |idx| == |m.keys| && InRange(Collections(m), idx) && Zip(m.keys, idx) == choice
  {
    hide Zip, Sorted, IsFirst, PatternValues, Product;
    var m := PatternValues(patterns);
    PatternValuesAre(patterns);
    forall p | 0 <= p < |m.keys| ensures m.keys[p] in choice && choice[m.keys[p]] < |Collections(m)[p]| {
      KeyAt(m, p);
      var i: nat :| IsFirst(patterns, m.keys[p], i);
      FirstBound(patterns, m.keys[p]);
      assert choice[m.keys[p]] < |patterns[i].values|;
    }
    idx := seq(|m.keys|, p requires 0 <= p < |m.keys| => choice[m.keys[p]]);
    ZipAt(m.keys, idx);
    forall k ensures k in Zip(m.keys, idx) <==> k in choice { KeyIn(m, k); }
    forall k | k in choice ensures Zip(m.keys, idx)[k] == choice[k] {
      KeyIn(m, k);
      var p :| 0 <= p < |m.keys| && m.keys[p] == k;
    }
    assert Zip(m.keys, idx) == choice;
  }

  /** The combinations are those of all choices, each once and in lexicographic order. */
  lemma ChoicesInOrder(patterns: seq<Pattern>) returns (choices: seq<Choice>)
    requires patterns != []
    ensures |choices| == |Combinations(patterns)|
    ensures forall n :: 0 <= n < |choices| ==>
              IsChoice(patterns, choices[n]) && Gives(patterns, choices[n], Combinations(patterns)[n])
    ensures forall i, j :: 0 <= i < j < |choices| ==> Earlier(choices[i], choices[j]) && choices[i] != choices[j]
    ensures forall choice :: IsChoice(patterns, choice) ==> choice in choices
  {
    hide Product, Enumerate, Rank, Zip, InRange, IsChoice, Gives, Earlier, PatternValues, Collections, Before;
    var m := PatternValues(patterns);
    var cs := Collections(m);
    SomeKeys(patterns);
    EnumerateNone(m);
    var all := AllRanks(cs, |Product(cs)|);
    RangeSizes(cs, all);
    choices := seq(|all|, n requires 0 <= n < |all| => Zip(m.keys, all[n]));
    forall n | 0 <= n < |choices|
      ensures IsChoice(patterns, choices[n]) && Gives(patterns, choices[n], Combinations(patterns)[n])
    {
      IndexesChoose(patterns, all[n]);
      IndexesGive(patterns, all[n]);
    }
    forall i, j | 0 <= i < j < |choices| ensures Earlier(choices[i], choices[j]) && choices[i] != choices[j] {
      RankOrder(cs, all[i], all[j]);
      ZipEarlier(m.keys, all[i], all[j]);
      EarlierDiffers(choices[i], choices[j]);
    }
    forall choice | IsChoice(patterns, choice) ensures choice in choices {
      var idx := ChoiceIndexes(patterns, choice);
      ProductAt(cs, idx);
      var n := Rank(cs, idx);
      RankOrder(cs, idx, all[n]);
      assert choices[n] == choice;
    }
  }

  lemma RangeSizes<V>(cs: seq<seq<V>>, all: seq<seq<nat>>)
    requires forall i :: 0 <= i < |all| ==> InRange(cs, all[i])
    ensures forall i :: 0 <= i < |all| ==> |all[i]| == |cs|
  {
  }

  lemma EarlierDiffers(a: Choice, b: Choice)
    requires Earlier(a, b)
    ensures a != b
  {
  }

  /** Without patterns there is one combination, with a key that stands for none. */
  lemma NoPatterns()
    ensures |Combinations([])| == 1 && Combinations([])[0].at == map["NO-KEY" := "NO-VALUE"]
  {
    hide Product, Enumerate, Rank, Zip, PatternValues;
    var m := PatternValues([]);
    var cs := Collections(m);
    CombinationCount([]);
    PatternValuesAre([]);
    KeyIn(m, "NO-KEY");
    OneKey(m, "NO-KEY");
    assert cs == [["NO-VALUE"]];
    EnumerateAt(m, [0]);
    PickAt(cs, [0]);
    var c := MapPermutators.Combination(m.keys, Pick(cs, [0]));
    CombinationAt(m.keys, Pick(cs, [0]), 0);
    assert Rank(cs, [0]) == 0;
    assert c.at.Keys == {"NO-KEY"};
  }

  lemma OneKey<V>(m: OrderedMap<V>, k: string)
    requires m.at.Keys == {k}
    ensures m.keys == [k]
  {
    assert KeySet([k]) == KeySet(m.keys);
    SortedUnique(m.keys, [k]);
  }

  // -------- how many there are --------

  /** The product of the value counts of the patterns that count. */
  function ValueCounts(patterns: seq<Pattern>, n: nat): nat
    requires n <= |patterns|
  {
    if n == 0 then 1 else
      ValueCounts(patterns, n - 1)
      * if IsFirst(patterns, patterns[n - 1].key, n - 1) then |patterns[n - 1].values| else 1
  }

  lemma {:induction false} InsertSplits(keys: seq<string>, k: string) returns (i: nat)
    requires Sorted(keys) && k !in keys
    ensures i <= |keys| && Insert(keys, k) == keys[..i] + [k] + keys[i..]
  {
    hide Less;
    if keys == [] || Less(k, keys[0]) {
      i := 0;
    } else {
      i := InsertSplits(keys[1..], k);
      assert keys == [keys[0]] + keys[1..];
      i := i + 1;
    }
  }

  lemma {:induction false} OneMoreSize<V>(a: seq<seq<V>>, x: seq<V>, b: seq<seq<V>>)
    ensures Sizes(a + [x] + b) == |x| * Sizes(a + b)
  {
    if a == [] {
      assert a + [x] + b == [x] + b && a + b == b;
      assert ([x] + b)[1..] == b;
    } else {
      var rest := a[1..];
      OneMoreSize(rest, x, b);
      assert (a + [x] + b)[1..] == rest + [x] + b && (a + b)[1..] == rest + b;
      Swap(|a[0]|, |x|, Sizes(rest + b));
    }
  }

  lemma Swap(p: nat, q: nat, r: nat)
    ensures p * (q * r) == q * (p * r)
  {
  }

  lemma EmplacedAt(m: OrderedMap<seq<string>>, k: string, v: seq<string>, i: nat)
    requires k !in m.at && i <= |m.keys| && Emplace(m, k, v).keys == m.keys[..i] + [k] + m.keys[i..]
    ensures Collections(Emplace(m, k, v)) == Collections(m)[..i] + [v] + Collections(m)[i..]
  {
    hide Sorted, Emplace, KeySet;
    var r := Emplace(m, k, v);
    forall j | 0 <= j < |r.keys|
      ensures Collections(r)[j] == (Collections(m)[..i] + [v] + Collections(m)[i..])[j]
    {
      KeyAt(r, j);
      if j != i { KeyAt(m, if j < i then j else j - 1); }
    }
  }

  lemma EmplacedBefore(m: OrderedMap<seq<string>>, k: string, v: seq<string>)
    requires k in m.at
    ensures Emplace(m, k, v) == m
  {
  }

  lemma Position(m: OrderedMap<seq<string>>, k: string, v: seq<string>) returns (i: nat)
    requires k !in m.at
    ensures i <= |m.keys| && Emplace(m, k, v).keys == m.keys[..i] + [k] + m.keys[i..]
  {
    hide Insert;
    KeyIn(m, k);
    i := InsertSplits(m.keys, k);
  }

  lemma EmplacedSizes(m: OrderedMap<seq<string>>, k: string, v: seq<string>)
    ensures Sizes(Collections(Emplace(m, k, v))) == Sizes(Collections(m)) * if k in m.at then 1 else |v|
  {
    hide Sizes, Sorted, Insert, Collections, Emplace, KeySet;
    if k in m.at {
      EmplacedBefore(m, k, v);
    } else {
      var i := Position(m, k, v);
      EmplacedAt(m, k, v, i);
      var a, b := Collections(m)[..i], Collections(m)[i..];
      assert Collections(m) == a + b;
      OneMoreSize(a, v, b);
    }
  }

  lemma {:induction false} EmplaceUpToSizes(patterns: seq<Pattern>, n: nat)
    requires n <= |patterns|
    ensures Sizes(Collections(EmplaceUpTo(Empty(), patterns, n))) == ValueCounts(patterns, n)
  {
    hide Sizes, Emplace, Sorted, Collections, KeySet;
    if n == 0 {
      EmptySizes();
    } else {
      var before, k := EmplaceUpTo(Empty(), patterns, n - 1), patterns[n - 1].key;
      EmplaceUpToSizes(patterns, n - 1);
      EmplacedSizes(before, k, patterns[n - 1].values);
      EmplacedFirst(Empty(), patterns, n - 1, k);
      if k !in before.at { NoneBefore(patterns, n - 1, k); }
    }
  }

  lemma EmptySizes()
    ensures Sizes(Collections<string>(Empty())) == 1
  {
  }

  /** The number of combinations, from the list of patterns alone. */
  lemma HowMany(patterns: seq<Pattern>)
    ensures |Combinations(patterns)| == ValueCounts(patterns, |patterns|)
  {
    hide Sizes, Collections, EmplaceUpTo;
    CombinationCount(patterns);
    if patterns != [] { EmplaceUpToSizes(patterns, |patterns|); }
  }

  // -------- brace-free patterns --------

  predicate BraceFree(patterns: seq<Pattern>) {
    forall i :: 0 <= i < |patterns| ==>
      Plain(patterns[i].key) && forall v :: v in patterns[i].values ==> Plain(v)
  }

  /** ... make brace-free combinations. */
  lemma PlainCombinations(patterns: seq<Pattern>, n: nat)
    requires BraceFree(patterns) && n < |Combinations(patterns)|
    ensures AllPlain(Combinations(patterns)[n].at)
  {
    hide Plain, Combinations;
    if patterns == [] {
      NoPatterns();
      assert Plain("NO-KEY") && Plain("NO-VALUE") by { PlainDefault(); }
    } else {
      var choices := ChoicesInOrder(patterns);
      var c, choice := Combinations(patterns)[n], choices[n];
      assert IsChoice(patterns, choice) && Gives(patterns, choice, c);
      forall k | k in c.at ensures Plain(k) && Plain(c.at[k]) {
        var i: nat :| IsFirst(patterns, k, i);
        assert k in choice && choice[k] < |patterns[i].values|;
        assert patterns[i].values[choice[k]] in patterns[i].values;
      }
    }
  }

  lemma PlainDefault()
    ensures Plain("NO-KEY") && Plain("NO-VALUE")
  {
  }
}

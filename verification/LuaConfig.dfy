/** Settings in a Lua script: a setting becomes a table, and `list` turns the table into a list again. */
module LuaConfig {
  import opened Options
  import opened SettingsTree
  import opened CommandLineCommands

  // -------- std::to_string --------

  function Digit(d: nat): char
    requires d < 10
  {
    "0123456789"[d]
  }

  function ToString(n: nat): (s: string)
    ensures s != []
  {
    if n < 10 then [Digit(n)] else ToString(n / 10) + [Digit(n % 10)]
  }

  predicate IsDecimal(s: string) {
    s != [] && forall i :: 0 <= i < |s| ==> '0' <= s[i] <= '9'
  }

  /** The number that digits denote in positional notation. */
  function Denotes(s: string): nat
    requires forall i :: 0 <= i < |s| ==> '0' <= s[i] <= '9'
  {
    if s == [] then 0 else 10 * Denotes(s[..|s| - 1]) + (s[|s| - 1] as int - '0' as int)
  }

  lemma DigitIs(d: nat)
    requires d < 10
    ensures '0' <= Digit(d) <= '9' && Digit(d) as int - '0' as int == d
  {
    assert d == 0 || d == 1 || d == 2 || d == 3 || d == 4 || d == 5 || d == 6 || d == 7 || d == 8 || d == 9;
  }

  /** The number reads back from its decimal notation, which has no leading zero. */
  lemma {:induction false} ToStringDenotes(n: nat)
    ensures IsDecimal(ToString(n)) && Denotes(ToString(n)) == n
    ensures n > 0 ==> ToString(n)[0] != '0'
  {
    hide Digit;
    DigitIs(n % 10);
    if n < 10 {
      assert [Digit(n)][..0] == [];
    } else {
      ToStringDenotes(n / 10);
      var front := ToString(n / 10);
      assert ToString(n) == front + [Digit(n % 10)] && ToString(n)[..|front|] == front;
    }
  }

  lemma ToStringInjective(m: nat, n: nat)
    requires ToString(m) == ToString(n)
    ensures m == n
  {
    hide ToString;
    ToStringDenotes(m);
    ToStringDenotes(n);
  }

  // -------- Config::get --------

  type Table = map<string, string>

  /** The values that are read without asking are there. */
  predicate ConfigDefined(config: Tree, key: string) {
    && var values := Get(config, [key]).GetOr([]);
       (values != [] && Get(config, [key, values[0]]).Some? ==>
          forall v :: v in values ==> One(config, [key, v]).Some?)
  }

  function KeyedUpTo(config: Tree, key: string, values: seq<string>, n: nat): Table
    requires n <= |values| && forall v :: v in values ==> One(config, [key, v]).Some?
  {
    if n == 0 then map[] else
      KeyedUpTo(config, key, values, n - 1)[values[n - 1] := One(config, [key, values[n - 1]]).value]
  }

  function IndexedUpTo(values: seq<string>, n: nat): Table
    requires n <= |values|
  {
    if n == 0 then map[] else IndexedUpTo(values, n - 1)[ToString(n - 1) := values[n - 1]]
  }

  function ConfigTable(config: Tree, key: string): Option<Table>
    requires ConfigDefined(config, key)
  {
    var values := Get(config, [key]).GetOr([]);
    if !Contains(config, [key]) then None
    else if values == [] then Some(map[])
    else if Get(config, [key, values[0]]).Some? then Some(KeyedUpTo(config, key, values, |values|))
    else Some(IndexedUpTo(values, |values|))
  }

  method GetTable(config: Tree, key: string) returns (result: Option<Table>)
    requires ConfigDefined(config, key)
    ensures result == ConfigTable(config, key)
  {
    hide Get, One;
    if !Contains(config, [key]) {
      return None;
    }
    var values := Get(config, [key]).GetOr([]);
    if values == [] {
      return Some(map[]);
    }
    var table: Table := map[];
    if Get(config, [key, values[0]]).Some? {
      for i := 0 to |values|
        invariant table == KeyedUpTo(config, key, values, i)
      {
        assert values[i] in values;
        table := table[values[i] := One(config, [key, values[i]]).value];
      }
    } else {
      for i := 0 to |values|
        invariant table == IndexedUpTo(values, i)
      {
        table := table[ToString(i) := values[i]];
      }
    }
    result := Some(table);
  }

  // -------- list --------

  /** `unordered_map::at` throws for a key that is not there. */
  datatype Listed = Nothing | Listing(items: seq<(int, string)>) | OutOfRange

  predicate Indexed(table: Table) {
    forall i :: 0 <= i < |table| ==> ToString(i) in table
  }

  function Items(table: Table): (r: seq<(int, string)>)
    requires Indexed(table)
    ensures |r| == |table|
    ensures forall i :: 0 <= i < |table| ==> ToString(i) in table && r[i] == (i + 1, table[ToString(i)])
  {
    seq(|table|, i requires 0 <= i < |table| => (i + 1, table[ToString(i)]))
  }

  method List(table: Option<Table>) returns (result: Listed)
    ensures table == None ==> result == Nothing
    ensures table.Some? ==> result == if Indexed(table.value) then Listing(Items(table.value)) else OutOfRange
  {
    if table.None? {
      return Nothing;
    }
    var values, items, index := table.value, [], 1;
    for i := 0 to |values|
      invariant index == i + 1 && |items| == i
      invariant forall j :: 0 <= j < i ==> ToString(j) in values && items[j] == (j + 1, values[ToString(j)])
    {
      if ToString(i) !in values {
        return OutOfRange;
      }
      items := items + [(index, values[ToString(i)])];
      index := index + 1;
    }
    assert items == Items(values);
    result := Listing(items);
  }

  // -------- round trip --------

  lemma {:induction false} NotYet(values: seq<string>, n: nat, m: nat)
    requires n <= |values| && n <= m
    ensures ToString(m) !in IndexedUpTo(values, n)
  {
    hide ToString;
    if n > 0 {
      NotYet(values, n - 1, m);
      if ToString(m) == ToString(n - 1) { ToStringInjective(m, n - 1); }
    }
  }

  lemma {:induction false} IndexedTable(values: seq<string>, n: nat)
    requires n <= |values|
    ensures |IndexedUpTo(values, n)| == n
    ensures forall i :: 0 <= i < n ==>
              ToString(i) in IndexedUpTo(values, n) && IndexedUpTo(values, n)[ToString(i)] == values[i]
  {
    hide ToString;
    if n > 0 {
      IndexedTable(values, n - 1);
      NotYet(values, n - 1, n - 1);
    }
  }

  /** The values of a setting, numbered from one. */
  function Numbered(values: seq<string>): (r: seq<(int, string)>)
    ensures |r| == |values| && forall i :: 0 <= i < |values| ==> r[i] == (i + 1, values[i])
  {
    seq(|values|, i requires 0 <= i < |values| => (i + 1, values[i]))
  }

  lemma AtOne(t: Tree, k: string)
    ensures Contains(t, [k]) <==> Has(t, k)
    ensures Has(t, k) ==> At(t, [k]) == Child(t, k)
  {
    assert [k][1..] == [];
  }

  lemma FoundFirst(t: Tree)
    requires Kids(t) != []
    ensures Has(t, Kids(t)[0].key) && Child(t, Kids(t)[0].key) == Kids(t)[0]
  {
    assert Find(Kids(t), Kids(t)[0].key) == 0;
  }

  lemma FirstChild(config: Tree, key: string)
    requires Contains(config, [key])
    ensures Get(config, [key]) == Values(At(config, [key]))
    ensures Kids(At(config, [key])) != [] ==>
              Get(config, [key, Kids(At(config, [key]))[0].key]) == Values(Kids(At(config, [key]))[0])
  {
    hide Find;
    var t := Child(config, key);
    AtOne(config, key);
    if Kids(t) != [] {
      var k := Kids(t)[0].key;
      assert [key, k][1..] == [k];
      FoundFirst(t);
      AtOne(t, k);
    }
  }

  /**
    A setting whose first child has no children of its own (or that has none) is listed with all its
    values, in order, numbered from one.
   */
  lemma ListOfSetting(config: Tree, key: string)
    requires Contains(config, [key])
    requires Kids(At(config, [key])) == [] || Kids(At(config, [key]))[0].Leaf?
    ensures ConfigDefined(config, key) && ConfigTable(config, key).Some?
    ensures var table := ConfigTable(config, key).value;
            Indexed(table) && Items(table) == Numbered(Keys(Kids(At(config, [key]))))
  {
    hide Get, Contains, At, ToString;
    FirstChild(config, key);
    var values := Keys(Kids(At(config, [key])));
    assert Kids(At(config, [key])) == [] ==> values == [];
    assert Get(config, [key]).GetOr([]) == values;
    IndexedTable(values, |values|);
    var table := ConfigTable(config, key).value;
    assert table == IndexedUpTo(values, |values|);
    assert forall i :: 0 <= i < |values| ==> Items(table)[i] == Numbered(values)[i];
  }

  /** A setting whose first child has values of its own becomes a table by key. */
  lemma {:induction false} KeyedTable(config: Tree, key: string, values: seq<string>, n: nat)
    requires n <= |values| && forall v :: v in values ==> One(config, [key, v]).Some?
    ensures KeyedUpTo(config, key, values, n).Keys == set v | v in values[..n]
    ensures forall v :: v in values[..n] ==> KeyedUpTo(config, key, values, n)[v] == One(config, [key, v]).value
  {
    hide One;
    if n > 0 {
      KeyedTable(config, key, values, n - 1);
      assert values[..n] == values[..n - 1] + [values[n - 1]];
    }
  }

  function Distinct(values: seq<string>): set<string> {
    set v | v in values
  }

  predicate HasIndexes(values: seq<string>, n: nat) {
    forall i :: 0 <= i < n ==> ToString(i) in values
  }

  /**
    ... which `list` can read only if the keys are the numbers from zero on, as many as there are
    different keys; it then gives the value of each.
   */
  lemma ListOfKeyed(config: Tree, key: string)
    requires ConfigDefined(config, key) && Contains(config, [key])
    requires Kids(At(config, [key])) != [] && Kids(At(config, [key]))[0].Node?
    ensures ConfigTable(config, key).Some?
    ensures var table := ConfigTable(config, key).value; var values := Keys(Kids(At(config, [key])));
            && |table| == |Distinct(values)|
            && (Indexed(table) <==> HasIndexes(values, |Distinct(values)|))
            && (Indexed(table) ==> forall i :: 0 <= i < |table| ==>
                  One(config, [key, ToString(i)]).Some?
                  && Items(table)[i] == (i + 1, One(config, [key, ToString(i)]).value))
  {
    hide Get, Contains, At, ToString, One;
    FirstChild(config, key);
    var values := Keys(Kids(At(config, [key])));
    assert Get(config, [key]).GetOr([]) == values && values[0] == Kids(At(config, [key]))[0].key;
    KeyedTable(config, key, values, |values|);
    assert values[..|values|] == values;
    var table := ConfigTable(config, key).value;
    assert table == KeyedUpTo(config, key, values, |values|);
    assert table.Keys == Distinct(values) && |table| == |table.Keys|;
    SameIndexes(table, values);
  }

  lemma SameIndexes(table: Table, values: seq<string>)
    requires table.Keys == Distinct(values)
    ensures Indexed(table) <==> HasIndexes(values, |table|)
  {
    hide ToString;
    assert forall k :: k in table.Keys <==> k in values;
    if Indexed(table) {
      forall i | 0 <= i < |table| ensures ToString(i) in values { assert ToString(i) in table.Keys; }
    }
    if HasIndexes(values, |table|) {
      forall i | 0 <= i < |table| ensures ToString(i) in table { assert ToString(i) in values; }
    }
  }

  method ListSetting(config: Tree, key: string) returns (result: Listed)
    requires ConfigDefined(config, key)
    ensures !Contains(config, [key]) ==> result == Nothing
    ensures Contains(config, [key]) && (Kids(At(config, [key])) == [] || Kids(At(config, [key]))[0].Leaf?) ==>
              result == Listing(Numbered(Keys(Kids(At(config, [key])))))
  {
    var table := GetTable(config, key);
    result := List(table);
    if Contains(config, [key]) && (Kids(At(config, [key])) == [] || Kids(At(config, [key]))[0].Leaf?) {
      ListOfSetting(config, key);
    }
  }
}

/**
  The example configuration of the repository: as a document, as the settings it is read into, and as
  the variables that the command-line-command plugin gets for `clean` and for `build`.
 */
module ExampleConfiguration {
  import opened Options
  import opened SettingsTree
  import opened SettingsLaws
  import opened YamlWrapper
  import YamlTranslation
  import opened Variables
  import opened Plugins

  // -------- the configuration --------

  const PLUGIN := "command-line-command"

  function Listed(key: string, values: seq<string>): Tree {
    Node(key, Leaves(values))
  }

  function BuildLine(): seq<string> {
    ["echo", "building", "using", "{COMPILER}", "in", "{MODE}", "mode.", "wd=$(pwd)"]
  }

  function CleanLine(): seq<string> {
    ["echo", "cleaning", "mode.", "{MODE}", "wd=$(pwd)"]
  }

  function CleanSettings(): Tree {
    Node("clean", [Listed("patterns", ["MODE", "EH_WORKING_DIR"]), Listed("command-line", CleanLine()),
                   Listed("working-dir", ["{EH_WORKING_DIR}"])])
  }

  function PluginSettings(): Tree {
    Node(PLUGIN, [Listed("patterns", ["COMPILER", "MODE"]), Listed("command-line", BuildLine()), CleanSettings()])
  }

  function Configuration(): Tree {
    Node("exec-helper", [Listed("build", [PLUGIN]), Listed("clean", [PLUGIN]), Listed("rebuild", ["clean", "build"]),
                         PluginSettings()])
  }

  // -------- ... as a document --------

  function Scalars(values: seq<string>): (r: seq<Yaml>)
    ensures |r| == |values| && forall i :: 0 <= i < |r| ==> r[i] == Scalar(values[i])
  {
    seq(|values|, i requires 0 <= i < |values| => Scalar(values[i]))
  }

  function ListEntry(key: string, values: seq<string>): Entry {
    Entry(Some(key), Sequence(Scalars(values)))
  }

  function CleanDocument(): Yaml {
    Map([ListEntry("patterns", ["MODE", "EH_WORKING_DIR"]), ListEntry("command-line", CleanLine()),
         Entry(Some("working-dir"), Scalar("{EH_WORKING_DIR}"))])
  }

  function PluginDocument(): Yaml {
    Map([ListEntry("patterns", ["COMPILER", "MODE"]), ListEntry("command-line", BuildLine()),
         Entry(Some("clean"), CleanDocument())])
  }

  function Document(): Yaml {
    Map([ListEntry("build", [PLUGIN]), ListEntry("clean", [PLUGIN]), ListEntry("rebuild", ["clean", "build"]),
         Entry(Some(PLUGIN), PluginDocument())])
  }

  /** The value describes these children, and is built like that. */
  predicate Describes(y: Yaml, kids: seq<Tree>) {
    kids != [] && YamlTranslation.Translate(y) == YamlTranslation.Listing(true, kids) && YamlTranslation.Faithful(y, [])
  }

  predicate EntriesDescribe(es: seq<Entry>, keys: seq<string>, kids: seq<Tree>) {
    && YamlTranslation.TranslateEntries(es) == YamlTranslation.Listing(true, kids)
    && YamlTranslation.FaithfulEntries(es, keys)
  }

  lemma {:induction false} ScalarsDescribe(values: seq<string>, keys: seq<string>)
    ensures YamlTranslation.TranslateItems(Scalars(values)) == YamlTranslation.Listing(true, Leaves(values))
    ensures YamlTranslation.FaithfulItems(Scalars(values), keys)
  {
    if values != [] {
      assert Scalars(values)[1..] == Scalars(values[1..]);
      ScalarsDescribe(values[1..], keys + Keys([Leaf(values[0])]));
      assert Leaves(values) == [Leaf(values[0])] + Leaves(values[1..]);
    }
  }

  lemma ListDescribes(values: seq<string>)
    requires values != []
    ensures Describes(Sequence(Scalars(values)), Leaves(values))
  {
    ScalarsDescribe(values, []);
  }

  lemma NoEntries(keys: seq<string>)
    ensures EntriesDescribe([], keys, [])
  {
  }

  lemma EntryDescribes(key: string, value: Yaml, kids: seq<Tree>, rest: seq<Entry>, keys: seq<string>, later: seq<Tree>)
    requires Describes(value, kids) && key !in keys && EntriesDescribe(rest, keys + [key], later)
    ensures EntriesDescribe([Entry(Some(key), value)] + rest, keys, [Node(key, kids)] + later)
  {
    hide YamlTranslation.Translate, YamlTranslation.Faithful;
    var es := [Entry(Some(key), value)] + rest;
    assert es[0] == Entry(Some(key), value) && es[1..] == rest;
    assert YamlTranslation.Extend(Leaf(key), kids) == Node(key, kids) by { assert [] + kids == kids; }
    assert YamlTranslation.TranslateEntry(key, value) == YamlTranslation.Listing(true, [Node(key, kids)]);
    assert YamlTranslation.TranslateEntries(es) ==
           YamlTranslation.Then(YamlTranslation.TranslateEntry(key, value), YamlTranslation.TranslateEntries(rest));
    assert YamlTranslation.FaithfulEntry(key, value, keys);
    assert YamlTranslation.FaithfulEntries(rest, keys + [key]);
    assert YamlTranslation.FaithfulEntries(es, keys);
  }

  lemma ThreeEntries(a: Entry, b: Entry, c: Entry, x: Tree, y: Tree, z: Tree, keys: seq<string>)
    requires a.key == Some(x.key) && b.key == Some(y.key) && c.key == Some(z.key)
    requires Describes(a.value, Kids(x)) && Describes(b.value, Kids(y)) && Describes(c.value, Kids(z))
    requires x.key !in keys && y.key !in keys + [x.key] && z.key !in keys + [x.key] + [y.key]
    ensures EntriesDescribe([a, b, c], keys, [x, y, z])
  {
    hide Describes, EntriesDescribe;
    NonEmpty(a.value, x);
    NonEmpty(b.value, y);
    NonEmpty(c.value, z);
    var k1, k2 := keys + [x.key], keys + [x.key] + [y.key];
    NoEntries(k2 + [z.key]);
    EntryDescribes(z.key, c.value, Kids(z), [], k2, []);
    EntryDescribes(y.key, b.value, Kids(y), [c] + [], k1, [z] + []);
    EntryDescribes(x.key, a.value, Kids(x), [b] + ([c] + []), keys, [y] + ([z] + []));
    assert [a] + ([b] + ([c] + [])) == [a, b, c] && [x] + ([y] + ([z] + [])) == [x, y, z];
  }

  lemma NonEmpty(y: Yaml, t: Tree)
    requires Describes(y, Kids(t))
    ensures t == Node(t.key, Kids(t))
  {
  }

  lemma MapDescribes(es: seq<Entry>, kids: seq<Tree>)
    requires kids != [] && EntriesDescribe(es, [], kids)
    ensures Describes(Map(es), kids)
  {
  }

  lemma ScalarDescribes(text: string)
    ensures Describes(Scalar(text), Leaves([text]))
  {
    assert Leaves([text]) == [Leaf(text)];
  }

  /** Reading the document gives the configuration. */
  lemma DocumentIsRead()
    ensures YamlWrapper.Build(Document(), Leaf("exec-helper"), []) == YamlWrapper.Built(true, Configuration())
  {
    hide Describes, EntriesDescribe, Leaves, YamlTranslation.Translate, YamlTranslation.Faithful;
    ListDescribes(["MODE", "EH_WORKING_DIR"]);
    ListDescribes(CleanLine());
    ScalarDescribes("{EH_WORKING_DIR}");
    var clean := CleanSettings().kids;
    ThreeEntries(CleanDocument().entries[0], CleanDocument().entries[1], CleanDocument().entries[2],
                 clean[0], clean[1], clean[2], []);
    MapDescribes(CleanDocument().entries, clean);
    ListDescribes(["COMPILER", "MODE"]);
    ListDescribes(BuildLine());
    var plugin := PluginSettings().kids;
    ThreeEntries(PluginDocument().entries[0], PluginDocument().entries[1], PluginDocument().entries[2],
                 plugin[0], plugin[1], plugin[2], []);
    MapDescribes(PluginDocument().entries, plugin);
    ListDescribes([PLUGIN]);
    ListDescribes(["clean", "build"]);
    var es, kids := Document().entries, Configuration().kids;
    assert [] + ["build"] == ["build"];
    ThreeEntries(es[1], es[2], es[3], kids[1], kids[2], kids[3], ["build"]);
    EntryDescribes("build", es[0].value, Kids(kids[0]), [es[1], es[2], es[3]], [], [kids[1], kids[2], kids[3]]);
    assert [es[0]] + [es[1], es[2], es[3]] == es && [kids[0]] + [kids[1], kids[2], kids[3]] == kids;
    MapDescribes(es, kids);
    DescribedIsBuilt(Document(), "exec-helper", kids);
  }

  lemma DescribedIsBuilt(y: Yaml, root: string, kids: seq<Tree>)
    requires Describes(y, kids)
    ensures YamlWrapper.Build(y, Leaf(root), []) == YamlWrapper.Built(true, Node(root, kids))
  {
    YamlTranslation.BuildExact(y, root);
    assert [] + kids == kids;
  }

  // -------- reading it --------

  lemma KidAt(t: Tree, i: nat)
    requires t.Node? && i < |t.kids| && forall j :: 0 <= j < i ==> t.kids[j].key != t.kids[i].key
    ensures Has(t, t.kids[i].key) && Child(t, t.kids[i].key) == t.kids[i]
  {
    hide Find;
    FindIs(t.kids, t.kids[i].key, i);
  }

  lemma NoKid(t: Tree, k: string)
    requires forall j :: 0 <= j < |Kids(t)| ==> Kids(t)[j].key != k
    ensures !Has(t, k)
  {
  }

  lemma OneDown(t: Tree, k: string)
    ensures Contains(t, [k]) <==> Has(t, k)
    ensures Has(t, k) ==> At(t, [k]) == Child(t, k)
  {
    assert [k][1..] == [];
  }

  lemma TwoDown(t: Tree, k: string, l: string)
    ensures Contains(t, [k, l]) <==> Has(t, k) && Has(Child(t, k), l)
    ensures Contains(t, [k, l]) ==> At(t, [k, l]) == Child(Child(t, k), l)
  {
    assert [k, l][1..] == [l];
    if Has(t, k) { OneDown(Child(t, k), l); }
  }

  lemma ListedValues(key: string, values: seq<string>)
    ensures Values(Listed(key, values)) == Some(values)
  {
    assert Keys(Leaves(values)) == values;
  }

  lemma Commands()
    ensures Get(Configuration(), ["build"]) == Get(Configuration(), ["clean"]) == Some([PLUGIN])
    ensures Get(Configuration(), ["rebuild"]) == Some(["clean", "build"])
    ensures Contains(Configuration(), [PLUGIN]) && At(Configuration(), [PLUGIN]) == PluginSettings()
    ensures Contains(Configuration(), [PLUGIN, "clean"]) && At(Configuration(), [PLUGIN, "clean"]) == CleanSettings()
    ensures !Contains(Configuration(), [PLUGIN, "build"])
  {
    hide Get, Contains, At, Leaves, Find;
    var t := Configuration();
    KidAt(t, 0);
    KidAt(t, 1);
    KidAt(t, 2);
    KidAt(t, 3);
    KidAt(PluginSettings(), 2);
    NoKid(PluginSettings(), "build");
    GetChild(t, "build");
    GetChild(t, "clean");
    GetChild(t, "rebuild");
    ListedValues("build", [PLUGIN]);
    ListedValues("clean", [PLUGIN]);
    ListedValues("rebuild", ["clean", "build"]);
    OneDown(t, PLUGIN);
    TwoDown(t, PLUGIN, "clean");
    TwoDown(t, PLUGIN, "build");
  }

  lemma NoGrandKid(command: string)
    requires command == "build" || command == "clean" || command == "rebuild"
    ensures IndexableFor(Configuration(), command, "rebuild")
  {
    hide Get, Contains, At, Leaves, Find;
    var t := Configuration();
    Commands();
    var i := if command == "build" then 0 else if command == "clean" then 1 else 2;
    KidAt(t, i);
    NoKid(t.kids[i], "rebuild");
    TwoDown(t, command, "rebuild");
  }

  lemma PluginIndexable(command: string)
    requires command == "clean" || command == "build"
    ensures IndexableFor(Configuration(), PLUGIN, command)
  {
    hide Contains, At, Leaves, Find;
    Commands();
  }

  lemma SaysKid(settings: Tree, path: Path, i: nat, k: string)
    requires Contains(settings, path) && At(settings, path).Node? && i < |At(settings, path).kids|
    requires var kids := At(settings, path).kids;
             kids[i].Node? && kids[i].key == k && forall j :: 0 <= j < i ==> kids[j].key != k
    ensures Variables.Configured(settings, path, k) == Some(At(settings, path).kids[i])
    ensures Says(settings, path, k) == Values(At(settings, path).kids[i])
  {
    hide Contains, At;
    KidAt(At(settings, path), i);
  }

  lemma SaysNothing(settings: Tree, path: Path, k: string)
    requires path != [] && k != path[|path| - 1]
    requires Contains(settings, path) ==>
               forall j :: 0 <= j < |Kids(At(settings, path))| ==> Kids(At(settings, path))[j].key != k
    ensures Variables.Configured(settings, path, k) == None && Says(settings, path, k) == None
  {
    hide Contains, At;
    if Contains(settings, path) { NoKid(At(settings, path), k); }
  }

  // -------- the variables of the plugin --------

  function Vars(fleeting: Fleeting, command: string): Tree
    requires command == "clean" || command == "build"
  {
    PluginIndexable(command);
    VariablesFor(Defaults(UsePlugin(CommandLine), fleeting), Configuration(), PLUGIN, command)
  }

  lemma Layers(fleeting: Fleeting, command: string, k: string)
    requires command == "clean" || command == "build"
    ensures Get(Vars(fleeting, command), [k]) ==
            Or(Says(Configuration(), [PLUGIN, command], k),
               Or(Says(Configuration(), [PLUGIN], k), Get(Defaults(UsePlugin(CommandLine), fleeting), [k])))
  {
    hide Get, Says, VariablesFor, Defaults, Find, Or, IndexableFor, Configuration;
    PluginIndexable(command);
    DistinctDefaults(fleeting);
    EverySetting(Defaults(UsePlugin(CommandLine), fleeting), Configuration(), PLUGIN, command, k);
  }

  lemma DistinctDefaults(fleeting: Fleeting)
    ensures DistinctKids(Defaults(UsePlugin(CommandLine), fleeting))
  {
    hide Defaults;
    CommandLineDefaults(fleeting);
    assert Keys(Kids(Defaults(UsePlugin(CommandLine), fleeting))) == ["command-line", "environment"];
  }

  lemma DefaultValues(fleeting: Fleeting)
    ensures var defaults := Defaults(UsePlugin(CommandLine), fleeting);
            Get(defaults, ["environment"]) == Some([]) && Get(defaults, ["working-dir"]) == None
  {
    hide Find, Defaults, Get;
    CommandLineDefaults(fleeting);
    var defaults := Defaults(UsePlugin(CommandLine), fleeting);
    KidAt(defaults, 1);
    NoKid(defaults, "working-dir");
    GetChild(defaults, "environment");
    GetChild(defaults, "working-dir");
    assert Keys([]) == [];
  }

  lemma NoneBelow(key: string, values: seq<string>)
    requires values != []
    ensures Get(Listed(key, values), [values[0]]) == None
  {
    hide Find, Get;
    var t := Listed(key, values);
    KidAt(t, 0);
    GetChild(t, values[0]);
  }

  /** What the settings for `clean` say. */
  lemma CleanSays(fleeting: Fleeting, i: nat)
    requires i < 3
    ensures var kid := CleanSettings().kids[i];
            && Variables.Configured(Configuration(), [PLUGIN, "clean"], kid.key) == Some(kid)
            && Get(Vars(fleeting, "clean"), [kid.key]) == Values(kid)
  {
    hide Get, Vars, Says, Contains, At, Defaults, Leaves;
    Commands();
    SaysKid(Configuration(), [PLUGIN, "clean"], i, CleanSettings().kids[i].key);
    Layers(fleeting, "clean", CleanSettings().kids[i].key);
  }

  /** There are none for `build`; then those of the plugin count. */
  lemma BuildSays(fleeting: Fleeting, i: nat)
    requires i < 2
    ensures var kid := PluginSettings().kids[i];
            && Variables.Configured(Configuration(), [PLUGIN, "build"], kid.key) == None
            && Variables.Configured(Configuration(), [PLUGIN], kid.key) == Some(kid)
            && Get(Vars(fleeting, "build"), [kid.key]) == Values(kid)
  {
    hide Get, Vars, Says, Contains, At, Defaults, Leaves;
    Commands();
    var k := PluginSettings().kids[i].key;
    SaysNothing(Configuration(), [PLUGIN, "build"], k);
    SaysKid(Configuration(), [PLUGIN], i, k);
    Layers(fleeting, "build", k);
  }

  lemma DefaultSays(fleeting: Fleeting, command: string, k: string)
    requires command == "clean" || command == "build"
    requires k == "environment" || (k == "working-dir" && command == "build")
    ensures Get(Vars(fleeting, command), [k]) == Get(Defaults(UsePlugin(CommandLine), fleeting), [k])
  {
    hide Get, Vars, Says, Contains, At, Defaults, Leaves;
    Commands();
    SaysNothing(Configuration(), [PLUGIN, command], k);
    SaysNothing(Configuration(), [PLUGIN], k);
    Layers(fleeting, command, k);
  }

  lemma NoKeyedLine(fleeting: Fleeting, command: string)
    requires command == "clean" || command == "build"
    ensures Get(Vars(fleeting, command), ["command-line", "echo"]) == None
  {
    hide Get, VariablesFor, Variables.Configured, Defaults, Leaves, IndexableFor, Configuration;
    PluginIndexable(command);
    CleanSays(fleeting, 1);
    BuildSays(fleeting, 1);
    NoneBelow("command-line", CleanLine());
    NoneBelow("command-line", BuildLine());
    LayeredGet(Defaults(UsePlugin(CommandLine), fleeting), Configuration(), PLUGIN, command, "command-line", ["echo"]);
    assert ["command-line"] + ["echo"] == ["command-line", "echo"];
  }

  lemma CleanVars(fleeting: Fleeting)
    ensures var vars := Vars(fleeting, "clean");
            && Get(vars, ["patterns"]) == Some(["MODE", "EH_WORKING_DIR"])
            && Get(vars, ["command-line"]) == Some(CleanLine()) && Get(vars, ["command-line", "echo"]) == None
            && Get(vars, ["working-dir"]) == Some(["{EH_WORKING_DIR}"])
            && Get(vars, ["environment"]) == Some([])
  {
    hide Get, Vars, Variables.Configured, Values, Leaves, Configuration, Defaults;
    CleanSays(fleeting, 0);
    CleanSays(fleeting, 1);
    CleanSays(fleeting, 2);
    DefaultSays(fleeting, "clean", "environment");
    DefaultValues(fleeting);
    NoKeyedLine(fleeting, "clean");
    ListedValues("patterns", ["MODE", "EH_WORKING_DIR"]);
    ListedValues("command-line", CleanLine());
    ListedValues("working-dir", ["{EH_WORKING_DIR}"]);
  }

  lemma BuildVars(fleeting: Fleeting)
    ensures var vars := Vars(fleeting, "build");
            && Get(vars, ["patterns"]) == Some(["COMPILER", "MODE"])
            && Get(vars, ["command-line"]) == Some(BuildLine()) && Get(vars, ["command-line", "echo"]) == None
            && Get(vars, ["working-dir"]) == None
            && Get(vars, ["environment"]) == Some([])
  {
    hide Get, Vars, Variables.Configured, Values, Leaves, Configuration, Defaults;
    BuildSays(fleeting, 0);
    BuildSays(fleeting, 1);
    DefaultSays(fleeting, "build", "environment");
    DefaultSays(fleeting, "build", "working-dir");
    DefaultValues(fleeting);
    NoKeyedLine(fleeting, "build");
    ListedValues("patterns", ["COMPILER", "MODE"]);
    ListedValues("command-line", BuildLine());
  }
}

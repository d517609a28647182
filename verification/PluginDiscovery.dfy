/** Finding plugins: search paths by increasing priority, and later discoveries that overwrite earlier ones. */
module PluginDiscovery {
  import opened Options
  import opened SettingsTree

  const SEARCH_PATHS := "additional-search-paths"

  datatype Entry = Entry(stem: string, extension: string, regular: bool)

  /** A built-in plugin, or the Lua script with that stem in a directory. */
  datatype Found = BuiltIn(name: string) | Script(directory: string, stem: string)

  /** What the file system says: the entries of a directory, if it can be read. */
  type Directories = string -> Option<seq<Entry>>

  const BUILT_IN: map<string, Found> :=
    map["commands" := BuiltIn("commands"), "command-line-command" := BuiltIn("command-line-command"),
        "memory" := BuiltIn("memory"), "valgrind" := BuiltIn("valgrind"),
        "pmd" := BuiltIn("pmd"), "lcov" := BuiltIn("lcov")]

  // -------- search paths --------

  function Resolved(paths: seq<string>, resolve: string -> string): (r: seq<string>)
    ensures |r| == |paths| && forall i :: 0 <= i < |paths| ==> r[i] == resolve(paths[i])
  {
    seq(|paths|, i requires 0 <= i < |paths| => resolve(paths[i]))
  }

  function Reverse(paths: seq<string>): (r: seq<string>)
    ensures |r| == |paths| && forall i :: 0 <= i < |paths| ==> r[i] == paths[|paths| - 1 - i]
  {
    seq(|paths|, i requires 0 <= i < |paths| => paths[|paths| - 1 - i])
  }

  /** The documented order, first match first: command line, settings, installation. */
  function ByPriority(install: string, settings: Tree, appended: seq<string>, resolve: string -> string): seq<string> {
    Resolved(appended, resolve) + Resolved(Get(settings, [SEARCH_PATHS]).GetOr([]), resolve) + [install]
  }

  method AddAdditionalSearchPaths(base: seq<string>, toAdd: seq<string>, resolve: string -> string)
    returns (paths: seq<string>)
    ensures paths == base + Reverse(Resolved(toAdd, resolve))
  {
    paths := base;
    ghost var added := Reverse(Resolved(toAdd, resolve));
    var i := |toAdd|;
    while i > 0
      invariant 0 <= i <= |toAdd| == |added| && paths == base + added[..|toAdd| - i]
    {
      i := i - 1;
      paths := paths + [resolve(toAdd[i])];
    }
    assert added[..|toAdd|] == added;
  }

  method GetAdditionalSearchPaths(install: string, settings: Tree, appended: seq<string>, resolve: string -> string)
    returns (paths: seq<string>)
    ensures paths == Reverse(ByPriority(install, settings, appended, resolve))
  {
    ghost var configured := Get(settings, [SEARCH_PATHS]).GetOr([]);
    paths := [install];
    if Contains(settings, [SEARCH_PATHS]) {
      paths := AddAdditionalSearchPaths(paths, Get(settings, [SEARCH_PATHS]).GetOr([]), resolve);
    }
    Backwards([install], Resolved(configured, resolve), Resolved(appended, resolve));
    paths := AddAdditionalSearchPaths(paths, appended, resolve);
  }

  lemma Backwards(a: seq<string>, b: seq<string>, c: seq<string>)
    requires |a| == 1
    ensures Reverse(c + b + a) == a + Reverse(b) + Reverse(c)
  {
  }

  // -------- discovery --------

  predicate IsScript(entry: Entry) {
    entry.regular && entry.extension == ".lua"
  }

  predicate Among(entries: seq<Entry>, name: string) {
    exists i :: 0 <= i < |entries| && IsScript(entries[i]) && entries[i].stem == name
  }

  predicate Offers(directories: Directories, path: string, name: string) {
    directories(path).Some? && Among(directories(path).value, name)
  }

  /** The first of the paths that offers the plugin, else the built-in one. */
  function FirstMatch(directories: Directories, paths: seq<string>, name: string): Option<Found> {
    if paths == [] then (if name in BUILT_IN then Some(BUILT_IN[name]) else None)
    else if Offers(directories, paths[0], name) then Some(Script(paths[0], name))
    else FirstMatch(directories, paths[1..], name)
  }

  /** The plugins of one directory overwrite those known before. */
  method DiscoverIn(before: map<string, Found>, entries: seq<Entry>, path: string) returns (plugins: map<string, Found>)
    ensures forall name :: name in plugins <==> name in before || Among(entries, name)
    ensures forall name :: name in plugins ==>
              plugins[name] == if Among(entries, name) then Script(path, name) else before[name]
    ensures forall i :: 0 <= i < |entries| && entries[i].regular && entries[i].extension == ".lua" ==>
              entries[i].stem in plugins && plugins[entries[i].stem] == Script(path, entries[i].stem)
  {
    plugins := before;
    for n := 0 to |entries|
      invariant forall name :: name in plugins <==> name in before || Among(entries[..n], name)
      invariant forall name :: name in plugins ==>
                  plugins[name] == if Among(entries[..n], name) then Script(path, name) else before[name]
    {
      AmongNext(entries, n);
      if IsScript(entries[n]) {
        plugins := plugins[entries[n].stem := Script(path, entries[n].stem)];
      }
    }
    assert entries[..|entries|] == entries;
    assert forall i :: 0 <= i < |entries| && IsScript(entries[i]) ==> Among(entries, entries[i].stem);
  }

  lemma AmongNext(entries: seq<Entry>, n: nat)
    requires n < |entries|
    ensures forall name :: Among(entries[..n + 1], name) <==>
                           Among(entries[..n], name) || (IsScript(entries[n]) && entries[n].stem == name)
  {
    forall name
      ensures Among(entries[..n + 1], name) <==>
              Among(entries[..n], name) || (IsScript(entries[n]) && entries[n].stem == name)
    {
      assert entries[..n + 1] == entries[..n] + [entries[n]];
      if Among(entries[..n], name) {
        var i :| 0 <= i < n && IsScript(entries[..n][i]) && entries[..n][i].stem == name;
        assert entries[..n + 1][i] == entries[..n][i];
      }
      assert entries[..n + 1][n] == entries[n];
    }
  }

  method DiscoverPlugins(directories: Directories, searchPaths: seq<string>) returns (plugins: map<string, Found>)
    ensures forall name :: name in plugins <==> FirstMatch(directories, Reverse(searchPaths), name).Some?
    ensures forall name :: name in plugins ==>
              FirstMatch(directories, Reverse(searchPaths), name) == Some(plugins[name])
  {
    plugins := BUILT_IN;
    for n := 0 to |searchPaths|
      invariant Selected(directories, searchPaths[..n], plugins)
    {
      ghost var before := plugins;
      match directories(searchPaths[n]) {
        case None =>    // reported and skipped
        case Some(entries) => plugins := DiscoverIn(plugins, entries, searchPaths[n]);
      }
      OneMorePath(directories, searchPaths, n, before, plugins);
    }
    assert searchPaths[..|searchPaths|] == searchPaths;
  }

  ghost predicate Selected(directories: Directories, searched: seq<string>, plugins: map<string, Found>) {
    forall name :: FirstMatch(directories, Reverse(searched), name) ==
                   if name in plugins then Some(plugins[name]) else None
  }

  lemma OneMorePath(directories: Directories, paths: seq<string>, n: nat,
                    before: map<string, Found>, after: map<string, Found>)
    requires n < |paths| && Selected(directories, paths[..n], before)
    requires forall name :: name in after <==> name in before || Offers(directories, paths[n], name)
    requires forall name :: name in after ==>
               after[name] == if Offers(directories, paths[n], name) then Script(paths[n], name) else before[name]
    ensures Selected(directories, paths[..n + 1], after)
  {
    hide Offers;
    var more := Reverse(paths[..n + 1]);
    assert more[0] == paths[n] && more[1..] == Reverse(paths[..n]);
    forall name ensures FirstMatch(directories, more, name) == if name in after then Some(after[name]) else None {
      assert FirstMatch(directories, more[1..], name) == if name in before then Some(before[name]) else None;
    }
  }

  // -------- which plugin a name stands for --------

  predicate FirstOffer(directories: Directories, paths: seq<string>, name: string, i: nat) {
    && i < |paths| && Offers(directories, paths[i], name)
    && forall j :: 0 <= j < i ==> !Offers(directories, paths[j], name)
  }

  predicate NoOffer(directories: Directories, paths: seq<string>, name: string) {
    forall j :: 0 <= j < |paths| ==> !Offers(directories, paths[j], name)
  }

  lemma {:induction false} FirstInFront(directories: Directories, a: seq<string>, b: seq<string>, name: string, i: nat)
    requires FirstOffer(directories, a, name, i)
    ensures FirstMatch(directories, a + b, name) == Some(Script(a[i], name))
  {
    hide Offers;
    assert (a + b)[0] == a[0] && (a + b)[1..] == a[1..] + b;
    if i > 0 {
      FirstInFront(directories, a[1..], b, name, i - 1);
    }
  }

  lemma {:induction false} NoneInFront(directories: Directories, a: seq<string>, b: seq<string>, name: string)
    requires NoOffer(directories, a, name)
    ensures FirstMatch(directories, a + b, name) == FirstMatch(directories, b, name)
  {
    hide Offers;
    if a == [] {
      assert a + b == b;
    } else {
      assert (a + b)[0] == a[0] && (a + b)[1..] == a[1..] + b;
      NoneInFront(directories, a[1..], b, name);
    }
  }

  /** A path of the command line before one of the settings, before the installation, before what is built in. */
  lemma Priorities(directories: Directories, install: string, settings: Tree, appended: seq<string>,
                   resolve: string -> string, name: string, i: nat)
    ensures var own, configured := Resolved(appended, resolve),
                                   Resolved(Get(settings, ["additional-search-paths"]).GetOr([]), resolve);
            var found := FirstMatch(directories, ByPriority(install, settings, appended, resolve), name);
            && (FirstOffer(directories, own, name, i) ==> found == Some(Script(own[i], name)))
            && (NoOffer(directories, own, name) ==>
                  && (FirstOffer(directories, configured, name, i) ==> found == Some(Script(configured[i], name)))
                  && (NoOffer(directories, configured, name) ==>
                        found == if Offers(directories, install, name) then Some(Script(install, name))
                                 else if name in BUILT_IN then Some(BUILT_IN[name]) else None))
  {
    hide Offers, FirstMatch, FirstOffer, NoOffer, Get;
    var own, configured := Resolved(appended, resolve), Resolved(Get(settings, [SEARCH_PATHS]).GetOr([]), resolve);
    assert ByPriority(install, settings, appended, resolve) == own + (configured + [install]);
    if FirstOffer(directories, own, name, i) {
      FirstInFront(directories, own, configured + [install], name, i);
      OfferedOnce(directories, own, name, i);
    } else if NoOffer(directories, own, name) {
      NoneInFront(directories, own, configured + [install], name);
      if FirstOffer(directories, configured, name, i) {
        FirstInFront(directories, configured, [install], name, i);
        OfferedOnce(directories, configured, name, i);
      } else if NoOffer(directories, configured, name) {
        NoneInFront(directories, configured, [install], name);
        OnlyInstalled(directories, install, name);
      }
    }
  }

  lemma OfferedOnce(directories: Directories, paths: seq<string>, name: string, i: nat)
    requires FirstOffer(directories, paths, name, i)
    ensures !NoOffer(directories, paths, name)
  {
  }

  lemma OnlyInstalled(directories: Directories, install: string, name: string)
    ensures FirstMatch(directories, [install], name) ==
            if Offers(directories, install, name) then Some(Script(install, name))
            else if name in BUILT_IN then Some(BUILT_IN[name]) else None
  {
    hide Offers;
    assert [install][1..] == [];
  }

  /** The names that need no script. */
  lemma BuiltInNames(name: string)
    ensures name in BUILT_IN <==>
            name in {"commands", "command-line-command", "memory", "valgrind", "pmd", "lcov"}
    ensures name in BUILT_IN ==> BUILT_IN[name] == BuiltIn(name)
  {
  }

  /** From all sources together: the first match in the documented order is chosen. */
  method ResolvePlugins(directories: Directories, install: string, settings: Tree, appended: seq<string>,
                        resolve: string -> string) returns (plugins: map<string, Found>)
    ensures forall name :: FirstMatch(directories, ByPriority(install, settings, appended, resolve), name) ==
                           if name in plugins then Some(plugins[name]) else None
  {
    var searchPaths := GetAdditionalSearchPaths(install, settings, appended, resolve);
    plugins := DiscoverPlugins(directories, searchPaths);
    assert Reverse(searchPaths) == ByPriority(install, settings, appended, resolve);
  }
}

# Verified model of exec-helper

exec-helper compiles a YAML configuration into commands. A document becomes a
hierarchy of settings nodes. Command names are expanded through that hierarchy
down to plugins. The task template of a plugin is multiplied by the product of its
pattern values, the `{KEY}` holes are filled, and the resulting tasks go in order to
an executor. This project models that pipeline in Dafny and proves what each part
promises to the next. `dafny verify dfyconfig.toml` checks all of it.

What changes in place in the program changes in place here: settings nodes are heap
objects that own their children and are walked by pointer, iterators are objects that
carry their digits, tasks, context stacks and executors are updated by methods. Each
such method is proved against a function on values, and the laws are proved about
those functions.

- **Settings.** `SettingsNode.dfy` (the node objects), `SettingsTree.dfy` (trees as
  values), `SettingsLaws.dfy`, `SettingsPaths.dfy` (frames of `add`, `clear`,
  `replace`, `overwrite` over arbitrary paths), `SettingsEquality.dfy` (`operator==`).
  Lookups take the first match, so the laws say which of them need unique siblings.
- **YAML.** `YamlReader.dfy` (the recursive builder), `YamlWrapper.dfy` (its calls as
  one local merge), `YamlTranslation.dfy` (the direct translation, and exactly which
  documents are built like it).
- **Permutations.** `Permutations.dfy` (product, ranks, carry), `MapPermutator.dfy`
  (the odometer over a map), `PermutationIterator.dfy` (nested iterators, and their
  agreement with the odometer).
- **Patterns.** `Patterns.dfy` (replacing all occurrences of one hole),
  `PatternRendering.dfy` (replacing patterns one after another against filling all
  holes at once: when they agree, and templates on which they always do),
  `PluginUtils.dfy` (combinations and replacement in whole tasks), `PatternChoices.dfy`
  (the combinations, told from the list of patterns alone).
- **Plugins.** `Tasks.dfy`, `Steps.dfy` (steps, the events they emit, and runs that are
  cut short by a failure), `CommandLineCommand.dfy`, `LuaPlugin.dfy`, `LuaConfig.dfy`.
- **Dispatch.** `Variables.dfy` (layering), `Plugins.dfy` (what a list of commands means:
  its in-order flattening), `Flattening.dfy` (its laws), `Executions.dfy` (what a run
  executes: fail-fast, with fuel), `ExecutionLaws.dfy` (lists and loops in parts, which
  settings a plugin gets), `FlatExecutions.dfy` (that this is the flattening, cut
  at its first failure), `ExecutePlugin.dfy` (the interpreter), `AcyclicGraphs.dfy`,
  `CommandGraph.dfy` and `CommandTermination.dfy` (which command graphs can be ranked),
  `CommandEnding.dfy` and `EndingExamples.dfy` (which runs end), `PatternsHandler.dfy`,
  `Commander.dfy`.
- **Application.** `Environments.dfy` (printing and parsing environments),
  `Executors.dfy` (execution modes and exit codes), `PluginDiscovery.dfy`,
  `Application.dfy` (the program from its environment to its exit code).
- **Example.** `ExampleConfiguration.dfy` and `ExampleRun.dfy`: the example configuration
  of the repository, from its document to the tasks that `rebuild` executes.
- **Shared.** `Options.dfy`, `OrderedMaps.dfy` (`std::map` with string keys).

Behaviour that is kept as it is in the code: a deep copy from a node without child
collection changes nothing; no children and an empty child list differ; an empty map
has no permutations, so a made-up key stands in for missing patterns; registration
never fails; a run without commands leaves its contexts on the stacks.

The dispatcher, its plugins and the Lua table read some optional values without asking
whether they are there (`IndexableFor`, `ReadsFound`, `ConfigDefined`). The interpreter is
proved for every run that ends without meeting a missing one; fuel, which is ghost, bounds
the depth of nested commands and does not influence the result (`FuelDoesNotMatter`).
Calls are pairs of a command and the command that led to it. Without Lua plugins a run
ends, and meets no missing value, exactly if every call it gets to finds the values it
reads and does not get to itself again (`EndsIffNoLiveCircle`): a circle behind a failing
command does no harm (`GuardedEnds`), one that is entered does (`CircleDiverges`). If the
same holds for all calls that edges lead to, and exactly then, they can be ranked
(`RankedIffNoCircle`); on ranked worlds the run is the flattening, cut at its first failure
(`ExecutesFlattening`), and the ranks do not influence it (`RanksDoNotMatter`).

Results that limit the code rather than confirm it: for patterns with brace-free keys and
values, sequential replacement is simultaneous exactly if no brace of the subject becomes a
hole only by filling other holes (`SequentialExact`, `NestedHoleCascades`); values with
braces can bring in holes of their own (`ValueCascades`, `FreshSuffices`); a command that
lists itself reads a value that is not there (`SelfReadsMissing`); a
document with a repeated key is built differently from its translation exactly if the
later entry has content (`BuildExact`, `RepeatedKeyFails`); `replace` followed by `get`
returns more than the new values exactly if the path is empty and there were values, or
the next sibling with the same key has children (`ReplaceThenGet`, `ReplaceShadowed`);
`operator==` is transitive, but a node equals itself exactly if later siblings with the
same key equal the first one (`ReflexiveIff`, `DuplicatesBreakReflexivity`), and is
symmetric only where that holds and no path is missing (`SymmetricIff`,
`DuplicatesBreakSymmetry`); environments survive printing and parsing exactly if they are
plain (`RoundTrip`).

## Model

| member | source | states |
|---|---|---|
| `Application.ExecHelper` | src/applications/exec-helper.cpp:404-569 | End to end, for every run that ends: the executed tasks and the exit code of the program are those of the fail-fast execution of the commands, run in the chosen mode from an empty task with the parsed environment; the tasks are those at the positions of the registrations, in order; on ranked worlds the execution is the in-order flattening; without commands nothing is executed and the program fails. |
| `ExecutePlugins.ExecutePlugin.Apply` | src/plugins/src/executePlugin.cpp:128-161 | For every run that ends: the interpreter emits exactly the steps of the execution (all commands in order up to the first failing one), and the result is true iff none fails. |
| `ExecutePlugins.ExecutePlugin.ApplyOne` | src/plugins/src/executePlugin.cpp:137-158 | One command: an unknown one fails without events, otherwise the resolved plugin or command list is executed with the layered variables and the known patterns. |
| `ExecutePlugins.ExecutePlugin.ApplyPlugin` | src/plugins/src/memory.cpp:34-39 | What each kind of plugin does with its variables, told without the case distinction of the specification: which of its settings it runs, with which task and under which combinations; the memory plugin logs task, variables and patterns even when it then reports a failure; without command line or run command nothing happens and it fails. |
| `ExecutePlugins.ExecutePlugin.GetNextStep` | src/plugins/src/executePlugin.cpp:167-198 | Resolution of a name, from the tops of the stacks: the own plugin of that name, else the built-in one, whatever the settings hold; only for other names the values configured for it, and nothing if there are none. |
| `Plugins.PluginNamesWin` | src/plugins/src/executePlugin.cpp:172-186 | What the name of a plugin stands for is the same under all settings. |
| `ExecutePlugins.ExecutePlugin.GetVariables` | src/plugins/src/executePlugin.cpp:145-150 | The settings node that is copied and indexed twice in place ends up as the layered variables of the specification. |
| `ExecutePlugins.ExecutePlugin.GetNextPatterns` | src/plugins/src/executePlugin.cpp:45-60 | The patterns at exactly the positions of the known ones among the keys listed under patterns, in the order of the list. |
| `ExecutePlugins.ExecutePlugin.ApplyValgrind` | src/plugins/src/valgrind.cpp:76-82 | The run command once per combination with the replaced task, stopping at the first failure. |
| `ExecutePlugins.ExecutePlugin.ApplyLcov` | src/plugins/src/lcov.cpp:143-168 | The bracketed run once per combination, stopping at the first failure. |
| `ExecutePlugins.ExecutePlugin.RunBracket` | src/plugins/src/lcov.cpp:144-167 | Within one combination: optional zeroing, the run command with the unreplaced task, capture, optional exclude and report, each only if all before succeeded. |
| `ExecutePlugins.ExecutePlugin.RunMaybe` | src/plugins/src/lcov.cpp:49-53 | If there is a task, it is registered, replaced; this always succeeds. |
| `ExecutePlugins.ExecutePlugin.RunTarget` | src/plugins/src/luaPlugin.cpp:215-241 | `run_target` replaces patterns in commands and task for every combination and stops at the first failing one. |
| `ExecutePlugins.ExecutePlugin.ReplaceCommands` | src/plugins/src/luaPlugin.cpp:223-228 | Every command of a target is replaced, in order. |
| `ExecutePlugins.ExecutePlugin.ApplyLua` | src/plugins/src/luaPlugin.cpp:288-329 | The calls a script makes happen in its order and a failing target does not fail the plugin; an error ends it without registering; otherwise the registered tasks follow. |
| `ExecutePlugins.ExecutePlugin.PushPatterns` | src/plugins/src/executePlugin.cpp:251-254 | Pushing patterns pushes the first-wins map of them. |
| `ExecutePlugins.ExecutePlugin.PopAll` | src/plugins/src/executePlugin.cpp:260-278 | Popping the four stacks removes exactly the last element of each. |
| `FlatExecutions.ExecutesFlattening` | src/plugins/src/executePlugin.cpp:128-161 | Refinement: on a ranked command graph the execution ends (a rank bound is fuel enough) and is the in-order flattening of the commands, each leaf expanded by its combinations, cut at its first failing step. |
| `FlatExecutions.RanFlattening` | src/plugins/src/executePlugin.cpp:128-161 | So a run on a ranked world, whatever its fuel, emitted that flattening up to the first failure and returned whether there was none. |
| `Executions.FuelDoesNotMatter` | src/plugins/src/executePlugin.cpp:128-161 | Any two amounts of fuel that suffice give the same execution. |
| `Executions.AroundEnds` | src/plugins/src/lcov.cpp:143-168 | Whether a bracketed run ends and succeeds is decided by the run command alone. |
| `ExecutionLaws.ThenRuns` | src/plugins/src/executePlugin.cpp:152-160 | The second of two parts is executed exactly if the first one ends and succeeds; its events follow, and both must succeed. |
| `ExecutionLaws.AllInParts` | src/plugins/src/executePlugin.cpp:135-159 | Executing a concatenated list of commands is executing its parts one after the other. |
| `ExecutionLaws.AllOfOne` | src/plugins/src/executePlugin.cpp:135-159 | A list of one command is that command. |
| `ExecutionLaws.CommandConfigures` | src/plugins/src/executePlugin.cpp:145-150 | A plugin that a command lists is executed with its defaults overlaid by the settings of the plugin, and by those for the command that lists it, whatever led to that command. |
| `ExecutionLaws.CommandsAreListed` | src/plugins/src/commandPlugin.cpp:38-44 | The commands plugin executes what the settings list for it, for this command and initial command first, then for the command, and the commands of this run only if neither lists any. |
| `ExecutionLaws.OwnNameIsListed` | src/plugins/src/executePlugin.cpp:102 | Run under its own name, it executes the list that the settings have under that name. |
| `ExecutionLaws.ValgrindInParts` | src/plugins/src/valgrind.cpp:76-82 | Concatenated combinations are executed one part after the other. |
| `ExecutionLaws.ValgrindOfOne` | src/plugins/src/valgrind.cpp:76-82 | Under one combination: the run command with the replaced task. |
| `ExecutionLaws.LcovInParts` | src/plugins/src/lcov.cpp:143-168 | Concatenated combinations are executed one part after the other. |
| `ExecutionLaws.LcovOfOne` | src/plugins/src/lcov.cpp:143-168 | Under one combination, the log gets: the zeroing task if any, what the run command emits with the unreplaced task, and, if that succeeds, the capture, exclude and report tasks in this order. |
| `ExecutionLaws.TargetInParts` | src/plugins/src/luaPlugin.cpp:219-240 | Concatenated combinations are executed one part after the other. |
| `ExecutionLaws.TargetOfOne` | src/plugins/src/luaPlugin.cpp:219-240 | Under one combination: the replaced commands with the replaced task. |
| `ExecutionLaws.ScriptGoesOn` | src/plugins/src/luaPlugin.cpp:215-241 | Whether a target succeeds or fails, its events stay and the script goes on accordingly; the rest of the script alone decides whether the plugin succeeds. |
| `ExampleConfiguration.DocumentIsRead` | src/config/examples/exec-helper-config.example:24-59 | The plugin and command sections of the example configuration, as a document, are read into the expected settings. |
| `ExampleRun.RebuildRuns` | src/config/examples/exec-helper-config.example:24-59 | In every world with these settings, running rebuild hands over exactly six tasks: clean in both modes in the current directory, then build with both compilers in both modes in the directory of the call, all patterns filled in; though the plugin and its settings have the same name. |
| `ExampleRun.RebuildExecutes` | src/config/examples/exec-helper-config.example:24-59 | ... and with keep-going exactly these six are executed, in this order. |
| `CommandEnding.EndsIffNoLiveCircle` | src/plugins/src/executePlugin.cpp:135-159 | Whatever the settings and the task, without Lua plugins: a run ends, and meets no missing value, iff every call it gets to finds the values that are dereferenced and does not get to itself again; a call gets to another one only if all calls before that succeed. |
| `CommandEnding.AllJudged` | src/plugins/src/executePlugin.cpp:152-156 | Without Lua plugins, whether a run ends and succeeds does not depend on the task, only on the calls made in order. |
| `CommandEnding.JudgedOnNoCircle` | src/plugins/src/executePlugin.cpp:135-159 | A call on a circle of live edges has no verdict, whatever the fuel. |
| `CommandEnding.RankGives` | src/plugins/src/executePlugin.cpp:135-159 | Ranks along live edges are fuel enough. |
| `EndingExamples.CircleDiverges` | src/plugins/src/executePlugin.cpp:135-159 | Settings in which a runs b, b runs c and c runs a: the run of a does not end with any fuel. |
| `EndingExamples.GuardedEnds` | src/plugins/src/executePlugin.cpp:139-144 | The same circle behind an unknown command: the run ends there. |
| `EndingExamples.GuardedIsUnranked` | src/plugins/src/executePlugin.cpp:135-159 | ... though no ranking exists for it. |
| `EndingExamples.SelfReadsMissing` | src/plugins/src/executePlugin.cpp:102 | A command that lists itself dereferences a missing value before it runs. |
| `Flattening.RanksDoNotMatter` | src/plugins/src/executePlugin.cpp:128-161 | The flattening does not depend on the ranking that shows termination: any two rankings give the same steps. |
| `Flattening.InParts` | src/plugins/src/executePlugin.cpp:135-159 | A list of commands means its parts one after the other. |
| `Flattening.SucceedsIff` | src/plugins/src/executePlugin.cpp:152-160 | The flattening of a list of commands succeeds iff that of each command does. |
| `Flattening.LuaFails` | src/plugins/src/luaPlugin.cpp:289-319 | A Lua plugin fails iff its script ends with an error, however its targets fare. |
| `CommandTermination.RankedIffNoCircle` | src/plugins/src/executePlugin.cpp:135-159 | Whatever the settings, without Lua plugins: a run of commands can be ranked iff every call that edges lead to finds the values that are dereferenced and does not lead back to itself. |
| `CommandTermination.UniverseClosed` | src/plugins/src/executePlugin.cpp:167-198 | Without Lua plugins, execution never leaves the finitely many calls made of names from the settings, the plugin defaults and the commands of the run. |
| `CommandTermination.WithinIndexed` | src/plugins/src/executePlugin.cpp:94-115 | Layering invents no names: all keys of the variables come from the variables before or from the settings. |
| `CommandTermination.RankedIsAcyclic` | src/plugins/src/executePlugin.cpp:135-159 | For all worlds, Lua plugins included: on a ranked run, every call that edges lead to is defined and on no circle. |
| `CommandTermination.AcyclicIsRanked` | src/plugins/src/executePlugin.cpp:135-159 | The converse for every world in which the reached calls stay among finitely many. |
| `CommandGraphs.CertifiedIffAcyclic` | src/plugins/src/executePlugin.cpp:135-159 | On a finite set of calls that edges do not leave: a ranking exists iff no call leads back to itself and the values that are dereferenced (for indexing, by the command line, by commands, and what the other plugins say they read) are there. |
| `CommandGraphs.ReadyIff` | src/plugins/src/executePlugin.cpp:167-198 | Being executable below a bound is: the read values are there, and every call that is run in turn, through settings, valgrind, lcov, commands or a script, has a lower rank. |
| `AcyclicGraphs.RankedIffAcyclic` | src/plugins/src/executePlugin.cpp:135-159 | On finite graphs, ranks that decrease along every edge exist iff there is no circle. |
| `AcyclicGraphs.RanksExist` | src/plugins/src/executePlugin.cpp:135-159 | Constructs such ranks by repeatedly taking a node with nothing unranked below it. |
| `Steps.RanInOrder` | src/plugins/src/executePlugin.cpp:152-156 | A run that meets the specification: every step happened in order up to the first failing one, and no more. |
| `Steps.TraceIsPrefix` | src/plugins/src/executePlugin.cpp:152-156 | The events of steps are those of the longest prefix without a failure. |
| `Steps.TraceAppend` | src/plugins/src/executePlugin.cpp:152-160 | A failure hides everything that was to follow, and only that. |
| `Steps.SettledRuns` | src/plugins/src/luaPlugin.cpp:233-237 | Steps cut at their failure always succeed and emit the same events. |
| `Steps.EventLog.RegisterTask` | src/plugins/src/plugin.cpp:27-30 | Registration hands over the task as it is and always succeeds. |
| `Variables.IndexNode` | src/plugins/src/executePlugin.cpp:94-115 | In place: replace the last key by the values at the path, then copy-assign every child found there. |
| `Variables.Layering` | src/plugins/src/executePlugin.cpp:94-126 | For every key but the two indexed ones and for all trees: the entry for command and initial command if it has a child collection, else that of the command if it has one, else the plugin default. |
| `Variables.OwnLayer` | src/plugins/src/executePlugin.cpp:94-115 | For the last key of an indexed path: a setting of that name below the path if it has a child collection, else the values at the path, after the keys that shadow them in the variables before. |
| `Variables.OwnKeys` | src/plugins/src/executePlugin.cpp:94-126 | What both layers show at the two indexed keys themselves, for all trees. |
| `Variables.EverySetting` | src/plugins/src/executePlugin.cpp:94-126 | For every key, indexed or not, if no two defaults have the same key: what the settings say for this command and initial command, else what they say for the command, else the default; the settings say the values of a setting of that name, or the list at the path if that is its last key. |
| `Variables.LayeredGet` | src/plugins/src/executePlugin.cpp:94-126 | The same for everything that is read below such a key. |
| `Variables.DefaultStays` | src/config/src/settingsNode.cpp:315-318 | A default with values can be overridden but never loses its child collection. |
| `Plugins.CommandLineIsThere` | src/plugins/src/commandLineCommand.cpp:63 | Under any settings, unless the command is itself called so, the command line that is dereferenced exists. |
| `Commanders.Run` | src/commander/src/commander.cpp:48-75 | Four contexts are pushed, the commands run from an empty task, and all four stacks are restored; without commands it returns false and leaves its contexts behind. |
| `Commanders.Predefined` | src/commander/src/commander.cpp:39-43 | The predefined working directory pattern is known, and a configured one with its key wins. |
| `PatternsHandlers.FirstWins` | src/config/src/patternsHandler.cpp:15-19 | A key is known iff some pattern has it, and stands for the first such pattern. |
| `PatternsHandlers.PatternsHandler.constructor` | src/config/src/patternsHandler.cpp:15-19 | The loop of `emplace` builds that map. |
| `SettingsNodes.SettingsNode.AddAt` | src/config/src/settingsNode.cpp:182-194 | In-place walk and append equals `add` on the tree value, for all trees and paths, changing only nodes of this hierarchy. |
| `SettingsNodes.SettingsNode.Walk` | src/config/src/settingsNode.cpp:184-192 | The pointer walk that creates missing nodes keeps the hierarchy apart in memory and ends at the node of the path. |
| `SettingsNodes.SettingsNode.AppendAll` | src/config/src/settingsNode.cpp:201-210 | Appending values to a node; a node without collection gets one even for no values. |
| `SettingsNodes.SettingsNode.Contains` | src/config/src/settingsNode.cpp:130-140 | The walk decides containment in the tree value. |
| `SettingsNodes.SettingsNode.Get` | src/config/include/config/settingsNode.h:125-135 | The values at a path: none if the path is missing or has no child collection. |
| `SettingsNodes.SettingsNode.Values` | src/config/src/settingsNode.cpp:244-254 | The keys of the children in order, none without a collection. |
| `SettingsNodes.SettingsNode.Clear` | src/config/src/settingsNode.cpp:221-242 | Erases the first node found along the path; refuses only the empty path. |
| `SettingsNodes.SettingsNode.Replace` | src/config/include/config/settingsNode.h:177-183 | Clear if contained, then add. |
| `SettingsNodes.SettingsNode.DeepCopy` | src/config/src/settingsNode.cpp:315-324 | Replaces the children by copies of fresh nodes; a source without collection changes nothing. |
| `SettingsNodes.SettingsNode.Copy` | src/config/src/settingsNode.cpp:43-46 | The copy constructor: an equal hierarchy of fresh nodes. |
| `SettingsNodes.SettingsNode.Assign` | src/config/src/settingsNode.cpp:55-62 | Find or create the child, then copy-assign to it. |
| `SettingsNodes.SettingsNode.Overwrite` | src/config/src/settingsNode.cpp:263-275 | Every child of the source is assigned, in order. |
| `SettingsNodes.SettingsNode.Equals` | src/config/src/settingsNode.cpp:69-89 | The recursive comparison over two hierarchies decides `Equal` of their trees. |
| `SettingsLaws.AddFrame` | src/config/src/settingsNode.cpp:182-210 | Values at every path after `add`, for all trees: appended at the path, each proper prefix gains at most the missing key at its end, all else unchanged. |
| `SettingsLaws.AddContains` | src/config/src/settingsNode.cpp:182-194 | `add` creates exactly the nodes of its path and of its values; no path is lost. |
| `SettingsLaws.AddUnique` | src/config/include/config/settingsNode.h:193-201 | Sibling uniqueness is kept iff old and new values at the path are distinct. |
| `SettingsLaws.ClearContains` | src/config/src/settingsNode.cpp:221-242 | For all trees: clearing removes exactly the path and what is below, and the next sibling of the same key shows there instead, if there is one. |
| `SettingsLaws.ClearFrame` | src/config/src/settingsNode.cpp:221-242 | For all trees: values at every path after `clear`; the parent loses one key, below the path what the next sibling shows, all else unchanged. |
| `SettingsLaws.ReplaceThenGet` | src/config/include/config/settingsNode.h:176-183 | For all trees and paths: `replace` then `get` returns the keys below the next sibling of the same last key (for the empty path: the values that were there), then the new values; so exactly the new ones iff there are no such keys. With unique siblings and a non-empty path there are none. |
| `SettingsLaws.ClearShows` | src/config/src/settingsNode.cpp:230-240 | What a path shows once its first node is erased, read off the tree before. |
| `SettingsLaws.ReplaceShadowed` | src/config/include/config/settingsNode.h:176-183 | Two trees on which old values stay: a duplicate sibling with children, and the empty path on a tree with unique siblings. |
| `SettingsLaws.ReplaceFrame` | src/config/include/config/settingsNode.h:176-183 | For all trees: values at every path after `replace`; everything off the path stays, and the key moves last unless a next sibling of that key takes its place. |
| `SettingsLaws.UniqueReplaceFrame` | src/config/include/config/settingsNode.h:176-183 | With unique siblings: exactly the new values, nothing below them, the key last in its parent, all else unchanged. |
| `SettingsLaws.ReplaceUnique` | src/config/include/config/settingsNode.h:176-183 | Uniqueness is kept iff the new values are distinct. |
| `SettingsLaws.AssignLaw` | src/config/src/settingsNode.cpp:96-109 | After `node[key] = other`: that child is the deep copy onto the old one, all others are unchanged. |
| `SettingsLaws.OverwriteLaw` | src/config/src/settingsNode.cpp:263-275 | After `overwrite`: a child keeps old content only where the source has none to give. |
| `SettingsEquality.EqualIffSameMeaning` | src/config/src/settingsNode.cpp:69-89 | With unique siblings, `==` holds iff both trees mean the same unordered nested map, absent and empty kept apart. |
| `SettingsEquality.EqualIsEquivalence` | src/config/src/settingsNode.cpp:69-89 | `==` is reflexive, symmetric and transitive on trees with unique siblings. |
| `SettingsEquality.ReflexiveIff` | src/config/src/settingsNode.cpp:69-89 | For all trees: a node equals itself iff, wherever a path leads, every later sibling with the same key equals the first one. |
| `SettingsEquality.EqualTransitive` | src/config/src/settingsNode.cpp:69-89 | `==` is transitive on all trees, duplicate siblings included. |
| `SettingsEquality.SymmetricIff` | src/config/src/settingsNode.cpp:69-89 | For all trees: an equality can be turned around iff the right side equals itself in this sense and has no path that the left side lacks. |
| `SettingsEquality.DuplicatesBreakReflexivity` | src/config/src/settingsNode.cpp:80-87 | A tree with two different siblings of the same key that is not equal to itself. |
| `SettingsEquality.DuplicatesBreakSymmetry` | src/config/src/settingsNode.cpp:77-87 | A tree with two alike siblings that equals itself, and equals another tree one way only. |
| `SettingsEquality.CopyIsEqual` | src/config/src/settingsNode.cpp:43-46 | A copy-constructed tree is the same tree; `==` says so iff later duplicates equal the first ones, as with unique siblings. |
| `SettingsPaths.AddIsPut` | src/config/src/settingsNode.cpp:182-194 | `add` at an existing path changes that node only. |
| `SettingsTree.ClearIsPut` | src/config/src/settingsNode.cpp:221-242 | `clear` of an existing path changes its parent only, by one erased child. |
| `YamlReader.GetTree` | src/yaml/src/yamlWrapper.cpp:69-87 | A document without entries or items is refused and changes nothing; a map with an entry or a sequence with an item is built in place. |
| `YamlReader.GetSubTree` | src/yaml/src/yamlWrapper.cpp:89-146 | The recursive loops of root-to-leaf `add` calls equal the specification, including the state left behind when a key is rejected half-way; null changes nothing, a scalar adds its text. |
| `YamlWrapper.BuildIsMerge` | src/yaml/src/yamlWrapper.cpp:89-146 | All those calls from the root change one node, by a local merge, and nothing else. |
| `YamlTranslation.MergeAdds` | src/yaml/src/yamlWrapper.cpp:89-146 | For every document: as many nodes are added as the structural translation has. |
| `YamlTranslation.MergeExact` | src/yaml/src/yamlWrapper.cpp:89-146 | For every document and existing node: the calls append exactly the translation iff the document is faithful. |
| `YamlTranslation.BuildExact` | src/yaml/src/yamlWrapper.cpp:83-87 | From an empty node: the settings are the direct translation iff no entry with content follows a sibling of the same key; success is decided as in the translation. |
| `YamlTranslation.DistinctIsFaithful` | src/yaml/src/yamlWrapper.cpp:114-142 | Documents with distinct sibling keys, after sequences merged into their parent, are faithful. |
| `YamlTranslation.RepeatedKeyFails` | src/yaml/src/yamlWrapper.cpp:125-130 | The smallest document that is not: a repeated key whose second entry has content. |
| `YamlTranslation.BuildKeepsPaths` | src/yaml/src/yamlWrapper.cpp:89-146 | No path that existed before is lost, for any document. |
| `OrderedMaps.LessExact` | src/core/include/core/mapPermutator.h:63-83 | The key order is lexicographic: the first difference decides, a proper prefix comes first. |
| `MapPermutators.Run` | src/core/include/core/mapPermutator.h:136-153 | From `begin()` until equal to `end()`: every element of the product, in order, once; nothing for an empty map or collection. |
| `MapPermutators.MapIterator.constructor` | src/core/include/core/mapPermutator.h:43-56 | Starts at the first element, or at the end if asked to or if any collection is empty. |
| `MapPermutators.MapIterator.Next` | src/core/include/core/mapPermutator.h:63-83 | The carry loop moves exactly one element on, and stays at the end. |
| `MapPermutators.MapIterator.EqualsEnd` | src/core/include/core/mapPermutator.h:87-99 | Comparison with the end iterator tells exactly whether all elements have been passed. |
| `MapPermutators.MapIterator.Deref` | src/core/include/core/mapPermutator.h:112-119 | Gives the element at the current position. |
| `Permutations.CarryAdvances` | src/core/include/core/mapPermutator.h:67-82 | Adding one with carry goes to the next rank, or wraps from the last to zero. |
| `Permutations.RankOrder` | src/core/include/core/mapPermutator.h:63-83 | Ranks order index vectors lexicographically, last key fastest, so no element comes twice. |
| `Permutations.Unrank` | src/core/include/core/mapPermutator.h:63-83 | Every position is the rank of an index vector, so no element is missing. |
| `Permutations.ProductAt` | src/core/include/core/mapPermutator.h:112-119 | The element at a rank is what the indexes pick. |
| `Permutations.ProductSize` | src/core/include/core/mapPermutator.h:63-83 | The number of elements is the product of the sizes. |
| `PermutationIterators.PermutationIterator.constructor` | src/core/include/core/permutationIterator.h:45-58 | Nested iterators over all collections, at the end if any of them is empty. |
| `PermutationIterators.PermutationIterator.Next` | src/core/include/core/permutationIterator.h:65-78 | The nested increment moves exactly one element on. |
| `PermutationIterators.PermutationIterator.Restart` | src/core/include/core/permutationIterator.h:147-150 | Back to the first element, recursively. |
| `PermutationIterators.PermutationIterator.Deref` | src/core/include/core/permutationIterator.h:125-134 | Gives the element of the product at the current position. |
| `PermutationIterators.RunNested` | src/core/include/core/permutationIterator.h:65-101 | A complete run visits what nested loops visit, in their order. |
| `PermutationIterators.Agree` | src/core/include/core/permutationIterator.h:65-78 | Complete runs of both iterators on the collections of a map in key order give the enumeration and the product, which agree element by element if there is a collection. |
| `Patterns.ReplaceOne` | src/core/src/patterns.cpp:12-16 | One replacement removes exactly the braces of its holes and loses no hole of another key. |
| `Patterns.OneMore` | src/core/src/patterns.cpp:12-16 | Filling the holes of some patterns, then replacing one more, is filling all at once if no new hole came up. |
| `PatternRendering.SequentialExact` | src/plugins/src/pluginUtils.cpp:95-104 | For every string and brace-free patterns in any order: replacing one after another equals filling all holes at once iff no brace of the subject, itself no hole of an earlier pattern or of this one, is followed by text that spells the key of a pattern once the holes of earlier patterns in it are filled. |
| `PatternRendering.FreshSuffices` | src/plugins/src/pluginUtils.cpp:95-104 | For brace-free keys and any values: if filling the earlier holes never brings up one of a later pattern, replacing one after another is filling all at once. |
| `PatternRendering.ValueCascades` | src/plugins/src/pluginUtils.cpp:95-104 | With A to "{B}" and B to "C", "{A}" becomes "C", not "{B}": a value with braces brings in a hole, though no brace of the subject does. |
| `PatternRendering.ValueHidden` | src/plugins/src/pluginUtils.cpp:95-104 | ... which need not show: with A and B both to "{B}" the results agree all the same. |
| `PatternRendering.HolesAfter` | src/core/src/patterns.cpp:12-16 | Filling the holes of some patterns keeps the holes of another key and adds exactly one for each such brace. |
| `PatternRendering.NestedHoleCascades` | src/plugins/src/pluginUtils.cpp:95-104 | With A to "B" and B to "C", "{{A}}" becomes "C", not "{B}". |
| `PatternRendering.TemplatesDoNotCascade` | src/plugins/src/pluginUtils.cpp:95-104 | In a printed template no such hole comes up. |
| `PatternRendering.TemplateRenders` | src/plugins/src/pluginUtils.cpp:95-104 | On every printed template, replacing one after another is rendering. |
| `PatternRendering.OrderDoesNotMatter` | src/plugins/src/pluginUtils.cpp:95-104 | ... independent of the order of the patterns. |
| `PatternRendering.NoHoleLeft` | src/plugins/src/pluginUtils.cpp:95-104 | ... leaving no hole of a replaced pattern. |
| `PatternRendering.ReplacingIsIdempotent` | src/plugins/src/pluginUtils.cpp:95-104 | ... and doing it again changes nothing. |
| `PluginUtils.MakePatternPermutator` | src/plugins/src/pluginUtils.cpp:45-56 | The map has exactly the keys of the patterns, each with the values of the first pattern that has it; a made-up key and value without patterns. |
| `PatternChoices.ChoicesInOrder` | src/plugins/src/pluginUtils.cpp:45-56 | From the list of patterns alone: the combinations are those of all choices of one value of the first pattern for each key, each choice exactly once and in lexicographic order; each combination has exactly the keys of the patterns, with the chosen values. |
| `PatternChoices.HowMany` | src/plugins/src/pluginUtils.cpp:45-56 | Their number is the product of the value counts of the patterns that are the first with their key. |
| `PatternChoices.NoPatterns` | src/plugins/src/pluginUtils.cpp:48-51 | Without patterns there is one combination, with the made-up key and value. |
| `PatternChoices.PlainCombinations` | src/plugins/src/pluginUtils.cpp:45-56 | Brace-free patterns make brace-free combinations. |
| `PluginUtils.CombinationCount` | src/plugins/src/pluginUtils.cpp:45-56 | One combination without patterns, otherwise the product of the value counts. |
| `PluginUtils.ReplaceElement` | src/plugins/src/pluginUtils.cpp:95-104 | The loop replaces the patterns one after another in key order; with brace-free patterns the result has all holes filled at once iff nothing cascades. |
| `PluginUtils.ReplacedExactly` | src/plugins/src/pluginUtils.cpp:95-104 | For every string and brace-free combination: replacing it is filling all its holes at once iff no brace becomes a hole only by filling others. |
| `PluginUtils.ReplacedRenders` | src/plugins/src/pluginUtils.cpp:95-104 | A printed template is rendered. |
| `PluginUtils.ReplacePatternsInEnvironment` | src/plugins/src/pluginUtils.cpp:58-75 | Keys and values are replaced in the nested loops and emplaced. |
| `PluginUtils.ReplacePatternCombinations` | src/plugins/src/pluginUtils.cpp:77-93 | Environment, directory and arguments are replaced in a new task. |
| `PluginUtils.ReplacedTask` | src/plugins/src/pluginUtils.cpp:77-93 | Argument number and order are kept; PWD is the absolute form of the own replaced directory; every other variable comes from the first key, in key order, that is replaced by its name; with brace-free patterns, arguments, directory, names and values have all holes filled at once, each exactly if nothing cascades in it. |
| `PluginUtils.RenderedTask` | src/plugins/src/pluginUtils.cpp:77-93 | A task that is written as templates becomes the rendered task, in arguments, directory, names and values; of names that render alike the first one counts, and PWD is that of the rendered directory. |
| `PluginUtils.ReplacedEnv` | src/plugins/src/pluginUtils.cpp:64-73 | Which key of the environment a replaced name comes from. |
| `Tasks.Task.constructor` | src/core/src/task.cpp:47-55 | A new task has the given arguments, environment and directory, and the absolute form of the directory as PWD. |
| `Tasks.Task.SetWorkingDirectory` | src/core/src/task.cpp:67-74 | Sets the directory and its absolute form as PWD, and nothing else. |
| `Tasks.Task.SetEnvironment` | src/core/src/task.cpp:102-106 | Replaces the environment, puts PWD back for the directory, and changes nothing else. |
| `Tasks.Task.AppendAllToEnvironment` | src/core/src/task.cpp:122-128 | Appends all values, each overwriting: the environment is the old one overlaid by the new one. |
| `Tasks.AddedEnvironment` | src/core/src/task.cpp:114-128 | Afterwards the added values win and everything else stays. |
| `CommandLineCommands.Apply` | src/plugins/src/commandLineCommand.cpp:53-100 | Fails on an empty command line, else registers all tasks combination by combination. |
| `CommandLineCommands.MakeTasks` | src/plugins/src/commandLineCommand.cpp:53-89 | From the settings alone: no task for an empty command line, one for a plain one, one per key if the first key has values; the arguments of each, a configured directory with its PWD, which overrides a configured PWD, and the configured environment on top of that of the task. |
| `CommandLineCommands.TasksAre` | src/plugins/src/commandLineCommand.cpp:56-89 | Arguments, directory and environment of each of these tasks. |
| `CommandLineCommands.Registrations` | src/plugins/src/commandLineCommand.cpp:91-98 | The task registered at each position: which task, which combination, its replaced arguments, directory and PWD; and how many there are; with brace-free patterns, arguments and directory have all holes filled at once exactly where nothing cascades. |
| `CommandLineCommands.RegisterByCombination` | src/plugins/src/commandLineCommand.cpp:91-98 | The loop nest registers every task under every combination, combination-major. |
| `CommandLineCommands.GetEnvironment` | src/plugins/src/pluginUtils.cpp:106-122 | The variables are exactly those listed under environment that have a value there, with the last one. |
| `CommandLineCommands.EnvironmentOf` | src/plugins/src/pluginUtils.cpp:106-122 | The environment has exactly the listed variables that have a value, with it. |
| `LuaPlugins.PrepareTask` | src/plugins/src/luaPlugin.cpp:145-146 | The task of a script keeps its arguments; a configured directory sets PWD first, and the configured environment, PWD included, goes on top. |
| `LuaPlugins.RegisterByTask` | src/plugins/src/luaPlugin.cpp:321-329 | The loop nest registers every task under every combination, task-major. |
| `LuaPlugins.SameRegistrations` | src/plugins/src/luaPlugin.cpp:321-328 | Both loop nests register the same multiset of tasks, of size tasks times the product of the pattern sizes, and never fail. |
| `Steps.LoopOrders` | src/plugins/src/commandLineCommand.cpp:91-98 | Combination-major and task-major order give the same multiset. |
| `Steps.LoopSize` | src/plugins/src/luaPlugin.cpp:321-328 | ... once for each task and combination. |
| `Steps.ByCombinationAt` | src/plugins/src/commandLineCommand.cpp:91-98 | Position of a task under a combination, combination-major. |
| `Steps.ByTaskAt` | src/plugins/src/luaPlugin.cpp:321-328 | Position of a task under a combination, task-major. |
| `LuaConfig.GetTable` | src/plugins/src/luaPlugin.cpp:55-89 | A setting as a table: by value if its first child has children, else by index. |
| `LuaConfig.List` | src/plugins/src/luaPlugin.cpp:264-284 | Reads a table by index from zero and numbers from one; a missing index is an error. |
| `LuaConfig.ToStringInjective` | src/plugins/src/luaPlugin.cpp:85 | Decimal notation is injective. |
| `LuaConfig.ToStringDenotes` | src/plugins/src/luaPlugin.cpp:85 | Decimal notation reads back as the number and has no leading zero. |
| `LuaConfig.ListOfSetting` | src/plugins/src/luaPlugin.cpp:55-89 | For every setting whose first child is a leaf, or that has none: table and list give back all values in order, numbered from one. |
| `LuaConfig.ListOfKeyed` | src/plugins/src/luaPlugin.cpp:75-82 | For a setting whose first child has values of its own: the table has one entry per different key, and list is an error unless the keys include 0 to one less than their number; then it gives the value of each. |
| `LuaConfig.ListSetting` | src/plugins/src/luaPlugin.cpp:264-284 | The composition of both loops does. |
| `Environments.Envp.constructor` | src/config/src/envp.cpp:21-34 | Prints one C string per variable, in key order. |
| `Environments.Envp.DeepCopy` | src/config/src/envp.cpp:78-91 | A deep copy denotes the same strings. |
| `Environments.ToEnvCollection` | src/applications/exec-helper.cpp:142-159 | Parses the strings up to the null pointer: of strings with the same key the first one counts, and each is key, first delimiter and value, or both key and value if it has no delimiter. |
| `Environments.SplitExact` | src/applications/exec-helper.cpp:148-155 | There is one way to read a string, and the wrap-around of a missing delimiter makes it its own key and value. |
| `Environments.RoundTrip` | src/applications/exec-helper.cpp:142-159 | Parsing what was printed gives the same environment iff no key contains the delimiter and neither keys nor values contain a NUL. |
| `Environments.Pass` | src/config/src/envp.cpp:36-39 | Printing, copying deeply and parsing gives the parse of the printed strings, which is the environment iff it is plain. |
| `Environments.NotPlain` | src/applications/exec-helper.cpp:148-155 | A key with a delimiter and a value with a NUL do not come back. |
| `Executors.Executor.Execute` | src/core/src/immediateExecutor.cpp:20-26 | Runs the task and calls back on a non-zero code; a dry run only reports. |
| `Executors.Executor.Callback` | src/applications/exec-helper.cpp:537-547 | Keep-going remembers the code, the default mode exits with it. |
| `Executors.RunProgram` | src/applications/exec-helper.cpp:533-568 | Executed tasks and exit code for every sequence of outcomes: default stops after the first failure with its code; keep-going executes all and exits with the last failing code, or 0; a failed run exits with 1. The tasks are those at exactly the positions of the registrations among the events, in order. |
| `Executors.TasksAreUnique` | src/plugins/src/plugin.cpp:27-30 | The registrations of a log determine one list of tasks. |
| `Executors.ModesCompared` | src/applications/exec-helper.cpp:533-568 | The default executes the shortest prefix of the keep-going trace that ends in a failure; success is reported by both or neither. |
| `PluginDiscovery.AddAdditionalSearchPaths` | src/applications/exec-helper.cpp:170-184 | Appends the resolved paths in reverse. |
| `PluginDiscovery.GetAdditionalSearchPaths` | src/applications/exec-helper.cpp:196-209 | The search paths are the reversed order of priority: command line, settings, installation. |
| `PluginDiscovery.DiscoverIn` | src/applications/exec-helper.cpp:246-261 | The regular files of a directory with the extension .lua overwrite what was known, nothing else changes. |
| `PluginDiscovery.DiscoverPlugins` | src/applications/exec-helper.cpp:227-271 | Scanning and overwriting selects, for every name, the first match in reversed scan order, else the built-in plugin. |
| `PluginDiscovery.ResolvePlugins` | src/applications/exec-helper.cpp:196-271 | Altogether: the first match in command line, settings, installation, built-in order, for every name. |
| `PluginDiscovery.Priorities` | src/applications/exec-helper.cpp:196-271 | The priorities, source by source: the first path of the command line that offers the plugin; else the first one of the settings; else the installation; else what is built in. |
| `PluginDiscovery.BuiltInNames` | src/applications/exec-helper.cpp:228-238 | Exactly six names need no script. |

## Left out

- SettingsNodes.SettingsNode.DeepCopy: the source, like other `SettingsNode` arguments that the program takes by const reference, is passed as a tree value; aliasing between a source and the node it is copied into is not modelled.
- CommandGraphs.CertifiedIffAcyclic: a finite set of calls is given, which `RankedIffNoCircle` removes for worlds without Lua plugins; what a script runs may depend on the task it gets, so the edges of a Lua plugin range over all tasks and need not stay among finitely many names.
- CommandTermination.RankedIffNoCircle: worlds with Lua plugins, for the same reason; `RankedIsAcyclic` and `AcyclicIsRanked` include them.
- CommandEnding.EndsIffNoLiveCircle: worlds with Lua plugins, where what a call runs and whether it succeeds depend on the task; the interpreter itself is proved for them too.
- PatternRendering.SequentialExact: keys or values with braces; `FreshSuffices` gives one half for values with braces, and `ValueHidden` shows that the other half is false for them. Keys with braces are not modelled as holes.
- MapPermutators.MapIterator.Next: does not model the 32-bit width of the indexes; a collection of 2^32 values would wrap around.
- PermutationIterators.PermutationIterator.Next: does not model collections of different element types; all collections share one.
- CommandLineCommands.RegisterByCombination: walks the sequence of elements that the permutator's iterators visit (`VisitCombinations`) instead of interleaving each iterator step with the loop body; the other loops over combinations do the same.
- ExecutePlugins.ExecutePlugin.ApplyLua: a script is given as a finite tree of its calls, so scripts that run forever or keep state between calls are not modelled; neither is the Lua binding itself.
- Executors.Executor.Execute: a shell that throws (a binary that is not found) ends the program inside a `noexcept` function; only shells that return a code are modelled.
- Executors.RunProgram: the same; and executes the events after the dispatch that emitted them instead of during it; dispatch never looks at return codes, and after an exit nothing is left to observe.
- PluginDiscovery.DiscoverIn: an error in the middle of reading a directory is not modelled, only a directory that cannot be read at all.
- Argument lists and default settings of the pmd, lcov and valgrind plugins: straight-line appends, given as parameters of the plugin; their loops and nested runs are modelled.
- The number of jobs and verbosity defaults of Lua plugins: given as a parameter.
- Move construction, move assignment, `swap` and printing of settings nodes, and equality between two permutation iterators neither of which is an end.
- Paths and the file system: absolute paths, the current directory, relative path resolution and directory contents are parameters.
- The shell: which code a task ends with is a parameter; process creation, word expansion and search in PATH are not modelled.
- yaml-cpp: documents start as parsed nodes; only the conversion of map keys can fail.
- ExampleConfiguration.DocumentIsRead: the `commands`, `patterns` and `additional-search-paths` sections of the example; its patterns are given.
- Variables.EverySetting: defaults with repeated keys, which no plugin has; `OwnKeys` and `Layering` cover them.
- Application.ExecHelper: does not model reading the configuration file and the command line; settings, patterns, plugins and options are given.
- Command line options, logging, user feedback, help and version output, log levels, conversion of settings values to booleans and numbers: no behaviour of the pipeline depends on more than their result.

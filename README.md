# evasion director — a Dafny model of its core

The evasion director is a Python 2 supervisor. It reads one configuration file. From
the file it builds the configuration records: a director, a message broker, an
agency of hardware agents, a web admin and any number of controllers. It imports
a module for each record, then drives every module through the controller
lifecycle (`setUp`, `start`, `isStarted`, `stop`, `isStopped`, `tearDown`). It also
answers control signals sent over a small STOMP message broker.

This project models that core in Dafny and proves properties of the model. One
Dafny module stands for each part of the source:

| Dafny module | source | form |
|---|---|---|
| `Wrappers` | exceptions of the whole core | `Option`, `Result`, the error classes |
| `Lifecycle` | `controllers/base.py`, `config.import_module` | a loaded module as a value: its behaviour, its started flag, a log of every call made on it, and an oracle naming the calls that raise |
| `ConfigObjs` | `lib/evasion/director/configobjs.py` | records as values; `Entry` is the record object the store, the managers and the signal handlers share and update in place |
| `LegacyConfigObjs` | `lib/director/configobjs.py` | the older record classes, as values |
| `Recovery` | `recover_objects` in `config.py` | the per-section pass as a function, and a loop method proved equal to it |
| `Config` | `config.py` | the process-wide store as a class (`ConfigState`); loading, reloading and export |
| `AgencyNodes` | `lib/evasion/agency/agency.py` | the node and alias id allocator as a class (`Nodes`) over a counter state |
| `AgentManager` | `lib/evasion/agency/manager.py` | the agent manager as a class over its alias index |
| `DirectorManager` | `lib/evasion/director/manager.py` | the director's controller list, name lookup and maintenance loop |
| `Signals` | `lib/evasion/director/signals.py` | the signal handlers, as methods that return the reply |
| `Morbid` | `lib/evasion/director/morbid.py` | the STOMP queues, topics and factory as classes; frames sent go to an outbox |
| `AgencyCtrl`, `BaseController` | `controllers/agencyctrl.py`, `controllers/base.py` | the two controllers of the core |
| `Text`, `Sorting`, `Sweeps` | shared helpers | `int()` and `"%d"`, `str.lower()`, Python 2's `list.sort()` on `[order, obj]` pairs, and the "loop until the first error" pattern |

Loops in the source are Dafny methods with loop invariants. Each such method is proved
against a specification function, and the properties the source promises are lemmas
about those functions.

## Model

| member | source | states |
|---|---|---|
| Lifecycle.Invoke | lib/evasion/director/controllers/base.py:55-137 | Every lifecycle call is logged. A call the module raises on raises that error and leaves the started flag alone. Otherwise `isStarted` answers the module's own report, and `start` and `stop` turn a tracking module's report on and off. No other call changes the started flag. |
| Lifecycle.Import | lib/evasion/director/config.py:449-474 | `import_module` raises ValueError for an empty path, which `__import__` refuses, and ImportError exactly for any other path the registry lacks. It gives None exactly when the module has no `Agent`/`Controller` class. Otherwise it gives a fresh instance with an empty call log. |
| Text.ParseInt | lib/evasion/director/config.py:324-327 | `int()` accepts exactly an optional sign followed by at least one digit; anything else is refused. |
| Text.ParseFormatted | lib/evasion/agency/agency.py:83-89 | For every integer, parsing its `"%d"` text gives the integer back. |
| Text.FormattedInjective | lib/evasion/agency/agency.py:83-89 | Different integers format to different `"%d"` strings. |
| Text.Lower | lib/evasion/director/signals.py:315 | `lower()` keeps the length and leaves no upper-case ASCII letter. Each upper-case letter becomes the same letter in lower case, and every other character is unchanged. |
| Sorting.SortSorted | lib/evasion/director/config.py:409 | Sorting `[order, obj]` pairs leaves them ordered by order, with a missing order (None) first as in Python 2. |
| Sorting.SortPermutes | lib/evasion/director/config.py:409 | The sorted list has the same elements, with the same multiplicities, as the list sorted. |
| Sorting.SortKeeps | lib/evasion/director/config.py:640-644 | An object is in the sorted list exactly when it was in the list sorted. |
| Sweeps.CallOn | lib/evasion/director/manager.py:143-155 | A record without a module is skipped with no error. A loaded module gets the call logged once, and the call fails exactly when the module raises on it. |
| ConfigObjs.Fresh | lib/evasion/director/configobjs.py:49-64 | A newly built record is named after its type, is enabled and has no config section. It has its class's default order, which is non-negative for director, broker, agency and web admin and absent for agents and controllers. |
| ConfigObjs.FirstFalsy | lib/evasion/director/configobjs.py:96-98 | Gives the first non-empty required field name whose value is missing or false; every field before it is true. Gives none exactly when every required field is true. |
| ConfigObjs.Validate | lib/evasion/director/configobjs.py:89-98 | `validate` passes exactly when every required field is true. A SectionError names a required field whose value is missing or false. |
| ConfigObjs.ConfigData | lib/evasion/director/configobjs.py:78-86 | A record without a section exports `config` as None; a section exports as a dict with the same keys. |
| ConfigObjs.Entry.constructor | lib/evasion/director/configobjs.py:49-64 | A new record object is stopped by request only when its section set a true `wasStopped` key, which replaces the attribute as any key does. Only a Director carries a module: the stub that stands in for a controller. Only an agency holds agent objects. Node and alias come from the record. |
| ConfigObjs.BaseExport | lib/evasion/director/configobjs.py:78-86 | `Base.export` has exactly the keys type, name, order, disabled and config. |
| ConfigObjs.ExtraExport | lib/evasion/director/configobjs.py:189-210 | The keys each class's `export` adds to the base five. |
| ConfigObjs.OwnExport | lib/evasion/director/configobjs.py:78-86 | A record's export has the base keys plus its class's keys. The base keys carry the base values. The module and the stopped flag never appear. |
| ConfigObjs.KeysApart | lib/evasion/director/configobjs.py:189-210 | No class adds a key that clashes with a base key or names the module or the stopped flag. |
| ConfigObjs.AgentExports | lib/evasion/director/configobjs.py:304-306 | An agency's `agents` export has one export per agent, in agent order. |
| ConfigObjs.Export | lib/evasion/director/configobjs.py:301-316 | The export is a dict with the base keys and the class's keys, without the module. An agency nests its agents' exports. |
| ConfigObjs.ReservedAlwaysValid | lib/evasion/director/configobjs.py:89-98 | Director, broker, agency and web admin require nothing, so their validation never fails. |
| ConfigObjs.ControllerOrderZeroInvalid | lib/evasion/director/configobjs.py:437-441 | A named controller whose order is 0 fails validation on `order`, because 0 is false. |
| ConfigObjs.AgentValidWithoutAlias | lib/evasion/director/configobjs.py:351-360 | An agent with a name, an agent path and a category is valid whatever its alias. |
| LegacyConfigObjs.Fresh | lib/director/configobjs.py:49-334 | Every older record is built enabled, without a config section. Only the Director carries the stub module, with order 0. Only the Agency has an agent list, and it starts empty. Agents, controllers and containers start with no name and no order. The older web admin starts with order 4, site `webadmin`, host 127.0.0.1 and port 29875. |
| LegacyConfigObjs.FirstFalsy | lib/director/configobjs.py:83-85 | Gives the first non-empty required field name whose value is false, with every earlier one true. Gives none exactly when all are true. |
| LegacyConfigObjs.Validate | lib/director/configobjs.py:76-85 | A container accepts anything (lines 389-391). Any other record passes exactly when its required fields are true; otherwise a SectionError names a false required field. |
| LegacyConfigObjs.FreshUnnamedInvalid | lib/director/configobjs.py:271-281 | A newly built agent or controller has no name, so it fails validation on `name`. |
| Recovery.ReservedKind | lib/evasion/director/config.py:257-263 | Only the four reserved names (director, broker, agency, webadmin) map to a class, each to the class of that name. |
| Recovery.Setup | lib/evasion/director/config.py:320-329 | `setup` raises ValueError exactly when `order` is present and not an integer. Otherwise the section's name, order (through `int()`) and disabled flag replace the defaults, and the section is kept as `config`. |
| Recovery.SetupCopiesKeys | lib/evasion/director/config.py:320-329 | Every other key of the section becomes a string attribute. Attributes the section does not name stay as they were. |
| Recovery.FirstInvalid | lib/evasion/director/config.py:412-419 | No error exactly when every record validates; an error is the validation error of one of the records. |
| Recovery.Recover | lib/evasion/director/config.py:265-421 | Repeated section names are a ConfigError. A success saw a director section. The published list is the pass's records sorted by order. The agency's agents are the agent records sorted by order, or none without an agency section. |
| Recovery.ClassifyFails | lib/evasion/director/config.py:331-392 | `recover` on one section raises exactly when the section yields a record and its order is not an integer; the error is ValueError. |
| Recovery.ClassifyFacts | lib/evasion/director/config.py:331-392 | One section sets the director or agency flag when it is named so. A controller without `order` uses one section number; an agent with a missing or zero order uses one agent number. A top-level section appends one record, an agent section appends one agent, and an unknown section appends nothing. |
| Recovery.TopRecordFacts | lib/evasion/director/config.py:391-392 | A top-level section's record is not an agent, is named after the section and has an order. |
| Recovery.ReservedRecordFacts | lib/evasion/director/config.py:335-356 | A reserved section's record has its class and the section's name. Its config is the section without `name`. Its order is the section's or else the mapped default. |
| Recovery.ControllerRecordFacts | lib/evasion/director/config.py:370-375 | A controller section's record is a Controller named after the section and configured by it. Its order is the section's or else the next section number. |
| Recovery.AgentRecordFacts | lib/evasion/director/config.py:358-364 | An agent section's record is an Agent named after the section. Its order is the section's, or the next agent number when the order is absent or zero. |
| Recovery.FoldCounters | lib/evasion/director/config.py:394-395 | After the pass, the director and agency flags say whether such sections exist. The section counter is 4 plus the controllers without order. The agent counter counts the agents that took a number. |
| Recovery.FoldKinds | lib/evasion/director/config.py:394-395 | Top-level records are never agents and always have an order and a section of their name. Agent records are agents with an order. |
| Recovery.FoldPrefix | lib/evasion/director/config.py:394-395 | The pass over a prefix of the file succeeds when the whole pass does, and builds prefixes of both lists. |
| Recovery.FoldFails | lib/evasion/director/config.py:394-395 | The pass fails exactly when some record-yielding section has a non-numeric order, and then with ValueError. |
| Recovery.TopRecordOf | lib/evasion/director/config.py:391-395 | The record a top-level section yields is among the pass's records. |
| Recovery.AgentRecordOf | lib/evasion/director/config.py:358-364 | An agent section yields an agent of the pass with its name. Its order is the agent count before it when it takes a number. |
| Recovery.FoldOrigins | lib/evasion/director/config.py:331-395 | Every record of the pass comes from a section of the matching class with the same name. |
| Recovery.NoDirectorRejected | lib/evasion/director/config.py:398-399 | Without a director section recovery fails: with the pass's ValueError if a section failed, otherwise with ConfigError. |
| Recovery.RecoveredHasDirector | lib/evasion/director/config.py:398-399 | A successful recovery saw a director section. |
| Recovery.RecoverShape | lib/evasion/director/config.py:402-419 | The published list is sorted by order and is a permutation of the pass's records, each one valid and none an agent. The agents are sorted and are a permutation of the agent records when there is an agency, and empty without one. |
| Recovery.ReservedRecovered | lib/evasion/director/config.py:335-356 | A reserved section ends up in the published list under its class and name. Any `name` key is dropped. Its order is the section's or else director 0, broker 1, agency 2, webadmin 3. |
| Recovery.ControllerRecovered | lib/evasion/director/config.py:370-375 | A controller section ends up in the published list. Without `order` it takes 4, 5, 6 and so on, in file order. |
| Recovery.AgentRecovered | lib/evasion/director/config.py:358-364 | With an agency, an agent section becomes one of its agents. A missing or zero order is replaced by the agent counter, which starts at 0. No top-level record shares its name. |
| Recovery.UnknownSectionDropped | lib/evasion/director/config.py:377-381 | A section that is neither reserved nor an agent or controller leaves no record anywhere. |
| Recovery.RecoverSection | lib/evasion/director/config.py:331-392 | `recover` on one section updates the pass state as the specification function describes. |
| Recovery.RecoverPass | lib/evasion/director/config.py:394-395 | The loop over the sections in file order equals the pass function. |
| Recovery.ValidateAll | lib/evasion/director/config.py:412-419 | The validation loop raises the first validation error of the sorted list, in list order. |
| Recovery.MakeEntries | lib/evasion/director/config.py:402-406 | There is one new record object per sorted record, with no object twice. Each is pristine, and the agency's object holds fresh objects for the agents. |
| Recovery.RecoverObjects | lib/evasion/director/config.py:265-421 | `recover_objects` fails exactly when the recovery function does, with its error. On success it gives fresh, distinct, pristine objects for the published records, and the agency holds the agents. |
| Config.SectionMap | lib/evasion/director/config.py:230-236 | The sections by name: every section of the file is there with its entries, and nothing else. |
| Config.FindLast | lib/evasion/director/config.py:130-145 | `findInstances` keeps the last record of each reserved name: a record of that name, after which no record has it. It gives none when no record has the name. |
| Config.ImportRecord | lib/evasion/director/config.py:439-474 | A record without an import path raises AttributeError (`None.split`). Otherwise the record's import is `import_module` on its agent or controller path. |
| Config.FirstImportFailure | lib/evasion/director/config.py:523-535 | Gives the first loadable record whose import raises, with all earlier loadable ones importing; none exactly when all import. |
| Config.LoadControllers | lib/evasion/director/config.py:502-537 | With failures ignored every loadable record is imported and a failure keeps the old module. Otherwise the first failure propagates, and the records after it keep their modules. |
| Config.AgentLoadableMeans | lib/evasion/director/config.py:493-497 | `load_agents` imports exactly the enabled agents held by an enabled agency of the list. |
| Config.FirstAgentFailureMeaning | lib/evasion/director/config.py:493-497 | No failure exactly when every enabled agent imports. A failure is the import error of an enabled agent of the list. |
| Config.ImportAgents | lib/evasion/director/config.py:495-497 | The inner loop raises the first import failure. On success each enabled agent holds its new module and the others keep theirs. On a failure only the enabled agents before the failing one hold new modules. Nothing but modules changes. |
| Config.EnabledAgencyAgentsHeld | lib/evasion/director/config.py:493-495 | The agents `load_agents` visits are agents the list's agencies hold. |
| Config.ImportsReached | lib/evasion/director/config.py:495-497 | How far the import loop gets: all agents exactly when no import fails. Otherwise it stops at an enabled agent whose import raises the first failure. Every enabled agent before that point imports. |
| Config.LoadAgents | lib/evasion/director/config.py:477-499 | `load_agents` raises the first import failure in visiting order. On success every loadable agent holds its new module and every other agent keeps its own. On a failure only the enabled agents visited before the failing one hold new modules. |
| Config.FindFirst | lib/evasion/director/config.py:571-575 | Gives the first record of the name, with none before it; none exactly when no record has the name. |
| Config.FindController | lib/evasion/director/config.py:571-580 | The search loop of `reload_controller` finds the first record of the name. |
| Config.RetireCalls | lib/evasion/director/config.py:586-596 | A module that raises on none of the calls gets `isStarted`, then `stop` twice if it was started (once otherwise), then `tearDown`. A tracking module ends up stopped. |
| Config.RetireFails | lib/evasion/director/config.py:586-596 | Retirement raises exactly when one of its calls raises, and the error is the one raised first. |
| Config.ReplacementFacts | lib/evasion/director/config.py:601-617 | A non-numeric new order is a ValueError. A built record is a valid Controller with the given name and new config. Its order is the new one or else the old one, and it is enabled unless the config disables it. |
| Config.ReplacementRejects | lib/evasion/director/config.py:616-617 | An empty name or an order of 0 never makes a valid replacement. |
| Config.Without | lib/evasion/director/config.py:634-637 | The kept list holds exactly the records of another name. |
| Config.WithoutOne | lib/evasion/director/config.py:634-637 | Removing the only record of a name drops exactly one record. |
| Config.WithoutNone | lib/evasion/director/config.py:634-637 | Removing a name no record has leaves the list as it was. |
| Config.SplicedFacts | lib/evasion/director/config.py:632-649 | The published list is sorted by order and holds the new record and every record of another name, and nothing else. When the name was unique it is as long as before. |
| Config.ReplacementEnabled | lib/evasion/director/config.py:620-621 | The new record is enabled exactly when its config leaves `disabled` at 'no'. |
| Config.SetUpModule | lib/evasion/director/config.py:620-628 | Gives an import error, or AttributeError for a module without the class. A success is the imported module after exactly one `setUp` that did not raise. |
| Config.ReloadOutcomeFacts | lib/evasion/director/config.py:586-628 | The reload succeeds exactly when the old module retires cleanly, the replacement is valid and an enabled replacement's module sets up. A retirement error is the result. The new record carries the set-up module, or none when disabled. |
| Config.ReloadSucceeds | lib/evasion/director/config.py:586-628 | A valid replacement whose old module raises nothing reloads when the new module imports and sets up. |
| Config.RetireEntry | lib/evasion/director/config.py:586-596 | The old record keeps its module as retirement left it, and the result is retirement's error. |
| Config.BuildReplacement | lib/evasion/director/config.py:600-628 | It gives a fresh record object exactly when the replacement outcome is a success, with that record and module. Otherwise it gives the outcome's error. |
| Config.WithoutDistinct | lib/evasion/director/config.py:634-637 | Dropping records from a list without repeats leaves no repeats. |
| Config.SplicedDistinct | lib/evasion/director/config.py:640-644 | Splicing a new record into a list without repeats leaves no repeats. |
| Config.Others | lib/evasion/director/config.py:634-637 | The loop that keeps the records of another name computes Without. |
| Config.ReloadFound | lib/evasion/director/config.py:586-656 | After finding the record: on an error the store is unchanged. On success the new record is published in the sorted list and its section is recorded. The old module is retired in both cases. |
| Config.ExportAll | lib/evasion/director/config.py:678 | One export per record. |
| Config.ExportAllAt | lib/evasion/director/config.py:678 | The i-th export is the export of the i-th record. |
| Config.ShortcutExport | lib/evasion/director/config.py:686-696 | A reserved record present in the store exports as its export; an absent one as the empty string. |
| Config.ExportStore | lib/evasion/director/config.py:677-698 | The export has exactly the keys cfg, filename, director, agency, broker, webadmin. |
| Config.ExportStoreFields | lib/evasion/director/config.py:659-698 | `cfg` is every record's export in list order, `filename` is the file name, and the four reserved entries are their shortcut exports. |
| Config.ConfigState.constructor | lib/evasion/director/config.py:148-157 | The store starts unset. |
| Config.ConfigState.Clear | lib/evasion/director/config.py:148-157 | `clear` unsets the store. |
| Config.ConfigState.GetCfg | lib/evasion/director/config.py:160-179 | `get_cfg` raises ConfigNotSetup exactly when the store is unset and otherwise gives the store. |
| Config.ConfigState.UpdateObjs | lib/evasion/director/config.py:182-209 | `update_objs` raises ConfigNotSetup on an unset store. Otherwise it replaces only the record list, keeping the raw text, sections and file name. |
| Config.ConfigState.SetCfg | lib/evasion/director/config.py:212-238 | A failing recovery raises its error and leaves the store. Otherwise the store holds the raw text, the sections by name, the file name and fresh record objects for the recovered records. |
| Config.ConfigState.ExportConfiguration | lib/evasion/director/config.py:659-698 | Raises ConfigNotSetup on an unset store, otherwise gives the store's export. |
| Config.ConfigState.ReloadController | lib/evasion/director/config.py:541-656 | An unset store is ConfigNotSetup and an unknown name a ControllerReloadError, both changing nothing. Otherwise the first record of the name is retired. Then either the outcome's error leaves the store, or the new record is published sorted and its section recorded. Other records keep their modules. |
| AgencyNodes.CategoriesHaveNoSlash | lib/evasion/agency/agency.py:16-25 | No agent category contains a slash. |
| AgencyNodes.AliasNumber | lib/evasion/agency/agency.py:84-87 | `int(alias)` keeps an integer and accepts a string exactly when it parses. |
| AgencyNodes.AddIds | lib/evasion/agency/agency.py:46-91 | `add` keeps every category counter. Its errors are ValueError or ConfigError. A success names the given category and record. |
| AgencyNodes.AddIdsEffect | lib/evasion/agency/agency.py:76-91 | An unknown category is a ValueError that changes nothing. Otherwise that category's counter goes up by one and no other does. The alias generator advances exactly when the alias is false. The ids carry the new counter and the given or drawn alias, and a conversion error still uses up a node number. |
| AgencyNodes.AliasIdChars | lib/evasion/agency/agency.py:89 | An alias id spells out its category after `/agent/`, followed by a slash. |
| AgencyNodes.AliasIdInjective | lib/evasion/agency/agency.py:83-89 | An alias id determines its category and alias number, so ids of different categories never clash. |
| AgencyNodes.NodeIdInjective | lib/evasion/agency/agency.py:83 | Two adds for the same record in one category give different node ids. |
| AgencyNodes.TwelveParses | lib/evasion/agency/agency.py:84-85 | The alias "12" converts to 12. |
| AgencyNodes.SwipeIdStrings | lib/evasion/agency/agency.py:64-69 | The documented ids: node `/agent/swipe/testing/1`, alias `/agent/swipe/12`. |
| AgencyNodes.SwipeExample | lib/evasion/agency/agency.py:64-69 | After a reset, the first swipe agent aliased 12 gets exactly the documented node and alias ids. |
| AgencyNodes.UnknownCategoryExample | lib/evasion/agency/agency.py:76-77 | An unknown category is a ValueError that leaves the allocator as it was. |
| AgencyNodes.Nodes.constructor | lib/evasion/agency/agency.py:33-36 | A new allocator has every counter at 0 and the alias generator at 1. |
| AgencyNodes.Nodes.Reset | lib/evasion/agency/agency.py:38-44 | `_reset` puts every category counter at 0 and the alias generator back at 1. |
| AgencyNodes.Nodes.Add | lib/evasion/agency/agency.py:46-91 | `add` changes the allocator and returns the two id strings as AddIds says. A known category's add is counted. |
| AgencyNodes.Nodes.Get | lib/evasion/agency/agency.py:93-107 | `get` is a ValueError for an unknown category. Otherwise it is the number of adds counted for it since the last reset. |
| AgentManager.Next | lib/evasion/agency/manager.py:141-151 | One turn of `load`'s loop keeps the allocator state complete. |
| AgentManager.Run | lib/evasion/agency/manager.py:141-151 | The rest of `load`'s loop keeps the allocator state complete. |
| AgentManager.Allot | lib/evasion/agency/manager.py:140-151 | `load`'s loop indexes at most the agents it gave ids to, and gives at most one id pair per agent. |
| AgentManager.NextSound | lib/evasion/agency/manager.py:141-151 | One turn keeps the loop invariant: indexed alias ids are distinct and the alias check holds exactly them. |
| AgentManager.RunSound | lib/evasion/agency/manager.py:141-151 | The whole loop keeps that invariant. |
| AgentManager.RunLength | lib/evasion/agency/manager.py:141-151 | The loop hands out at most one id pair per agent. |
| AgentManager.RunLast | lib/evasion/agency/manager.py:141-151 | A loop ending in an error ended at one agent, in a sound running state. |
| AgentManager.AllotIndexesDistinct | lib/evasion/agency/manager.py:140-151 | The agents `load` indexes have pairwise distinct alias ids. A ManagerError means the last agent got an alias id an indexed agent already holds. |
| AgentManager.NextFails | lib/evasion/agency/manager.py:142 | An agent whose `add` raises ends the loop with that error, without an id, with the allocator as `add` left it. |
| AgentManager.NextAdds | lib/evasion/agency/manager.py:142-151 | An agent whose `add` succeeds gets its ids. A new alias id is indexed and checked in; a repeated one ends the loop with ManagerError. |
| AgentManager.IndexOne | lib/evasion/agency/manager.py:141-151 | One turn of the loop, stated against the rest of it: an error or a repeated alias ends the loop, and a new alias lets it go on. |
| AgentManager.IndexAgents | lib/evasion/agency/manager.py:140-151 | The loop leaves the allocator and the error as Allot gives them. It hands out one id pair per agent reached and indexes each agent under its alias id. |
| AgentManager.AssignIds | lib/evasion/agency/manager.py:142 | Each agent reached gets the node and alias id `add` returned for it; the agents after it keep theirs. |
| AgentManager.AgentCallFacts | lib/evasion/agency/manager.py:175-188 | A disabled agent, or one without a module, is skipped. Otherwise the call is logged, and its error stops the sweep exactly when it is an interrupt or the manager does not keep going. |
| AgentManager.AgentSweep | lib/evasion/agency/manager.py:175-188 | A sweep changes the agents up to the first stopping error and leaves the rest. |
| AgentManager.SweepSkips | lib/evasion/agency/manager.py:176-178 | A skipped agent is untouched by a sweep. |
| AgentManager.SweepKeepsGoing | lib/evasion/agency/manager.py:179-188 | Keeping going with no interrupt, the sweep raises nothing and every agent that is not skipped gets the call once. |
| AgentManager.SweepInterrupted | lib/evasion/agency/manager.py:181-182 | An interrupt always propagates and no agent after it is reached. |
| AgentManager.SweepAgents | lib/evasion/agency/manager.py:175-188 | The sweep loop calls each agent up to the first stopping error, which is its result. |
| AgentManager.SweepRan | lib/evasion/agency/manager.py:175-188 | A sweep loop that ends so computes exactly AgentSweep. |
| AgentManager.LoadConfig | lib/evasion/agency/manager.py:130-133 | The first part of `load` gives ConfigNotSetup on an unset store, or else the first agent import failure, or else the unchanged store. Only the modules of the enabled agents visited before the first failure change. Agents' ids are untouched. |
| AgentManager.Manager.Index | lib/evasion/agency/manager.py:151 | `_agents` maps each indexed alias id to its agent. |
| AgentManager.Manager.constructor | lib/evasion/agency/manager.py:46-58 | A new manager has an empty index and the flag it was given. |
| AgentManager.Manager.KeepGoingOnExceptions | lib/evasion/agency/manager.py:60-62 | Returns the flag the manager was built with. |
| AgentManager.Manager.GetAgentCount | lib/evasion/agency/manager.py:64-67 | Returns the number of keys of the index. |
| AgentManager.Manager.Agent | lib/evasion/agency/manager.py:81-106 | Looks up `/agent/` + alias, or the alias itself when absolute. ManagerError exactly when it is not indexed; otherwise the indexed agent. |
| AgentManager.Manager.Load | lib/evasion/agency/manager.py:108-155 | A second `load` without `shutdown` is a ManagerError that changes nothing. Otherwise the agents' modules change as `load_agents` leaves them. Load errors leave the index empty. No agency gives an empty result. A record named agency that is not an agency raises AttributeError. In these cases node counts and ids are unchanged. Otherwise the node counts and the reached agents' ids are the allotment's. The agents reached are indexed under distinct alias ids, and the allotment's error, if any, propagates. |
| AgentManager.Manager.LoadFresh | lib/evasion/agency/manager.py:125-155 | `load` on a manager holding no agents. The modules change as `load_agents` leaves them. A load error or a missing agency indexes nothing and keeps the node counts and ids. Otherwise the allotment gives the counts and the ids of the agency's agents, and no other agent's ids change. |
| AgentManager.Manager.IndexStore | lib/evasion/agency/manager.py:135-155 | After every import succeeded: no agency gives an empty result and an empty index. An agency record that is a plain controller raises AttributeError. Otherwise the agency's agents are indexed as the allotment says, and the reached ones carry its ids. |
| AgentManager.Manager.IndexAgency | lib/evasion/agency/manager.py:140-155 | The indexing part of `load`: the agents reached are indexed under their alias ids and carry their new ids. The agents after the one that ended the loop keep their ids. |
| AgentManager.Manager.SetUp | lib/evasion/agency/manager.py:164-188 | `setUp` is one setUp sweep over the index, as AgentSweep describes. |
| AgentManager.Manager.Start | lib/evasion/agency/manager.py:219-243 | `start` is one start sweep over the index. |
| AgentManager.Manager.Stop | lib/evasion/agency/manager.py:245-269 | `stop` is one stop sweep over the index. |
| AgentManager.Manager.TearDown | lib/evasion/agency/manager.py:190-217 | `tearDown` is one tearDown sweep over the index. |
| AgentManager.Manager.Sweep | lib/evasion/agency/manager.py:171-188 | The shared sweep, which does nothing without agents. |
| AgentManager.Manager.Shutdown | lib/evasion/agency/manager.py:69-79 | `shutdown` tears the agents down. It then empties the index unless the tear-down raised something other than ManagerError, which propagates and keeps the index. |
| AgentManager.IndexSize | lib/evasion/agency/manager.py:64-65 | An index with distinct alias ids has one key per agent, so the count is the number indexed. |
| DirectorManager.LoadedMods | lib/evasion/director/manager.py:112 | The module each record holds after loading with import failures ignored. |
| DirectorManager.SetUpOneFacts | lib/evasion/director/manager.py:119-125 | A record without a module, or a disabled one, is left alone. A loaded, enabled one gets exactly one `setUp`, which fails exactly when the module raises on it. |
| DirectorManager.RegisterKeys | lib/evasion/director/manager.py:117-118 | Every registered record's name is a key, and every key was there before or names a registered record. |
| DirectorManager.RegisterLast | lib/evasion/director/manager.py:117-118 | A name is registered to the last record that carries it. |
| DirectorManager.Guarded | lib/evasion/director/manager.py:214-222 | The start branch lets only SystemExit and KeyboardInterrupt escape and catches the rest. |
| DirectorManager.StepStoppedNeverStarts | lib/evasion/director/manager.py:201-205 | A record stopped by request is never started. It is asked `isStarted` and stopped only if it answered True, and its errors propagate. |
| DirectorManager.StepStartsOnce | lib/evasion/director/manager.py:207-213 | An enabled, loaded, not-started record not stopped by request gets `start` exactly once, then a second `isStarted`. A tracking module then runs. |
| DirectorManager.StepLeavesRunning | lib/evasion/director/manager.py:207-209 | A running record is only asked `isStarted`. |
| DirectorManager.StepUntouched | lib/evasion/director/manager.py:200-207 | A record without a module, or a disabled one not stopped by request, is untouched. |
| DirectorManager.StepEscapes | lib/evasion/director/manager.py:214-222 | Outside the stopped-by-request branch only interrupts propagate, and caught errors are never interrupts. |
| DirectorManager.Sweep | lib/evasion/director/manager.py:143-155 | One shutdown sweep calls the loaded modules in order. It stops after the first error unless keeping going. |
| DirectorManager.ShutdownAll | lib/evasion/director/manager.py:135-170 | Shutdown keeps one module slot per record. |
| DirectorManager.SweepClean | lib/evasion/director/manager.py:143-155 | A sweep that meets no error, or keeps going, calls every loaded module once and raises nothing. |
| DirectorManager.ShutdownOrder | lib/evasion/director/manager.py:135-170 | Without errors, or when keeping going, each loaded module gets `stop` and then `tearDown`, and shutdown raises nothing. |
| DirectorManager.ShutdownStopFailure | lib/evasion/director/manager.py:148-155 | Without keep-going, a `stop` that raises ends shutdown before any `tearDown`. |
| DirectorManager.SweepEntries | lib/evasion/director/manager.py:143-155 | The sweep loop calls each record's module up to the first error, which ends it unless keeping going. |
| DirectorManager.SweepRan | lib/evasion/director/manager.py:143-155 | A sweep loop that ends so computes exactly Sweep. |
| DirectorManager.SetUpRun | lib/evasion/director/manager.py:115-131 | The setUp loop sets up the records it reaches; without keep-going the first error stops it. |
| DirectorManager.SetUpEntries | lib/evasion/director/manager.py:117-131 | Each record reached is registered and then set up. Without keep-going the first `setUp` error ends the loop after its record is registered. |
| DirectorManager.SetUpRan | lib/evasion/director/manager.py:117-131 | A setUp loop that ends so computes exactly SetUpRun. |
| DirectorManager.StepEntries | lib/evasion/director/manager.py:193-222 | One maintenance pass. A caught error requests exit unless keeping going, and the pass goes on. An escaping error ends the pass and is the result. |
| DirectorManager.SetUpControllers | lib/evasion/director/manager.py:112-131 | Loads with failures ignored, then registers and sets up the records as SetUpRun describes. |
| DirectorManager.StepRan | lib/evasion/director/manager.py:193-222 | A maintenance loop that ends so gives the first escaping error. It requests exit exactly when a caught error happened before it and the manager does not keep going. |
| DirectorManager.Manager.constructor | lib/evasion/director/manager.py:53-69 | A new manager has no controllers, an empty name lookup, the flag it was given and no exit request. |
| DirectorManager.Manager.KeepGoingOnExceptions | lib/evasion/director/manager.py:71-73 | Returns the flag the manager was built with. |
| DirectorManager.Manager.Controller | lib/evasion/director/manager.py:75-91 | KeyError exactly for an unregistered name; otherwise the module of the registered record. |
| DirectorManager.Manager.ControllerSetup | lib/evasion/director/manager.py:93-133 | ConfigNotSetup changes nothing. Otherwise the store's records become the controller list, loaded with failures ignored, registered and set up as SetUpRun says. |
| DirectorManager.Manager.Step | lib/evasion/director/manager.py:193-222 | One maintenance pass over the controller list, with its result and exit request as StepRan characterises. |
| DirectorManager.Manager.Shutdown | lib/evasion/director/manager.py:135-170 | Stops every loaded controller in list order, then tears every one down, as ShutdownAll says. |
| DirectorManager.Manager.Exit | lib/evasion/director/manager.py:246-253 | Requests exit and changes nothing else. |
| Signals.ResultDict | lib/evasion/director/signals.py:305-321 | The result word is lower-cased and must then be ok or error; anything else is a ValueError. The reply carries the data. |
| Signals.LowerIdempotent | lib/evasion/director/signals.py:315 | Lower-casing twice is lower-casing once. |
| Signals.ResultDictIgnoresCase | lib/evasion/director/signals.py:315-317 | The result word is matched without regard to case. |
| Signals.ResultDictKnown | lib/evasion/director/signals.py:315-320 | The words ok and error are accepted unchanged. |
| Signals.ResultDictRejects | lib/evasion/director/signals.py:317-318 | Any other word, in any case, is a ValueError. |
| Signals.SignalPing | lib/evasion/director/signals.py:331-352 | The ping reply is ok and carries back the token. |
| Signals.ShownConfig | lib/evasion/director/signals.py:396-398 | A state line shows the record's section, or an empty dict when there is none or it is empty. |
| Signals.RowsListNonDirectors | lib/evasion/director/signals.py:390-410 | When no `isStarted()` raises, the state reply lists every record but the director once, in store order. |
| Signals.ProbeWithoutModule | lib/evasion/director/signals.py:396-410 | A record without a module is reported not started. |
| Signals.ProbeAll | lib/evasion/director/signals.py:390-410 | The state loop asks each loaded record `isStarted` and stops at the first call that raises. |
| Signals.SignalControllerState | lib/evasion/director/signals.py:354-422 | An unset store, or an `isStarted()` that raises, gives an error reply. Otherwise the ok reply lists name, disabled flag, started answer and config for every record but the director. The records asked have the call logged. |
| Signals.Switch | lib/evasion/director/signals.py:451-469 | The start and stop handlers' shared body: the first record of the name gets the disabled text if disabled. Otherwise its stopped-by-request flag is set and the call is made, AttributeError without a module. Only that record changes. |
| Signals.SignalControllerStart | lib/evasion/director/signals.py:424-481 | Starting an enabled record clears its stopped-by-request flag and calls `start`. A disabled one gets "cannot be started" and an unknown name an empty ok reply. Only the named record changes. |
| Signals.SignalControllerStop | lib/evasion/director/signals.py:483-541 | Stopping an enabled record sets its stopped-by-request flag and calls `stop`. A disabled one gets "cannot be stopped" and an unknown name an empty ok reply. Only the named record changes. |
| Signals.ReloadReply | lib/evasion/director/signals.py:575-593 | The reply is ok with True exactly on success. A ControllerReloadError replies with its message, any other error with its traceback. |
| Signals.SignalControllerReload | lib/evasion/director/signals.py:543-597 | The reply is ReloadReply of what `reload_controller` raised. An unset store and an unknown name are errors that leave the store as it was. Once the controller is found, its old module is stopped and torn down as RetiredMod says, whether or not the reload then succeeds. A failed outcome leaves the store's record list as it was. On success the reply is ok, and the store holds the new record with its set-up module in sorted place of the old one, plus the new section. Every other record keeps its module, `wasStopped`, `node` and `alias`. |
| Signals.SignalConfiguration | lib/evasion/director/signals.py:599-637 | An ok reply with the configuration export, or an error reply before `set_cfg`. |
| Morbid.Added | lib/evasion/director/morbid.py:110-111 | The subscriber is in the list afterwards; a present one changes nothing and a new one goes to the end. |
| Morbid.AddedNoRepeats | lib/evasion/director/morbid.py:110-111 | A list kept with that rule never holds a subscriber twice. |
| Morbid.RemovedAbsent | lib/evasion/director/morbid.py:116-118 | Removing an absent subscriber changes nothing. |
| Morbid.RemovedPresent | lib/evasion/director/morbid.py:116-118 | Removing a present subscriber from a list without repeats takes out exactly that one and keeps every other. |
| Morbid.MessageIdInjective | lib/evasion/director/morbid.py:126 | Different counts give different message ids on one destination. |
| Morbid.StampedFacts | lib/evasion/director/morbid.py:126-127 | Stamping sets the destination and message id and keeps every other header. Two sends on one destination get different ids. |
| Morbid.QueueSend | lib/evasion/director/morbid.py:120-129 | With subscribers a send keeps the number of subscribers and the buffer. |
| Morbid.QueueSubscribeEmpty | lib/evasion/director/morbid.py:109-114 | Subscribing to a new queue delivers nothing and leaves one subscriber. |
| Morbid.QueueSendBuffers | lib/evasion/director/morbid.py:121-122 | A send without subscribers buffers the message and delivers nothing. |
| Morbid.RoundRobinRotates | lib/evasion/director/morbid.py:123-129 | Up to one message per subscriber rotates the list by that many and advances the id by that many. |
| Morbid.RoundRobin | lib/evasion/director/morbid.py:123-129 | Those messages go one each to the subscribers in list order, with consecutive ids. |
| Morbid.RoundRobinCycle | lib/evasion/director/morbid.py:123-129 | A full round leaves the subscriber list as it was. |
| Morbid.DrainInOrder | lib/evasion/director/morbid.py:112-114 | Draining delivers every buffered message, first in first out, with consecutive ids, and empties the buffer. |
| Morbid.DrainStep | lib/evasion/director/morbid.py:112-114 | One turn sends the oldest buffered message and then drains the rest. |
| Morbid.Queue.constructor | lib/evasion/director/morbid.py:103-107 | A new queue has id 0, no subscribers and no messages. |
| Morbid.Queue.Subscribe | lib/evasion/director/morbid.py:109-114 | Subscribing adds the subscriber if new and drains the buffer through the outbox. |
| Morbid.Queue.DrainBuffer | lib/evasion/director/morbid.py:112-114 | The drain loop computes exactly Drain. |
| Morbid.Queue.Unsubscribe | lib/evasion/director/morbid.py:116-118 | The subscriber leaves if present; nothing else changes. |
| Morbid.Queue.Send | lib/evasion/director/morbid.py:120-129 | A send changes the queue and the outbox as QueueSend says. |
| Morbid.Queue.Empty | lib/evasion/director/morbid.py:131-132 | True exactly without subscribers and without buffered messages. |
| Morbid.Broadcast | lib/evasion/director/morbid.py:153-154 | One delivery per subscriber. |
| Morbid.BroadcastReachesAll | lib/evasion/director/morbid.py:153-154 | Every subscriber gets the same frame, in list order, once each on a list without repeats, and nobody else gets it. |
| Morbid.Topic.constructor | lib/evasion/director/morbid.py:136-139 | A new topic has id 0 and no subscribers. |
| Morbid.Topic.Subscribe | lib/evasion/director/morbid.py:141-143 | The subscriber is added if new. |
| Morbid.Topic.Unsubscribe | lib/evasion/director/morbid.py:145-147 | The subscriber leaves if present. |
| Morbid.Topic.Send | lib/evasion/director/morbid.py:149-154 | The id advances even without subscribers, and every subscriber gets the message stamped with it. |
| Morbid.Topic.Empty | lib/evasion/director/morbid.py:156-157 | True exactly without subscribers. |
| Morbid.SubscribeDest | lib/evasion/director/morbid.py:174 | A queue subscribes as QueueSubscribe, a topic adds the subscriber. |
| Morbid.UnsubscribeDest | lib/evasion/director/morbid.py:182 | The subscriber leaves the destination, whose messages and id stay. |
| Morbid.UnsubscribeAll | lib/evasion/director/morbid.py:193-194 | The connection leaves every destination in its list. |
| Morbid.StompFactory.constructor | lib/evasion/director/morbid.py:162-165 | No destinations, no subscriptions, id 0. |
| Morbid.StompFactory.Connected | lib/evasion/director/morbid.py:189-190 | The connection starts with an empty subscription list. No connection's list repeats a destination, before or after. |
| Morbid.StompFactory.Subscribe | lib/evasion/director/morbid.py:167-177 | A missing destination is created: a queue for a `/queue/` name, a topic otherwise. The connection subscribes and the destination is recorded once in its list. An unknown connection raises KeyError after subscribing. |
| Morbid.StompFactory.Resolve | lib/evasion/director/morbid.py:168-173 | Gives the destination filed under the name, creating and filing a new queue or topic when missing. |
| Morbid.StompFactory.Record | lib/evasion/director/morbid.py:175-177 | The destination joins the connection's list once, so no list repeats a destination. An unknown connection is a KeyError. |
| Morbid.StompFactory.Unsubscribe | lib/evasion/director/morbid.py:179-187 | The connection leaves the named destination, which is deleted once empty, and the destination leaves its list. An unknown name changes no destination. |
| Morbid.StompFactory.Disconnected | lib/evasion/director/morbid.py:192-195 | The connection leaves every destination it subscribed to, none deleted, and its list is dropped. An unknown connection is a KeyError. |
| Morbid.StompFactory.Send | lib/evasion/director/morbid.py:197-205 | A send goes to the named destination. A missing `/queue/` name gets a new queue that buffers the message, and a missing topic drops it. |
| AgencyCtrl.LoadAgency | lib/evasion/director/controllers/agencyctrl.py:72-73 | `load` then `setUp` on a fresh manager. A load error, including AttributeError for an agency record replaced by a plain controller, is the outcome; nothing is indexed and the node counts are unchanged. Otherwise the allotment gives the node counts and the agents' ids, its agents are indexed, and without an allotment error they are set up as AgentSweep says. |
| AgencyCtrl.SetUpLoaded | lib/evasion/director/controllers/agencyctrl.py:73 | The agents' `setUp` after a load that raised nothing: the outcome and the modules are the sweep's. The index, the node counts and the ids the load left are kept. |
| AgencyCtrl.Controller.SetUp | lib/evasion/director/controllers/agencyctrl.py:49-75 | Keeps the section and clears the running flag. Without a section the flag lookup raises AttributeError. Otherwise it builds a manager that keeps going exactly when `eat_agent_exceptions` is true, then loads and sets up the agents. |
| AgencyCtrl.Controller.Start | lib/evasion/director/controllers/agencyctrl.py:77-89 | Starts the agents. The agency counts as running only if that raised nothing. AttributeError before `setUp`. |
| AgencyCtrl.Controller.Stop | lib/evasion/director/controllers/agencyctrl.py:104-116 | Stops the agents. The agency counts as stopped only if that raised nothing. AttributeError before `setUp`. |
| AgencyCtrl.Controller.IsStarted | lib/evasion/director/controllers/agencyctrl.py:91-102 | Answers the running flag, and AttributeError exactly before `setUp`. |
| AgencyCtrl.Controller.IsStopped | lib/evasion/director/controllers/agencyctrl.py:118-128 | Answers the running flag as written, and AttributeError exactly before `setUp`. |
| AgencyCtrl.Controller.TearDown | lib/evasion/director/controllers/agencyctrl.py:130-138 | Shuts the manager down as Manager.Shutdown says. AttributeError before `setUp`. |
| AgencyCtrl.IsStartedTracks | lib/evasion/director/controllers/agencyctrl.py:91-102 | `isStarted` answers as a module that tracks its started flag would. |
| AgencyCtrl.IsStoppedInverted | lib/evasion/director/controllers/agencyctrl.py:118-128 | As written, `isStopped` answers the opposite of a tracking module; it is False right after a successful `stop`. |
| AgencyCtrl.StoppedAnswerTracks | lib/evasion/director/controllers/agencyctrl.py:118-128 | The documented `isStopped` (True once stopped) agrees with a tracking module. |
| AgencyCtrl.EatsExceptionsTruth | lib/evasion/director/controllers/agencyctrl.py:68-70 | The flag is on exactly for a present non-empty value: "False" turns it on and a missing key leaves it off. |
| BaseController.Controller.SetUp | lib/evasion/director/controllers/base.py:55-69 | Keeps the section and returns None. |
| BaseController.Controller.Start | lib/evasion/director/controllers/base.py:72-86 | Returns None. |
| BaseController.Controller.IsStarted | lib/evasion/director/controllers/base.py:89-100 | Returns False. |
| BaseController.Controller.Stop | lib/evasion/director/controllers/base.py:103-114 | Returns False. |
| BaseController.Controller.IsStopped | lib/evasion/director/controllers/base.py:117-127 | Returns None. |
| BaseController.Controller.TearDown | lib/evasion/director/controllers/base.py:129-137 | Returns None. |
| BaseController.NeverStartedIsBase | lib/evasion/director/controllers/base.py:89-127 | A module that never reports started and raises nothing behaves as the base interface: `isStarted`, `stop` and `isStopped` all answer false, and no call changes its started flag. |

## Left out

- Messaging: the messenger, signal dispatch and the reply transport are not modelled. Handlers return the reply they would send.
- The STOMP wire protocol (`StompProtocol` framing, connection handling, `setup`) is left out. A sent frame is a value appended to an outbox.
- Threads and the configuration lock: the store is one object and each operation runs alone.
- ConfigObj parsing: a file is given already split into sections of string entries.
- Python 2's `sort()` on `[order, obj]` pairs breaks ties by comparing the objects. The model sorts stably by order alone.
- Python 2 dict iteration order in the agent manager's sweeps (`_agents.values()`) is taken to be index order.
- `int()` on a string with surrounding whitespace is not accepted; only sign and digits are.
- `str.lower()` lowers ASCII letters only.
- The director record's `poll_time` is a float and is left out of the record and its export; `appmainSetup`, `appmain` and the main scripts, which use it and the clock, are left out.
- Traceback texts are opaque: an error reply carries the exception, not its formatted traceback.
- `save_cfg`, `signalExit` and the logging calls are left out.
- Controller modules other than the two in the core are described only through the abstract module of `Lifecycle`.
- AgentManager.Manager.Load: the source writes each agent's `node` and `alias` inside the indexing loop. The model writes them in a second loop right after it (AssignIds). Nothing reads them in between, so the end state is the same.
- Morbid.StompFactory.Send: the default `headers={}` argument is shared between calls and stamped in place in the source. The model stamps a copy, so the aliasing is not modelled.
- BaseController.Controller.constructor: the source has no `config` attribute before `setUp`; the model starts it at None.
- AgencyCtrl.Controller.SetUp: the section's flag is read by Python truth. So `eat_agent_exceptions = False` in the file still turns keep-going on (EatsExceptionsTruth).
- Recovery.Setup: a section key named after a built-in attribute replaces that attribute through `setattr`. The model follows this for `wasStopped` only (ConfigObjs.Entry.constructor). A `mod` key (a string where a module is expected), a `required` key (a string whose characters `validate` would check as field names), a `type` key (the exported type) and an `agents` key on a reloaded agency stay plain attributes. Config.Replacement has the same gap on reload.
- Recovery.SetupCopiesKeys: the attributes it keeps are those in the record's attribute map. The built-in attributes a key can shadow are covered only as under Recovery.Setup.
- ConfigObjs.Fresh: a web admin built by its constructor has order 4, while recovery gives a web admin section without `order` the mapped order 3. Both are modelled as written.
- DirectorManager.Manager.Shutdown: without keep-going, the first error ends shutdown and later controllers are not stopped or torn down. This follows the code rather than a best-effort reading.

## Findings

| source | as written | input that shows it | evidently intended | confidence | as-written member | corrected member |
|---|---|---|---|---|---|---|
| lib/evasion/director/controllers/agencyctrl.py:118-128 | `isStopped` returns `self.isRunning`, the same value as `isStarted` | `setUp`, `start`, `stop` with no agent raising: `isStopped()` returns False | return True once the agency has stopped, as its docstring says (`not self.isRunning`) | not executed | AgencyCtrl.IsStoppedInverted | AgencyCtrl.StoppedAnswerTracks |

/**
 * The process-wide configuration store (`clear`, `get_cfg`, `set_cfg`, `update_objs`),
 * the module loaders, `reload_controller` and `export_configuration`.
 */
module Config {
  import opened Wrappers
  import opened Lifecycle
  import opened ConfigObjs
  import opened Sorting
  import opened Recovery
  import opened Text

  /** A ConfigStore: the raw text, the record list, the parsed sections by name, and the file name. */
  datatype Store = Store(raw: string, cfg: seq<Entry>, configobj: map<string, Entries>, filename: string)

  /** The sections of a file whose names are all distinct, by name. */
  function SectionMap(ss: seq<Section>): (m: map<string, Entries>)
    requires UniqueNames(ss)
    ensures forall i :: 0 <= i < |ss| ==> ss[i].name in m && m[ss[i].name] == ss[i].entries
    ensures forall n :: n in m ==> HasSection(ss, n)
  {
    map i | 0 <= i < |ss| :: ss[i].name := ss[i].entries
  }

  /** `findInstances`: the position of the last record with the given name, if any. */
  function FindLast(cfg: seq<Entry>, name: string): (r: Option<nat>)
    ensures r.None? <==> forall i :: 0 <= i < |cfg| ==> cfg[i].rec.name != name
    ensures r.Some? ==> r.value < |cfg| && cfg[r.value].rec.name == name
    ensures r.Some? ==> forall j :: r.value < j < |cfg| ==> cfg[j].rec.name != name
    decreases |cfg|
  {
    if |cfg| == 0 then None
    else if cfg[|cfg| - 1].rec.name == name then Some(|cfg| - 1)
    else FindLast(cfg[..|cfg| - 1], name)
  }

  /** The record the store keeps under `director`, `broker`, `agency` or `webadmin`. */
  function Shortcut(s: Store, name: string): Option<Entry>
  {
    match FindLast(s.cfg, name)
    case None => None
    case Some(i) => Some(s.cfg[i])
  }

  /** The agent objects the agencies of a list hold. */
  function AgentObjects(cfg: seq<Entry>): (r: set<Entry>)
    ensures forall i, a :: 0 <= i < |cfg| && a in cfg[i].agents ==> a in r
  {
    set e, a | e in cfg && a in e.agents :: a
  }

  /** The dotted path `import_module` reads: `agent` for agents, `controller` for the rest. */
  function ImportPath(r: Record): Attr
  {
    if r.kind == Agent then r.Field("agent") else r.Field("controller")
  }

  /** `import_module(type, obj)`: a missing path is None, on which `split` raises AttributeError. */
  function ImportRecord(reg: Registry, r: Record): (res: Result<Option<Module>>)
    ensures !ImportPath(r).Str? ==> res == Err(AttributeError)
    ensures ImportPath(r).Str? ==> res == Import(reg, ImportPath(r).s)
  {
    match ImportPath(r)
    case Str(p) => Import(reg, p)
    case _ => Err(AttributeError)
  }

  /** `load_controllers` skips the director and containers, and disabled records. */
  predicate Loadable(r: Record)
  {
    r.Enabled() && r.kind != Director
  }

  /** Position of the first loadable record whose import raises. */
  function FirstImportFailure(reg: Registry, rs: seq<Record>): (r: Option<nat>)
    ensures r.None? <==> forall i :: 0 <= i < |rs| && Loadable(rs[i]) ==> ImportRecord(reg, rs[i]).Ok?
    ensures r.Some? ==> r.value < |rs| && Loadable(rs[r.value]) && ImportRecord(reg, rs[r.value]).Err?
    ensures r.Some? ==> forall i :: 0 <= i < r.value && Loadable(rs[i]) ==> ImportRecord(reg, rs[i]).Ok?
    decreases |rs|
  {
    if |rs| == 0 then None
    else if Loadable(rs[0]) && ImportRecord(reg, rs[0]).Err? then Some(0)
    else match FirstImportFailure(reg, rs[1..])
      case None => None
      case Some(k) => Some(k + 1)
  }

  /** The first failure is the one after a run of successes. */
  lemma {:induction false} FirstImportFailureAt(reg: Registry, rs: seq<Record>, j: nat)
    requires j < |rs| && Loadable(rs[j]) && ImportRecord(reg, rs[j]).Err?
    requires forall k :: 0 <= k < j && Loadable(rs[k]) ==> ImportRecord(reg, rs[k]).Ok?
    ensures FirstImportFailure(reg, rs) == Some(j)
    decreases j
  {
    if j > 0 {
      var rest := rs[1..];
      assert rest[j - 1] == rs[j];
      assert forall k :: 0 <= k < j - 1 ==> rest[k] == rs[k + 1];
      FirstImportFailureAt(reg, rest, j - 1);
    }
  }

  /** The module `load_controllers` leaves on a record it reached: the import's result, or the old one if it failed. */
  function LoadedMod(reg: Registry, r: Record, old_mod: Option<Module>): Option<Module>
  {
    if Loadable(r) && ImportRecord(reg, r).Ok? then ImportRecord(reg, r).value else old_mod
  }

  /**
   * `load_controllers`: import the module of every enabled record but the director.
   * With `ignore` a failing import is skipped and leaves `mod` as it was; without it the
   * first failure propagates and the records after it are not reached.
   */
  method LoadControllers(cfg: seq<Entry>, ignore: bool, reg: Registry) returns (st: Status)
    requires Distinct(cfg)
    modifies cfg`mod
    ensures var fail := FirstImportFailure(reg, Recs(cfg));
      && (ignore || fail.None? ==> st.None?)
      && (!ignore && fail.Some? ==> st == Some(ImportRecord(reg, cfg[fail.value].rec).error))
    ensures var fail := FirstImportFailure(reg, Recs(cfg));
      var reached := if ignore || fail.None? then |cfg| else fail.value;
      forall i :: 0 <= i < |cfg| ==>
        cfg[i].mod == (if i < reached then LoadedMod(reg, cfg[i].rec, old(cfg[i].mod)) else old(cfg[i].mod))
  {
    ghost var rs := Recs(cfg);
    var i := 0;
    while i < |cfg|
      invariant 0 <= i <= |cfg|
      invariant !ignore ==> forall k :: 0 <= k < i && Loadable(rs[k]) ==> ImportRecord(reg, rs[k]).Ok?
      invariant forall k :: 0 <= k < i ==> cfg[k].mod == LoadedMod(reg, cfg[k].rec, old(cfg[k].mod))
      invariant forall k :: i <= k < |cfg| ==> cfg[k].mod == old(cfg[k].mod)
    {
      var e := cfg[i];
      if Loadable(e.rec) {
        var imported := ImportRecord(reg, e.rec);
        if imported.Ok? {
          e.mod := imported.value;
        } else if !ignore {
          FirstImportFailureAt(reg, rs, i);
          return Some(imported.error);
        }
      }
      i := i + 1;
    }
    return None;
  }

  /** The agents an entry contributes to the loading order: its own when it is an enabled agency. */
  function Contribution(e: Entry): seq<Entry>
  {
    if e.rec.Enabled() && e.rec.kind == Agency then e.agents else []
  }

  /** The agents of the enabled agencies of a list, in the order `load_agents` visits them. */
  function EnabledAgencyAgents(cfg: seq<Entry>): seq<Entry>
    decreases |cfg|
  {
    if |cfg| == 0 then [] else Contribution(cfg[0]) + EnabledAgencyAgents(cfg[1..])
  }

  /** An agent `load_agents` imports: enabled, under an enabled agency of the list. */
  predicate AgentLoadable(cfg: seq<Entry>, a: Entry)
  {
    a in EnabledAgencyAgents(cfg) && a.rec.Enabled()
  }

  /**
   * `load_agents` reaches exactly the enabled agents held by an enabled agency of the
   * list: an agent under a disabled agency, or under no agency, is never imported.
   */
  lemma {:induction false} AgentLoadableMeans(cfg: seq<Entry>, a: Entry)
    ensures AgentLoadable(cfg, a) <==>
      a.rec.Enabled() && exists i :: 0 <= i < |cfg| && cfg[i].rec.Enabled() && cfg[i].rec.kind == Agency && a in cfg[i].agents
    decreases |cfg|
  {
    if |cfg| > 0 {
      AgentLoadableMeans(cfg[1..], a);
      if a in EnabledAgencyAgents(cfg[1..]) && a.rec.Enabled() {
        var i :| 0 <= i < |cfg[1..]| && cfg[1..][i].rec.Enabled() && cfg[1..][i].rec.kind == Agency && a in cfg[1..][i].agents;
        assert cfg[i + 1] == cfg[1..][i];
      }
      if a.rec.Enabled() && exists i :: 0 <= i < |cfg| && cfg[i].rec.Enabled() && cfg[i].rec.kind == Agency && a in cfg[i].agents {
        var i :| 0 <= i < |cfg| && cfg[i].rec.Enabled() && cfg[i].rec.kind == Agency && a in cfg[i].agents;
        if i > 0 {
          assert cfg[1..][i - 1] == cfg[i];
        }
      }
    }
  }

  /** The error of the first enabled agent, in visiting order, whose import raises. */
  function FirstAgentFailure(agents: seq<Entry>, reg: Registry): Status
    decreases |agents|
  {
    if |agents| == 0 then None
    else if agents[0].rec.Enabled() && ImportRecord(reg, agents[0].rec).Err? then Some(ImportRecord(reg, agents[0].rec).error)
    else FirstAgentFailure(agents[1..], reg)
  }

  /**
   * There is no first failure exactly when every enabled agent imports; a first failure
   * is the error of an enabled agent of the list.
   */
  lemma {:induction false} FirstAgentFailureMeaning(agents: seq<Entry>, reg: Registry)
    ensures FirstAgentFailure(agents, reg).None? <==> forall a :: a in agents && a.rec.Enabled() ==> ImportRecord(reg, a.rec).Ok?
    ensures FirstAgentFailure(agents, reg).Some? ==>
      exists a :: a in agents && a.rec.Enabled() && ImportRecord(reg, a.rec) == Err(FirstAgentFailure(agents, reg).value)
    decreases |agents|
  {
    if |agents| > 0 {
      var a := agents[0];
      FirstAgentFailureMeaning(agents[1..], reg);
      assert forall x :: x in agents[1..] ==> x in agents;
      assert forall x :: x in agents ==> x == a || x in agents[1..];
    }
  }

  /**
   * How many agents of a run the import loop gets through: up to the first enabled agent
   * whose import raises, or all of them. Every enabled agent before that point imports.
   */
  function ImportsReached(agents: seq<Entry>, reg: Registry): (n: nat)
    ensures n <= |agents|
    ensures n == |agents| <==> FirstAgentFailure(agents, reg).None?
    ensures n < |agents| ==> agents[n].rec.Enabled() && ImportRecord(reg, agents[n].rec) == Err(FirstAgentFailure(agents, reg).value)
    ensures forall k :: 0 <= k < n && agents[k].rec.Enabled() ==> ImportRecord(reg, agents[k].rec).Ok?
    decreases |agents|
  {
    if |agents| == 0 then 0
    else if agents[0].rec.Enabled() && ImportRecord(reg, agents[0].rec).Err? then 0
    else
      var n := 1 + ImportsReached(agents[1..], reg);
      assert forall k :: 1 <= k < n ==> agents[k] == agents[1..][k - 1];
      n
  }

  /** The module an agent holds after a successful import, or the one it had if the import failed. */
  function ImportedOr(reg: Registry, r: Record, old_mod: Option<Module>): Option<Module>
  {
    if ImportRecord(reg, r).Ok? then ImportRecord(reg, r).value else old_mod
  }

  /** The inner loop of `load_agents`: import every enabled agent of a run, stopping at the first failure. */
  method ImportAgents(agents: seq<Entry>, reg: Registry) returns (st: Status)
    modifies set a | a in agents
    ensures st == FirstAgentFailure(agents, reg)
    ensures st.None? ==> forall a :: a in agents ==>
      a.mod == (if a.rec.Enabled() then ImportedOr(reg, a.rec, old(a.mod)) else old(a.mod))
    ensures st.Some? ==> forall a :: a in agents ==>
      a.mod == (if a in agents[..ImportsReached(agents, reg)] && a.rec.Enabled() then ImportedOr(reg, a.rec, old(a.mod)) else old(a.mod))
    ensures forall a :: a in agents ==> (a.wasStopped, a.node, a.alias) == old((a.wasStopped, a.node, a.alias))
  {
    var j := 0;
    while j < |agents|
      invariant 0 <= j <= |agents|
      invariant j + ImportsReached(agents[j..], reg) == ImportsReached(agents, reg)
      invariant FirstAgentFailure(agents[j..], reg) == FirstAgentFailure(agents, reg)
      invariant forall a :: a in agents ==> (a.wasStopped, a.node, a.alias) == old((a.wasStopped, a.node, a.alias))
      invariant forall a :: a in agents ==>
        a.mod == (if a in agents[..j] && a.rec.Enabled() then ImportedOr(reg, a.rec, old(a.mod)) else old(a.mod))
    {
      var a := agents[j];
      assert agents[..j + 1] == agents[..j] + [a];
      assert agents[j..][0] == a && agents[j..][1..] == agents[j + 1..];
      if a.rec.Enabled() {
        var imported := ImportRecord(reg, a.rec);
        if imported.Err? {
          assert j == ImportsReached(agents, reg);
          return Some(imported.error);
        }
        a.mod := imported.value;
      }
      j := j + 1;
    }
    assert agents[..j] == agents;
    return None;
  }

  /** The agents of the enabled agencies are agents the list holds. */
  lemma {:induction false} EnabledAgencyAgentsHeld(cfg: seq<Entry>)
    ensures forall a :: a in EnabledAgencyAgents(cfg) ==> a in AgentObjects(cfg)
    decreases |cfg|
  {
    if |cfg| > 0 {
      EnabledAgencyAgentsHeld(cfg[1..]);
      assert forall a :: a in Contribution(cfg[0]) ==> a in AgentObjects(cfg);
      assert forall e :: e in cfg[1..] ==> e in cfg;
    }
  }

  /**
   * `load_agents`: import the module of every enabled agent of every enabled agency,
   * agencies in list order and each agency's agents in its order. The first import
   * failure propagates; on success every such agent holds its new module and every
   * other agent keeps the one it had. On a failure only the enabled agents visited
   * before the failing one hold new modules.
   */
  method LoadAgents(cfg: seq<Entry>, reg: Registry) returns (st: Status)
    modifies AgentObjects(cfg)
    ensures st == FirstAgentFailure(EnabledAgencyAgents(cfg), reg)
    ensures st.None? ==> forall a :: a in AgentObjects(cfg) ==>
      a.mod == (if AgentLoadable(cfg, a) then ImportedOr(reg, a.rec, old(a.mod)) else old(a.mod))
    ensures st.Some? ==> forall a :: a in AgentObjects(cfg) ==>
      var visit := EnabledAgencyAgents(cfg);
      a.mod == (if a in visit[..ImportsReached(visit, reg)] && a.rec.Enabled() then ImportedOr(reg, a.rec, old(a.mod)) else old(a.mod))
    ensures forall a :: a in AgentObjects(cfg) ==> (a.wasStopped, a.node, a.alias) == old((a.wasStopped, a.node, a.alias))
  {
    EnabledAgencyAgentsHeld(cfg);
    st := ImportAgents(EnabledAgencyAgents(cfg), reg);
  }

  // ---------------------------------------------------------------------------
  // reload_controller

  /** The position of the first record with the given name, if any. */
  function FindFirst(cfg: seq<Entry>, name: string): (r: Option<nat>)
    ensures r.None? <==> forall i :: 0 <= i < |cfg| ==> cfg[i].rec.name != name
    ensures r.Some? ==> r.value < |cfg| && cfg[r.value].rec.name == name
    ensures r.Some? ==> forall j :: 0 <= j < r.value ==> cfg[j].rec.name != name
    decreases |cfg|
  {
    if |cfg| == 0 then None
    else if cfg[0].rec.name == name then Some(0)
    else match FindFirst(cfg[1..], name)
      case None => None
      case Some(k) => Some(k + 1)
  }

  /** The search loop of `reload_controller`: the first record whose name matches. */
  method FindController(cfg: seq<Entry>, name: string) returns (r: Option<nat>)
    ensures r == FindFirst(cfg, name)
  {
    var i := 0;
    while i < |cfg|
      invariant 0 <= i <= |cfg|
      invariant forall j :: 0 <= j < i ==> cfg[j].rec.name != name
    {
      if cfg[i].rec.name == name {
        return Some(i);
      }
      i := i + 1;
    }
    return None;
  }

  /**
   * The old module's retirement in `reload_controller`: `isStarted()`, `stop()` if it
   * answered True, `stop()` again unconditionally, then `tearDown()`. The first call that
   * raises ends the sequence; the module is returned as that call left it.
   */
  function Retire(m: Module): (Module, Status)
  {
    var (m1, asked) := Invoke(m, IsStarted);
    if asked.Raised? then (m1, Some(asked.error))
    else
      var (m2, first) := if asked.value then Invoke(m1, Stop) else (m1, Returned(false));
      if first.Raised? then (m2, Some(first.error))
      else
        var (m3, second) := Invoke(m2, Stop);
        if second.Raised? then (m3, Some(second.error))
        else
          var (m4, down) := Invoke(m3, TearDown);
          if down.Raised? then (m4, Some(down.error)) else (m4, None)
  }

  /**
   * A module that raises on none of the four calls is retired: its log gains `isStarted`,
   * `stop` twice when it reported itself started (once otherwise) and `tearDown`, and a
   * module that tracks its state ends up stopped.
   */
  lemma RetireCalls(m: Module)
    requires IsStarted !in m.raises && Stop !in m.raises && TearDown !in m.raises
    ensures Retire(m).1.None?
    ensures Retire(m).0.log == m.log + (if m.ReportsStarted() then [IsStarted, Stop, Stop, TearDown] else [IsStarted, Stop, TearDown])
    ensures m.behaviour == Tracks ==> !Retire(m).0.ReportsStarted()
    ensures Retire(m).0.behaviour == m.behaviour && Retire(m).0.raises == m.raises
  {
    var (m1, asked) := Invoke(m, IsStarted);
    var (m2, first) := if asked.value then Invoke(m1, Stop) else (m1, Returned(false));
    var (m3, second) := Invoke(m2, Stop);
    assert m3.log == m.log + (if m.ReportsStarted() then [IsStarted, Stop, Stop] else [IsStarted, Stop]);
  }

  /** Retirement raises exactly the error of the first of its calls the module raises on. */
  lemma RetireFails(m: Module)
    ensures Retire(m).1.Some? <==> IsStarted in m.raises || Stop in m.raises || TearDown in m.raises
    ensures IsStarted in m.raises ==> Retire(m).1 == Some(m.raises[IsStarted])
    ensures IsStarted !in m.raises && Stop in m.raises ==> Retire(m).1 == Some(m.raises[Stop])
  {
  }

  /**
   * The record `reload_controller` builds: a Controller with every key of the new
   * configuration copied on (the order through `int()`), named `name`, inheriting the
   * old order when the new configuration has none, and then validated.
   */
  function Replacement(name: string, newConfig: Entries, oldOrder: Option<int>): Result<Record>
  {
    match Setup(Fresh(Controller), newConfig)
    case Err(e) => Err(e)
    case Ok(rec) =>
      var named := rec.(name := name, order := if "order" in newConfig then rec.order else oldOrder);
      match Validate(named)
      case Some(e) => Err(e)
      case None => Ok(named)
  }

  /** What the replacement record is, and when building it fails. */
  lemma ReplacementFacts(name: string, newConfig: Entries, oldOrder: Option<int>)
    ensures "order" in newConfig && ParseInt(newConfig["order"]).None? ==> Replacement(name, newConfig, oldOrder) == Err(ValueError)
    ensures Replacement(name, newConfig, oldOrder).Ok? ==> var r := Replacement(name, newConfig, oldOrder).value;
      && r.kind == Controller && r.name == name && r.config == Some(newConfig)
      && r.order == (if "order" in newConfig then ParseInt(newConfig["order"]) else oldOrder)
      && r.Enabled() == (!("disabled" in newConfig) || newConfig["disabled"] == "no")
      && Validate(r).None?
  {
  }

  /** An empty name, or an order of 0, never makes a valid replacement. */
  lemma ReplacementRejects(name: string, newConfig: Entries, oldOrder: Option<int>)
    requires name == "" || ("order" !in newConfig && oldOrder == Some(0)) || ("order" in newConfig && ParseInt(newConfig["order"]) == Some(0))
    ensures Replacement(name, newConfig, oldOrder).Err?
  {
    match Setup(Fresh(Controller), newConfig)
    case Err(_) =>
    case Ok(rec) =>
      var named := rec.(name := name, order := if "order" in newConfig then rec.order else oldOrder);
      assert !named.Field(if name == "" then "name" else "order").Truthy();
  }

  /** The records `reload_controller` keeps: every one whose name differs, in list order. */
  function Without(cfg: seq<Entry>, name: string): (r: seq<Entry>)
    ensures forall e :: e in r ==> e in cfg && e.rec.name != name
    ensures forall e :: e in cfg && e.rec.name != name ==> e in r
    ensures |r| <= |cfg|
    decreases |cfg|
  {
    if |cfg| == 0 then []
    else
      var rest := Without(cfg[..|cfg| - 1], name);
      assert cfg == cfg[..|cfg| - 1] + [cfg[|cfg| - 1]];
      if cfg[|cfg| - 1].rec.name != name then rest + [cfg[|cfg| - 1]] else rest
  }

  /** Exactly one record carries the name. */
  predicate NamedOnce(cfg: seq<Entry>, name: string)
  {
    exists i :: 0 <= i < |cfg| && cfg[i].rec.name == name && forall j :: 0 <= j < |cfg| && j != i ==> cfg[j].rec.name != name
  }

  /** Removing the only record of a name drops exactly one record. */
  lemma {:induction false} WithoutOne(cfg: seq<Entry>, name: string)
    requires NamedOnce(cfg, name)
    ensures |Without(cfg, name)| == |cfg| - 1
    decreases |cfg|
  {
    var i :| 0 <= i < |cfg| && cfg[i].rec.name == name && forall j :: 0 <= j < |cfg| && j != i ==> cfg[j].rec.name != name;
    var init := cfg[..|cfg| - 1];
    if i == |cfg| - 1 {
      WithoutNone(init, name);
    } else {
      assert init[i] == cfg[i];
      assert forall j :: 0 <= j < |init| && j != i ==> init[j] == cfg[j];
      WithoutOne(init, name);
    }
  }

  /** Removing a name no record carries drops nothing. */
  lemma {:induction false} WithoutNone(cfg: seq<Entry>, name: string)
    requires forall j :: 0 <= j < |cfg| ==> cfg[j].rec.name != name
    ensures Without(cfg, name) == cfg
    decreases |cfg|
  {
    if |cfg| > 0 {
      var init := cfg[..|cfg| - 1];
      WithoutNone(init, name);
      assert init + [cfg[|cfg| - 1]] == cfg;
    }
  }

  /** The order key `reordered.sort()` compares. */
  function EntryKey(e: Entry): Option<int>
  {
    e.rec.order
  }

  /** The list `reload_controller` publishes: the new record first, the others after it, sorted by order. */
  function Spliced(cfg: seq<Entry>, c: Entry, name: string): seq<Entry>
  {
    SortBy([c] + Without(cfg, name), EntryKey)
  }

  /**
   * The published list is sorted by order and holds the new record and every record of
   * another name, and nothing else; when the name was unique, it is as long as before.
   */
  lemma SplicedFacts(cfg: seq<Entry>, c: Entry, name: string)
    ensures SortedBy(Spliced(cfg, c, name), EntryKey)
    ensures multiset(Spliced(cfg, c, name)) == multiset([c] + Without(cfg, name))
    ensures forall e :: e in Spliced(cfg, c, name) ==> e == c || (e in cfg && e.rec.name != name)
    ensures c in Spliced(cfg, c, name) && forall e :: e in cfg && e.rec.name != name ==> e in Spliced(cfg, c, name)
    ensures NamedOnce(cfg, name) ==> |Spliced(cfg, c, name)| == |cfg|
  {
    var kept := [c] + Without(cfg, name);
    var sp := Spliced(cfg, c, name);
    SortSorted(kept, EntryKey);
    SortPermutes(kept, EntryKey);
    assert multiset(sp) == multiset(kept);
    assert |sp| == |kept| by {
      assert |multiset(sp)| == |sp| && |multiset(kept)| == |kept|;
    }
    forall e | e in sp ensures e == c || (e in cfg && e.rec.name != name) {
      assert e in multiset(kept);
    }
    forall e | e == c || (e in cfg && e.rec.name != name) ensures e in sp {
      assert e in kept;
      assert e in multiset(sp);
    }
    if NamedOnce(cfg, name) {
      WithoutOne(cfg, name);
    }
  }

  /** `new_config.get('disabled', 'no') == 'no'`: whether `reload_controller` loads the new module. */
  predicate ConfigEnabled(newConfig: Entries)
  {
    "disabled" !in newConfig || newConfig["disabled"] == "no"
  }

  /** The replacement record is enabled exactly when its configuration says so. */
  lemma ReplacementEnabled(name: string, newConfig: Entries, oldOrder: Option<int>)
    requires Replacement(name, newConfig, oldOrder).Ok?
    ensures Replacement(name, newConfig, oldOrder).value.Enabled() <==> ConfigEnabled(newConfig)
  {
    ReplacementFacts(name, newConfig, oldOrder);
  }

  /**
   * Import the new controller's module and call its `setUp`: an import failure, a module
   * without the class (None has no `setUp`) and a raising `setUp` are errors.
   */
  function SetUpModule(reg: Registry, r: Record): (res: Result<Module>)
    ensures res.Ok? ==> ImportRecord(reg, r).Ok? && ImportRecord(reg, r).value.Some?
    ensures res.Ok? ==> res.value.log == [SetUp] && SetUp !in res.value.raises
    ensures ImportRecord(reg, r).Err? ==> res == Err(ImportRecord(reg, r).error)
    ensures ImportRecord(reg, r) == Ok(None) ==> res == Err(AttributeError)
  {
    match ImportRecord(reg, r)
    case Err(e) => Err(e)
    case Ok(None) => Err(AttributeError)
    case Ok(Some(m)) =>
      var (m1, out) := Invoke(m, SetUp);
      if out.Raised? then Err(out.error) else Ok(m1)
  }

  /** The module retirement leaves on the old record: the old module after the calls, if there was one. */
  function RetiredMod(old_mod: Option<Module>): Option<Module>
  {
    if old_mod.Some? then Some(Retire(old_mod.value).0) else None
  }

  /**
   * What `reload_controller` goes on to build once the old record is found: the error of
   * retiring its module, or else the replacement record and the module it carries
   * (None when disabled), or the error of building or setting up either.
   */
  function ReloadOutcome(name: string, newConfig: Entries, reg: Registry, old_mod: Option<Module>, oldOrder: Option<int>): Result<(Record, Option<Module>)>
  {
    if old_mod.Some? && Retire(old_mod.value).1.Some? then Err(Retire(old_mod.value).1.value)
    else match Replacement(name, newConfig, oldOrder)
      case Err(e) => Err(e)
      case Ok(rec) =>
        if !ConfigEnabled(newConfig) then Ok((rec, None))
        else match SetUpModule(reg, rec)
          case Err(e) => Err(e)
          case Ok(m) => Ok((rec, Some(m)))
  }

  /**
   * The reload succeeds exactly when the old module retires cleanly, the replacement
   * record is valid, and an enabled replacement's module imports and sets up; the new
   * record then carries the set-up module, or none when disabled.
   */
  lemma ReloadOutcomeFacts(name: string, newConfig: Entries, reg: Registry, old_mod: Option<Module>, oldOrder: Option<int>)
    ensures var out := ReloadOutcome(name, newConfig, reg, old_mod, oldOrder);
      var rec := Replacement(name, newConfig, oldOrder);
      && (out.Ok? <==> (old_mod.None? || Retire(old_mod.value).1.None?) && rec.Ok?
                         && (ConfigEnabled(newConfig) ==> SetUpModule(reg, rec.value).Ok?))
      && (old_mod.Some? && Retire(old_mod.value).1.Some? ==> out == Err(Retire(old_mod.value).1.value))
      && (out.Ok? ==> out.value.0 == rec.value && out.value.0.name == name && out.value.0.config == Some(newConfig))
      && (out.Ok? ==> out.value.1 == (if ConfigEnabled(newConfig) then Some(SetUpModule(reg, rec.value).value) else None))
      && (out.Ok? && ConfigEnabled(newConfig) ==> out.value.1.value.log == [SetUp])
  {
    ReplacementFacts(name, newConfig, oldOrder);
  }

  /** A valid new configuration for a module that retires without raising reloads when the new module imports and sets up. */
  lemma ReloadSucceeds(name: string, newConfig: Entries, reg: Registry, old_mod: Option<Module>, oldOrder: Option<int>)
    requires old_mod.Some? ==> IsStarted !in old_mod.value.raises && Stop !in old_mod.value.raises && TearDown !in old_mod.value.raises
    requires Replacement(name, newConfig, oldOrder).Ok?
    requires ConfigEnabled(newConfig) ==> SetUpModule(reg, Replacement(name, newConfig, oldOrder).value).Ok?
    ensures ReloadOutcome(name, newConfig, reg, old_mod, oldOrder).Ok?
  {
    if old_mod.Some? {
      RetireCalls(old_mod.value);
    }
  }

  /** Retire a record's module, if it has one, and keep the module as the calls left it. */
  method RetireEntry(ctrl: Entry) returns (st: Status)
    modifies ctrl
    ensures ctrl.mod == RetiredMod(old(ctrl.mod))
    ensures st == (if old(ctrl.mod).Some? then Retire(old(ctrl.mod).value).1 else None)
    ensures (ctrl.wasStopped, ctrl.node, ctrl.alias) == old((ctrl.wasStopped, ctrl.node, ctrl.alias))
  {
    st := None;
    if ctrl.mod.Some? {
      var (m, err) := Retire(ctrl.mod.value);
      ctrl.mod := Some(m);
      st := err;
    }
  }

  /**
   * Build the replacement record object: the record, then, when its configuration
   * enables it, the imported module after `setUp`.
   */
  method BuildReplacement(name: string, newConfig: Entries, reg: Registry, oldOrder: Option<int>) returns (r: Result<Entry>)
    ensures var out := ReloadOutcome(name, newConfig, reg, None, oldOrder);
      && (r.Err? <==> out.Err?)
      && (r.Err? ==> r.error == out.error)
      && (r.Ok? ==> fresh(r.value) && r.value.rec == out.value.0 && r.value.mod == out.value.1
                    && r.value.wasStopped == r.value.rec.Field("wasStopped").Truthy() && r.value.agents == [])
  {
    var rec := Replacement(name, newConfig, oldOrder);
    if rec.Err? {
      return Err(rec.error);
    }
    var mod: Option<Module> := None;
    if ConfigEnabled(newConfig) {
      var loaded := SetUpModule(reg, rec.value);
      if loaded.Err? {
        return Err(loaded.error);
      }
      mod := Some(loaded.value);
    }
    var container := new Entry(rec.value, []);
    container.mod := mod;
    return Ok(container);
  }

  /** In a list without repeats no object occurs more than once. */
  lemma {:induction false} DistinctAtMostOnce(s: seq<Entry>)
    requires Distinct(s)
    ensures forall x :: multiset(s)[x] <= 1
    decreases |s|
  {
    if |s| > 0 {
      var init := s[..|s| - 1];
      var y := s[|s| - 1];
      assert s == init + [y];
      assert y !in init;
      assert Distinct(init) by {
        forall i, j | 0 <= i < j < |init| ensures init[i] != init[j] {
          assert init[i] == s[i] && init[j] == s[j];
        }
      }
      DistinctAtMostOnce(init);
    }
  }

  /** A list with a repeat holds some object at least twice. */
  lemma RepeatCounted(s: seq<Entry>, i: nat, j: nat)
    requires i < j < |s| && s[i] == s[j]
    ensures multiset(s)[s[j]] >= 2
  {
    assert s == s[..j] + [s[j]] + s[j + 1..];
    assert s[i] in s[..j];
  }

  /** Reordering a list without repeats leaves it without repeats. */
  lemma DistinctPermuted(a: seq<Entry>, b: seq<Entry>)
    requires Distinct(a) && multiset(a) == multiset(b)
    ensures Distinct(b)
  {
    DistinctAtMostOnce(a);
    if !Distinct(b) {
      var i, j :| 0 <= i < j < |b| && b[i] == b[j];
      RepeatCounted(b, i, j);
    }
  }

  /** Dropping the records of a name from a list without repeats leaves one without repeats. */
  lemma {:induction false} WithoutDistinct(cfg: seq<Entry>, name: string)
    requires Distinct(cfg)
    ensures Distinct(Without(cfg, name))
    decreases |cfg|
  {
    if |cfg| > 0 {
      var init := cfg[..|cfg| - 1];
      assert Distinct(init) by {
        forall i, j | 0 <= i < j < |init| ensures init[i] != init[j] {
          assert init[i] == cfg[i] && init[j] == cfg[j];
        }
      }
      WithoutDistinct(init, name);
      var last := cfg[|cfg| - 1];
      if last.rec.name != name {
        assert last !in init;
        var w := Without(init, name);
        assert last !in w;
        assert Distinct(w + [last]) by {
          forall i, j | 0 <= i < j < |w + [last]| ensures (w + [last])[i] != (w + [last])[j] {
            if j == |w| {
              assert (w + [last])[i] == w[i];
            } else {
              assert (w + [last])[i] == w[i] && (w + [last])[j] == w[j];
            }
          }
        }
      }
    }
  }

  /** Splicing a record that was not in the list into a list without repeats gives a list without repeats. */
  lemma SplicedDistinct(cfg: seq<Entry>, c: Entry, name: string)
    requires Distinct(cfg) && c !in cfg
    ensures Distinct(Spliced(cfg, c, name))
  {
    var w := Without(cfg, name);
    WithoutDistinct(cfg, name);
    var kept := [c] + w;
    assert c !in w;
    assert Distinct(kept) by {
      forall i, j | 0 <= i < j < |kept| ensures kept[i] != kept[j] {
        assert kept[j] == w[j - 1];
        if i > 0 {
          assert kept[i] == w[i - 1];
        }
      }
    }
    SortPermutes(kept, EntryKey);
    DistinctPermuted(kept, Spliced(cfg, c, name));
  }

  /** The loop of `reload_controller` that keeps every record of another name. */
  method Others(cfg: seq<Entry>, name: string) returns (kept: seq<Entry>)
    ensures kept == Without(cfg, name)
  {
    kept := [];
    var i := 0;
    while i < |cfg|
      invariant 0 <= i <= |cfg|
      invariant kept == Without(cfg[..i], name)
    {
      assert cfg[..i + 1][..i] == cfg[..i];
      if cfg[i].rec.name != name {
        kept := kept + [cfg[i]];
      }
      i := i + 1;
    }
    assert cfg[..i] == cfg;
  }

  /** The agents of a prefix's agencies are agents of the whole list's agencies. */
  lemma AgentObjectsPrefix(cfg: seq<Entry>, k: nat)
    requires k <= |cfg|
    ensures AgentObjects(cfg[..k]) <= AgentObjects(cfg)
  {
    forall a | a in AgentObjects(cfg[..k]) ensures a in AgentObjects(cfg) {
      var e :| e in cfg[..k] && a in e.agents;
      assert e in cfg;
    }
  }

  /** Every agent of a listed agency is in the list's agent objects. */
  lemma AgentObjectsHas(cfg: seq<Entry>, i: nat)
    requires i < |cfg|
    ensures (set a | a in cfg[i].agents) <= AgentObjects(cfg)
  {
    forall a | a in cfg[i].agents ensures a in AgentObjects(cfg) {
      assert cfg[i] in cfg;
    }
  }

  /**
   * The part of `reload_controller` after the record is found: retire its module, build
   * the replacement, and give the store with the new record list and section. On an
   * error the store is given back as it was.
   */
  method ReloadFound(s: Store, i: nat, name: string, newConfig: Entries, reg: Registry)
    returns (st: Status, next: Store, ghost added: Option<Entry>)
    requires i < |s.cfg|
    modifies s.cfg[i]
    ensures s.cfg[i].mod == RetiredMod(old(s.cfg[i].mod))
    ensures (s.cfg[i].wasStopped, s.cfg[i].node, s.cfg[i].alias) == old((s.cfg[i].wasStopped, s.cfg[i].node, s.cfg[i].alias))
    ensures var out := ReloadOutcome(name, newConfig, reg, old(s.cfg[i].mod), s.cfg[i].rec.order);
      && (out.Err? ==> st == Some(out.error) && next == s && added.None?)
      && (out.Ok? ==> (st.None? && added.Some? && fresh(added.value)
            && added.value.rec == out.value.0 && added.value.mod == out.value.1
            && added.value.wasStopped == added.value.rec.Field("wasStopped").Truthy()
            && next == s.(cfg := Spliced(s.cfg, added.value, name), configobj := s.configobj[name := newConfig])))
  {
    added := None;
    next := s;
    var ctrl := s.cfg[i];
    st := RetireEntry(ctrl);
    if st.Some? {
      return;
    }
    var built := BuildReplacement(name, newConfig, reg, ctrl.rec.order);
    if built.Err? {
      st := Some(built.error);
      return;
    }
    var container := built.value;
    var kept := Others(s.cfg, name);
    next := s.(cfg := SortBy([container] + kept, EntryKey), configobj := s.configobj[name := newConfig]);
    added := Some(container);
  }

  /** The exports of a list of records, in list order. */
  function ExportAll(cfg: seq<Entry>): (ds: seq<Data>)
    reads AgentObjects(cfg), set e | e in cfg
    ensures |ds| == |cfg|
    decreases |cfg|
  {
    if |cfg| == 0 then []
    else
      AgentObjectsPrefix(cfg, |cfg| - 1);
      AgentObjectsHas(cfg, |cfg| - 1);
      ExportAll(cfg[..|cfg| - 1]) + [Export(cfg[|cfg| - 1])]
  }

  /** The i-th export is the export of the i-th record. */
  lemma {:induction false} ExportAllAt(cfg: seq<Entry>, i: nat)
    requires i < |cfg|
    ensures ExportAll(cfg)[i] == Export(cfg[i])
    decreases |cfg|
  {
    if i < |cfg| - 1 {
      ExportAllAt(cfg[..|cfg| - 1], i);
    }
  }

  /** The export of a shortcut record, or the empty string when the store has none. */
  function ShortcutExport(s: Store, name: string): (d: Data)
    reads AgentObjects(s.cfg), set e | e in s.cfg
    ensures Shortcut(s, name).None? <==> d == DStr("")
    ensures Shortcut(s, name).Some? ==> d == Export(Shortcut(s, name).value)
  {
    match FindLast(s.cfg, name)
    case None => DStr("")
    case Some(i) => AgentObjectsHas(s.cfg, i); Export(s.cfg[i])
  }

  const ExportKeys: set<string> := {"cfg", "filename", "director", "agency", "broker", "webadmin"}

  /**
   * `export_configuration` on a store: every record's export in list order, the file
   * name, and the exports of the four shortcut records, the empty string for an absent one.
   */
  function ExportStore(s: Store): (d: Data)
    reads AgentObjects(s.cfg), set e | e in s.cfg
    ensures d.DDict? && d.fields.Keys == ExportKeys
  {
    DDict(map["cfg" := DList(ExportAll(s.cfg)), "filename" := DStr(s.filename),
              "director" := ShortcutExport(s, "director"), "agency" := ShortcutExport(s, "agency"),
              "broker" := ShortcutExport(s, "broker"), "webadmin" := ShortcutExport(s, "webadmin")])
  }

  /** The export's record list, file name and four shortcut entries. */
  lemma ExportStoreFields(s: Store)
    ensures ExportStore(s).fields["cfg"] == DList(ExportAll(s.cfg))
    ensures ExportStore(s).fields["filename"] == DStr(s.filename)
    ensures ExportStore(s).fields["director"] == ShortcutExport(s, "director")
    ensures ExportStore(s).fields["agency"] == ShortcutExport(s, "agency")
    ensures ExportStore(s).fields["broker"] == ShortcutExport(s, "broker")
    ensures ExportStore(s).fields["webadmin"] == ShortcutExport(s, "webadmin")
  {
  }

  /** The module-level `__config`: no store until `set_cfg`, and again after `clear`. */
  class ConfigState {
    var store: Option<Store>

    /** The stored record list holds no record object twice. */
    predicate Valid()
      reads this
    {
      store.Some? ==> Distinct(store.value.cfg)
    }

    /** The records the store holds, which `reload_controller` may change. */
    function Held(): set<Entry>
      reads this
    {
      if store.Some? then set e | e in store.value.cfg else {}
    }

    constructor ()
      ensures store.None? && Valid()
    {
      store := None;
    }

    /** `clear`. */
    method Clear()
      modifies this
      ensures store.None? && Valid()
    {
      store := None;
    }

    /** `get_cfg`: the store, or ConfigNotSetup before `set_cfg`. */
    method GetCfg() returns (r: Result<Store>)
      ensures r.Err? <==> store.None?
      ensures r.Err? ==> r.error == ConfigNotSetup
      ensures r.Ok? ==> Some(r.value) == store
    {
      if store.None? {
        return Err(ConfigNotSetup);
      }
      return Ok(store.value);
    }

    /** `update_objs`: a new record list under the old raw text, sections and file name. */
    method UpdateObjs(cfg: seq<Entry>) returns (st: Status)
      modifies this
      ensures old(store).None? ==> st == Some(ConfigNotSetup) && store.None?
      ensures old(store).Some? ==> st.None? && store == Some(old(store).value.(cfg := cfg))
      ensures Distinct(cfg) ==> Valid()
    {
      if store.None? {
        return Some(ConfigNotSetup);
      }
      store := Some(store.value.(cfg := cfg));
      return None;
    }

    /**
     * `set_cfg`: recover the records from the file's sections and keep them with the raw
     * text, the sections by name and the file name. A failing recovery leaves the old store.
     */
    method SetCfg(raw: string, ss: seq<Section>, filename: string) returns (st: Status)
      modifies this
      ensures st.Some? <==> Recover(ss).Err?
      ensures st.Some? ==> st.value == Recover(ss).error && store == old(store)
      ensures st.None? ==> UniqueNames(ss) && store.Some? && store.value.raw == raw && store.value.filename == filename
      ensures st.None? ==> store.value.configobj == SectionMap(ss) && Recs(store.value.cfg) == Recover(ss).value.top
      ensures st.None? ==> Distinct(store.value.cfg) && forall e :: e in store.value.cfg ==> fresh(e) && Pristine(e)
      ensures old(Valid()) ==> Valid()
    {
      var objs := RecoverObjects(ss);
      if objs.Err? {
        return Some(objs.error);
      }
      store := Some(Store(raw, objs.value, SectionMap(ss), filename));
      return None;
    }

    /** `export_configuration`: the store's export, or ConfigNotSetup before `set_cfg`. */
    method ExportConfiguration() returns (r: Result<Data>)
      ensures r.Err? <==> store.None?
      ensures r.Err? ==> r.error == ConfigNotSetup
      ensures r.Ok? ==> r.value == ExportStore(store.value)
    {
      var s := GetCfg();
      if s.Err? {
        return Err(s.error);
      }
      return Ok(ExportStore(s.value));
    }

    /**
     * `reload_controller`: find the first record of the name, retire its module, build the
     * replacement record from the new configuration (inheriting the old order), load and
     * set up its module when it is enabled, publish the other records with the new one
     * sorted by order, and record the new section. Any failure leaves the store as it was,
     * though the old module stays retired. `added` is the new record.
     */
    method ReloadController(name: string, newConfig: Entries, reg: Registry) returns (st: Status, ghost added: Option<Entry>)
      requires Valid()
      modifies this, Held()
      ensures Valid()
      ensures old(store).None? ==> st == Some(ConfigNotSetup) && store == old(store) && added.None?
      ensures old(store).Some? && FindFirst(old(store).value.cfg, name).None? ==>
        st == Some(ControllerReloadError(name)) && store == old(store) && added.None?
      ensures old(store).Some? && FindFirst(old(store).value.cfg, name).Some? ==>
        var s := old(store).value;
        var ctrl := s.cfg[FindFirst(s.cfg, name).value];
        var out := ReloadOutcome(name, newConfig, reg, old(ctrl.mod), ctrl.rec.order);
        && ctrl.mod == RetiredMod(old(ctrl.mod))
        && (out.Err? ==> st == Some(out.error) && store == old(store) && added.None?)
        && (out.Ok? ==> (st.None? && added.Some? && fresh(added.value)
              && added.value.rec == out.value.0 && added.value.mod == out.value.1
            && added.value.wasStopped == added.value.rec.Field("wasStopped").Truthy()
              && store == Some(s.(cfg := Spliced(s.cfg, added.value, name), configobj := s.configobj[name := newConfig]))))
      ensures old(store).Some? ==> forall e :: e in old(store).value.cfg ==>
        e.wasStopped == old(e.wasStopped) && e.node == old(e.node) && e.alias == old(e.alias) && (e.rec.name != name ==> e.mod == old(e.mod))
    {
      added := None;
      if store.None? {
        return Some(ConfigNotSetup), added;
      }
      var s := store.value;
      var found := FindController(s.cfg, name);
      if found.None? {
        return Some(ControllerReloadError(name)), added;
      }
      var next;
      st, next, added := ReloadFound(s, found.value, name, newConfig, reg);
      if st.None? {
        SplicedDistinct(s.cfg, added.value, name);
      }
      store := Some(next);
    }
  }
}

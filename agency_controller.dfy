/**
 * The controller that runs the agency inside the director: `setUp` builds an agent
 * manager from the configuration section, loads the agency's agents and sets them up;
 * `start`, `stop` and `tearDown` hand on to the manager; `isStarted` and `isStopped`
 * both answer the running flag.
 */
module AgencyCtrl {
  import opened Wrappers
  import opened Lifecycle
  import opened ConfigObjs
  import opened Recovery
  import opened Config
  import opened Sweeps
  import opened AgencyNodes
  import opened AgentManager

  /** The section key that makes the manager keep going past agent errors. */
  const EatKey := "eat_agent_exceptions"

  /**
   * `config.get('eat_agent_exceptions', False)` as the manager reads it: a missing key is
   * False and a present value counts by its Python truth, so every non-empty string,
   * "False" included, turns the flag on.
   */
  predicate EatsExceptions(section: Entries)
  {
    EatKey in section && section[EatKey] != ""
  }

  /** What `isStarted` and `isStopped` return: the running flag, AttributeError before any `setUp`. */
  function Answer(isRunning: Option<bool>): Result<bool>
  {
    if isRunning.None? then Err(AttributeError) else Ok(isRunning.value)
  }

  /** What `isStopped` is documented to return: True once the agency is not running. */
  function StoppedAnswer(isRunning: Option<bool>): Result<bool>
  {
    if isRunning.None? then Err(AttributeError) else Ok(!isRunning.value)
  }

  /**
   * The manager after `load` and `setUp` on a fresh manager, leaving node counts `c1`:
   * the index and counts as LoadIndexed says, and the agents the allotment reached carry
   * its ids. An error of the load is the outcome; without one the indexed agents are set
   * up from the modules `before` the load left in them.
   */
  ghost predicate Loaded(m: Manager, s: Option<Store>, reg: Registry, c0: Counts, ks: seq<AgentKey>, c1: Counts,
                         before: seq<Option<Module>>, st: Status)
    reads m, set a | a in m.members
    reads if IdsAllotted(s, reg, 0) then (set a | a in Shortcut(s.value, "agency").value.agents) else {}
    requires c0.Complete()
  {
    && LoadIndexed(m, s, reg, c0, ks, c1)
    && (IdsAllotted(s, reg, 0) ==> IdsGiven(Shortcut(s.value, "agency").value.agents, Allot(c0, ks).ids))
    && (LoadError(s, reg, c0, ks).Some? ==> st == LoadError(s, reg, c0, ks))
    && (LoadError(s, reg, c0, ks).None? ==>
      && |before| == |m.members|
      && var r := AgentSweep(Recs(m.members), before, Call.SetUp, m.eatAgentExceptions);
      st == r.1 && Mods(m.members) == r.0)
  }

  /** The part of `setUp` after the manager is built: `load`, then the agents' `setUp` when the load succeeded. */
  method LoadAgency(m: Manager, store: ConfigState, reg: Registry, nodes: Nodes, ghost c0: Counts, ghost ks: seq<AgentKey>)
    returns (st: Status, ghost before: seq<Option<Module>>)
    requires m.Valid() && m.aliases == [] && store.Valid() && nodes.Valid()
    requires c0 == nodes.State() && ks == AgencyKeys(store.store)
    requires store.store.Some? ==> AgencyAgentsDistinct(store.store.value)
    modifies m`aliases, m`members, nodes, store
    modifies if store.store.Some? then AgentObjects(store.store.value.cfg) else {}
    ensures m.Valid() && nodes.Valid() && store.store == old(store.store)
    ensures c0.Complete() && Loaded(m, store.store, reg, c0, ks, nodes.State(), before, st)
  {
    before := [];
    var loaded := m.Load(store, reg, nodes, c0, ks);
    if loaded.Err? {
      return Some(loaded.error), before;
    }
    if IdsAllotted(store.store, reg, 0) {
      ShortcutAgentsHeld(store.store.value, "agency");
    }
    st, before := SetUpLoaded(m, store.store, reg, c0, ks, nodes.State());
  }

  /**
   * The agents' `setUp` after a `load` that raised nothing: the sweep changes only the
   * indexed agents' modules, so the index, the counts and the ids the load left stay.
   */
  method SetUpLoaded(m: Manager, ghost s: Option<Store>, reg: Registry, ghost c0: Counts, ghost ks: seq<AgentKey>, ghost c1: Counts)
    returns (st: Status, ghost before: seq<Option<Module>>)
    requires m.Valid() && c0.Complete() && LoadError(s, reg, c0, ks).None?
    requires LoadIndexed(m, s, reg, c0, ks, c1)
    requires IdsAllotted(s, reg, 0) ==> IdsGiven(Shortcut(s.value, "agency").value.agents, Allot(c0, ks).ids)
    modifies m.members`mod
    ensures Loaded(m, s, reg, c0, ks, c1, before, st)
  {
    before := Mods(m.members);
    st := m.SetUp();
  }

  class Controller {
    /** The section `setUp` was given (kept by the base interface). */
    var config: Option<Entries>
    /** None until `setUp` has run. */
    var isRunning: Option<bool>
    /** The agent manager `setUp` creates; null until then. */
    var manager: Manager?

    /** Once there is a manager its index is well formed and the running flag is set. */
    ghost predicate Valid()
      reads this, manager
    {
      manager != null ==> manager.Valid() && isRunning.Some?
    }

    /** The agents the manager indexes, whose modules the sweeps change. */
    function Indexed(): set<Entry>
      reads this, manager
    {
      if manager == null then {} else set a | a in manager.members
    }

    constructor ()
      ensures Valid() && config.None? && isRunning.None? && manager == null
    {
      config, isRunning, manager := None, None, null;
    }

    /**
     * `setUp`: keep the section, clear the running flag, then build a manager whose
     * keep-going flag is the section's `eat_agent_exceptions` and load and set up the
     * agents as LoadAgency describes. Without a section the flag lookup raises
     * AttributeError and no manager is built.
     */
    method SetUp(section: Option<Entries>, store: ConfigState, reg: Registry, nodes: Nodes) returns (st: Status, ghost before: seq<Option<Module>>)
      requires Valid() && store.Valid() && nodes.Valid()
      requires store.store.Some? ==> AgencyAgentsDistinct(store.store.value)
      modifies this, nodes, store
      modifies if store.store.Some? then AgentObjects(store.store.value.cfg) else {}
      ensures Valid() && nodes.Valid() && store.store == old(store.store)
      ensures config == section && isRunning == Some(false)
      ensures section.None? ==> st == Some(AttributeError) && manager == old(manager)
      ensures section.Some? ==> manager != null && fresh(manager) && manager.eatAgentExceptions == EatsExceptions(section.value)
      ensures section.Some? ==> Loaded(manager, store.store, reg, old(nodes.State()), old(AgencyKeys(store.store)), nodes.State(), before, st)
    {
      ghost var c0 := nodes.State();
      ghost var ks := AgencyKeys(store.store);
      config := section;
      isRunning := Some(false);
      if section.None? {
        return Some(AttributeError), [];
      }
      var m := new Manager(EatsExceptions(section.value));
      manager := m;
      st, before := LoadAgency(m, store, reg, nodes, c0, ks);
    }

    /** `start`: start the agents; the agency counts as running only if that did not raise. */
    method Start() returns (st: Status)
      requires Valid()
      modifies this`isRunning, Indexed()`mod
      ensures Valid() && manager == old(manager)
      ensures manager == null ==> st == Some(AttributeError) && isRunning == old(isRunning)
      ensures manager != null ==>
        var r := AgentSweep(Recs(manager.members), old(Mods(manager.members)), Call.Start, manager.eatAgentExceptions);
        && st == r.1 && Mods(manager.members) == r.0
        && isRunning == (if r.1.None? then Some(true) else old(isRunning))
    {
      if manager == null {
        return Some(AttributeError);
      }
      st := manager.Start();
      if st.None? {
        isRunning := Some(true);
      }
    }

    /** `stop`: stop the agents; the agency counts as stopped only if that did not raise. */
    method Stop() returns (st: Status)
      requires Valid()
      modifies this`isRunning, Indexed()`mod
      ensures Valid() && manager == old(manager)
      ensures manager == null ==> st == Some(AttributeError) && isRunning == old(isRunning)
      ensures manager != null ==>
        var r := AgentSweep(Recs(manager.members), old(Mods(manager.members)), Call.Stop, manager.eatAgentExceptions);
        && st == r.1 && Mods(manager.members) == r.0
        && isRunning == (if r.1.None? then Some(false) else old(isRunning))
    {
      if manager == null {
        return Some(AttributeError);
      }
      st := manager.Stop();
      if st.None? {
        isRunning := Some(false);
      }
    }

    /** `isStarted`: the running flag. */
    method IsStarted() returns (r: Result<bool>)
      ensures r == Answer(isRunning)
      ensures r.Ok? <==> isRunning.Some?
    {
      r := if isRunning.None? then Err(AttributeError) else Ok(isRunning.value);
    }

    /** `isStopped`: also the running flag, so it answers True while the agency runs. */
    method IsStopped() returns (r: Result<bool>)
      ensures r == Answer(isRunning)
      ensures r.Ok? <==> isRunning.Some?
    {
      r := if isRunning.None? then Err(AttributeError) else Ok(isRunning.value);
    }

    /** `tearDown`: shut the manager down, which tears the agents down and empties its index. */
    method TearDown() returns (st: Status)
      requires Valid()
      modifies if manager == null then {} else {manager}, Indexed()`mod
      ensures Valid() && manager == old(manager) && isRunning == old(isRunning)
      ensures manager == null ==> st == Some(AttributeError)
      ensures manager != null ==>
        var r := AgentSweep(Recs(old(manager.members)), old(Mods(manager.members)), Call.TearDown, manager.eatAgentExceptions);
        && Mods(old(manager.members)) == r.0
        && (r.1.None? || r.1 == Some(ManagerError) ==> st.None? && manager.members == [])
        && (r.1.Some? && r.1 != Some(ManagerError) ==> st == r.1 && manager.members == old(manager.members))
    {
      if manager == null {
        return Some(AttributeError);
      }
      st := manager.Shutdown();
    }
  }

  /** `isStarted` agrees with a module that tracks its started flag. */
  lemma IsStartedTracks(running: bool, log: seq<Call>)
    ensures Answer(Some(running)) == Ok(Invoke(Module(Tracks, running, log, map[]), IsStarted).1.value)
  {
  }

  /** As written, `isStopped` answers the opposite of a tracking module: False right after a successful `stop`. */
  lemma IsStoppedInverted(running: bool, log: seq<Call>)
    ensures Answer(Some(running)) != Ok(Invoke(Module(Tracks, running, log, map[]), IsStopped).1.value)
    ensures Answer(Some(false)) == Ok(false)
  {
  }

  /** The documented `isStopped` agrees with a module that tracks its started flag. */
  lemma StoppedAnswerTracks(running: bool, log: seq<Call>)
    ensures StoppedAnswer(Some(running)) == Ok(Invoke(Module(Tracks, running, log, map[]), IsStopped).1.value)
    ensures StoppedAnswer(None) == Err(AttributeError)
  {
  }

  /** The flag is on exactly for a present non-empty value: "False" turns it on, a missing key leaves it off. */
  lemma EatsExceptionsTruth(section: Entries, v: string)
    ensures EatsExceptions(section[EatKey := v]) <==> v != ""
    ensures EatsExceptions(map[EatKey := "False"])
    ensures EatKey !in section ==> !EatsExceptions(section)
  {
  }
}

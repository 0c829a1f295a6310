/**
 * The agency's agent manager: `load` gives every agent of the agency record a node id
 * and an alias id and indexes it by alias id; the four sweeps make one lifecycle call on
 * every indexed agent that is not disabled and has a module; `shutdown` tears the agents
 * down and empties the index.
 */
module AgentManager {
  import opened Wrappers
  import opened Lifecycle
  import opened ConfigObjs
  import opened Recovery
  import opened Config
  import opened Sweeps
  import opened AgencyNodes

  // ---------------------------------------------------------------------------------
  // load

  /** What `load` hands to `add` for one agent: its category, its name and its alias attribute. */
  datatype AgentKey = AgentKey(cat: Attr, name: string, alias: Attr)

  function AgentKeys(agents: seq<Entry>): (ks: seq<AgentKey>)
    reads set a | a in agents
    ensures |ks| == |agents|
    ensures forall i :: 0 <= i < |agents| ==> ks[i] == AgentKey(agents[i].rec.Field("cat"), agents[i].rec.name, agents[i].alias)
  {
    seq(|agents|, i reads set a | a in agents requires 0 <= i < |agents| =>
      AgentKey(agents[i].rec.Field("cat"), agents[i].rec.name, agents[i].alias))
  }

  /** The alias ids of a list of ids, as strings: the keys of `load`'s alias check. */
  function AliasTexts(ids: seq<Ids>): set<string>
  {
    set k | 0 <= k < |ids| :: ids[k].AliasText()
  }

  /**
   * The state of `load`'s loop after the first agents: the allocator's counts, the ids
   * assigned so far, how many agents are indexed, the alias ids checked in so far
   * (`alias_check`), and the error that ended the loop. An `add` error assigns nothing;
   * a repeated alias id is assigned to its agent but not indexed, and ends the loop with
   * ManagerError.
   */
  datatype Allotment = Allotment(counts: Counts, ids: seq<Ids>, indexed: nat, taken: set<string>, st: Status)

  /** One agent more on a running loop: its `add`, then the alias check. */
  function Next(prev: Allotment, k: AgentKey): (r: Allotment)
    requires prev.counts.Complete() && prev.st.None?
    ensures r.counts.Complete()
  {
    var (c', got) := AddIds(prev.counts, k.cat, k.name, k.alias);
    if got.Err? then prev.(counts := c', st := Some(got.error))
    else if got.value.AliasText() in prev.taken then prev.(counts := c', ids := prev.ids + [got.value], st := Some(ManagerError))
    else Allotment(c', prev.ids + [got.value], prev.indexed + 1, prev.taken + {got.value.AliasText()}, None)
  }

  /** `load`'s loop from agent `i` on, in state `a`: it goes on to the last agent or to the first error. */
  function Run(a: Allotment, ks: seq<AgentKey>, i: nat): (r: Allotment)
    requires a.counts.Complete() && i <= |ks|
    ensures r.counts.Complete()
    decreases |ks| - i
  {
    if i == |ks| || a.st.Some? then a else Run(Next(a, ks[i]), ks, i + 1)
  }

  /** `load`'s loop over all agents, starting from the allocator state `c`. */
  function Allot(c: Counts, ks: seq<AgentKey>): (r: Allotment)
    requires c.Complete()
    ensures r.counts.Complete() && r.indexed <= |r.ids| <= |ks|
  {
    RunSound(Allotment(c, [], 0, {}, None), ks, 0);
    RunLength(Allotment(c, [], 0, {}, None), ks, 0);
    Run(Allotment(c, [], 0, {}, None), ks, 0)
  }

  /**
   * What holds of the loop's state: only ids of indexed agents and at most one more are
   * handed out, every visited agent is indexed while
   * the loop runs, and no two indexed agents share an alias id.
   */
  ghost predicate Sound(r: Allotment)
  {
    && r.indexed <= |r.ids| <= r.indexed + 1
    && (r.st.None? ==> r.indexed == |r.ids| && r.taken == AliasTexts(r.ids))
    && (forall j, k :: 0 <= j < k < r.indexed ==> r.ids[j].AliasText() != r.ids[k].AliasText())
  }

  lemma AliasTextsAppend(ids: seq<Ids>, x: Ids)
    ensures AliasTexts(ids + [x]) == AliasTexts(ids) + {x.AliasText()}
  {
    var ids' := ids + [x];
    forall y | y in AliasTexts(ids) ensures y in AliasTexts(ids') {
      var k :| 0 <= k < |ids| && ids[k].AliasText() == y;
      assert ids'[k] == ids[k];
    }
    assert ids'[|ids|] == x;
  }

  /** One more agent keeps the loop's state sound. */
  lemma NextSound(prev: Allotment, k: AgentKey)
    requires prev.counts.Complete() && prev.st.None? && Sound(prev)
    ensures Sound(Next(prev, k)) && |Next(prev, k).ids| <= |prev.ids| + 1
  {
    var got := AddIds(prev.counts, k.cat, k.name, k.alias).1;
    if got.Ok? && got.value.AliasText() !in prev.taken {
      AliasTextsAppend(prev.ids, got.value);
      var ids := prev.ids + [got.value];
      forall j | 0 <= j < prev.indexed ensures ids[j].AliasText() != got.value.AliasText() {
        assert ids[j] == prev.ids[j];
      }
    }
  }

  /** The loop keeps its state sound. */
  lemma {:induction false} RunSound(a: Allotment, ks: seq<AgentKey>, i: nat)
    requires a.counts.Complete() && i <= |ks| && Sound(a)
    ensures Sound(Run(a, ks, i))
    decreases |ks| - i
  {
    if i < |ks| && a.st.None? {
      NextSound(a, ks[i]);
      RunSound(Next(a, ks[i]), ks, i + 1);
    }
  }

  /** The loop hands out at most one id per agent it visits. */
  lemma {:induction false} RunLength(a: Allotment, ks: seq<AgentKey>, i: nat)
    requires a.counts.Complete() && i <= |ks| && |a.ids| <= i
    ensures |Run(a, ks, i).ids| <= |ks|
    decreases |ks| - i
  {
    if i < |ks| && a.st.None? {
      assert |Next(a, ks[i]).ids| <= |a.ids| + 1;
      RunLength(Next(a, ks[i]), ks, i + 1);
    }
  }

  /** A loop that ends with an error ended at one agent `j`: the step from a sound running state. */
  lemma {:induction false} RunLast(a: Allotment, ks: seq<AgentKey>, i: nat) returns (b: Allotment, j: nat)
    requires a.counts.Complete() && i <= |ks| && Sound(a) && a.st.None? && Run(a, ks, i).st.Some?
    ensures i <= j < |ks| && b.counts.Complete() && b.st.None? && Sound(b) && Run(a, ks, i) == Next(b, ks[j])
    decreases |ks| - i
  {
    NextSound(a, ks[i]);
    if Next(a, ks[i]).st.Some? {
      b, j := a, i;
    } else {
      b, j := RunLast(Next(a, ks[i]), ks, i + 1);
    }
  }

  /**
   * The agents `load` indexes have pairwise distinct alias ids. A ManagerError means
   * the last agent reached was given an alias id an indexed agent already holds.
   */
  lemma AllotIndexesDistinct(c: Counts, ks: seq<AgentKey>)
    requires c.Complete()
    ensures var r := Allot(c, ks);
      && r.indexed <= |r.ids| <= |ks|
      && (forall j, k :: 0 <= j < k < r.indexed ==> r.ids[j].AliasText() != r.ids[k].AliasText())
      && (r.st == Some(ManagerError) ==>
            && |r.ids| == r.indexed + 1
            && exists j :: 0 <= j < r.indexed && r.ids[j].AliasText() == r.ids[r.indexed].AliasText())
  {
    var start := Allotment(c, [], 0, {}, None);
    RunSound(start, ks, 0);
    var r := Allot(c, ks);
    if r.st == Some(ManagerError) {
      var b, i := RunLast(start, ks, 0);
      var out := AddIds(b.counts, ks[i].cat, ks[i].name, ks[i].alias);
      if out.1.Ok? {
        var x := out.1.value;
        NextAdds(b.counts, ks[i], b.ids, b.indexed, b.taken, out.0, x);
        var k :| 0 <= k < |b.ids| && b.ids[k].AliasText() == x.AliasText();
        assert r.ids[k] == b.ids[k];
      }
    }
  }

  /** An agent whose `add` fails ends the loop: no id for it, and the counts are `add`'s. */
  lemma NextFails(c: Counts, k: AgentKey, ids: seq<Ids>, i: nat, taken: set<string>, c': Counts, e: Error)
    requires c.Complete()
    requires AddIds(c, k.cat, k.name, k.alias) == (c', Err(e))
    ensures Next(Allotment(c, ids, i, taken, None), k) == Allotment(c', ids, i, taken, Some(e))
  {
  }

  /**
   * An agent whose `add` succeeds gets its ids appended; it is indexed exactly when its
   * alias id is new, and a repeated alias id ends the loop.
   */
  lemma NextAdds(c: Counts, k: AgentKey, ids: seq<Ids>, i: nat, taken: set<string>, c': Counts, x: Ids)
    requires c.Complete()
    requires AddIds(c, k.cat, k.name, k.alias) == (c', Ok(x))
    ensures x.AliasText() in taken ==> Next(Allotment(c, ids, i, taken, None), k) == Allotment(c', ids + [x], i, taken, Some(ManagerError))
    ensures x.AliasText() !in taken ==> Next(Allotment(c, ids, i, taken, None), k) == Allotment(c', ids + [x], i + 1, taken + {x.AliasText()}, None)
  {
  }

  /**
   * One turn of `load`'s loop, at agent `i` with the alias ids `aliasCheck` checked in:
   * the agent's `add`, then the alias check. Stated against the rest of the loop: an
   * error or a repeated alias id is where the loop ends, a new alias id lets it go on.
   */
  method IndexOne(a: Entry, nodes: Nodes, aliasCheck: set<string>, ghost ks: seq<AgentKey>, ghost i: nat, ghost ids: seq<Ids>)
    returns (got: Result<(string, string)>, ghost x: Ids)
    requires nodes.Valid() && i < |ks| && ks[i] == AgentKey(a.rec.Field("cat"), a.rec.name, a.alias)
    modifies nodes
    ensures nodes.Valid()
    ensures var rest := Run(Allotment(old(nodes.State()), ids, i, aliasCheck, None), ks, i);
      && (got.Err? ==> rest == Allotment(nodes.State(), ids, i, aliasCheck, Some(got.error)))
      && (got.Ok? ==> got.value == (x.NodeText(), x.AliasText()))
      && (got.Ok? && got.value.1 in aliasCheck ==> rest == Allotment(nodes.State(), ids + [x], i, aliasCheck, Some(ManagerError)))
      && (got.Ok? && got.value.1 !in aliasCheck ==>
            rest == Run(Allotment(nodes.State(), ids + [x], i + 1, aliasCheck + {got.value.1}, None), ks, i + 1))
  {
    ghost var c := nodes.State();
    x := Ids("", "", 0, 0);
    got := nodes.Add(a.rec.Field("cat"), a.rec.name, a.alias);
    if got.Err? {
      NextFails(c, ks[i], ids, i, aliasCheck, nodes.State(), got.error);
    } else {
      x := AddIds(c, ks[i].cat, ks[i].name, ks[i].alias).1.value;
      NextAdds(c, ks[i], ids, i, aliasCheck, nodes.State(), x);
    }
  }

  /** The node id and alias id of each of `ids`, as the text `add` returns. */
  function TextsOf(ids: seq<Ids>): (r: seq<(string, string)>)
    ensures |r| == |ids|
  {
    seq(|ids|, k requires 0 <= k < |ids| => (ids[k].NodeText(), ids[k].AliasText()))
  }

  lemma TextsOfAppend(ids: seq<Ids>, x: Ids)
    ensures TextsOf(ids + [x]) == TextsOf(ids) + [(x.NodeText(), x.AliasText())]
  {
  }

  /**
   * `load`'s loop over the agency's agents: each agent's `add`, then its alias check. It
   * returns the ids handed out as text, one pair per agent reached, and indexes each
   * agent under its alias id unless that id was taken. An `add` error or a repeated
   * alias ends the loop; the agents indexed so far stay indexed.
   */
  method IndexAgents(agents: seq<Entry>, nodes: Nodes, ghost ks: seq<AgentKey>)
    returns (st: Status, idTexts: seq<(string, string)>, aliases: seq<string>)
    requires ks == AgentKeys(agents) && nodes.Valid()
    modifies nodes
    ensures nodes.Valid()
    ensures var r := Allot(old(nodes.State()), ks);
      && nodes.State() == r.counts && st == r.st
      && |aliases| == r.indexed && idTexts == TextsOf(r.ids)
      && (forall k :: 0 <= k < r.indexed ==> aliases[k] == idTexts[k].1)
  {
    ghost var r := Allot(nodes.State(), ks);
    ghost var ids: seq<Ids> := [];
    var aliasCheck: set<string> := {};
    st, idTexts, aliases := None, [], [];
    var i := 0;
    while i < |agents|
      invariant i <= |agents| && nodes.Valid() && |ids| == i
      invariant Run(Allotment(nodes.State(), ids, i, aliasCheck, None), ks, i) == r
      invariant idTexts == TextsOf(ids) && |aliases| == i
      invariant forall k :: 0 <= k < i ==> aliases[k] == idTexts[k].1
    {
      var a := agents[i];
      var got; ghost var x;
      got, x := IndexOne(a, nodes, aliasCheck, ks, i, ids);
      if got.Err? {
        return Some(got.error), idTexts, aliases;
      }
      TextsOfAppend(ids, x);
      ids, idTexts := ids + [x], idTexts + [got.value];
      if got.value.1 in aliasCheck {
        return Some(ManagerError), idTexts, aliases;
      }
      aliasCheck := aliasCheck + {got.value.1};
      aliases := aliases + [got.value.1];
      i := i + 1;
    }
  }

  /**
   * Line 142 of `load` for the agents reached: each one's `node` and `alias` become the
   * node id and alias id `add` returned for it; the agents after them are left alone.
   */
  method AssignIds(agents: seq<Entry>, idTexts: seq<(string, string)>)
    requires Distinct(agents) && |idTexts| <= |agents|
    modifies agents`node, agents`alias
    ensures forall k :: 0 <= k < |idTexts| ==> agents[k].node == Str(idTexts[k].0) && agents[k].alias == Str(idTexts[k].1)
    ensures forall k :: |idTexts| <= k < |agents| ==> agents[k].node == old(agents[k].node) && agents[k].alias == old(agents[k].alias)
  {
    var i := 0;
    while i < |idTexts|
      invariant i <= |idTexts|
      invariant forall k :: 0 <= k < i ==> agents[k].node == Str(idTexts[k].0) && agents[k].alias == Str(idTexts[k].1)
      invariant forall k :: i <= k < |agents| ==> agents[k].node == old(agents[k].node) && agents[k].alias == old(agents[k].alias)
    {
      var a := agents[i];
      assert forall k :: 0 <= k < |agents| && k != i ==> agents[k] != a;
      a.node, a.alias := Str(idTexts[i].0), Str(idTexts[i].1);
      i := i + 1;
    }
  }

  // ---------------------------------------------------------------------------------
  // The sweeps

  /**
   * One agent's part in a sweep: an agent disabled 'yes' or without a module is skipped;
   * otherwise the call is made. The status is the error that ends the sweep: an
   * interrupt always, any other error unless the manager keeps going.
   */
  function AgentCall(r: Record, m: Option<Module>, c: Call, keepGoing: bool): (Option<Module>, Status)
  {
    if r.disabled == "yes" || m.None? then (m, None)
    else
      var (m1, err) := CallOn(m, c);
      (m1, if err.Some? && (err.value.IsInterrupt() || !keepGoing) then err else None)
  }

  /**
   * A skipped agent keeps its module and stops nothing; otherwise the call is logged on
   * its module, and its error stops the sweep exactly when it is an interrupt or the
   * manager does not keep going.
   */
  lemma AgentCallFacts(r: Record, m: Option<Module>, c: Call, keepGoing: bool)
    ensures var res := AgentCall(r, m, c, keepGoing);
      && (r.disabled == "yes" || m.None? ==> res == (m, None))
      && (r.disabled != "yes" && m.Some? ==> res.0 == CallOn(m, c).0 && res.0.value.log == m.value.log + [c])
      && (res.1.Some? <==> (r.disabled != "yes" && m.Some? && c in m.value.raises
        && (m.value.raises[c].IsInterrupt() || !keepGoing)))
      && (res.1.Some? ==> res.1.value == m.value.raises[c])
  {
  }

  function AgentStatuses(rs: seq<Record>, ms: seq<Option<Module>>, c: Call, keepGoing: bool): (r: seq<Status>)
    requires |rs| == |ms|
    ensures |r| == |ms| && forall i :: 0 <= i < |ms| ==> r[i] == AgentCall(rs[i], ms[i], c, keepGoing).1
  {
    seq(|ms|, i requires 0 <= i < |ms| => AgentCall(rs[i], ms[i], c, keepGoing).1)
  }

  /**
   * A sweep over the indexed agents in index order: the modules after it and the error
   * that propagates from it. The sweep stops after the first call whose error ends it.
   */
  function AgentSweep(rs: seq<Record>, ms: seq<Option<Module>>, c: Call, keepGoing: bool): (r: (seq<Option<Module>>, Status))
    requires |rs| == |ms|
    ensures |r.0| == |ms|
    ensures forall i :: 0 <= i < |ms| ==>
      r.0[i] == (if i < Reach(AgentStatuses(rs, ms, c, keepGoing), true) then AgentCall(rs[i], ms[i], c, keepGoing).0 else ms[i])
  {
    var n := Reach(AgentStatuses(rs, ms, c, keepGoing), true);
    (seq(|ms|, i requires 0 <= i < |ms| => if i < n then AgentCall(rs[i], ms[i], c, keepGoing).0 else ms[i]),
     StopError(AgentStatuses(rs, ms, c, keepGoing), true))
  }

  /** A skipped agent is untouched by a sweep, whether or not the sweep reaches it. */
  lemma SweepSkips(rs: seq<Record>, ms: seq<Option<Module>>, c: Call, keepGoing: bool, i: nat)
    requires |rs| == |ms| && i < |ms| && (rs[i].disabled == "yes" || ms[i].None?)
    ensures AgentSweep(rs, ms, c, keepGoing).0[i] == ms[i]
  {
  }

  /**
   * A sweep that meets no interrupt while keeping going reaches every agent: each agent
   * that is not skipped gets the call exactly once, and nothing propagates.
   */
  lemma SweepKeepsGoing(rs: seq<Record>, ms: seq<Option<Module>>, c: Call, i: nat)
    requires |rs| == |ms| && i < |ms|
    requires forall k :: 0 <= k < |ms| && ms[k].Some? && c in ms[k].value.raises ==> !ms[k].value.raises[c].IsInterrupt()
    requires rs[i].disabled != "yes" && ms[i].Some?
    ensures AgentSweep(rs, ms, c, true).1.None?
    ensures AgentSweep(rs, ms, c, true).0[i].Some? && AgentSweep(rs, ms, c, true).0[i].value.log == ms[i].value.log + [c]
  {
    var ss := AgentStatuses(rs, ms, c, true);
    assert forall k :: 0 <= k < |ss| ==> ss[k].None?;
    assert FirstSome(ss).None?;
  }

  /**
   * An interrupt always propagates: the sweep's error is the first stopping error, so it
   * is Some and no agent after the interrupted one is reached.
   */
  lemma SweepInterrupted(rs: seq<Record>, ms: seq<Option<Module>>, c: Call, keepGoing: bool, i: nat)
    requires |rs| == |ms| && i < |ms|
    requires rs[i].disabled != "yes" && ms[i].Some? && c in ms[i].value.raises && ms[i].value.raises[c].IsInterrupt()
    ensures AgentSweep(rs, ms, c, keepGoing).1.Some?
    ensures forall k :: i < k < |ms| ==> AgentSweep(rs, ms, c, keepGoing).0[k] == ms[k]
  {
    var ss := AgentStatuses(rs, ms, c, keepGoing);
    assert ss[i].Some?;
  }

  /**
   * One sweep over the index's agents. `reached` counts the agents visited; the statuses
   * and modules are characterised agent by agent.
   */
  method SweepAgents(members: seq<Entry>, c: Call, keepGoing: bool, ghost rs: seq<Record>, ghost ms: seq<Option<Module>>)
    returns (st: Status, ghost reached: nat)
    requires Distinct(members) && rs == Recs(members) && ms == Mods(members)
    modifies members`mod
    ensures reached <= |members|
    ensures forall k :: 0 <= k < |members| ==> members[k].mod == (if k < reached then AgentCall(rs[k], ms[k], c, keepGoing).0 else ms[k])
    ensures st.None? ==> reached == |members| && forall k :: 0 <= k < |members| ==> AgentCall(rs[k], ms[k], c, keepGoing).1.None?
    ensures st.Some? ==> (0 < reached && st == AgentCall(rs[reached - 1], ms[reached - 1], c, keepGoing).1
      && forall k :: 0 <= k < reached - 1 ==> AgentCall(rs[k], ms[k], c, keepGoing).1.None?)
  {
    var i := 0;
    while i < |members|
      invariant i <= |members|
      invariant forall k :: 0 <= k < i ==> members[k].mod == AgentCall(rs[k], ms[k], c, keepGoing).0
      invariant forall k :: i <= k < |members| ==> members[k].mod == ms[k]
      invariant forall k :: 0 <= k < i ==> AgentCall(rs[k], ms[k], c, keepGoing).1.None?
    {
      var a := members[i];
      assert forall k :: 0 <= k < |members| && k != i ==> members[k] != a;
      var (m, failed) := AgentCall(a.rec, a.mod, c, keepGoing);
      a.mod := m;
      if failed.Some? {
        return failed, i + 1;
      }
      i := i + 1;
    }
    return None, i;
  }

  /** A sweep over the agents is the AgentSweep of their records and modules. */
  lemma SweepRan(rs: seq<Record>, ms: seq<Option<Module>>, c: Call, keepGoing: bool, n: nat, st: Status, after: seq<Option<Module>>)
    requires |rs| == |ms| && |after| == |ms| && n <= |ms|
    requires forall k :: 0 <= k < |ms| ==> after[k] == (if k < n then AgentCall(rs[k], ms[k], c, keepGoing).0 else ms[k])
    requires st.None? ==> n == |ms| && forall k :: 0 <= k < |ms| ==> AgentCall(rs[k], ms[k], c, keepGoing).1.None?
    requires st.Some? ==> (0 < n && st == AgentCall(rs[n - 1], ms[n - 1], c, keepGoing).1
      && forall k :: 0 <= k < n - 1 ==> AgentCall(rs[k], ms[k], c, keepGoing).1.None?)
    ensures after == AgentSweep(rs, ms, c, keepGoing).0 && st == AgentSweep(rs, ms, c, keepGoing).1
  {
    RanReach(AgentStatuses(rs, ms, c, keepGoing), true, n, st);
  }

  // ---------------------------------------------------------------------------------
  // The manager

  /** The agency record of a store holds no agent object twice. */
  predicate AgencyAgentsDistinct(s: Store)
  {
    Shortcut(s, "agency").Some? ==> Distinct(Shortcut(s, "agency").value.agents)
  }

  /** The agency record's agents are among the store's agent objects. */
  lemma ShortcutAgentsHeld(s: Store, name: string)
    requires Shortcut(s, name).Some?
    ensures forall a :: a in Shortcut(s, name).value.agents ==> a in AgentObjects(s.cfg)
  {
    AgentObjectsHas(s.cfg, FindLast(s.cfg, name).value);
  }

  /**
   * The configuration part of `load`: get the configuration, import the enabled agency
   * agents' modules into its records, store the records back and get the configuration
   * again. The store is unchanged; only the agents' modules change, those the imports
   * reached before the first failure.
   */
  method LoadConfig(config: ConfigState, reg: Registry) returns (r: Result<Store>)
    requires config.Valid()
    modifies config, if config.store.Some? then AgentObjects(config.store.value.cfg) else {}
    ensures config.Valid() && config.store == old(config.store)
    ensures old(config.store).None? ==> r == Err(ConfigNotSetup)
    ensures old(config.store).Some? ==>
      var loaded := FirstAgentFailure(EnabledAgencyAgents(config.store.value.cfg), reg);
      && (loaded.Some? ==> r == Err(loaded.value))
      && (loaded.None? ==> r == Ok(config.store.value))
    ensures old(config.store).Some? ==> forall a :: a in AgentObjects(config.store.value.cfg) ==> a.node == old(a.node) && a.alias == old(a.alias)
    ensures old(config.store).Some? ==> forall a :: a in AgentObjects(config.store.value.cfg) ==>
      var visit := EnabledAgencyAgents(config.store.value.cfg);
      a.mod == (if a in visit[..ImportsReached(visit, reg)] && a.rec.Enabled() then ImportedOr(reg, a.rec, old(a.mod)) else old(a.mod))
  {
    var got := config.GetCfg();
    if got.Err? {
      return Err(got.error);
    }
    var cfg := got.value.cfg;
    var loaded := LoadAgents(cfg, reg);
    if loaded.Some? {
      return Err(loaded.value);
    }
    var _ := config.UpdateObjs(cfg);
    r := config.GetCfg();
  }

  /**
   * Whether `load` on a manager holding `held` agents reaches the id allotment: none held,
   * every import succeeds, and the record named agency is an agency.
   */
  predicate IdsAllotted(s: Option<Store>, reg: Registry, held: nat)
  {
    && held == 0 && s.Some?
    && FirstAgentFailure(EnabledAgencyAgents(s.value.cfg), reg).None?
    && Shortcut(s.value, "agency").Some? && Shortcut(s.value, "agency").value.rec.kind == Agency
  }

  /** The agents `load` may give new ids: the agency record's agents when the allotment is reached, none otherwise. */
  function IdTargets(s: Option<Store>, reg: Registry, held: nat): seq<Entry>
  {
    if IdsAllotted(s, reg, held) then Shortcut(s.value, "agency").value.agents else []
  }

  /** The keys `load` allots ids from: those of the agency record's agents, none without one. */
  function AgencyKeys(s: Option<Store>): seq<AgentKey>
    reads if s.Some? then AgentObjects(s.value.cfg) else {}
  {
    if s.Some? && Shortcut(s.value, "agency").Some? && Shortcut(s.value, "agency").value.rec.kind == Agency then
      ShortcutAgentsHeld(s.value, "agency");
      AgentKeys(Shortcut(s.value, "agency").value.agents)
    else []
  }

  /** The agency keys depend on the agents' aliases only: while those are kept, so are the keys. */
  twostate lemma AgencyKeysKept(s: Option<Store>)
    requires s.Some? ==> forall a :: a in AgentObjects(s.value.cfg) ==> a.alias == old(a.alias)
    ensures AgencyKeys(s) == old(AgencyKeys(s))
  {
    if s.Some? && Shortcut(s.value, "agency").Some? && Shortcut(s.value, "agency").value.rec.kind == Agency {
      ShortcutAgentsHeld(s.value, "agency");
      var agents := Shortcut(s.value, "agency").value.agents;
      assert forall i :: 0 <= i < |agents| ==> AgentKeys(agents)[i] == old(AgentKeys(agents))[i];
    }
  }

  /** The agents an allotment reached carry the node and alias ids it gave them, in order. */
  ghost predicate IdsGiven(agents: seq<Entry>, ids: seq<Ids>)
    reads (set a | a in agents)`node, (set a | a in agents)`alias
  {
    |ids| <= |agents| && forall k :: 0 <= k < |ids| ==> agents[k].node == Str(ids[k].NodeText()) && agents[k].alias == Str(ids[k].AliasText())
  }

  /**
   * The error `load` raises from store `s`, registry `reg`, node counts `c0` and agent
   * keys `ks` on a fresh manager: ConfigNotSetup, the first import failure, AttributeError
   * for a record named agency that is not one, or the allotment's error; None when it
   * succeeds, with or without an agency.
   */
  function LoadError(s: Option<Store>, reg: Registry, c0: Counts, ks: seq<AgentKey>): Status
    requires c0.Complete()
  {
    if s.None? then Some(ConfigNotSetup)
    else
      var loaded := FirstAgentFailure(EnabledAgencyAgents(s.value.cfg), reg);
      var agency := Shortcut(s.value, "agency");
      if loaded.Some? then loaded
      else if agency.None? then None
      else if agency.value.rec.kind != Agency then Some(AttributeError)
      else Allot(c0, ks).st
  }

  /**
   * The index and node counts `c1` that `load` leaves on manager `m`: nothing indexed and the counts as
   * they were when it stops before the allotment; otherwise the allotment's counts, with
   * the agents it reached indexed under their alias ids.
   */
  ghost predicate LoadIndexed(m: Manager, s: Option<Store>, reg: Registry, c0: Counts, ks: seq<AgentKey>, c1: Counts)
    reads m
    requires c0.Complete()
  {
    if !IdsAllotted(s, reg, 0) then m.aliases == [] && m.members == [] && c1 == c0
    else
      var agents := Shortcut(s.value, "agency").value.agents;
      var a := Allot(c0, ks);
      && |a.ids| <= |agents| && m.members == agents[..a.indexed] && c1 == a.counts
      && |m.aliases| == a.indexed && forall k :: 0 <= k < a.indexed ==> m.aliases[k] == a.ids[k].AliasText()
  }

  /** What `load` returns on a fresh manager: its error, or the agency record's agents, none without an agency. */
  function LoadResult(s: Option<Store>, reg: Registry, c0: Counts, ks: seq<AgentKey>): Result<seq<Entry>>
    requires c0.Complete()
  {
    match LoadError(s, reg, c0, ks)
    case Some(e) => Err(e)
    case None => Ok(if IdsAllotted(s, reg, 0) then Shortcut(s.value, "agency").value.agents else [])
  }

  class Manager {
    /** The keys of `_agents`, alias ids, in the order the sweeps visit them. */
    var aliases: seq<string>
    /** The agents `_agents` holds, one per alias id, in the same order. */
    var members: seq<Entry>
    const eatAgentExceptions: bool

    /** One agent per alias id, no alias id twice, no agent object twice. */
    ghost predicate Valid()
      reads this
    {
      && |aliases| == |members|
      && (forall j, k :: 0 <= j < k < |aliases| ==> aliases[j] != aliases[k])
      && Distinct(members)
    }

    /** `_agents` as a dictionary from alias id to agent. */
    function Index(): (m: map<string, Entry>)
      requires Valid()
      reads this
      ensures m.Keys == set k | 0 <= k < |aliases| :: aliases[k]
      ensures forall k :: 0 <= k < |aliases| ==> m[aliases[k]] == members[k]
    {
      map k | 0 <= k < |aliases| :: aliases[k] := members[k]
    }

    constructor (eat: bool)
      ensures Valid() && aliases == [] && members == [] && eatAgentExceptions == eat
    {
      aliases, members := [], [];
      eatAgentExceptions := eat;
    }

    /** `keep_going_on_exceptions`: the flag the manager was built with. */
    method KeepGoingOnExceptions() returns (b: bool)
      ensures b == eatAgentExceptions
    {
      return eatAgentExceptions;
    }

    /** `getAgentCount`: the number of indexed agents. */
    method GetAgentCount() returns (n: nat)
      requires Valid()
      ensures n == |Index()|
    {
      assert Index().Keys == set k | 0 <= k < |aliases| :: aliases[k];
      IndexSize(aliases, members);
      return |aliases|;
    }

    /**
     * `agent(alias, absolute)`: the agent indexed under '/agent/' + alias, or under alias
     * itself when `absolute`; ManagerError when there is none.
     */
    method Agent(alias: string, absolute: bool) returns (r: Result<Entry>)
      requires Valid()
      ensures var full := if absolute then alias else "/agent/" + alias;
        && (r.Err? <==> full !in Index())
        && (r.Err? ==> r.error == ManagerError)
        && (r.Ok? ==> r.value == Index()[full])
    {
      var full := if absolute then alias else "/agent/" + alias;
      if full !in Index() {
        return Err(ManagerError);
      }
      return Ok(Index()[full]);
    }

    /**
     * `load`: refuse to run twice without a shutdown, import the agents' modules, then
     * index the agency record's agents as IndexAgency describes. Without an agency record
     * nothing is indexed and the result is empty; when the record named agency is not an
     * agency (a reload replaced it by a plain controller) reading its agents raises
     * AttributeError. Node counts and agent ids change only through the indexing.
     */
    method Load(config: ConfigState, reg: Registry, nodes: Nodes, ghost c0: Counts, ghost ks: seq<AgentKey>) returns (r: Result<seq<Entry>>)
      requires Valid() && config.Valid() && nodes.Valid()
      requires c0 == nodes.State() && ks == AgencyKeys(config.store)
      requires config.store.Some? ==> AgencyAgentsDistinct(config.store.value)
      modifies this`aliases, this`members, nodes, config
      modifies if config.store.Some? then AgentObjects(config.store.value.cfg) else {}
      ensures Valid() && nodes.Valid() && config.store == old(config.store)
      ensures |old(aliases)| > 0 ==> r == Err(ManagerError) && aliases == old(aliases) && members == old(members) && nodes.State() == c0
      ensures |old(aliases)| > 0 && config.store.Some? ==> forall x :: x in AgentObjects(config.store.value.cfg) ==> x.mod == old(x.mod)
      ensures |old(aliases)| == 0 ==> r == LoadResult(config.store, reg, c0, ks) && LoadIndexed(this, config.store, reg, c0, ks, nodes.State())
      ensures IdsAllotted(config.store, reg, |old(aliases)|) ==> IdsGiven(Shortcut(config.store.value, "agency").value.agents, Allot(c0, ks).ids)
      ensures config.store.Some? ==> forall x :: x in AgentObjects(config.store.value.cfg) && x !in IdTargets(config.store, reg, |old(aliases)|) ==>
        x.node == old(x.node) && x.alias == old(x.alias)
      ensures |old(aliases)| == 0 && config.store.Some? ==>
        var visit := EnabledAgencyAgents(config.store.value.cfg);
        forall x :: x in AgentObjects(config.store.value.cfg) ==>
          x.mod == (if x in visit[..ImportsReached(visit, reg)] && x.rec.Enabled() then ImportedOr(reg, x.rec, old(x.mod)) else old(x.mod))
    {
      if |aliases| > 0 {
        return Err(ManagerError);
      }
      r := LoadFresh(config, reg, nodes, c0, ks);
    }

    /** `load` on a manager that holds no agents: import the modules, then index the agency's agents. */
    method LoadFresh(config: ConfigState, reg: Registry, nodes: Nodes, ghost c0: Counts, ghost ks: seq<AgentKey>) returns (r: Result<seq<Entry>>)
      requires Valid() && aliases == [] && config.Valid() && nodes.Valid()
      requires c0 == nodes.State() && ks == AgencyKeys(config.store)
      requires config.store.Some? ==> AgencyAgentsDistinct(config.store.value)
      modifies this`aliases, this`members, nodes, config
      modifies if config.store.Some? then AgentObjects(config.store.value.cfg) else {}
      ensures Valid() && nodes.Valid() && config.store == old(config.store)
      ensures r == LoadResult(config.store, reg, c0, ks) && LoadIndexed(this, config.store, reg, c0, ks, nodes.State())
      ensures IdsAllotted(config.store, reg, 0) ==> IdsGiven(Shortcut(config.store.value, "agency").value.agents, Allot(c0, ks).ids)
      ensures config.store.Some? ==> forall x :: x in AgentObjects(config.store.value.cfg) && x !in IdTargets(config.store, reg, 0) ==>
        x.node == old(x.node) && x.alias == old(x.alias)
      ensures config.store.Some? ==>
        var visit := EnabledAgencyAgents(config.store.value.cfg);
        forall x :: x in AgentObjects(config.store.value.cfg) ==>
          x.mod == (if x in visit[..ImportsReached(visit, reg)] && x.rec.Enabled() then ImportedOr(reg, x.rec, old(x.mod)) else old(x.mod))
    {
      var got := LoadConfig(config, reg);
      if got.Err? {
        return Err(got.error);
      }
      AgencyKeysKept(config.store);
      if Shortcut(got.value, "agency").Some? {
        ShortcutAgentsHeld(got.value, "agency");
      }
      r := IndexStore(got.value, reg, nodes, c0, ks);
    }

    /**
     * The part of `load` after every import succeeded: no agency record gives an empty
     * result, a record named agency that is not an agency raises AttributeError, and an
     * agency's agents are indexed as IndexAgency describes.
     */
    method IndexStore(s: Store, reg: Registry, nodes: Nodes, ghost c0: Counts, ghost ks: seq<AgentKey>) returns (r: Result<seq<Entry>>)
      requires Valid() && aliases == [] && nodes.Valid() && c0 == nodes.State()
      requires AgencyAgentsDistinct(s) && FirstAgentFailure(EnabledAgencyAgents(s.cfg), reg).None?
      requires ks == AgencyKeys(Some(s))
      modifies this`aliases, this`members, nodes, (set a | a in IdTargets(Some(s), reg, 0))`node, (set a | a in IdTargets(Some(s), reg, 0))`alias
      ensures Valid() && nodes.Valid()
      ensures r == LoadResult(Some(s), reg, c0, ks) && LoadIndexed(this, Some(s), reg, c0, ks, nodes.State())
      ensures IdsAllotted(Some(s), reg, 0) ==> IdsGiven(Shortcut(s, "agency").value.agents, Allot(c0, ks).ids)
    {
      var agency := Shortcut(s, "agency");
      if agency.None? {
        return Ok([]);
      }
      if agency.value.rec.kind != Agency {
        return Err(AttributeError);
      }
      var agents := agency.value.agents;
      ShortcutAgentsHeld(s, "agency");
      var st := IndexAgency(agents, nodes, ks);
      if st.Some? {
        return Err(st.value);
      }
      return Ok(agents);
    }

    /**
     * The indexing part of `load`: the agency's agents get their ids in turn, and the
     * agents reached before the loop ends are indexed under their alias ids, which are
     * pairwise distinct. The agents after the one that ended the loop keep their ids.
     */
    method IndexAgency(agents: seq<Entry>, nodes: Nodes, ghost ks: seq<AgentKey>) returns (st: Status)
      requires Distinct(agents) && ks == AgentKeys(agents) && nodes.Valid()
      modifies this`aliases, this`members, nodes, agents`node, agents`alias
      ensures Valid() && nodes.Valid()
      ensures var a := Allot(old(nodes.State()), ks);
        && st == a.st && nodes.State() == a.counts
        && members == agents[..a.indexed]
        && (forall k :: 0 <= k < a.indexed ==> aliases[k] == a.ids[k].AliasText())
        && (forall k :: 0 <= k < |a.ids| ==> agents[k].node == Str(a.ids[k].NodeText()) && agents[k].alias == Str(a.ids[k].AliasText()))
        && (forall k :: |a.ids| <= k < |agents| ==> agents[k].node == old(agents[k].node) && agents[k].alias == old(agents[k].alias))
    {
      ghost var c0 := nodes.State();
      var idTexts;
      st, idTexts, aliases := IndexAgents(agents, nodes, ks);
      members := agents[..|aliases|];
      AssignIds(agents, idTexts);
      AllotIndexesDistinct(c0, ks);
    }

    /** `setUp`: nothing without agents; otherwise one `setUp` sweep over the index. */
    method SetUp() returns (st: Status)
      requires Valid()
      modifies members`mod
      ensures var r := AgentSweep(Recs(members), old(Mods(members)), Call.SetUp, eatAgentExceptions);
        st == r.1 && Mods(members) == r.0
    {
      st := Sweep(Call.SetUp);
    }

    /** `start`: nothing without agents; otherwise one `start` sweep over the index. */
    method Start() returns (st: Status)
      requires Valid()
      modifies members`mod
      ensures var r := AgentSweep(Recs(members), old(Mods(members)), Call.Start, eatAgentExceptions);
        st == r.1 && Mods(members) == r.0
    {
      st := Sweep(Call.Start);
    }

    /** `stop`: nothing without agents; otherwise one `stop` sweep over the index. */
    method Stop() returns (st: Status)
      requires Valid()
      modifies members`mod
      ensures var r := AgentSweep(Recs(members), old(Mods(members)), Call.Stop, eatAgentExceptions);
        st == r.1 && Mods(members) == r.0
    {
      st := Sweep(Call.Stop);
    }

    /** `tearDown`: nothing without agents; otherwise one `tearDown` sweep over the index. */
    method TearDown() returns (st: Status)
      requires Valid()
      modifies members`mod
      ensures var r := AgentSweep(Recs(members), old(Mods(members)), Call.TearDown, eatAgentExceptions);
        st == r.1 && Mods(members) == r.0
    {
      st := Sweep(Call.TearDown);
    }

    /** The body the four sweeps share: a warning and nothing more when no agent is indexed. */
    method Sweep(c: Call) returns (st: Status)
      requires Valid()
      modifies members`mod
      ensures var r := AgentSweep(Recs(members), old(Mods(members)), c, eatAgentExceptions);
        st == r.1 && Mods(members) == r.0
    {
      if |aliases| < 1 {
        return None;
      }
      ghost var rs := Recs(members);
      ghost var ms := Mods(members);
      ghost var reached;
      st, reached := SweepAgents(members, c, eatAgentExceptions, rs, ms);
      SweepRan(rs, ms, c, eatAgentExceptions, reached, st, Mods(members));
    }

    /**
     * `shutdown`: tear the agents down and empty the index so that `load` may run again.
     * A ManagerError from the tear-down is swallowed; any other error propagates and
     * leaves the index as it was.
     */
    method Shutdown() returns (st: Status)
      requires Valid()
      modifies this`aliases, this`members, members`mod
      ensures Valid()
      ensures var r := AgentSweep(Recs(old(members)), old(Mods(members)), Call.TearDown, eatAgentExceptions);
        && Mods(old(members)) == r.0
        && (r.1.None? || r.1 == Some(ManagerError) ==> st.None? && aliases == [] && members == [])
        && (r.1.Some? && r.1 != Some(ManagerError) ==> st == r.1 && aliases == old(aliases) && members == old(members))
    {
      var down := TearDown();
      if down.Some? && down != Some(ManagerError) {
        return down;
      }
      aliases, members := [], [];
      return None;
    }
  }

  /** An index with distinct keys has one entry per key. */
  lemma {:induction false} IndexSize(aliases: seq<string>, members: seq<Entry>)
    requires |aliases| == |members|
    requires forall j, k :: 0 <= j < k < |aliases| ==> aliases[j] != aliases[k]
    ensures |set k | 0 <= k < |aliases| :: aliases[k]| == |aliases|
    decreases |aliases|
  {
    if |aliases| > 0 {
      var n := |aliases| - 1;
      IndexSize(aliases[..n], members[..n]);
      var front := set k | 0 <= k < n :: aliases[..n][k];
      assert (set k | 0 <= k < |aliases| :: aliases[k]) == front + {aliases[n]};
      assert aliases[n] !in front;
    }
  }

}

/**
 * `recover_objects`: turning the configuration's sections, in file order, into the
 * sorted, validated list of records, with agents moved under the agency.
 */
module Recovery {
  import opened Wrappers
  import opened Text
  import opened ConfigObjs
  import opened Lifecycle
  import opened Sorting

  /** One already-tokenised configuration section. */
  datatype Section = Section(name: string, entries: Entries)

  /** ConfigObj refuses a file that repeats a section name. */
  predicate UniqueNames(ss: seq<Section>)
  {
    forall i, j :: 0 <= i < j < |ss| ==> ss[i].name != ss[j].name
  }

  predicate HasSection(ss: seq<Section>, name: string)
  {
    exists i :: 0 <= i < |ss| && ss[i].name == name
  }

  /** The section names `MAPPED_SECTIONS` reserves, and the class each becomes. */
  function ReservedKind(name: string): (k: Option<Kind>)
    ensures k.Some? ==> k.value in {Director, Broker, Agency, WebAdmin} && TypeName(k.value) == name
  {
    if name == "director" then Some(Director)
    else if name == "broker" then Some(Broker)
    else if name == "agency" then Some(Agency)
    else if name == "webadmin" then Some(WebAdmin)
    else None
  }

  /** The default order `MAPPED_SECTIONS` gives a reserved section that has no `order` key. */
  function MappedOrder(k: Kind): int
  {
    match k
    case Director => 0
    case Broker => 1
    case Agency => 2
    case _ => 3
  }

  function Key(r: Record): Option<int>
  {
    r.order
  }

  const OwnFields: set<string> := {"name", "order", "disabled"}

  /**
   * `setup`: copy every key of the section onto the record, the order converted with
   * `int()` (ValueError when it is not a number), and keep the section as `config`.
   */
  function Setup(base: Record, e: Entries): (r: Result<Record>)
    ensures r.Err? <==> "order" in e && ParseInt(e["order"]).None?
    ensures r.Err? ==> r.error == ValueError
    ensures r.Ok? ==> r.value.kind == base.kind && r.value.config == Some(e)
    ensures r.Ok? ==> r.value.order == (if "order" in e then ParseInt(e["order"]) else base.order)
    ensures r.Ok? ==> r.value.name == (if "name" in e then e["name"] else base.name)
    ensures r.Ok? ==> r.value.disabled == (if "disabled" in e then e["disabled"] else base.disabled)
  {
    if "order" in e && ParseInt(e["order"]).None? then Err(ValueError)
    else
      Ok(base.(name := if "name" in e then e["name"] else base.name,
               order := if "order" in e then ParseInt(e["order"]) else base.order,
               disabled := if "disabled" in e then e["disabled"] else base.disabled,
               config := Some(e),
               attrs := base.attrs + map k | k in e && k !in OwnFields :: Str(e[k])))
  }

  /** `setup` copies every other key of the section onto the record as a string, and keeps the base's other attributes. */
  lemma SetupCopiesKeys(base: Record, e: Entries)
    requires Setup(base, e).Ok?
    ensures forall k :: k in e && k !in OwnFields ==> k in Setup(base, e).value.attrs && Setup(base, e).value.attrs[k] == Str(e[k])
    ensures forall k :: k in base.attrs && k !in e ==> k in Setup(base, e).value.attrs && Setup(base, e).value.attrs[k] == base.attrs[k]
  {
  }

  /** The state of the recovery pass: the `R` object with its two counters. */
  datatype Build = Build(returned: seq<Record>, agents: seq<Record>, director: bool, agency: bool,
                         agentNext: nat, sectionNext: nat)

  /** Agents count from 0; controllers from 4, as 0 to 3 belong to the reserved sections. */
  const Initial: Build := Build([], [], false, false, 0, 4)

  predicate IsAgentSection(s: Section)
  {
    ReservedKind(s.name).None? && "agent" in s.entries
  }

  predicate IsControllerSection(s: Section)
  {
    ReservedKind(s.name).None? && "agent" !in s.entries && "controller" in s.entries
  }

  /** The record a reserved section starts from, before its keys are copied on. */
  function ReservedBase(k: Kind, e: Entries): Record
  {
    var initial := Fresh(k);
    var ordered := if "order" !in e then initial.(order := Some(MappedOrder(k))) else initial;
    if k == Director then
      ordered.(attrs := ordered.attrs["messaging" := Str(if "messaging" in e then e["messaging"] else "no")])
    else ordered
  }

  /** `R.recover` on one section. */
  function Classify(b: Build, s: Section): Result<Build>
  {
    var e := s.entries;
    match ReservedKind(s.name)
    case Some(k) =>
      var kept := e - {"name"};
      (match Setup(ReservedBase(k, kept), kept)
       case Err(err) => Err(err)
       case Ok(rec) =>
         Ok(b.(returned := b.returned + [rec], director := b.director || k == Director,
               agency := b.agency || k == Agency)))
    case None =>
      if "agent" in e then
        (match Setup(Fresh(Agent), e)
         case Err(err) => Err(err)
         case Ok(rec) =>
           var named := rec.(name := s.name);
           if !named.Field("order").Truthy() then
             Ok(b.(agents := b.agents + [named.(order := Some(b.agentNext))], agentNext := b.agentNext + 1))
           else Ok(b.(agents := b.agents + [named])))
      else if "controller" in e then
        (match Setup(Fresh(Controller), e)
         case Err(err) => Err(err)
         case Ok(rec) =>
           var named := rec.(name := s.name);
           if "order" !in e then
             Ok(b.(returned := b.returned + [named.(order := Some(b.sectionNext))], sectionNext := b.sectionNext + 1))
           else Ok(b.(returned := b.returned + [named])))
      else Ok(b)
  }

  /** `recover` applied to every section in file order; the first error stops the pass. */
  function Fold(ss: seq<Section>): Result<Build>
    decreases |ss|
  {
    if |ss| == 0 then Ok(Initial)
    else match Fold(ss[..|ss| - 1])
      case Err(err) => Err(err)
      case Ok(b) => Classify(b, ss[|ss| - 1])
  }

  /** The first validation error of a list of records, in list order. */
  function FirstInvalid(rs: seq<Record>): (r: Status)
    ensures r.None? <==> forall i :: 0 <= i < |rs| ==> Validate(rs[i]).None?
    ensures r.Some? ==> exists i :: 0 <= i < |rs| && r == Validate(rs[i])
    decreases |rs|
  {
    if |rs| == 0 then None
    else if Validate(rs[0]).Some? then Validate(rs[0])
    else
      var rest := FirstInvalid(rs[1..]);
      assert forall i :: 1 <= i < |rs| ==> rs[i] == rs[1..][i - 1];
      rest
  }

  /** The records recovery publishes, and the agents it gives the agency. */
  datatype Recovered = Recovered(top: seq<Record>, agents: seq<Record>)

  /** `recover_objects` as a function of the sections. */
  function Recover(ss: seq<Section>): (r: Result<Recovered>)
    ensures !UniqueNames(ss) ==> r == Err(ConfigError)
    ensures r.Ok? ==> Fold(ss).Ok? && Fold(ss).value.director
    ensures r.Ok? ==> r.value.top == SortBy(Fold(ss).value.returned, Key)
    ensures r.Ok? ==> r.value.agents == (if Fold(ss).value.agency then SortBy(Fold(ss).value.agents, Key) else [])
  {
    if !UniqueNames(ss) then Err(ConfigError)
    else match Fold(ss)
      case Err(err) => Err(err)
      case Ok(b) =>
        if !b.director then Err(ConfigError)
        else
          var agents := if b.agency then SortBy(b.agents, Key) else [];
          var top := SortBy(b.returned, Key);
          match FirstInvalid(top)
          case Some(err) => Err(err)
          case None => Ok(Recovered(top, agents))
  }

  // ---------------------------------------------------------------------------
  // What a successful pass has built, section by section.

  /** Sections before position `i` that take their order from the controller counter. */
  function UnorderedControllers(ss: seq<Section>): nat
    decreases |ss|
  {
    if |ss| == 0 then 0
    else UnorderedControllers(ss[..|ss| - 1])
         + (if IsControllerSection(ss[|ss| - 1]) && "order" !in ss[|ss| - 1].entries then 1 else 0)
  }

  /** An agent section whose order is absent or zero takes the next agent-counter value. */
  predicate TakesAgentNumber(s: Section)
  {
    IsAgentSection(s) && ("order" !in s.entries || ParseInt(s.entries["order"]) == Some(0))
  }

  function CountedAgents(ss: seq<Section>): nat
    decreases |ss|
  {
    if |ss| == 0 then 0
    else CountedAgents(ss[..|ss| - 1]) + (if TakesAgentNumber(ss[|ss| - 1]) then 1 else 0)
  }

  /** A section that yields a record of the top-level list. */
  predicate IsTopSection(s: Section)
  {
    ReservedKind(s.name).Some? || IsControllerSection(s)
  }

  /** A section whose `order` key is there but is not an integer. */
  predicate BadOrder(s: Section)
  {
    "order" in s.entries && ParseInt(s.entries["order"]).None?
  }

  function Last<T>(s: seq<T>): T
    requires |s| > 0
  {
    s[|s| - 1]
  }

  /** A section whose recovery raises: it yields a record but its order is not an integer. */
  predicate Rejects(s: Section)
  {
    (IsTopSection(s) || IsAgentSection(s)) && BadOrder(s)
  }

  predicate SomeRejected(ss: seq<Section>)
  {
    exists i :: 0 <= i < |ss| && Rejects(ss[i])
  }

  /** `recover` raises on a section exactly when it rejects it, and then with ValueError. */
  lemma ClassifyFails(b: Build, s: Section)
    ensures Classify(b, s).Err? <==> Rejects(s)
    ensures Classify(b, s).Err? ==> Classify(b, s).error == ValueError
  {
  }

  /** What `recover` does to the pass state for one section. */
  lemma ClassifyFacts(b: Build, s: Section)
    ensures Classify(b, s).Ok? ==> var b' := Classify(b, s).value;
      && b'.director == (b.director || s.name == "director")
      && b'.agency == (b.agency || s.name == "agency")
      && b'.sectionNext == b.sectionNext + (if IsControllerSection(s) && "order" !in s.entries then 1 else 0)
      && b'.agentNext == b.agentNext + (if TakesAgentNumber(s) then 1 else 0)
      && (IsTopSection(s) ==> |b'.returned| == |b.returned| + 1 && b'.returned[..|b.returned|] == b.returned && b'.agents == b.agents)
      && (IsAgentSection(s) ==> |b'.agents| == |b.agents| + 1 && b'.agents[..|b.agents|] == b.agents && b'.returned == b.returned)
      && (!IsTopSection(s) && !IsAgentSection(s) ==> b'.returned == b.returned && b'.agents == b.agents)
  {
    var e := s.entries;
    if ReservedKind(s.name).Some? {
      var k := ReservedKind(s.name).value;
      var kept := e - {"name"};
      assert IsTopSection(s) && !IsAgentSection(s) && ("order" in kept <==> "order" in e);
      var r := Setup(ReservedBase(k, kept), kept);
      if r.Ok? {
        assert Classify(b, s) == Ok(b.(returned := b.returned + [r.value], director := b.director || k == Director,
          agency := b.agency || k == Agency));
      }
    } else if "agent" in e {
      assert IsAgentSection(s) && !IsTopSection(s);
    } else if "controller" in e {
      assert IsTopSection(s) && !IsAgentSection(s);
    }
  }

  /** The record a top-level section yields. */
  lemma TopRecordFacts(b: Build, s: Section)
    requires Classify(b, s).Ok? && IsTopSection(s)
    ensures |Classify(b, s).value.returned| > 0
    ensures var r := Last(Classify(b, s).value.returned);
      r.kind != Agent && r.name == s.name && r.order.Some?
  {
    ClassifyFacts(b, s);
  }

  /** The record a reserved section yields: its class, the section less `name`, the mapped default order. */
  lemma ReservedRecordFacts(b: Build, s: Section)
    requires Classify(b, s).Ok? && ReservedKind(s.name).Some?
    ensures |Classify(b, s).value.returned| > 0
    ensures var r := Last(Classify(b, s).value.returned);
      && r.kind == ReservedKind(s.name).value && r.name == s.name
      && r.config == Some(s.entries - {"name"})
      && r.order == (if "order" in s.entries then ParseInt(s.entries["order"]) else Some(MappedOrder(r.kind)))
  {
    ClassifyFacts(b, s);
  }

  /** The record a controller section yields: the section as config, the section counter as default order. */
  lemma ControllerRecordFacts(b: Build, s: Section)
    requires Classify(b, s).Ok? && IsControllerSection(s)
    ensures |Classify(b, s).value.returned| > 0
    ensures var r := Last(Classify(b, s).value.returned);
      && r.kind == Controller && r.name == s.name
      && r.config == Some(s.entries)
      && r.order == (if "order" in s.entries then ParseInt(s.entries["order"]) else Some(b.sectionNext))
  {
    ClassifyFacts(b, s);
  }

  /** The record an agent section yields. */
  lemma AgentRecordFacts(b: Build, s: Section)
    requires Classify(b, s).Ok? && IsAgentSection(s)
    ensures |Classify(b, s).value.agents| > 0
    ensures var r := Last(Classify(b, s).value.agents);
      && r.kind == Agent && r.name == s.name && r.config == Some(s.entries)
      && r.order == (if TakesAgentNumber(s) then Some(b.agentNext) else ParseInt(s.entries["order"]))
  {
    ClassifyFacts(b, s);
  }

  lemma HasSectionSnoc(ss: seq<Section>, n: string)
    requires |ss| > 0
    ensures HasSection(ss, n) <==> HasSection(ss[..|ss| - 1], n) || Last(ss).name == n
  {
    var init := ss[..|ss| - 1];
    if HasSection(init, n) {
      var i :| 0 <= i < |init| && init[i].name == n;
      assert ss[i] == init[i];
    }
    if HasSection(ss, n) {
      var i :| 0 <= i < |ss| && ss[i].name == n;
      if i < |init| { assert init[i] == ss[i]; }
    }
  }

  /** The pass state records whether a director and an agency were seen, and both counters. */
  lemma {:induction false} FoldCounters(ss: seq<Section>)
    requires Fold(ss).Ok?
    ensures Fold(ss).value.director <==> HasSection(ss, "director")
    ensures Fold(ss).value.agency <==> HasSection(ss, "agency")
    ensures Fold(ss).value.sectionNext == 4 + UnorderedControllers(ss)
    ensures Fold(ss).value.agentNext == CountedAgents(ss)
    decreases |ss|
  {
    if |ss| > 0 {
      FoldCounters(ss[..|ss| - 1]);
      ClassifyFacts(Fold(ss[..|ss| - 1]).value, Last(ss));
      HasSectionSnoc(ss, "director");
      HasSectionSnoc(ss, "agency");
    }
  }

  /** Top-level records are never agents and always carry an order; agents always carry one too. */
  lemma {:induction false} FoldKinds(ss: seq<Section>)
    requires Fold(ss).Ok?
    ensures forall r :: r in Fold(ss).value.returned ==> r.kind != Agent && r.order.Some? && HasSection(ss, r.name)
    ensures forall r :: r in Fold(ss).value.agents ==> r.kind == Agent && r.order.Some?
    decreases |ss|
  {
    if |ss| > 0 {
      var init := ss[..|ss| - 1];
      var b := Fold(init).value;
      var b' := Fold(ss).value;
      FoldKinds(init);
      ClassifyFacts(b, Last(ss));
      forall n | HasSection(init, n) ensures HasSection(ss, n) { HasSectionSnoc(ss, n); }
      HasSectionSnoc(ss, Last(ss).name);
      if IsTopSection(Last(ss)) {
        TopRecordFacts(b, Last(ss));
        assert b'.returned == b.returned + [Last(b'.returned)];
      } else if IsAgentSection(Last(ss)) {
        AgentRecordFacts(b, Last(ss));
        assert b'.agents == b.agents + [Last(b'.agents)];
      }
    }
  }

  /** Folding a prefix succeeds whenever the whole fold does, and builds prefixes of both lists. */
  lemma {:induction false} FoldPrefix(ss: seq<Section>, n: nat)
    requires Fold(ss).Ok? && n <= |ss|
    ensures Fold(ss[..n]).Ok?
    ensures var p := Fold(ss[..n]).value; var b := Fold(ss).value;
      && |p.returned| <= |b.returned| && b.returned[..|p.returned|] == p.returned
      && |p.agents| <= |b.agents| && b.agents[..|p.agents|] == p.agents
    decreases |ss|
  {
    if n < |ss| {
      var init := ss[..|ss| - 1];
      assert Fold(init).Ok?;
      FoldPrefix(init, n);
      assert init[..n] == ss[..n];
      ClassifyFacts(Fold(init).value, Last(ss));
    } else {
      assert ss[..n] == ss;
    }
  }

  /** The fold fails exactly when some section that yields a record has a non-numeric order. */
  lemma SomeRejectedSnoc(ss: seq<Section>)
    requires |ss| > 0
    ensures SomeRejected(ss) <==> SomeRejected(ss[..|ss| - 1]) || Rejects(Last(ss))
  {
    var init := ss[..|ss| - 1];
    if SomeRejected(init) {
      var i :| 0 <= i < |init| && Rejects(init[i]);
      assert ss[i] == init[i];
    }
    if SomeRejected(ss) && !Rejects(Last(ss)) {
      var i :| 0 <= i < |ss| && Rejects(ss[i]);
      assert i < |init| && init[i] == ss[i];
    }
  }

  lemma {:induction false} FoldFails(ss: seq<Section>)
    ensures Fold(ss).Err? <==> SomeRejected(ss)
    ensures Fold(ss).Err? ==> Fold(ss).error == ValueError
    decreases |ss|
  {
    if |ss| > 0 {
      var init := ss[..|ss| - 1];
      FoldFails(init);
      SomeRejectedSnoc(ss);
      if Fold(init).Ok? {
        ClassifyFails(Fold(init).value, Last(ss));
      }
    }
  }

  /** The record a top-level section at position `i` yields is among the pass's records. */
  lemma TopRecordOf(ss: seq<Section>, i: nat) returns (r: Record)
    requires Fold(ss).Ok? && i < |ss| && IsTopSection(ss[i])
    ensures Fold(ss[..i]).Ok? && Classify(Fold(ss[..i]).value, ss[i]).Ok?
    ensures |Classify(Fold(ss[..i]).value, ss[i]).value.returned| > 0
    ensures r == Last(Classify(Fold(ss[..i]).value, ss[i]).value.returned)
    ensures r in Fold(ss).value.returned
  {
    FoldPrefix(ss, i + 1);
    FoldPrefix(ss, i);
    var b := Fold(ss[..i]).value;
    FoldStep(ss, i);
    TopRecordFacts(b, ss[i]);
    var pr := Fold(ss[..i + 1]).value.returned;
    var whole := Fold(ss).value.returned;
    r := pr[|pr| - 1];
    assert whole[..|pr|] == pr;
    assert r == whole[|pr| - 1];
  }

  lemma AgentRecordOf(ss: seq<Section>, i: nat) returns (r: Record)
    requires Fold(ss).Ok? && i < |ss| && IsAgentSection(ss[i])
    ensures r in Fold(ss).value.agents && r.name == ss[i].name && r.kind == Agent
    ensures r.order == (if TakesAgentNumber(ss[i]) then Some(CountedAgents(ss[..i])) else ParseInt(ss[i].entries["order"]))
  {
    FoldPrefix(ss, i + 1);
    FoldPrefix(ss, i);
    var b := Fold(ss[..i]).value;
    FoldStep(ss, i);
    FoldCounters(ss[..i]);
    AgentRecordFacts(b, ss[i]);
    var pa := Fold(ss[..i + 1]).value.agents;
    var whole := Fold(ss).value.agents;
    r := pa[|pa| - 1];
    assert whole[..|pa|] == pa;
    assert r == whole[|pa| - 1];
  }

  /** Some top-level section of the file carries this name. */
  predicate NamesTop(ss: seq<Section>, n: string)
  {
    exists j :: 0 <= j < |ss| && ss[j].name == n && IsTopSection(ss[j])
  }

  /** Some agent section of the file carries this name. */
  predicate NamesAgent(ss: seq<Section>, n: string)
  {
    exists j :: 0 <= j < |ss| && ss[j].name == n && IsAgentSection(ss[j])
  }

  lemma NamesSnoc(ss: seq<Section>, n: string)
    requires |ss| > 0
    ensures NamesTop(ss[..|ss| - 1], n) || (IsTopSection(Last(ss)) && Last(ss).name == n) ==> NamesTop(ss, n)
    ensures NamesAgent(ss[..|ss| - 1], n) || (IsAgentSection(Last(ss)) && Last(ss).name == n) ==> NamesAgent(ss, n)
  {
    var init := ss[..|ss| - 1];
    if NamesTop(init, n) {
      var j :| 0 <= j < |init| && init[j].name == n && IsTopSection(init[j]);
      assert ss[j] == init[j];
    }
    if NamesAgent(init, n) {
      var j :| 0 <= j < |init| && init[j].name == n && IsAgentSection(init[j]);
      assert ss[j] == init[j];
    }
    assert ss[|ss| - 1] == Last(ss);
  }

  /** Every record of the pass comes from a section of the matching class, named after it. */
  lemma {:induction false} FoldOrigins(ss: seq<Section>)
    requires Fold(ss).Ok?
    ensures forall r :: r in Fold(ss).value.returned ==> NamesTop(ss, r.name)
    ensures forall r :: r in Fold(ss).value.agents ==> NamesAgent(ss, r.name)
    decreases |ss|
  {
    if |ss| > 0 {
      var init := ss[..|ss| - 1];
      var b := Fold(init).value;
      var b' := Fold(ss).value;
      FoldOrigins(init);
      ClassifyFacts(b, Last(ss));
      if IsTopSection(Last(ss)) {
        TopRecordFacts(b, Last(ss));
        assert b'.returned == b.returned + [Last(b'.returned)];
      } else if IsAgentSection(Last(ss)) {
        AgentRecordFacts(b, Last(ss));
        assert b'.agents == b.agents + [Last(b'.agents)];
      }
      forall r | r in b'.returned ensures NamesTop(ss, r.name) { NamesSnoc(ss, r.name); }
      forall r | r in b'.agents ensures NamesAgent(ss, r.name) { NamesSnoc(ss, r.name); }
    }
  }

  // ---------------------------------------------------------------------------
  // The promises of `recover_objects`.

  /** Without a [director] section recovery fails with ConfigError, once every section has been recovered. */
  lemma NoDirectorRejected(ss: seq<Section>)
    requires UniqueNames(ss) && !HasSection(ss, "director")
    ensures Recover(ss) == Err(if Fold(ss).Err? then ValueError else ConfigError)
  {
    FoldFails(ss);
    if Fold(ss).Ok? {
      FoldCounters(ss);
    }
  }

  /** A successful recovery saw a [director] section. */
  lemma RecoveredHasDirector(ss: seq<Section>)
    requires Recover(ss).Ok?
    ensures HasSection(ss, "director")
  {
    FoldCounters(ss);
  }

  /**
   * The published list is the pass's top-level records sorted by order, every one
   * validated and none an agent; the agency's agents are the agent records sorted by
   * order, or nothing when there is no [agency] section.
   */
  lemma RecoverShape(ss: seq<Section>)
    requires Recover(ss).Ok?
    ensures var rv := Recover(ss).value; var b := Fold(ss).value;
      && SortedBy(rv.top, Key) && multiset(rv.top) == multiset(b.returned)
      && SortedBy(rv.agents, Key)
      && (HasSection(ss, "agency") ==> multiset(rv.agents) == multiset(b.agents))
      && (!HasSection(ss, "agency") ==> rv.agents == [])
      && (forall i :: 0 <= i < |rv.top| ==> Validate(rv.top[i]).None? && rv.top[i].kind != Agent && rv.top[i].order.Some?)
      && (forall i :: 0 <= i < |rv.agents| ==> rv.agents[i].kind == Agent && rv.agents[i].order.Some?)
  {
    var b := Fold(ss).value;
    FoldCounters(ss);
    FoldKinds(ss);
    SortSorted(b.returned, Key);
    SortPermutes(b.returned, Key);
    SortSorted(b.agents, Key);
    SortPermutes(b.agents, Key);
    var rv := Recover(ss).value;
    forall i | 0 <= i < |rv.top| ensures rv.top[i] in b.returned { SortKeeps(b.returned, Key, rv.top[i]); }
    forall i | 0 <= i < |rv.agents| ensures rv.agents[i] in b.agents { SortKeeps(b.agents, Key, rv.agents[i]); }
  }

  /**
   * A reserved section becomes a record of its class, named after the section (any
   * `name` key is dropped), ordered by its `order` key or else by the default of
   * `MAPPED_SECTIONS`: director 0, broker 1, agency 2, webadmin 3.
   */
  lemma ReservedRecovered(ss: seq<Section>, i: nat) returns (r: Record)
    requires Recover(ss).Ok? && i < |ss| && ReservedKind(ss[i].name).Some?
    ensures r in Recover(ss).value.top
    ensures r.kind == ReservedKind(ss[i].name).value && r.name == ss[i].name
    ensures r.config == Some(ss[i].entries - {"name"})
    ensures r.order == (if "order" in ss[i].entries then ParseInt(ss[i].entries["order"]) else Some(MappedOrder(r.kind)))
  {
    r := TopRecordOf(ss, i);
    ReservedRecordFacts(Fold(ss[..i]).value, ss[i]);
    SortKeeps(Fold(ss).value.returned, Key, r);
  }

  /** A controller section without `order` takes 4, 5, 6, ... in file order. */
  lemma ControllerRecovered(ss: seq<Section>, i: nat) returns (r: Record)
    requires Recover(ss).Ok? && i < |ss| && IsControllerSection(ss[i])
    ensures r in Recover(ss).value.top && r.kind == Controller && r.name == ss[i].name
    ensures r.order == (if "order" in ss[i].entries then ParseInt(ss[i].entries["order"])
                        else Some(4 + UnorderedControllers(ss[..i])))
  {
    r := TopRecordOf(ss, i);
    var b := Fold(ss[..i]).value;
    FoldCounters(ss[..i]);
    assert b.sectionNext == 4 + UnorderedControllers(ss[..i]);
    ControllerRecordFacts(b, ss[i]);
    SortKeeps(Fold(ss).value.returned, Key, r);
  }

  /**
   * With an [agency] section, an agent section becomes one of the agency's agents; an
   * absent or zero order is replaced by the agent counter, which starts at 0.
   */
  lemma AgentRecovered(ss: seq<Section>, i: nat) returns (r: Record)
    requires Recover(ss).Ok? && i < |ss| && IsAgentSection(ss[i]) && HasSection(ss, "agency")
    ensures r in Recover(ss).value.agents && r.name == ss[i].name && r.kind == Agent
    ensures r.order == (if TakesAgentNumber(ss[i]) then Some(CountedAgents(ss[..i])) else ParseInt(ss[i].entries["order"]))
    ensures forall t :: t in Recover(ss).value.top ==> t.name != ss[i].name
  {
    r := AgentRecordOf(ss, i);
    RecoverShape(ss);
    var b := Fold(ss).value;
    assert r in multiset(b.agents);
    FoldOrigins(ss);
    forall t | t in Recover(ss).value.top ensures t.name != ss[i].name {
      SortKeeps(b.returned, Key, t);
    }
  }

  /** A section that is neither reserved nor has an `agent` or `controller` key leaves no record anywhere. */
  lemma UnknownSectionDropped(ss: seq<Section>, i: nat)
    requires Recover(ss).Ok? && i < |ss| && !IsTopSection(ss[i]) && !IsAgentSection(ss[i])
    ensures forall t :: t in Recover(ss).value.top ==> t.name != ss[i].name
    ensures forall a :: a in Recover(ss).value.agents ==> a.name != ss[i].name
  {
    var b := Fold(ss).value;
    FoldOrigins(ss);
    FoldCounters(ss);
    forall t | t in Recover(ss).value.top ensures t.name != ss[i].name {
      SortKeeps(b.returned, Key, t);
    }
    forall a | a in Recover(ss).value.agents ensures a.name != ss[i].name {
      SortKeeps(b.agents, Key, a);
    }
  }

  // ---------------------------------------------------------------------------
  // The recovery pass itself, building the record objects.

  /** The records held by a list of record objects. */
  function Recs(es: seq<Entry>): (rs: seq<Record>)
    ensures |rs| == |es| && forall i :: 0 <= i < |es| ==> rs[i] == es[i].rec
  {
    seq(|es|, i requires 0 <= i < |es| => es[i].rec)
  }

  /**
   * A record object as recovery leaves it: no module but the Director's stub, and the
   * stopped-by-request flag false unless the section itself set a `wasStopped` key.
   */
  predicate Pristine(e: Entry)
    reads e
  {
    && e.wasStopped == e.rec.Field("wasStopped").Truthy()
    && e.mod == (if e.rec.kind == Director then Some(DirectorStub) else None)
    && e.node == e.rec.Field("node") && e.alias == e.rec.Field("alias")
  }

  lemma {:induction false} FoldErrorSticks(ss: seq<Section>, n: nat)
    requires n <= |ss| && Fold(ss[..n]).Err?
    ensures Fold(ss) == Fold(ss[..n])
    decreases |ss|
  {
    if n < |ss| {
      var init := ss[..|ss| - 1];
      assert init[..n] == ss[..n];
      FoldErrorSticks(init, n);
    } else {
      assert ss[..n] == ss;
    }
  }

  lemma FoldStep(ss: seq<Section>, i: nat)
    requires i < |ss| && Fold(ss[..i]).Ok?
    ensures Fold(ss[..i + 1]) == Classify(Fold(ss[..i]).value, ss[i])
  {
    assert ss[..i + 1][..i] == ss[..i] && Last(ss[..i + 1]) == ss[i];
  }

  /** `R.recover` on one section, updating the pass state (its lists, flags and counters). */
  method RecoverSection(b: Build, s: Section) returns (r: Result<Build>)
    ensures r == Classify(b, s)
  {
    var e := s.entries;
    var k := ReservedKind(s.name);
    var st := b;
    if k.Some? {
      var kept := e - {"name"};
      var rec := Setup(ReservedBase(k.value, kept), kept);
      if rec.Err? {
        return Err(rec.error);
      }
      st := st.(returned := st.returned + [rec.value]);
      st := st.(director := st.director || k.value == Director);
      st := st.(agency := st.agency || k.value == Agency);
    } else if "agent" in e {
      var rec := Setup(Fresh(Agent), e);
      if rec.Err? {
        return Err(rec.error);
      }
      var named := rec.value.(name := s.name);
      if !named.Field("order").Truthy() {
        named := named.(order := Some(st.agentNext));
        st := st.(agentNext := st.agentNext + 1);
      }
      st := st.(agents := st.agents + [named]);
    } else if "controller" in e {
      var rec := Setup(Fresh(Controller), e);
      if rec.Err? {
        return Err(rec.error);
      }
      var named := rec.value.(name := s.name);
      if "order" !in e {
        named := named.(order := Some(st.sectionNext));
        st := st.(sectionNext := st.sectionNext + 1);
      }
      st := st.(returned := st.returned + [named]);
    }
    return Ok(st);
  }

  /** The loop of `recover_objects`: `R.recover` on each section in file order. */
  method RecoverPass(ss: seq<Section>) returns (r: Result<Build>)
    ensures r == Fold(ss)
  {
    var st := Initial;
    var i := 0;
    while i < |ss|
      invariant 0 <= i <= |ss|
      invariant Fold(ss[..i]) == Ok(st)
    {
      FoldStep(ss, i);
      var next := RecoverSection(st, ss[i]);
      if next.Err? {
        FoldErrorSticks(ss, i + 1);
        return next;
      }
      st := next.value;
      i := i + 1;
    }
    assert ss[..|ss|] == ss;
    return Ok(st);
  }

  /** The first validation error over the sorted list, as the list comprehension of `v` raises it. */
  method ValidateAll(top: seq<Record>) returns (status: Status)
    ensures status == FirstInvalid(top)
  {
    var j := 0;
    while j < |top|
      invariant 0 <= j <= |top|
      invariant FirstInvalid(top[j..]) == FirstInvalid(top)
    {
      assert top[j..][1..] == top[j + 1..];
      status := Validate(top[j]);
      if status.Some? {
        return;
      }
      j := j + 1;
    }
    return None;
  }

  /** The record objects for the sorted list; the agency's object holds the agents' objects. */
  method MakeEntries(top: seq<Record>, agents: seq<Record>) returns (objs: seq<Entry>)
    ensures Recs(objs) == top && Distinct(objs)
    ensures forall i :: 0 <= i < |objs| ==> fresh(objs[i]) && Pristine(objs[i])
    ensures forall i :: 0 <= i < |objs| ==> Recs(objs[i].agents) == (if top[i].kind == Agency then agents else [])
    ensures forall i, a :: 0 <= i < |objs| && a in objs[i].agents ==> fresh(a) && Pristine(a) && a.agents == []
  {
    var agentEntries: seq<Entry> := [];
    var j := 0;
    while j < |agents|
      invariant 0 <= j <= |agents|
      invariant Recs(agentEntries) == agents[..j] && Distinct(agentEntries)
      invariant forall a :: a in agentEntries ==> fresh(a) && Pristine(a) && a.agents == []
    {
      var a := new Entry(agents[j], []);
      agentEntries := agentEntries + [a];
      j := j + 1;
    }
    assert agents[..j] == agents;
    objs := [];
    j := 0;
    while j < |top|
      invariant 0 <= j <= |top|
      invariant Recs(objs) == top[..j] && Distinct(objs)
      invariant forall a :: a in agentEntries ==> fresh(a) && Pristine(a) && a.agents == [] && a !in objs
      invariant forall k :: 0 <= k < j ==> fresh(objs[k]) && Pristine(objs[k])
      invariant forall k :: 0 <= k < j ==> objs[k].agents == (if top[k].kind == Agency then agentEntries else [])
    {
      var t := new Entry(top[j], agentEntries);
      objs := objs + [t];
      j := j + 1;
    }
    assert top[..j] == top;
  }

  /**
   * `recover_objects`: the pass, the director check, the sorts, validation and the
   * record objects. It does what Recover describes.
   */
  method RecoverObjects(ss: seq<Section>) returns (r: Result<seq<Entry>>)
    ensures r.Err? <==> Recover(ss).Err?
    ensures r.Err? ==> r.error == Recover(ss).error
    ensures r.Ok? ==> Recs(r.value) == Recover(ss).value.top && Distinct(r.value)
    ensures r.Ok? ==> forall i :: 0 <= i < |r.value| ==> fresh(r.value[i]) && Pristine(r.value[i])
    ensures r.Ok? ==> forall i :: 0 <= i < |r.value| ==>
      Recs(r.value[i].agents) == (if r.value[i].rec.kind == Agency then Recover(ss).value.agents else [])
    ensures r.Ok? ==> forall i, a :: 0 <= i < |r.value| && a in r.value[i].agents ==> fresh(a) && Pristine(a) && a.agents == []
  {
    if !UniqueNames(ss) {
      return Err(ConfigError);
    }
    var pass := RecoverPass(ss);
    if pass.Err? {
      return Err(pass.error);
    }
    var b := pass.value;
    if !b.director {
      return Err(ConfigError);
    }
    var agents := if b.agency then SortBy(b.agents, Key) else [];
    var top := SortBy(b.returned, Key);
    var status := ValidateAll(top);
    if status.Some? {
      return Err(status.value);
    }
    var objs := MakeEntries(top, agents);
    return Ok(objs);
  }
}

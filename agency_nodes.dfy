/**
 * Node and alias ids of the agency's agents: one counter per agent category and one
 * alias generator shared by all categories. `add` hands out `/agent/<cat>/<name>/<n>`
 * node ids and `/agent/<cat>/<alias>` alias ids.
 */
module AgencyNodes {
  import opened Wrappers
  import opened Text
  import opened ConfigObjs

  /** The agent categories, in the order the reset loop visits them. */
  const CategoryList: seq<string> :=
    ["display", "cashdrawer", "printer", "sale", "swipe", "websale", "service", "general"]

  const Categories: set<string> := set c | c in CategoryList

  /** `cat in AGENT_CATEGORIES` for whatever value the record's `cat` attribute holds. */
  predicate IsCategory(cat: Attr)
  {
    cat.Str? && cat.s in Categories
  }

  lemma CategoriesHaveNoSlash(c: string)
    requires c in Categories
    ensures forall i :: 0 <= i < |c| ==> c[i] != '/'
  {
  }

  function NodeId(cat: string, name: string, n: int): string
  {
    "/agent/" + cat + "/" + name + "/" + IntToString(n)
  }

  function AliasId(cat: string, alias: int): string
  {
    "/agent/" + cat + "/" + IntToString(alias)
  }

  /**
   * `int(alias)`: a configuration string must parse (ValueError otherwise), an integer is
   * kept. `int(None)` raises TypeError, which `add` reports as ConfigError; `add` never
   * converts None, since a missing alias is replaced by a generated one first.
   */
  function AliasNumber(alias: Attr): (r: Result<int>)
    ensures alias.Num? ==> r == Ok(alias.n)
    ensures alias.Str? ==> (r.Ok? <==> ParseInt(alias.s).Some?)
  {
    match alias
    case Str(s) => if ParseInt(s).Some? then Ok(ParseInt(s).value) else Err(ValueError)
    case Num(n) => Ok(n)
    case Missing => Err(ConfigError)
  }

  /** The state of the id allocator: the counter of each category and the next generated alias. */
  datatype Counts = Counts(counters: map<string, nat>, aliasNext: nat)
  {
    predicate Complete()
    {
      Categories <= counters.Keys
    }
  }

  /** The state `_reset` leaves: every counter 0, the alias generator at 1. */
  const Zero: Counts := Counts(map c | c in Categories :: 0, 1)

  /**
   * The parts of the two ids `add` formats: the category, the record's name, the node
   * number and the alias number.
   */
  datatype Ids = Ids(cat: string, name: string, node: nat, alias: int)
  {
    function NodeText(): string
    {
      NodeId(cat, name, node)
    }

    function AliasText(): string
    {
      AliasId(cat, alias)
    }
  }

  /**
   * `add(cat, name, alias)` on the allocator's state: an unknown category is a ValueError
   * that changes nothing. Otherwise a falsy alias is drawn from the generator, the
   * category's counter goes up by one, and only then is the alias converted, so a
   * conversion error still uses up a node number.
   */
  function AddIds(c: Counts, cat: Attr, name: string, alias: Attr): (r: (Counts, Result<Ids>))
    requires c.Complete()
    ensures r.0.Complete()
    ensures r.1.Err? ==> r.1.error == ValueError || r.1.error == ConfigError
    ensures r.1.Ok? ==> IsCategory(cat) && r.1.value.cat == cat.s && r.1.value.name == name
  {
    if !IsCategory(cat) then (c, Err(ValueError))
    else
      var given := if alias.Truthy() then alias else Num(c.aliasNext);
      var next := if alias.Truthy() then c.aliasNext else c.aliasNext + 1;
      var n := c.counters[cat.s] + 1;
      var ids := match AliasNumber(given)
        case Err(e) => Err(e)
        case Ok(a) => Ok(Ids(cat.s, name, n, a));
      (Counts(c.counters[cat.s := n], next), ids)
  }

  /** The two strings `add` returns: the node id and the alias id. */
  function Texts(r: Result<Ids>): Result<(string, string)>
  {
    match r
    case Ok(ids) => Ok((ids.NodeText(), ids.AliasText()))
    case Err(e) => Err(e)
  }

  /**
   * What `add` promises: an unknown category changes nothing; otherwise exactly that
   * category's counter goes up by one, the generator advances exactly when the alias is
   * falsy, and the ids name the category, the record and the new counter value.
   */
  lemma AddIdsEffect(c: Counts, cat: Attr, name: string, alias: Attr)
    requires c.Complete()
    ensures var r := AddIds(c, cat, name, alias);
      && (!IsCategory(cat) ==> r == (c, Err(ValueError)))
      && (IsCategory(cat) ==>
        && r.0.counters[cat.s] == c.counters[cat.s] + 1
        && (forall k :: k in c.counters && k != cat.s ==> r.0.counters[k] == c.counters[k])
        && r.0.aliasNext == (if alias.Truthy() then c.aliasNext else c.aliasNext + 1)
        && (r.1.Ok? <==> (!alias.Truthy() || AliasNumber(alias).Ok?))
        && (r.1.Ok? ==> r.1.value.node == c.counters[cat.s] + 1)
        && (r.1.Ok? && alias.Truthy() ==> r.1.value.alias == AliasNumber(alias).value)
        && (r.1.Ok? && !alias.Truthy() ==> r.1.value.alias == c.aliasNext))
  {
  }

  /** An alias id spells out its category right after `/agent/`, then a slash. */
  lemma AliasIdChars(c: string, a: int)
    ensures |AliasId(c, a)| > 8 + |c| && AliasId(c, a)[7 + |c|] == '/'
    ensures forall j :: 0 <= j < |c| ==> AliasId(c, a)[7 + j] == c[j]
  {
  }

  /** The alias id determines the category and the alias number: ids of different categories never clash. */
  lemma {:induction false} AliasIdInjective(c1: string, a1: int, c2: string, a2: int)
    requires c1 in Categories && c2 in Categories
    requires AliasId(c1, a1) == AliasId(c2, a2)
    ensures c1 == c2 && a1 == a2
  {
    var s1 := AliasId(c1, a1);
    var s2 := AliasId(c2, a2);
    CategoriesHaveNoSlash(c1);
    CategoriesHaveNoSlash(c2);
    AliasIdChars(c1, a1);
    AliasIdChars(c2, a2);
    if |c1| < |c2| {
      assert false;
    } else if |c2| < |c1| {
      assert false;
    }
    assert c1 == s1[7..7 + |c1|] == s2[7..7 + |c2|] == c2;
    assert IntToString(a1) == s1[8 + |c1|..] == s2[8 + |c2|..] == IntToString(a2);
    FormattedInjective(a1, a2);
  }

  /** Two adds in the same category give the same record different node ids. */
  lemma NodeIdInjective(cat: string, name: string, m: int, n: int)
    requires NodeId(cat, name, m) == NodeId(cat, name, n)
    ensures m == n
  {
    var p := "/agent/" + cat + "/" + name + "/";
    assert NodeId(cat, name, m) == p + IntToString(m);
    assert NodeId(cat, name, n) == p + IntToString(n);
    assert IntToString(m) == NodeId(cat, name, m)[|p|..];
    FormattedInjective(m, n);
  }

  lemma TwelveParses()
    ensures AliasNumber(Str("12")) == Ok(12)
  {
    assert AllDigits("12");
    assert DigitsValue("12") == 10 * DigitsValue("1") + 2 by { assert "12"[..1] == "1"; }
  }

  lemma SwipeIdStrings()
    ensures NodeId("swipe", "testing", 1) == "/agent/swipe/testing/1"
    ensures AliasId("swipe", 12) == "/agent/swipe/12"
  {
    assert IntToString(1) == "1";
    assert IntToString(12) == "12";
  }

  /** After a reset, the first swipe agent aliased 12 is node 1 of its record and alias 12 of its category. */
  lemma SwipeExample()
    ensures Texts(AddIds(Zero, Str("swipe"), "testing", Str("12")).1) == Ok(("/agent/swipe/testing/1", "/agent/swipe/12"))
  {
    assert "swipe" == CategoryList[4];
    assert Zero.Complete() && Zero.counters["swipe"] == 0;
    TwelveParses();
    assert AddIds(Zero, Str("swipe"), "testing", Str("12")).1 == Ok(Ids("swipe", "testing", 1, 12));
    SwipeIdStrings();
  }

  /** An unknown category is a ValueError that leaves the allocator as it was. */
  lemma UnknownCategoryExample()
    ensures AddIds(Zero, Str("unknown agent class"), "testing", Str("1")) == (Zero, Err(ValueError))
  {
    assert Zero.Complete();
  }

  /** The allocator shared by the agent manager's loads: `agency.node`. */
  class Nodes {
    var counters: map<string, nat>
    var aliasNext: nat
    /** The categories of the adds counted since the last reset, oldest first. */
    ghost var added: seq<string>

    /** Every category has a counter, and each counter is the number of adds counted for it. */
    ghost predicate Valid()
      reads this
    {
      && counters.Keys == Categories
      && 1 <= aliasNext
      && forall c :: c in Categories ==> counters[c] == multiset(added)[c]
    }

    function State(): Counts
      reads this
    {
      Counts(counters, aliasNext)
    }

    /** `__init__`: an empty counter map, then a reset. */
    constructor ()
      ensures Valid() && State() == Zero && added == []
    {
      counters := map[];
      aliasNext := 1;
      added := [];
      new;
      Reset();
    }

    /** `_reset`: every category's counter to 0, in category order, and the alias generator back to 1. */
    method Reset()
      requires counters.Keys <= Categories
      modifies this
      ensures Valid() && State() == Zero && added == []
    {
      aliasNext := 1;
      var i := 0;
      while i < |CategoryList|
        invariant i <= |CategoryList| && aliasNext == 1
        invariant counters.Keys <= Categories
        invariant forall k :: 0 <= k < i ==> CategoryList[k] in counters && counters[CategoryList[k]] == 0
      {
        counters := counters[CategoryList[i] := 0];
        i := i + 1;
      }
      added := [];
      forall c | c in Categories
        ensures c in counters && counters[c] == 0
      {
        var k :| 0 <= k < |CategoryList| && CategoryList[k] == c;
      }
      assert counters == Zero.counters;
    }

    /** `add(cat, cat_name, alias)`: the effect AddIds describes; the counted add is recorded. */
    method Add(cat: Attr, name: string, alias: Attr) returns (r: Result<(string, string)>)
      requires Valid()
      modifies this
      ensures Valid()
      ensures State() == AddIds(old(State()), cat, name, alias).0
      ensures r == Texts(AddIds(old(State()), cat, name, alias).1)
      ensures added == old(added) + (if IsCategory(cat) then [cat.s] else [])
    {
      var (next, ids) := AddIds(State(), cat, name, alias);
      counters, aliasNext, r := next.counters, next.aliasNext, Texts(ids);
      if IsCategory(cat) {
        added := added + [cat.s];
      }
    }

    /** `get(cat)`: the number of adds counted for the category since the last reset; ValueError for an unknown one. */
    method Get(cat: Attr) returns (r: Result<nat>)
      requires Valid()
      ensures !IsCategory(cat) ==> r == Err(ValueError)
      ensures IsCategory(cat) ==> r == Ok(multiset(added)[cat.s])
    {
      if !IsCategory(cat) {
        return Err(ValueError);
      }
      return Ok(counters[cat.s]);
    }
  }
}

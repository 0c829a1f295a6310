/**
 * The typed records a configuration section becomes: their defaults, the
 * required-field check `validate` and the `export` snapshot.
 */
module ConfigObjs {
  import opened Wrappers
  import opened Lifecycle

  datatype Kind = Director | Broker | Agency | Agent | WebAdmin | Controller

  /** The class attribute `type` of each record class. */
  function TypeName(k: Kind): string
  {
    match k
    case Director => "director"
    case Broker => "broker"
    case Agency => "agency"
    case Agent => "agent"
    case WebAdmin => "webadmin"
    case Controller => "controller"
  }

  /** An attribute value: a string from the configuration, an integer default, or None. */
  datatype Attr = Str(s: string) | Num(n: int) | Missing
  {
    /** Python truth: the empty string, zero and None are false. */
    predicate Truthy()
    {
      match this
      case Str(s) => s != ""
      case Num(n) => n != 0
      case Missing => false
    }
  }

  /** A configuration section's key/value pairs. */
  type Entries = map<string, string>

  /**
   * The attributes of a record that stay fixed once it is built. `name`, `order` and
   * `disabled` have fields of their own; every other attribute (`controller`, `agent`,
   * `cat`, `alias`, `command`, `messaging`, ...) is in `attrs`.
   */
  datatype Record = Record(kind: Kind, name: string, order: Option<int>, disabled: string,
                           config: Option<Entries>, attrs: map<string, Attr>)
  {
    predicate Enabled()
    {
      disabled == "no"
    }

    /** `getattr(self, f, None)`. */
    function Field(f: string): Attr
    {
      if f == "name" then Str(name)
      else if f == "order" then (if order.Some? then Num(order.value) else Missing)
      else if f == "disabled" then Str(disabled)
      else if f in attrs then attrs[f]
      else Missing
    }
  }

  function DefaultOrder(k: Kind): Option<int>
  {
    match k
    case Director => Some(0)
    case Broker => Some(1)
    case Agency => Some(2)
    case WebAdmin => Some(4)
    case _ => None
  }

  /** The attributes each constructor sets beyond name, order and disabled (poll_time aside). */
  function DefaultAttrs(k: Kind): map<string, Attr>
  {
    match k
    case Director =>
      map["messaging" := Str("yes"), "msg_host" := Str("127.0.0.1"), "msg_port" := Num(61613),
          "msg_username" := Str(""), "msg_password" := Str(""), "msg_channel" := Str("evasion"),
          "msg_interface" := Str("127.0.0.1"), "internal_broker" := Str("yes"),
          "disable_broker" := Str("no"), "noproxydispatch" := Str("no"), "proxy_dispatch_port" := Num(1901)]
    case Broker =>
      map["controller" := Str("evasion.director.controllers.commandline"),
          "command" := Str("morbidsvr -p 61613 -i 127.0.0.1"), "workingdir" := Str("")]
    case Agency => map["controller" := Str("evasion.director.controllers.agencyctrl")]
    case Agent => map["agent" := Missing, "cat" := Missing, "alias" := Missing, "node" := Missing]
    case WebAdmin => map["controller" := Str("evasion.director.controllers.webadminctrl")]
    case Controller => map["controller" := Missing]
  }

  /** A freshly constructed record: named after its type, enabled, without a config section. */
  function Fresh(k: Kind): (r: Record)
    ensures r.kind == k && r.name == TypeName(k) && r.Enabled() && r.config.None?
    ensures r.order == DefaultOrder(k)
    ensures k in {Director, Broker, Agency, WebAdmin} ==> r.order.Some? && r.order.value >= 0
    ensures k in {Agent, Controller} ==> r.order.None?
  {
    Record(k, TypeName(k), DefaultOrder(k), "no", None, DefaultAttrs(k))
  }

  /** The `required` list of each class. */
  function Required(k: Kind): seq<string>
  {
    match k
    case Agent => ["name", "agent", "cat"]
    case Controller => ["name", "order", "controller"]
    case _ => []
  }

  /**
   * The position of the first non-empty required field name whose value on `r` is
   * false, scanning `fields` in order; None when there is none.
   */
  function FirstFalsy(fields: seq<string>, r: Record): (i: Option<nat>)
    ensures i.None? <==> forall j :: 0 <= j < |fields| ==> fields[j] == "" || r.Field(fields[j]).Truthy()
    ensures i.Some? ==> i.value < |fields| && fields[i.value] != "" && !r.Field(fields[i.value]).Truthy()
    ensures i.Some? ==> forall j :: 0 <= j < i.value ==> fields[j] == "" || r.Field(fields[j]).Truthy()
    decreases |fields|
  {
    if |fields| == 0 then None
    else if fields[0] != "" && !r.Field(fields[0]).Truthy() then Some(0)
    else match FirstFalsy(fields[1..], r)
      case None => None
      case Some(i) => Some(i + 1)
  }

  /** `validate`: SectionError naming the first required field that is missing or false. */
  function Validate(r: Record): (s: Status)
    ensures s.None? <==> forall f :: f in Required(r.kind) ==> r.Field(f).Truthy()
    ensures s.Some? ==> s.value.SectionError? && s.value.field in Required(r.kind) && !r.Field(s.value.field).Truthy()
  {
    var fields := Required(r.kind);
    match FirstFalsy(fields, r)
    case None => None
    case Some(i) => Some(SectionError(fields[i]))
  }

  /** An exported value: what `export` puts in its dict. */
  datatype Data = DStr(s: string) | DInt(i: int) | DBool(b: bool) | DNone | DList(items: seq<Data>) | DDict(fields: map<string, Data>)

  function AttrData(a: Attr): Data
  {
    match a
    case Str(s) => DStr(s)
    case Num(n) => DInt(n)
    case Missing => DNone
  }

  function ConfigData(c: Option<Entries>): (d: Data)
    ensures c.None? ==> d == DNone
    ensures c.Some? ==> d.DDict? && d.fields.Keys == c.value.Keys
  {
    match c
    case None => DNone
    case Some(e) => DDict(map k | k in e :: DStr(e[k]))
  }

  const BaseKeys: set<string> := {"type", "name", "order", "disabled", "config"}

  /** The keys each class's `export` adds to the base five. */
  function ExtraKeys(k: Kind): set<string>
  {
    match k
    case Director =>
      {"messaging", "msg_host", "msg_port", "msg_username", "msg_password", "msg_channel",
       "msg_interface", "internal_broker", "disable_broker", "noproxydispatch", "proxy_dispatch_port"}
    case Broker => {"controller", "command"}
    case Agency => {"controller", "agents"}
    case Agent => {"cat", "alias"}
    case _ => {}
  }

  /**
   * A record at run time. The configuration part never changes once built, nor does the
   * list of agent objects recovery hands to the agency; the loaded module, the
   * stopped-by-request flag and an agent's node and alias ids are assigned by the
   * loaders, the managers and the signal handlers.
   */
  class Entry {
    const rec: Record
    const agents: seq<Entry>
    var mod: Option<Module>
    var wasStopped: bool
    var node: Attr
    var alias: Attr

    /**
     * A record as `__init__` and recovery leave it: only the Director carries a module,
     * the stub, and only an agency holds agents. A section key `wasStopped` is set over
     * the attribute of that name like any other key, so the flag starts as its truth.
     */
    constructor (r: Record, members: seq<Entry>)
      ensures rec == r && agents == (if r.kind == Agency then members else [])
      ensures wasStopped == r.Field("wasStopped").Truthy()
      ensures mod == (if r.kind == Director then Some(DirectorStub) else None)
      ensures node == r.Field("node") && alias == r.Field("alias")
    {
      rec := r;
      agents := if r.kind == Agency then members else [];
      mod := if r.kind == Director then Some(DirectorStub) else None;
      wasStopped := r.Field("wasStopped").Truthy();
      node := r.Field("node");
      alias := r.Field("alias");
    }
  }

  function AttrOf(r: Record, key: string): Data
  {
    AttrData(r.Field(key))
  }

  /** The five entries `Base.export` produces. */
  function BaseExport(r: Record): (d: map<string, Data>)
    ensures d.Keys == BaseKeys
  {
    map["type" := DStr(TypeName(r.kind)), "name" := DStr(r.name),
        "order" := (if r.order.Some? then DInt(r.order.value) else DNone),
        "disabled" := DStr(r.disabled), "config" := ConfigData(r.config)]
  }

  /** The entries a subclass's `export` adds; an agency's agents are filled in by Export. */
  function ExtraExport(e: Entry): (d: map<string, Data>)
    reads e
    ensures d.Keys == ExtraKeys(e.rec.kind)
  {
    var r := e.rec;
    match r.kind
    case Director => map k | k in ExtraKeys(Director) :: AttrOf(r, k)
    case Broker => map["controller" := AttrOf(r, "controller"), "command" := AttrOf(r, "command")]
    case Agency => map["controller" := AttrOf(r, "controller"), "agents" := DList([])]
    case Agent => map["cat" := AttrOf(r, "cat"), "alias" := AttrData(e.alias)]
    case _ => map[]
  }

  /** The dict `export` returns for one record, leaving aside an agency's nested agents. */
  function OwnExport(e: Entry): (d: map<string, Data>)
    reads e
    ensures d.Keys == BaseKeys + ExtraKeys(e.rec.kind)
    ensures "mod" !in d && "wasStopped" !in d
    ensures forall k :: k in BaseKeys ==> d[k] == BaseExport(e.rec)[k]
  {
    KeysApart(e.rec.kind);
    BaseExport(e.rec) + ExtraExport(e)
  }

  /** No subclass export key clashes with a base key or names the module. */
  lemma KeysApart(k: Kind)
    ensures BaseKeys !! ExtraKeys(k)
    ensures "mod" !in BaseKeys + ExtraKeys(k) && "wasStopped" !in BaseKeys + ExtraKeys(k)
  {
  }

  function AgentExports(agents: seq<Entry>): (ds: seq<Data>)
    reads set a | a in agents
    ensures |ds| == |agents|
    ensures forall i :: 0 <= i < |agents| ==> ds[i] == DDict(OwnExport(agents[i]))
  {
    seq(|agents|, i reads set a | a in agents requires 0 <= i < |agents| => DDict(OwnExport(agents[i])))
  }

  /**
   * `export`: the type, name, order, disabled flag and config section, plus the fields
   * each class adds; an agency nests its agents' exports. The loaded module never appears.
   */
  function Export(e: Entry): (d: Data)
    reads e, set a | a in e.agents
    ensures d.DDict? && d.fields.Keys == BaseKeys + ExtraKeys(e.rec.kind) && "mod" !in d.fields
    ensures forall k :: k in d.fields && k != "agents" ==> d.fields[k] == OwnExport(e)[k]
    ensures e.rec.kind == Agency ==> d.fields["agents"] == DList(AgentExports(e.agents))
  {
    var own := OwnExport(e);
    if e.rec.kind == Agency then DDict(own["agents" := DList(AgentExports(e.agents))]) else DDict(own)
  }

  predicate Distinct(s: seq<Entry>)
  {
    forall i, j :: 0 <= i < j < |s| ==> s[i] != s[j]
  }

  /** Director, Broker, Agency and WebAdmin require nothing, so their validation never fails. */
  lemma ReservedAlwaysValid(r: Record)
    requires r.kind in {Director, Broker, Agency, WebAdmin}
    ensures Validate(r).None?
  {
  }

  /** A Controller whose order is 0 fails validation on `order`, the first false field after its name. */
  lemma ControllerOrderZeroInvalid(r: Record)
    requires r.kind == Controller && r.name != "" && r.order == Some(0)
    ensures Validate(r) == Some(SectionError("order"))
  {
    assert FirstFalsy(Required(Controller), r) == Some(1) by {
      assert r.Field("name").Truthy() && !r.Field("order").Truthy();
    }
  }

  /** An Agent with its name, agent path and category set validates, whatever its alias. */
  lemma AgentValidWithoutAlias(r: Record)
    requires r.kind == Agent && r.name != "" && r.Field("agent").Truthy() && r.Field("cat").Truthy()
    ensures Validate(r).None?
  {
  }
}

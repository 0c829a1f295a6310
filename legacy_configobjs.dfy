/**
 * The older revision of the record classes (package `director`): no `wasStopped`, a
 * `webadmin` attribute on every record, a name of None until one is given, and a
 * `Container` class whose validation accepts anything.
 */
module LegacyConfigObjs {
  import opened Wrappers
  import opened Lifecycle
  import ConfigObjs

  type Attr = ConfigObjs.Attr

  datatype Kind = Director | Broker | Agency | Agent | WebAdmin | Controller | Container

  datatype Record = Record(kind: Kind, name: Option<string>, order: Option<int>, disabled: string,
                           config: Option<map<string, string>>, webadmin: string,
                           attrs: map<string, Attr>, mod: Option<Module>, agents: Option<seq<Record>>)
  {
    /** `getattr(self, f, None)`. */
    function Field(f: string): Attr
    {
      if f == "name" then (if name.Some? then ConfigObjs.Str(name.value) else ConfigObjs.Missing)
      else if f == "order" then (if order.Some? then ConfigObjs.Num(order.value) else ConfigObjs.Missing)
      else if f == "disabled" then ConfigObjs.Str(disabled)
      else if f == "webadmin" then ConfigObjs.Str(webadmin)
      else if f in attrs then attrs[f]
      else ConfigObjs.Missing
    }
  }

  /**
   * `Base.__init__`: no name, no order, enabled, no config, an empty webadmin and no
   * module; only an Agency has an agent list.
   */
  const BaseRecord: Record := Record(Container, None, None, "no", None, "", map[], None, None)

  /** Each constructor's result. */
  function Fresh(k: Kind): (r: Record)
    ensures r.kind == k && r.disabled == "no" && r.config.None?
    ensures r.mod.Some? <==> k == Director
    ensures r.agents == (if k == Agency then Some([]) else None)
    ensures k == Director ==> r.mod == Some(DirectorStub) && r.order == Some(0)
    ensures k in {Agent, Controller, Container} ==> r.name.None? && r.order.None? && r.webadmin == ""
    ensures k == WebAdmin ==> r.order == Some(4) && r.webadmin == "webadmin"
    ensures k == WebAdmin ==> r.Field("host") == ConfigObjs.Str("127.0.0.1") && r.Field("port") == ConfigObjs.Num(29875)
  {
    var b := BaseRecord.(kind := k);
    match k
    case Director =>
      b.(name := Some("director"), order := Some(0), mod := Some(DirectorStub),
         attrs := map["msg_host" := ConfigObjs.Str("127.0.0.1"), "msg_port" := ConfigObjs.Num(61613),
                      "msg_username" := ConfigObjs.Str(""), "msg_password" := ConfigObjs.Str(""),
                      "msg_channel" := ConfigObjs.Str("evasion"), "disable_broker" := ConfigObjs.Str("no"),
                      "noproxydispatch" := ConfigObjs.Str("no"), "proxy_dispatch_port" := ConfigObjs.Num(1901)])
    case Broker =>
      b.(name := Some("broker"), order := Some(1),
         attrs := map["controller" := ConfigObjs.Str("director.controllers.commandline"),
                      "command" := ConfigObjs.Str("morbidsvr -p 61613 -i 127.0.0.1"),
                      "workingdir" := ConfigObjs.Str("")])
    case Agency =>
      b.(name := Some("agency"), order := Some(2), agents := Some([]),
         attrs := map["controller" := ConfigObjs.Str("director.controllers.agencyctrl")])
    case Agent =>
      b.(attrs := map["agent" := ConfigObjs.Missing, "cat" := ConfigObjs.Missing,
                      "alias" := ConfigObjs.Missing, "node" := ConfigObjs.Missing])
    case WebAdmin =>
      b.(name := Some("webadmin"), order := Some(4), webadmin := "webadmin",
         attrs := map["host" := ConfigObjs.Str("127.0.0.1"), "port" := ConfigObjs.Num(29875),
                      "controller" := ConfigObjs.Str("director.controllers.base"),
                      "command" := ConfigObjs.Str("runwebadmin --config development.ini"),
                      "workingdir" := ConfigObjs.Str("")])
    case Controller => b.(attrs := map["controller" := ConfigObjs.Missing])
    case Container => b
  }

  function Required(k: Kind): seq<string>
  {
    match k
    case Agent => ["name", "agent", "cat"]
    case Controller => ["name", "order", "controller"]
    case _ => []
  }

  /**
   * The position of the first non-empty required field name whose value on `r` is
   * false, scanning `fields` in order; None when there is none.
   */
  function FirstFalsy(fields: seq<string>, r: Record): (i: Option<nat>)
    ensures i.None? <==> forall j :: 0 <= j < |fields| ==> fields[j] == "" || r.Field(fields[j]).Truthy()
    ensures i.Some? ==> i.value < |fields| && fields[i.value] != "" && !r.Field(fields[i.value]).Truthy()
    ensures i.Some? ==> forall j :: 0 <= j < i.value ==> fields[j] == "" || r.Field(fields[j]).Truthy()
    decreases |fields|
  {
    if |fields| == 0 then None
    else if fields[0] != "" && !r.Field(fields[0]).Truthy() then Some(0)
    else match FirstFalsy(fields[1..], r)
      case None => None
      case Some(i) => Some(i + 1)
  }

  /** `validate`: a Container accepts anything; the others raise SectionError on the first missing or false required field. */
  function Validate(r: Record): (s: Status)
    ensures r.kind == Container ==> s.None?
    ensures r.kind != Container ==> (s.None? <==> forall f :: f in Required(r.kind) ==> r.Field(f).Truthy())
    ensures s.Some? ==> s.value.SectionError? && s.value.field in Required(r.kind) && !r.Field(s.value.field).Truthy()
  {
    if r.kind == Container then None
    else
      var fields := Required(r.kind);
      match FirstFalsy(fields, r)
      case None => None
      case Some(i) => Some(SectionError(fields[i]))
  }

  /** A freshly built Agent or Controller has no name, so it fails validation on `name`. */
  lemma FreshUnnamedInvalid(k: Kind)
    requires k in {Agent, Controller}
    ensures Validate(Fresh(k)) == Some(SectionError("name"))
  {
    var r := Fresh(k);
    assert !r.Field("name").Truthy();
    assert FirstFalsy(Required(k), r) == Some(0);
  }
}

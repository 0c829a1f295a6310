/**
 * The director's handlers for the requests it receives over the message bus: ping,
 * controller state, start, stop, reload and configuration. The reply the handler sends
 * back is its return value; a handler never raises, every exception inside it becomes
 * an 'error' reply.
 */
module Signals {
  import opened Wrappers
  import opened Lifecycle
  import opened ConfigObjs
  import opened Recovery
  import opened Sweeps
  import opened Text
  import opened Config

  /**
   * What a reply carries: a value, the formatted traceback of an exception (its text is
   * not modelled, only which exception it was), or the message `str(e)` of an exception.
   */
  datatype Payload = Value(d: Data) | Trace(e: Error) | Message(e: Error)

  /** The dict `resultDict` builds. */
  datatype Reply = Reply(result: string, data: Payload)

  /**
   * `resultDict`: the result word lower-cased, which must then be 'ok' or 'error'
   * (ValueError otherwise), paired with the data.
   */
  function ResultDict(data: Payload, result: string): (r: Result<Reply>)
    ensures r.Ok? <==> Lower(result) in {"ok", "error"}
    ensures r.Err? ==> r.error == ValueError
    ensures r.Ok? ==> r.value.data == data && r.value.result in {"ok", "error"}
    ensures r.Ok? ==> |r.value.result| == |result| && forall i :: 0 <= i < |result| ==> r.value.result[i] == LowerChar(result[i])
  {
    var word := Lower(result);
    if word in {"ok", "error"} then Ok(Reply(word, data)) else Err(ValueError)
  }

  /** Lower-casing twice is lower-casing once. */
  lemma LowerIdempotent(s: string)
    ensures Lower(Lower(s)) == Lower(s)
  {
  }

  /** The result word is matched without regard to case: 'OK' and 'Error' are accepted as 'ok' and 'error'. */
  lemma ResultDictIgnoresCase(data: Payload, result: string)
    ensures ResultDict(data, Lower(result)) == ResultDict(data, result)
  {
    LowerIdempotent(result);
  }

  /** The two words the handlers pass are accepted unchanged. */
  lemma ResultDictKnown(data: Payload)
    ensures ResultDict(data, "ok") == Ok(Reply("ok", data))
    ensures ResultDict(data, "error") == Ok(Reply("error", data))
  {
    assert Lower("ok") == "ok";
    assert Lower("error") == "error";
  }

  /** A word other than ok or error, in any case, is refused. */
  lemma ResultDictRejects(data: Payload, result: string)
    requires Lower(result) != "ok" && Lower(result) != "error"
    ensures ResultDict(data, result) == Err(ValueError)
  {
  }

  function OkReply(data: Payload): (r: Reply)
    ensures Ok(r) == ResultDict(data, "ok")
  {
    ResultDictKnown(data);
    ResultDict(data, "ok").value
  }

  function ErrorReply(data: Payload): (r: Reply)
    ensures Ok(r) == ResultDict(data, "error")
  {
    ResultDictKnown(data);
    ResultDict(data, "error").value
  }

  /** `signalPing`: an 'ok' reply carrying back the token it was sent. */
  function SignalPing(token: Data): (rc: Reply)
    ensures rc.result == "ok" && rc.data == Value(token)
  {
    OkReply(Value(token))
  }

  // ---------------------------------------------------------------------------------
  // controller state

  /** One controller's line in the state reply. */
  function StateRow(name: string, disabled: string, started: bool, config: Data): Data
  {
    DDict(map["name" := DStr(name), "disabled" := DStr(disabled), "started" := DBool(started), "config" := config])
  }

  /** The config a state line shows: the record's section, or an empty dict when it has none or it is empty. */
  function ShownConfig(r: Record): (d: Data)
    ensures r.config.None? || r.config.value == map[] ==> d == DDict(map[])
    ensures r.config.Some? && r.config.value != map[] ==> d == ConfigData(r.config)
  {
    if r.config.Some? && r.config.value != map[] then ConfigData(r.config) else DDict(map[])
  }

  /**
   * One record's part in the state request: the director is skipped; a record without a
   * module is reported not started; otherwise its module is asked `isStarted()`, which
   * is logged and may raise. The triple is the module after, the exception and the
   * lines added.
   */
  function Probe(r: Record, m: Option<Module>): (Option<Module>, Status, seq<Data>)
  {
    if r.name == "director" then (m, None, [])
    else if m.None? then (m, None, [StateRow(r.name, r.disabled, false, ShownConfig(r))])
    else
      var (m1, out) := Invoke(m.value, IsStarted);
      if out.Raised? then (Some(m1), Some(out.error), [])
      else (Some(m1), None, [StateRow(r.name, r.disabled, out.value, ShownConfig(r))])
  }

  function ProbeStatuses(rs: seq<Record>, ms: seq<Option<Module>>): (r: seq<Status>)
    requires |rs| == |ms|
    ensures |r| == |ms| && forall i :: 0 <= i < |ms| ==> r[i] == Probe(rs[i], ms[i]).1
  {
    seq(|ms|, i requires 0 <= i < |ms| => Probe(rs[i], ms[i]).1)
  }

  /** The lines of the first `n` records, in list order. */
  function Rows(rs: seq<Record>, ms: seq<Option<Module>>, n: nat): seq<Data>
    requires |rs| == |ms| && n <= |ms|
  {
    if n == 0 then [] else Rows(rs, ms, n - 1) + Probe(rs[n - 1], ms[n - 1]).2
  }

  /** The names of the records other than the director, in list order. */
  function NonDirectorNames(rs: seq<Record>): seq<string>
  {
    if |rs| == 0 then []
    else NonDirectorNames(rs[..|rs| - 1]) + (if rs[|rs| - 1].name == "director" then [] else [rs[|rs| - 1].name])
  }

  /** The name each line carries. */
  function RowNames(rows: seq<Data>): seq<string>
  {
    seq(|rows|, i requires 0 <= i < |rows| => if rows[i].DDict? && "name" in rows[i].fields && rows[i].fields["name"].DStr? then rows[i].fields["name"].s else "")
  }

  /**
   * When no `isStarted()` raises, the state reply lists every record except the director,
   * once each, in store order.
   */
  lemma {:induction false} RowsListNonDirectors(rs: seq<Record>, ms: seq<Option<Module>>, n: nat)
    requires |rs| == |ms| && n <= |ms|
    requires forall k :: 0 <= k < n ==> Probe(rs[k], ms[k]).1.None?
    ensures RowNames(Rows(rs, ms, n)) == NonDirectorNames(rs[..n])
  {
    if n > 0 {
      RowsListNonDirectors(rs, ms, n - 1);
      assert rs[..n][..n - 1] == rs[..n - 1];
      var row := Probe(rs[n - 1], ms[n - 1]).2;
      assert RowNames(Rows(rs, ms, n - 1) + row) == RowNames(Rows(rs, ms, n - 1)) + RowNames(row);
    }
  }

  /** A record without a module is reported not started, with an empty config when it has none. */
  lemma ProbeWithoutModule(r: Record)
    requires r.name != "director"
    ensures Probe(r, None).2 == [StateRow(r.name, r.disabled, false, ShownConfig(r))]
    ensures r.config.None? ==> Probe(r, None).2[0].fields["config"] == DDict(map[])
  {
  }

  /**
   * The loop of `signalControllerState`. `reached` counts the records visited; it stops
   * at the first `isStarted()` that raises.
   */
  method ProbeAll(cfg: seq<Entry>, ghost rs: seq<Record>, ghost ms: seq<Option<Module>>)
    returns (err: Status, rows: seq<Data>, ghost reached: nat)
    requires Distinct(cfg) && rs == Recs(cfg) && ms == Mods(cfg)
    modifies cfg`mod
    ensures reached <= |cfg|
    ensures forall k :: 0 <= k < |cfg| ==> cfg[k].mod == (if k < reached then Probe(rs[k], ms[k]).0 else ms[k])
    ensures err.None? ==> reached == |cfg| && rows == Rows(rs, ms, |cfg|) && forall k :: 0 <= k < |cfg| ==> Probe(rs[k], ms[k]).1.None?
    ensures err.Some? ==> (0 < reached && err == Probe(rs[reached - 1], ms[reached - 1]).1
      && forall k :: 0 <= k < reached - 1 ==> Probe(rs[k], ms[k]).1.None?)
  {
    rows := [];
    var i := 0;
    while i < |cfg|
      invariant i <= |cfg|
      invariant forall k :: 0 <= k < i ==> cfg[k].mod == Probe(rs[k], ms[k]).0
      invariant forall k :: i <= k < |cfg| ==> cfg[k].mod == ms[k]
      invariant forall k :: 0 <= k < i ==> Probe(rs[k], ms[k]).1.None?
      invariant rows == Rows(rs, ms, i)
    {
      var ctrl := cfg[i];
      assert forall k :: 0 <= k < |cfg| && k != i ==> cfg[k] != ctrl;
      if ctrl.rec.name != "director" {
        var started := false;
        if ctrl.mod.Some? {
          var (m, out) := Invoke(ctrl.mod.value, IsStarted);
          ctrl.mod := Some(m);
          if out.Raised? {
            return Some(out.error), rows, i + 1;
          }
          started := out.value;
        }
        rows := rows + [StateRow(ctrl.rec.name, ctrl.rec.disabled, started, ShownConfig(ctrl.rec))];
      }
      i := i + 1;
    }
    return None, rows, i;
  }

  /**
   * `signalControllerState`: an 'ok' reply listing, for every record but the director,
   * its name, disabled flag, whether its module reports started and its config; the
   * records whose modules were asked have the call logged. A store that is not set up,
   * or an `isStarted()` that raises, gives an 'error' reply instead.
   */
  method SignalControllerState(config: ConfigState) returns (rc: Reply)
    requires config.Valid()
    modifies config.Held()`mod
    ensures old(config.store).None? ==> rc == ErrorReply(Trace(ConfigNotSetup))
    ensures old(config.store).Some? ==>
      var cfg := old(config.store).value.cfg;
      var rs := Recs(cfg);
      var ms := old(Mods(cfg));
      var ss := ProbeStatuses(rs, ms);
      var n := Reach(ss, true);
      && (forall k :: 0 <= k < |cfg| ==> cfg[k].mod == (if k < n then Probe(rs[k], ms[k]).0 else ms[k]))
      && (StopError(ss, true).Some? ==> rc == ErrorReply(Trace(StopError(ss, true).value)))
      && (StopError(ss, true).None? ==> rc == OkReply(Value(DList(Rows(rs, ms, |cfg|)))))
  {
    var got := config.GetCfg();
    if got.Err? {
      return ErrorReply(Trace(got.error));
    }
    var cfg := got.value.cfg;
    ghost var rs := Recs(cfg);
    ghost var ms := Mods(cfg);
    var err, rows, reached := ProbeAll(cfg, rs, ms);
    RanReach(ProbeStatuses(rs, ms), true, reached, err);
    if err.Some? {
      return ErrorReply(Trace(err.value));
    }
    return OkReply(Value(DList(rows)));
  }

  // ---------------------------------------------------------------------------------
  // controller start and stop

  /** The reply text for a disabled record: "cannot be started" or "cannot be stopped". */
  function DisabledText(name: string, verb: string): string
  {
    "The controller '" + name + "' is disabled and cannot be " + verb
  }

  /** The reply text once the call was made: "start called." or "stop called.". */
  function CalledText(name: string, verb: string): string
  {
    "Service '" + name + "' " + verb + " called."
  }

  /**
   * The shared body of the start and stop handlers: find the first record of the name;
   * if it is disabled 'yes' reply with the disabled text; otherwise set its stopped-by-
   * request flag, then make the call on its module (AttributeError without one).
   */
  method Switch(config: ConfigState, name: string, stop: bool) returns (rc: Reply)
    requires config.Valid()
    modifies config.Held()`mod, config.Held()`wasStopped
    ensures old(config.store).None? ==> rc == ErrorReply(Trace(ConfigNotSetup))
    ensures old(config.store).Some? ==>
      var cfg := old(config.store).value.cfg;
      var found := FindFirst(cfg, name);
      && (found.None? ==> rc == OkReply(Value(DStr(""))))
      && (forall k :: 0 <= k < |cfg| && Some(k) != found ==> cfg[k].mod == old(cfg[k].mod) && cfg[k].wasStopped == old(cfg[k].wasStopped))
      && (found.Some? ==>
        var ctrl := cfg[found.value];
        var verb := if stop then "stopped" else "started";
        var call := if stop then Stop else Start;
        && (ctrl.rec.disabled == "yes" ==>
              rc == OkReply(Value(DStr(DisabledText(name, verb)))) && ctrl.mod == old(ctrl.mod) && ctrl.wasStopped == old(ctrl.wasStopped))
        && (ctrl.rec.disabled != "yes" ==> ctrl.wasStopped == stop)
        && (ctrl.rec.disabled != "yes" && old(ctrl.mod).None? ==> rc == ErrorReply(Trace(AttributeError)) && ctrl.mod.None?)
        && (ctrl.rec.disabled != "yes" && old(ctrl.mod).Some? ==>
              var (m, out) := Invoke(old(ctrl.mod).value, call);
              && ctrl.mod == Some(m)
              && rc == (if out.Raised? then ErrorReply(Trace(out.error))
                        else OkReply(Value(DStr(CalledText(name, if stop then "stop" else "start")))))))
  {
    var got := config.GetCfg();
    if got.Err? {
      return ErrorReply(Trace(got.error));
    }
    var cfg := got.value.cfg;
    var found := FindController(cfg, name);
    if found.None? {
      return OkReply(Value(DStr("")));
    }
    var ctrl := cfg[found.value];
    if ctrl.rec.disabled == "yes" {
      return OkReply(Value(DStr(DisabledText(name, if stop then "stopped" else "started"))));
    }
    ctrl.wasStopped := stop;
    if ctrl.mod.None? {
      return ErrorReply(Trace(AttributeError));
    }
    var (m, out) := Invoke(ctrl.mod.value, if stop then Stop else Start);
    ctrl.mod := Some(m);
    if out.Raised? {
      return ErrorReply(Trace(out.error));
    }
    return OkReply(Value(DStr(CalledText(ctrl.rec.name, if stop then "stop" else "start"))));
  }

  /**
   * `signalControllerStart`: an enabled record is marked not stopped by request before
   * its module's `start()` is called; a disabled one is left alone with an 'ok' reply
   * saying it cannot be started; an unknown name gets an empty 'ok' reply. Only the
   * named record changes.
   */
  method SignalControllerStart(config: ConfigState, name: string) returns (rc: Reply)
    requires config.Valid()
    modifies config.Held()`mod, config.Held()`wasStopped
    ensures old(config.store).None? ==> rc == ErrorReply(Trace(ConfigNotSetup))
    ensures old(config.store).Some? ==>
      var cfg := old(config.store).value.cfg;
      var found := FindFirst(cfg, name);
      && (found.None? ==> rc == OkReply(Value(DStr(""))))
      && (forall k :: 0 <= k < |cfg| && Some(k) != found ==> cfg[k].mod == old(cfg[k].mod) && cfg[k].wasStopped == old(cfg[k].wasStopped))
      && (found.Some? ==>
        var ctrl := cfg[found.value];
        && (ctrl.rec.disabled == "yes" ==>
              rc == OkReply(Value(DStr(DisabledText(name, "started")))) && ctrl.mod == old(ctrl.mod) && ctrl.wasStopped == old(ctrl.wasStopped))
        && (ctrl.rec.disabled != "yes" ==> !ctrl.wasStopped)
        && (ctrl.rec.disabled != "yes" && old(ctrl.mod).None? ==> rc == ErrorReply(Trace(AttributeError)))
        && (ctrl.rec.disabled != "yes" && old(ctrl.mod).Some? ==>
              var (m, out) := Invoke(old(ctrl.mod).value, Start);
              && ctrl.mod == Some(m)
              && rc == (if out.Raised? then ErrorReply(Trace(out.error)) else OkReply(Value(DStr(CalledText(name, "start")))))))
  {
    rc := Switch(config, name, false);
  }

  /**
   * `signalControllerStop`: an enabled record is marked stopped by request, so the
   * maintenance loop will not restart it, before its module's `stop()` is called; a
   * disabled one is left alone with an 'ok' reply saying it cannot be stopped; an
   * unknown name gets an empty 'ok' reply. Only the named record changes.
   */
  method SignalControllerStop(config: ConfigState, name: string) returns (rc: Reply)
    requires config.Valid()
    modifies config.Held()`mod, config.Held()`wasStopped
    ensures old(config.store).None? ==> rc == ErrorReply(Trace(ConfigNotSetup))
    ensures old(config.store).Some? ==>
      var cfg := old(config.store).value.cfg;
      var found := FindFirst(cfg, name);
      && (found.None? ==> rc == OkReply(Value(DStr(""))))
      && (forall k :: 0 <= k < |cfg| && Some(k) != found ==> cfg[k].mod == old(cfg[k].mod) && cfg[k].wasStopped == old(cfg[k].wasStopped))
      && (found.Some? ==>
        var ctrl := cfg[found.value];
        && (ctrl.rec.disabled == "yes" ==>
              rc == OkReply(Value(DStr(DisabledText(name, "stopped")))) && ctrl.mod == old(ctrl.mod) && ctrl.wasStopped == old(ctrl.wasStopped))
        && (ctrl.rec.disabled != "yes" ==> ctrl.wasStopped)
        && (ctrl.rec.disabled != "yes" && old(ctrl.mod).None? ==> rc == ErrorReply(Trace(AttributeError)))
        && (ctrl.rec.disabled != "yes" && old(ctrl.mod).Some? ==>
              var (m, out) := Invoke(old(ctrl.mod).value, Stop);
              && ctrl.mod == Some(m)
              && rc == (if out.Raised? then ErrorReply(Trace(out.error)) else OkReply(Value(DStr(CalledText(name, "stop")))))))
  {
    rc := Switch(config, name, true);
  }

  // ---------------------------------------------------------------------------------
  // reload and configuration

  /**
   * The reply to a reload: 'ok' with True on success; a ControllerReloadError becomes
   * 'error' with its message; any other exception 'error' with its traceback.
   */
  function ReloadReply(st: Status): (rc: Reply)
    ensures st.None? <==> rc.result == "ok"
    ensures st.None? ==> rc.data == Value(DBool(true))
    ensures st.Some? && st.value.ControllerReloadError? ==> rc.data == Message(st.value)
    ensures st.Some? && !st.value.ControllerReloadError? ==> rc.data == Trace(st.value)
  {
    match st
    case None => OkReply(Value(DBool(true)))
    case Some(e) => if e.ControllerReloadError? then ErrorReply(Message(e)) else ErrorReply(Trace(e))
  }

  /**
   * `signalControllerReload`: run `reload_controller` and reply with its outcome; an
   * unknown name is an 'error' reply with the ControllerReloadError message. The store
   * changes as ReloadController states: the old controller module is stopped and torn
   * down whether or not the reload then succeeds, and on success the new record, with
   * its freshly set-up module (`added`), replaces the old one in the sorted list.
   */
  method SignalControllerReload(config: ConfigState, name: string, newConfig: Entries, reg: Registry)
    returns (rc: Reply, st: Status, ghost added: Option<Entry>)
    requires config.Valid()
    modifies config, config.Held()
    ensures config.Valid()
    ensures rc == ReloadReply(st)
    ensures old(config.store).None? ==> st == Some(ConfigNotSetup) && config.store == old(config.store) && added.None?
    ensures old(config.store).Some? && FindFirst(old(config.store).value.cfg, name).None? ==>
      st == Some(ControllerReloadError(name)) && config.store == old(config.store) && added.None?
    ensures old(config.store).Some? && FindFirst(old(config.store).value.cfg, name).Some? ==>
      var s := old(config.store).value;
      var ctrl := s.cfg[FindFirst(s.cfg, name).value];
      var out := ReloadOutcome(name, newConfig, reg, old(ctrl.mod), ctrl.rec.order);
      && ctrl.mod == RetiredMod(old(ctrl.mod))
      && (out.Err? ==> st == Some(out.error) && config.store == old(config.store) && added.None?)
      && (out.Ok? ==> (st.None? && added.Some? && fresh(added.value)
            && added.value.rec == out.value.0 && added.value.mod == out.value.1
            && added.value.wasStopped == added.value.rec.Field("wasStopped").Truthy()
            && config.store == Some(s.(cfg := Spliced(s.cfg, added.value, name), configobj := s.configobj[name := newConfig]))))
    ensures old(config.store).Some? ==> forall e :: e in old(config.store).value.cfg ==>
      e.wasStopped == old(e.wasStopped) && e.node == old(e.node) && e.alias == old(e.alias) && (e.rec.name != name ==> e.mod == old(e.mod))
  {
    st, added := config.ReloadController(name, newConfig, reg);
    rc := ReloadReply(st);
  }

  /** `signalConfiguration`: an 'ok' reply with the configuration export, or 'error' before `set_cfg`. */
  method SignalConfiguration(config: ConfigState) returns (rc: Reply)
    ensures config.store.None? ==> rc == ErrorReply(Trace(ConfigNotSetup))
    ensures config.store.Some? ==> rc == OkReply(Value(ExportStore(config.store.value)))
  {
    var cfg := config.ExportConfiguration();
    if cfg.Err? {
      return ErrorReply(Trace(cfg.error));
    }
    return OkReply(Value(cfg.value));
  }
}

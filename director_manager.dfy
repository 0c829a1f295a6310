/**
 * The director's maintenance engine: `controllerSetup` loads and sets up the controller
 * records, `step` is one pass of the poll loop over them, and `shutdown` stops and then
 * tears down every loaded module. A failure either propagates or, when the manager keeps
 * going on exceptions, is swallowed.
 */
module DirectorManager {
  import opened Wrappers
  import opened Lifecycle
  import opened ConfigObjs
  import opened Recovery
  import opened Config
  import opened Sweeps

  /** A record's view at the start of a step: its configuration, its stopped-by-request flag and its module. */
  datatype Slot = Slot(rec: Record, wasStopped: bool, mod: Option<Module>)

  function Slots(cfg: seq<Entry>): (ss: seq<Slot>)
    reads set e | e in cfg
    ensures |ss| == |cfg| && forall i :: 0 <= i < |cfg| ==> ss[i] == Slot(cfg[i].rec, cfg[i].wasStopped, cfg[i].mod)
  {
    seq(|cfg|, i reads set e | e in cfg requires 0 <= i < |cfg| => Slot(cfg[i].rec, cfg[i].wasStopped, cfg[i].mod))
  }

  // ---------------------------------------------------------------------------------
  // controllerSetup

  /** The module each record holds after `load_controllers` with failures ignored. */
  function LoadedMods(reg: Registry, rs: seq<Record>, ms: seq<Option<Module>>): (r: seq<Option<Module>>)
    requires |rs| == |ms|
    ensures |r| == |rs| && forall i :: 0 <= i < |rs| ==> r[i] == LoadedMod(reg, rs[i], ms[i])
  {
    seq(|rs|, i requires 0 <= i < |rs| => LoadedMod(reg, rs[i], ms[i]))
  }

  /** `setUp` on one record: only a loaded, enabled record gets the call. */
  function SetUpOne(r: Record, m: Option<Module>): (Option<Module>, Status)
  {
    if m.None? || !r.Enabled() then (m, None)
    else
      var (m1, out) := Invoke(m.value, SetUp);
      (Some(m1), if out.Raised? then Some(out.error) else None)
  }

  /**
   * A record without a module, or a disabled one, is left alone; a loaded, enabled one
   * gets exactly one `setUp` call, which fails exactly when the module raises on it.
   */
  lemma SetUpOneFacts(r: Record, m: Option<Module>)
    ensures m.None? || !r.Enabled() ==> SetUpOne(r, m) == (m, None)
    ensures m.Some? && r.Enabled() ==>
      && SetUpOne(r, m).0.Some? && SetUpOne(r, m).0.value.log == m.value.log + [SetUp]
      && (SetUpOne(r, m).1.Some? <==> SetUp in m.value.raises)
      && (SetUpOne(r, m).1.Some? ==> SetUpOne(r, m).1.value == m.value.raises[SetUp])
  {
  }

  function SetUpStatuses(rs: seq<Record>, ms: seq<Option<Module>>): (r: seq<Status>)
    requires |rs| == |ms|
    ensures |r| == |rs| && forall i :: 0 <= i < |rs| ==> r[i] == SetUpOne(rs[i], ms[i]).1
  {
    seq(|rs|, i requires 0 <= i < |rs| => SetUpOne(rs[i], ms[i]).1)
  }

  /** `nameLookup` after registering the first `n` records in order: a later record of the same name wins. */
  function Register(m: map<string, Entry>, es: seq<Entry>, n: nat): map<string, Entry>
    requires n <= |es|
  {
    if n == 0 then m else Register(m, es, n - 1)[es[n - 1].rec.name := es[n - 1]]
  }

  /** Every registered record's name is a key, and every key was there before or names a registered record. */
  lemma {:induction false} RegisterKeys(m: map<string, Entry>, es: seq<Entry>, n: nat)
    requires n <= |es|
    ensures forall i :: 0 <= i < n ==> es[i].rec.name in Register(m, es, n)
    ensures forall name :: name in Register(m, es, n) ==> name in m || exists i :: 0 <= i < n && es[i].rec.name == name
  {
    if n > 0 {
      RegisterKeys(m, es, n - 1);
    }
  }

  /** A name is registered to the last record, among the first `n`, that carries it. */
  lemma {:induction false} RegisterLast(m: map<string, Entry>, es: seq<Entry>, n: nat, i: nat)
    requires i < n <= |es|
    requires forall j :: i < j < n ==> es[j].rec.name != es[i].rec.name
    ensures es[i].rec.name in Register(m, es, n) && Register(m, es, n)[es[i].rec.name] == es[i]
  {
    if i < n - 1 {
      RegisterLast(m, es, n - 1, i);
    }
  }

  // ---------------------------------------------------------------------------------
  // step

  /** What one record's maintenance amounts to: nothing raised, an error caught and logged, or one that propagates. */
  datatype Effect = Quiet | Caught(error: Error) | Escaped(error: Error)

  /** The start branch catches every error but SystemExit and KeyboardInterrupt. */
  function Guarded(e: Error): (f: Effect)
    ensures f.Escaped? <==> e.IsInterrupt()
    ensures !f.Quiet? && f.error == e
  {
    if e.IsInterrupt() then Escaped(e) else Caught(e)
  }

  /**
   * One record's maintenance: a record stopped by request with a module is stopped if it
   * reports started; otherwise an enabled, loaded record that is not started is started and
   * asked again. Errors in the first branch propagate; the second catches all but interrupts.
   */
  function StepOne(s: Slot): (Option<Module>, Effect)
  {
    if s.wasStopped && s.mod.Some? then
      var (m1, asked) := Invoke(s.mod.value, IsStarted);
      if asked.Raised? then (Some(m1), Escaped(asked.error))
      else if !asked.value then (Some(m1), Quiet)
      else
        var (m2, stopped) := Invoke(m1, Stop);
        (Some(m2), if stopped.Raised? then Escaped(stopped.error) else Quiet)
    else if s.rec.Enabled() && s.mod.Some? then
      var (m1, asked) := Invoke(s.mod.value, IsStarted);
      if asked.Raised? then (Some(m1), Guarded(asked.error))
      else if asked.value then (Some(m1), Quiet)
      else
        var (m2, started) := Invoke(m1, Start);
        if started.Raised? then (Some(m2), Guarded(started.error))
        else
          var (m3, rc) := Invoke(m2, IsStarted);
          (Some(m3), if rc.Raised? then Guarded(rc.error) else Quiet)
    else (s.mod, Quiet)
  }

  /**
   * A record stopped by request is never started: its module is asked `isStarted` and gets
   * `stop` only when it answered True; any error it raises propagates.
   */
  lemma StepStoppedNeverStarts(s: Slot)
    requires s.wasStopped && s.mod.Some?
    ensures var m := s.mod.value;
      var asked := IsStarted !in m.raises && m.ReportsStarted();
      && StepOne(s).0.Some?
      && StepOne(s).0.value.log == m.log + (if asked then [IsStarted, Stop] else [IsStarted])
      && (StepOne(s).1.Caught? == false)
      && (StepOne(s).1.Escaped? <==> IsStarted in m.raises || (asked && Stop in m.raises))
  {
  }

  /**
   * An enabled, loaded record that is not stopped by request and reports not started gets
   * `start` exactly once, followed by a second `isStarted`; a tracking module then runs.
   */
  lemma StepStartsOnce(s: Slot)
    requires !s.wasStopped && s.rec.Enabled() && s.mod.Some?
    requires !s.mod.value.ReportsStarted() && IsStarted !in s.mod.value.raises && Start !in s.mod.value.raises
    ensures StepOne(s).0.Some? && StepOne(s).0.value.log == s.mod.value.log + [IsStarted, Start, IsStarted]
    ensures StepOne(s).1 == Quiet
    ensures s.mod.value.behaviour == Tracks ==> StepOne(s).0.value.ReportsStarted()
  {
  }

  /** A running, enabled record that is not stopped by request is only asked `isStarted`. */
  lemma StepLeavesRunning(s: Slot)
    requires !s.wasStopped && s.rec.Enabled() && s.mod.Some?
    requires s.mod.value.ReportsStarted() && IsStarted !in s.mod.value.raises
    ensures StepOne(s) == (Some(s.mod.value.(log := s.mod.value.log + [IsStarted])), Quiet)
  {
  }

  /** A record without a module, or a disabled one not stopped by request, is untouched. */
  lemma StepUntouched(s: Slot)
    requires s.mod.None? || (!s.wasStopped && !s.rec.Enabled())
    ensures StepOne(s) == (s.mod, Quiet)
  {
  }

  /** Outside the stopped-by-request branch only SystemExit and KeyboardInterrupt propagate. */
  lemma StepEscapes(s: Slot)
    requires !(s.wasStopped && s.mod.Some?)
    ensures StepOne(s).1.Escaped? ==> StepOne(s).1.error.IsInterrupt()
    ensures StepOne(s).1.Caught? ==> !StepOne(s).1.error.IsInterrupt()
  {
  }

  function Escape(f: Effect): Status
  {
    if f.Escaped? then Some(f.error) else None
  }

  function Catch(f: Effect): Status
  {
    if f.Caught? then Some(f.error) else None
  }

  function Escapes(ss: seq<Slot>): (r: seq<Status>)
    ensures |r| == |ss| && forall i :: 0 <= i < |ss| ==> r[i] == Escape(StepOne(ss[i]).1)
  {
    seq(|ss|, i requires 0 <= i < |ss| => Escape(StepOne(ss[i]).1))
  }

  function Catches(ss: seq<Slot>): (r: seq<Status>)
    ensures |r| == |ss| && forall i :: 0 <= i < |ss| ==> r[i] == Catch(StepOne(ss[i]).1)
  {
    seq(|ss|, i requires 0 <= i < |ss| => Catch(StepOne(ss[i]).1))
  }

  // ---------------------------------------------------------------------------------
  // shutdown

  function CallStatuses(ms: seq<Option<Module>>, c: Call): (r: seq<Status>)
    ensures |r| == |ms| && forall i :: 0 <= i < |ms| ==> r[i] == CallOn(ms[i], c).1
  {
    seq(|ms|, i requires 0 <= i < |ms| => CallOn(ms[i], c).1)
  }

  /**
   * One sweep of `shutdown`: the call on every loaded module in list order. Without
   * keep-going the first error stops the sweep, after the failing call is made, and is
   * the sweep's error; with keep-going every error is swallowed.
   */
  function Sweep(ms: seq<Option<Module>>, c: Call, keepGoing: bool): (r: (seq<Option<Module>>, Status))
    ensures |r.0| == |ms|
    ensures forall i :: 0 <= i < |ms| ==> r.0[i] == (if i < Reach(CallStatuses(ms, c), !keepGoing) then CallOn(ms[i], c).0 else ms[i])
  {
    var n := Reach(CallStatuses(ms, c), !keepGoing);
    (seq(|ms|, i requires 0 <= i < |ms| => if i < n then CallOn(ms[i], c).0 else ms[i]),
     StopError(CallStatuses(ms, c), !keepGoing))
  }

  /** `shutdown`: stop every loaded module, then tear every one down, unless a stop failure ended it. */
  function ShutdownAll(ms: seq<Option<Module>>, keepGoing: bool): (r: (seq<Option<Module>>, Status))
    ensures |r.0| == |ms|
  {
    var (stopped, st) := Sweep(ms, Stop, keepGoing);
    if st.Some? then (stopped, st) else Sweep(stopped, TearDown, keepGoing)
  }

  /** A sweep that meets no error, or keeps going, calls every loaded module once and leaves the others. */
  lemma SweepClean(ms: seq<Option<Module>>, c: Call, keepGoing: bool)
    requires keepGoing || forall i :: 0 <= i < |ms| && ms[i].Some? ==> c !in ms[i].value.raises
    ensures Sweep(ms, c, keepGoing).1.None?
    ensures forall i :: 0 <= i < |ms| ==> Sweep(ms, c, keepGoing).0[i] == CallOn(ms[i], c).0
  {
    if !keepGoing {
      assert FirstSome(CallStatuses(ms, c)).None?;
    }
  }

  /**
   * When no module raises on `stop` or `tearDown`, or the manager keeps going, shutdown
   * leaves each loaded module's log extended by `stop` then `tearDown`: every stop comes
   * before that module's teardown, and records without a module stay without one.
   */
  lemma ShutdownOrder(ms: seq<Option<Module>>, keepGoing: bool)
    requires keepGoing || forall i :: 0 <= i < |ms| && ms[i].Some? ==> Stop !in ms[i].value.raises && TearDown !in ms[i].value.raises
    ensures forall i :: 0 <= i < |ms| && ms[i].Some? ==>
      ShutdownAll(ms, keepGoing).0[i].Some? && ShutdownAll(ms, keepGoing).0[i].value.log == ms[i].value.log + [Stop, TearDown]
    ensures forall i :: 0 <= i < |ms| && ms[i].None? ==> ShutdownAll(ms, keepGoing).0[i].None?
    ensures ShutdownAll(ms, keepGoing).1.None?
  {
    SweepClean(ms, Stop, keepGoing);
    var stopped := Sweep(ms, Stop, keepGoing).0;
    assert forall i :: 0 <= i < |ms| && ms[i].Some? ==> stopped[i].Some? && stopped[i].value.raises == ms[i].value.raises;
    SweepClean(stopped, TearDown, keepGoing);
  }

  /**
   * Without keep-going, a module that raises on `stop` ends shutdown before any
   * `tearDown`: the result is that of the stop sweep alone, and its error is the first
   * stop error.
   */
  lemma ShutdownStopFailure(ms: seq<Option<Module>>, i: nat)
    requires i < |ms| && ms[i].Some? && Stop in ms[i].value.raises
    ensures ShutdownAll(ms, false) == Sweep(ms, Stop, false) && ShutdownAll(ms, false).1.Some?
  {
    assert CallStatuses(ms, Stop)[i].Some?;
  }

  // ---------------------------------------------------------------------------------
  // The loops over the record objects

  /**
   * One sweep of `shutdown` over a record list: the call on each loaded module in list
   * order. Without keep-going the first error ends the sweep, after its call, and is the
   * result. `reached` counts the records visited; only the records' modules change.
   */
  method SweepEntries(cfg: seq<Entry>, c: Call, keepGoing: bool) returns (st: Status, ghost reached: nat)
    requires Distinct(cfg)
    modifies cfg`mod
    ensures reached <= |cfg|
    ensures forall k :: 0 <= k < |cfg| ==> cfg[k].mod == (if k < reached then CallOn(old(cfg[k].mod), c).0 else old(cfg[k].mod))
    ensures st.None? ==> reached == |cfg| && (!keepGoing ==> forall k :: 0 <= k < |cfg| ==> CallOn(old(cfg[k].mod), c).1.None?)
    ensures st.Some? ==> (!keepGoing && 0 < reached && st == CallOn(old(cfg[reached - 1].mod), c).1
      && forall k :: 0 <= k < reached - 1 ==> CallOn(old(cfg[k].mod), c).1.None?)
  {
    var i := 0;
    while i < |cfg|
      invariant i <= |cfg|
      invariant forall k :: 0 <= k < i ==> cfg[k].mod == CallOn(old(cfg[k].mod), c).0
      invariant forall k :: i <= k < |cfg| ==> cfg[k].mod == old(cfg[k].mod)
      invariant !keepGoing ==> forall k :: 0 <= k < i ==> CallOn(old(cfg[k].mod), c).1.None?
    {
      var e := cfg[i];
      assert forall k :: 0 <= k < |cfg| && k != i ==> cfg[k] != e;
      var (m, failed) := CallOn(e.mod, c);
      e.mod := m;
      if failed.Some? && !keepGoing {
        return failed, i + 1;
      }
      i := i + 1;
    }
    return None, i;
  }

  /** A sweep over the records is the Sweep of their modules. */
  lemma SweepRan(ms: seq<Option<Module>>, c: Call, keepGoing: bool, n: nat, st: Status, after: seq<Option<Module>>)
    requires |after| == |ms| && n <= |ms|
    requires forall k :: 0 <= k < |ms| ==> after[k] == (if k < n then CallOn(ms[k], c).0 else ms[k])
    requires st.None? ==> n == |ms| && (!keepGoing ==> forall k :: 0 <= k < |ms| ==> CallOn(ms[k], c).1.None?)
    requires st.Some? ==> (!keepGoing && 0 < n && st == CallOn(ms[n - 1], c).1
      && forall k :: 0 <= k < n - 1 ==> CallOn(ms[k], c).1.None?)
    ensures after == Sweep(ms, c, keepGoing).0 && st == Sweep(ms, c, keepGoing).1
  {
    RanReach(CallStatuses(ms, c), !keepGoing, n, st);
  }

  /**
   * The modules and the result of the setUp loop: every loaded, enabled record reached
   * gets `setUp`; without keep-going the first error stops the loop and is the result.
   */
  function SetUpRun(rs: seq<Record>, ms: seq<Option<Module>>, keepGoing: bool): (r: (seq<Option<Module>>, Status))
    requires |rs| == |ms|
    ensures |r.0| == |ms|
    ensures forall i :: 0 <= i < |ms| ==> r.0[i] == (if i < Reach(SetUpStatuses(rs, ms), !keepGoing) then SetUpOne(rs[i], ms[i]).0 else ms[i])
  {
    var n := Reach(SetUpStatuses(rs, ms), !keepGoing);
    (seq(|ms|, i requires 0 <= i < |ms| => if i < n then SetUpOne(rs[i], ms[i]).0 else ms[i]),
     StopError(SetUpStatuses(rs, ms), !keepGoing))
  }

  /**
   * The loop of `controllerSetup` over a record list: register each record under its
   * name, then set it up if it is loaded and enabled. Without keep-going the first
   * `setUp` error ends the loop, after its record is registered, and is the result.
   * `reached` counts the records visited.
   */
  method SetUpEntries(cfg: seq<Entry>, keepGoing: bool, lookup: map<string, Entry>)
    returns (st: Status, registered: map<string, Entry>, ghost reached: nat)
    requires Distinct(cfg)
    modifies cfg`mod
    ensures reached <= |cfg|
    ensures forall k :: 0 <= k < |cfg| ==> cfg[k].mod == (if k < reached then SetUpOne(cfg[k].rec, old(cfg[k].mod)).0 else old(cfg[k].mod))
    ensures st.None? ==> reached == |cfg| && (!keepGoing ==> forall k :: 0 <= k < |cfg| ==> SetUpOne(cfg[k].rec, old(cfg[k].mod)).1.None?)
    ensures st.Some? ==> (!keepGoing && 0 < reached && st == SetUpOne(cfg[reached - 1].rec, old(cfg[reached - 1].mod)).1
      && forall k :: 0 <= k < reached - 1 ==> SetUpOne(cfg[k].rec, old(cfg[k].mod)).1.None?)
    ensures registered == Register(lookup, cfg, reached)
  {
    registered := lookup;
    var i := 0;
    while i < |cfg|
      invariant i <= |cfg|
      invariant forall k :: 0 <= k < i ==> cfg[k].mod == SetUpOne(cfg[k].rec, old(cfg[k].mod)).0
      invariant forall k :: i <= k < |cfg| ==> cfg[k].mod == old(cfg[k].mod)
      invariant !keepGoing ==> forall k :: 0 <= k < i ==> SetUpOne(cfg[k].rec, old(cfg[k].mod)).1.None?
      invariant registered == Register(lookup, cfg, i)
    {
      var e := cfg[i];
      assert forall k :: 0 <= k < |cfg| && k != i ==> cfg[k] != e;
      registered := registered[e.rec.name := e];
      assert registered == Register(lookup, cfg, i + 1);
      var (m, failed) := SetUpOne(e.rec, e.mod);
      e.mod := m;
      if failed.Some? && !keepGoing {
        return failed, registered, i + 1;
      }
      i := i + 1;
    }
    return None, registered, i;
  }

  /** A setUp loop over the records is the SetUpRun of their configurations and modules. */
  lemma SetUpRan(rs: seq<Record>, ms: seq<Option<Module>>, keepGoing: bool, n: nat, st: Status, after: seq<Option<Module>>)
    requires |rs| == |ms| && |after| == |ms| && n <= |ms|
    requires forall k :: 0 <= k < |ms| ==> after[k] == (if k < n then SetUpOne(rs[k], ms[k]).0 else ms[k])
    requires st.None? ==> n == |ms| && (!keepGoing ==> forall k :: 0 <= k < |ms| ==> SetUpOne(rs[k], ms[k]).1.None?)
    requires st.Some? ==> (!keepGoing && 0 < n && st == SetUpOne(rs[n - 1], ms[n - 1]).1
      && forall k :: 0 <= k < n - 1 ==> SetUpOne(rs[k], ms[k]).1.None?)
    ensures n == Reach(SetUpStatuses(rs, ms), !keepGoing)
    ensures after == SetUpRun(rs, ms, keepGoing).0 && st == SetUpRun(rs, ms, keepGoing).1
  {
    RanReach(SetUpStatuses(rs, ms), !keepGoing, n, st);
  }

  /**
   * `step` over a record list: one maintenance pass. A caught error sets the exit request
   * unless the manager keeps going, and the pass goes on; an error that propagates ends
   * the pass, after its record, and is the result. `reached` counts the records visited.
   */
  method StepEntries(cfg: seq<Entry>, keepGoing: bool, exit: bool, ghost ss: seq<Slot>) returns (st: Status, exit': bool, ghost reached: nat)
    requires Distinct(cfg) && ss == Slots(cfg)
    modifies cfg`mod
    ensures reached <= |cfg|
    ensures forall k :: 0 <= k < |cfg| ==> cfg[k].mod == (if k < reached then StepOne(ss[k]).0 else ss[k].mod)
    ensures st.None? ==> reached == |cfg| && forall k :: 0 <= k < |cfg| ==> !StepOne(ss[k]).1.Escaped?
    ensures st.Some? ==> (0 < reached && StepOne(ss[reached - 1]).1.Escaped? && st == Some(StepOne(ss[reached - 1]).1.error)
      && forall k :: 0 <= k < reached - 1 ==> !StepOne(ss[k]).1.Escaped?)
    ensures exit' == (exit || (!keepGoing && exists k :: 0 <= k < reached && StepOne(ss[k]).1.Caught?))
  {
    exit' := exit;
    var i := 0;
    while i < |cfg|
      invariant i <= |cfg|
      invariant forall k :: 0 <= k < i ==> cfg[k].mod == StepOne(ss[k]).0
      invariant forall k :: i <= k < |cfg| ==> cfg[k].mod == ss[k].mod
      invariant forall k :: 0 <= k < i ==> !StepOne(ss[k]).1.Escaped?
      invariant exit' == (exit || (!keepGoing && exists k :: 0 <= k < i && StepOne(ss[k]).1.Caught?))
    {
      var e := cfg[i];
      assert forall k :: 0 <= k < |cfg| && k != i ==> cfg[k] != e;
      var (m, eff) := StepOne(Slot(e.rec, e.wasStopped, e.mod));
      e.mod := m;
      if eff.Escaped? {
        return Some(eff.error), exit', i + 1;
      }
      if eff.Caught? && !keepGoing {
        exit' := true;
      }
      i := i + 1;
    }
    return None, exit', i;
  }

  /**
   * `controllerSetup` once the record list is known: load its modules with import failures
   * ignored, then register and set up each record as SetUpEntries describes.
   */
  method SetUpControllers(cfg: seq<Entry>, reg: Registry, keepGoing: bool, lookup: map<string, Entry>)
    returns (st: Status, registered: map<string, Entry>)
    requires Distinct(cfg)
    modifies cfg`mod
    ensures var rs := Recs(cfg);
      var mids := LoadedMods(reg, rs, old(Mods(cfg)));
      var run := SetUpRun(rs, mids, keepGoing);
      && st == run.1 && Mods(cfg) == run.0
      && registered == Register(lookup, cfg, Reach(SetUpStatuses(rs, mids), !keepGoing))
  {
    ghost var ms0 := Mods(cfg);
    var _ := LoadControllers(cfg, true, reg);
    ghost var mids := Mods(cfg);
    assert mids == LoadedMods(reg, Recs(cfg), ms0);
    ghost var reached;
    st, registered, reached := SetUpEntries(cfg, keepGoing, lookup);
    SetUpRan(Recs(cfg), mids, keepGoing, reached, st, Mods(cfg));
  }

  /** A step over the records is the pass Escapes and Catches describe. */
  lemma StepRan(ss: seq<Slot>, keepGoing: bool, exit: bool, n: nat, st: Status, exit': bool)
    requires n <= |ss|
    requires st.None? ==> n == |ss| && forall k :: 0 <= k < |ss| ==> !StepOne(ss[k]).1.Escaped?
    requires st.Some? ==> (0 < n && StepOne(ss[n - 1]).1.Escaped? && st == Some(StepOne(ss[n - 1]).1.error)
      && forall k :: 0 <= k < n - 1 ==> !StepOne(ss[k]).1.Escaped?)
    requires exit' == (exit || (!keepGoing && exists k :: 0 <= k < n && StepOne(ss[k]).1.Caught?))
    ensures n == Reach(Escapes(ss), true) && st == StopError(Escapes(ss), true)
    ensures exit' == (exit || (!keepGoing && FirstSome(Catches(ss)[..n]).Some?))
  {
    RanReach(Escapes(ss), true, n, st);
    var cs := Catches(ss)[..n];
    assert forall k :: 0 <= k < n ==> cs[k] == Catch(StepOne(ss[k]).1);
  }

  // ---------------------------------------------------------------------------------
  // The manager

  class Manager {
    var controllers: seq<Entry>
    var nameLookup: map<string, Entry>
    const eatExceptions: bool
    /** `exit` was called: the director is to quit. */
    var exitRequested: bool

    /** The controller list holds no record object twice. */
    predicate Valid()
      reads this
    {
      Distinct(controllers)
    }

    constructor (eat: bool)
      ensures controllers == [] && nameLookup == map[] && eatExceptions == eat && !exitRequested && Valid()
    {
      controllers := [];
      nameLookup := map[];
      eatExceptions := eat;
      exitRequested := false;
    }

    /** `keep_going_on_exceptions`: the flag the manager was built with. */
    method KeepGoingOnExceptions() returns (b: bool)
      ensures b == eatExceptions
    {
      return eatExceptions;
    }

    /** `controller(name)`: the module of the record registered under the name; KeyError for an unknown name. */
    method Controller(name: string) returns (r: Result<Option<Module>>)
      ensures r.Err? <==> name !in nameLookup
      ensures r.Err? ==> r.error == KeyError
      ensures r.Ok? ==> r.value == nameLookup[name].mod
    {
      if name !in nameLookup {
        return Err(KeyError);
      }
      return Ok(nameLookup[name].mod);
    }

    /**
     * `controllerSetup`: load the store's records with import failures ignored, keep them as
     * the controller list, register and set them up. ConfigNotSetup when no configuration is set.
     */
    method ControllerSetup(config: ConfigState, reg: Registry) returns (st: Status)
      requires config.Valid()
      modifies this`controllers, this`nameLookup, config.Held()
      ensures config.store == old(config.store)
      ensures config.store.None? ==> st == Some(ConfigNotSetup) && controllers == old(controllers) && nameLookup == old(nameLookup)
      ensures config.store.Some? ==>
        var cfg := config.store.value.cfg;
        var rs := Recs(cfg);
        var mids := LoadedMods(reg, rs, old(Mods(cfg)));
        var run := SetUpRun(rs, mids, eatExceptions);
        && controllers == cfg && Valid()
        && st == run.1 && Mods(cfg) == run.0
        && nameLookup == Register(old(nameLookup), cfg, Reach(SetUpStatuses(rs, mids), !eatExceptions))
    {
      var got := config.GetCfg();
      if got.Err? {
        return Some(got.error);
      }
      var cfg := got.value.cfg;
      var registered;
      st, registered := SetUpControllers(cfg, reg, eatExceptions, nameLookup);
      controllers, nameLookup := cfg, registered;
    }

    /** `step`: one maintenance pass over the controller list, as StepEntries describes. */
    method Step() returns (st: Status)
      requires Valid()
      modifies this`exitRequested, controllers`mod
      ensures var ss := old(Slots(controllers));
        var n := Reach(Escapes(ss), true);
        && st == StopError(Escapes(ss), true)
        && exitRequested == (old(exitRequested) || (!eatExceptions && FirstSome(Catches(ss)[..n]).Some?))
        && forall i :: 0 <= i < |controllers| ==> controllers[i].mod == (if i < n then StepOne(ss[i]).0 else ss[i].mod)
    {
      ghost var ss := Slots(controllers);
      var exit;
      ghost var reached;
      st, exit, reached := StepEntries(controllers, eatExceptions, exitRequested, ss);
      StepRan(ss, eatExceptions, exitRequested, reached, st, exit);
      exitRequested := exit;
    }

    /**
     * `shutdown`: stop every loaded controller in list order, then tear every one down.
     * Without keep-going the first error ends it.
     */
    method Shutdown() returns (st: Status)
      requires Valid()
      modifies controllers`mod
      ensures var r := ShutdownAll(old(Mods(controllers)), eatExceptions);
        st == r.1 && Mods(controllers) == r.0
    {
      ghost var ms := Mods(controllers);
      ghost var reached;
      st, reached := SweepEntries(controllers, Stop, eatExceptions);
      SweepRan(ms, Stop, eatExceptions, reached, st, Mods(controllers));
      if st.Some? {
        return;
      }
      ms := Mods(controllers);
      st, reached := SweepEntries(controllers, TearDown, eatExceptions);
      SweepRan(ms, TearDown, eatExceptions, reached, st, Mods(controllers));
    }

    /** `exit`: ask the director to quit. */
    method Exit()
      modifies this
      ensures exitRequested
      ensures controllers == old(controllers) && nameLookup == old(nameLookup)
    {
      exitRequested := true;
    }
  }
}

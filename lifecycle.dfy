/**
 * A loaded controller or agent module as the director and the agency see it: the six
 * lifecycle calls of the controller interface, a started flag, a log of every call made
 * on it, and an oracle saying which calls raise and with what.
 *
 * The dynamic import of a module by its dotted path is a registry from path to an
 * optional prototype instance.
 */
module Lifecycle {
  import opened Wrappers

  datatype Call = SetUp | Start | IsStarted | Stop | IsStopped | TearDown

  /** How `isStarted` answers: from the started flag, always (the director's stub) or never (the base interface). */
  datatype Behaviour = Tracks | AlwaysStarted | NeverStarted

  datatype Module = Module(behaviour: Behaviour, started: bool, log: seq<Call>, raises: map<Call, Error>)
  {
    /** What `isStarted()` returns on this module. */
    predicate ReportsStarted()
    {
      match behaviour
      case Tracks => started
      case AlwaysStarted => true
      case NeverStarted => false
    }
  }

  datatype Outcome = Returned(value: bool) | Raised(error: Error)

  /** The stub module every Director record carries: setUp, start and tearDown do nothing, the rest answer True. */
  const DirectorStub: Module := Module(AlwaysStarted, true, [], map[])

  /**
   * One call on a module. Every call is logged. A call the oracle names raises its error
   * and changes nothing else; otherwise `start` and `stop` set and clear the started flag
   * of a tracking module, and the queries answer without changing it.
   */
  function Invoke(m: Module, c: Call): (r: (Module, Outcome))
    ensures r.0.log == m.log + [c]
    ensures r.0.behaviour == m.behaviour && r.0.raises == m.raises
    ensures r.1.Raised? <==> c in m.raises
    ensures r.1.Raised? ==> r.1.error == m.raises[c] && r.0.started == m.started
    ensures r.1.Returned? && c == IsStarted ==> r.1.value == m.ReportsStarted()
    ensures r.1.Returned? && m.behaviour == Tracks && c == Start ==> r.0.ReportsStarted()
    ensures r.1.Returned? && m.behaviour == Tracks && c == Stop ==> !r.0.ReportsStarted()
    ensures c !in {Start, Stop} ==> r.0.started == m.started
  {
    var logged := m.(log := m.log + [c]);
    if c in m.raises then (logged, Raised(m.raises[c]))
    else
      match c
      case Start => (if m.behaviour == Tracks then logged.(started := true) else logged, Returned(false))
      case Stop => (if m.behaviour == Tracks then logged.(started := false) else logged, Returned(m.behaviour == AlwaysStarted))
      case IsStarted => (logged, Returned(m.ReportsStarted()))
      case IsStopped => (logged, Returned(m.behaviour == AlwaysStarted || (m.behaviour == Tracks && !m.started)))
      case _ => (logged, Returned(false))
  }

  /** Dotted import path to the instance its `Agent`/`Controller` class gives, or None when it has no such class. */
  type Registry = map<string, Option<Module>>

  /**
   * `import_module`: `__import__` refuses an empty path with ValueError; a path the
   * registry lacks raises ImportError; a module without the class gives None; otherwise
   * a fresh instance with an empty log.
   */
  function Import(reg: Registry, path: string): (r: Result<Option<Module>>)
    ensures r.Err? <==> path == "" || path !in reg
    ensures path == "" ==> r == Err(ValueError)
    ensures path != "" && path !in reg ==> r == Err(ImportError(path))
    ensures r.Ok? ==> (r.value.Some? <==> reg[path].Some?)
    ensures r.Ok? && r.value.Some? ==> r.value.value == reg[path].value.(log := [])
  {
    if path == "" then Err(ValueError)
    else if path !in reg then Err(ImportError(path))
    else match reg[path]
      case None => Ok(None)
      case Some(m) => Ok(Some(m.(log := [])))
  }
}

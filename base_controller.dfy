/**
 * The default controller interface the director drives: every call does nothing but
 * `setUp`, which keeps the configuration section it is given. A return value is an
 * Option: None for Python's None, Some(b) for a boolean.
 */
module BaseController {
  import opened Wrappers
  import opened Lifecycle
  import opened ConfigObjs

  class Controller {
    /** The section `setUp` was given; None also before any `setUp`. */
    var config: Option<Entries>

    constructor ()
      ensures config.None?
    {
      config := None;
    }

    /** `setUp`: keep the section, nothing else. */
    method SetUp(config: Option<Entries>) returns (r: Option<bool>)
      modifies this
      ensures this.config == config && r.None?
    {
      this.config := config;
      return None;
    }

    /** `start`: no effect, returns None. */
    method Start() returns (r: Option<bool>)
      ensures r.None?
    {
      return None;
    }

    /** `isStarted`: always False. */
    method IsStarted() returns (r: Option<bool>)
      ensures r == Some(false)
    {
      return Some(false);
    }

    /** `stop`: no effect, returns False. */
    method Stop() returns (r: Option<bool>)
      ensures r == Some(false)
    {
      return Some(false);
    }

    /** `isStopped`: no effect, returns None. */
    method IsStopped() returns (r: Option<bool>)
      ensures r.None?
    {
      return None;
    }

    /** `tearDown`: no effect, returns None. */
    method TearDown() returns (r: Option<bool>)
      ensures r.None?
    {
      return None;
    }
  }

  /** Python truth of a return value: None and False are false. */
  predicate Truth(r: Option<bool>)
  {
    r.Some? && r.value
  }

  /**
   * The abstract module the director manager drives agrees with this interface when it
   * never reports started and raises nothing: `isStarted`, `stop` and `isStopped` all
   * answer false, and no call changes its started flag.
   */
  lemma NeverStartedIsBase(m: Module, c: Call)
    requires m.behaviour == NeverStarted && m.raises == map[]
    ensures Invoke(m, IsStarted).1 == Returned(Truth(Some(false)))
    ensures Invoke(m, Stop).1 == Returned(Truth(Some(false)))
    ensures Invoke(m, IsStopped).1 == Returned(Truth(None))
    ensures Invoke(m, c).0.started == m.started && !Invoke(m, c).0.ReportsStarted()
  {
  }
}

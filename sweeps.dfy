/**
 * Loops over a record list that run one call per record: how far such a loop gets and
 * which error ends it, when the first error stops it.
 */
module Sweeps {
  import opened Wrappers
  import opened Lifecycle
  import opened ConfigObjs

  /** The index of the first entry that holds a value. */
  function FirstSome<E>(ss: seq<Option<E>>): (r: Option<nat>)
    ensures r.None? <==> forall i :: 0 <= i < |ss| ==> ss[i].None?
    ensures r.Some? ==> r.value < |ss| && ss[r.value].Some?
    ensures r.Some? ==> forall i :: 0 <= i < r.value ==> ss[i].None?
    decreases |ss|
  {
    if |ss| == 0 then None
    else if ss[0].Some? then Some(0)
    else match FirstSome(ss[1..])
      case None => None
      case Some(k) => Some(k + 1)
  }

  /** The first entry holding a value is the one after a run of empty ones. */
  lemma {:induction false} FirstSomeAt<E>(ss: seq<Option<E>>, j: nat)
    requires j < |ss| && ss[j].Some?
    requires forall k :: 0 <= k < j ==> ss[k].None?
    ensures FirstSome(ss) == Some(j)
    decreases j
  {
    if j > 0 {
      var rest := ss[1..];
      assert rest[j - 1] == ss[j];
      assert forall k :: 0 <= k < j - 1 ==> rest[k] == ss[k + 1];
      FirstSomeAt(rest, j - 1);
    }
  }

  /**
   * How far a loop over per-record outcomes gets: every record, or, when an error stops
   * it, up to and including the first record whose outcome is an error.
   */
  function Reach(statuses: seq<Status>, stopOnError: bool): (n: nat)
    ensures n <= |statuses|
    ensures !stopOnError ==> n == |statuses|
  {
    if !stopOnError then |statuses|
    else match FirstSome(statuses)
      case None => |statuses|
      case Some(k) => k + 1
  }

  /** The error that ends such a loop: the first error when errors stop it, otherwise none. */
  function StopError(statuses: seq<Status>, stopOnError: bool): (st: Status)
    ensures st.Some? ==> stopOnError && 0 < Reach(statuses, stopOnError) && st == statuses[Reach(statuses, stopOnError) - 1]
    ensures st.None? ==> Reach(statuses, stopOnError) == |statuses|
  {
    if !stopOnError then None
    else match FirstSome(statuses)
      case None => None
      case Some(k) => statuses[k]
  }

  /**
   * A loop that visited `n` records and ended with `st`: it visited all of them without
   * a stopping error, or it stopped at record `n - 1`, the first to fail.
   */
  ghost predicate Ran(statuses: seq<Status>, stopOnError: bool, n: nat, st: Status)
  {
    && n <= |statuses|
    && (st.None? ==> n == |statuses| && (stopOnError ==> forall k :: 0 <= k < |statuses| ==> statuses[k].None?))
    && (st.Some? ==> stopOnError && 0 < n && st == statuses[n - 1] && forall k :: 0 <= k < n - 1 ==> statuses[k].None?)
  }

  /** Such a loop reached exactly Reach records and ended with exactly StopError. */
  lemma RanReach(statuses: seq<Status>, stopOnError: bool, n: nat, st: Status)
    requires Ran(statuses, stopOnError, n, st)
    ensures n == Reach(statuses, stopOnError) && st == StopError(statuses, stopOnError)
  {
    if st.Some? {
      FirstSomeAt(statuses, n - 1);
    }
  }

  /** The modules of a list of records, in list order. */
  function Mods(cfg: seq<Entry>): (ms: seq<Option<Module>>)
    reads set e | e in cfg
    ensures |ms| == |cfg| && forall i :: 0 <= i < |cfg| ==> ms[i] == cfg[i].mod
  {
    seq(|cfg|, i reads set e | e in cfg requires 0 <= i < |cfg| => cfg[i].mod)
  }

  /** One lifecycle call on a record's module, if it has one. */
  function CallOn(m: Option<Module>, c: Call): (r: (Option<Module>, Status))
    ensures m.None? ==> r == (None, None)
    ensures m.Some? ==> r.0 == Some(Invoke(m.value, c).0) && r.0.value.log == m.value.log + [c]
    ensures m.Some? ==> (r.1.Some? <==> c in m.value.raises)
  {
    if m.None? then (None, None)
    else
      var (m1, out) := Invoke(m.value, c);
      (Some(m1), if out.Raised? then Some(out.error) else None)
  }
}

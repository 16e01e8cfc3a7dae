/** The bounded retry combinator of main.py:309-318. */
module Retry {
  import opened Wrappers

  /** What one call of the wrapped function does: return a value, time out,
      or raise any other `Exception`, which `retry` swallows. A
      `BaseException` outside `Exception` (`KeyboardInterrupt`, `SystemExit`)
      passes through `retry` and is not modelled. */
  datatype Attempt<T> = Value(value: T) | Timeout | Raised

  /** What `retry` returns with a non-negative budget, when the first call
      made is the `start`-th one. */
  function RetryFrom<T>(outcome: nat -> Attempt<T>, budget: nat, start: nat): Option<T>
    decreases budget
  {
    if budget == 0 then None
    else match outcome(start)
      case Value(v) => Some(v)
      case Timeout => RetryFrom(outcome, budget - 1, start + 1)
      case Raised => None
  }

  /** `retry` gives `v` exactly when, within the budget, some call returns
      `v` and every call before it timed out. */
  lemma {:induction false} RetryFromValue<T>(outcome: nat -> Attempt<T>, budget: nat, start: nat, v: T)
    ensures RetryFrom(outcome, budget, start) == Some(v) <==>
      exists k: nat :: start <= k < start + budget && outcome(k) == Value(v)
                       && forall j: nat :: start <= j < k ==> outcome(j).Timeout?
    decreases budget
  {
    if budget > 0 {
      match outcome(start)
      case Value(w) =>
        forall k: nat | start <= k < start + budget && outcome(k) == Value(v)
                        && (forall j: nat :: start <= j < k ==> outcome(j).Timeout?)
          ensures k == start
        {
          assert !outcome(start).Timeout?;
        }
      case Timeout =>
        RetryFromValue(outcome, budget - 1, start + 1, v);
      case Raised =>
        forall k: nat | start <= k < start + budget && outcome(k) == Value(v)
          ensures exists j: nat :: start <= j < k && !outcome(j).Timeout?
        {
          assert k != start;
          assert !outcome(start).Timeout?;
        }
    }
  }

  /**
   * Calls the wrapped function while the budget is non-zero. A value is
   * returned at once, a timeout uses up one unit of the budget, any other
   * exception gives up with `None`. `outcome(k)` is what the k-th call
   * (from 0) does. A negative budget never reaches zero, so the loop then
   * ends only when some call does not time out.
   */
  method Retry<T>(outcome: nat -> Attempt<T>, retryNum: int) returns (r: Option<T>, calls: nat)
    requires retryNum >= 0 || exists i: nat :: !outcome(i).Timeout?
    ensures retryNum >= 0 ==> calls <= retryNum
    ensures retryNum != 0 ==> calls >= 1
    ensures retryNum == 0 ==> calls == 0 && r == None
    ensures forall j :: 0 <= j < calls - 1 ==> outcome(j).Timeout?
    ensures calls == retryNum || (calls > 0 && !outcome(calls - 1).Timeout?)
    ensures r.Some? <==> calls > 0 && outcome(calls - 1).Value?
    ensures r.Some? ==> r.value == outcome(calls - 1).value
    ensures retryNum >= 0 ==> r == RetryFrom(outcome, retryNum, 0)
  {
    var budget := retryNum;
    calls := 0;
    ghost var k: nat := 0;
    if retryNum < 0 {
      k :| !outcome(k).Timeout?;
    }
    while budget != 0
      invariant retryNum >= 0 ==> 0 <= budget == retryNum - calls
      invariant retryNum < 0 ==> budget < 0 && calls <= k
      invariant forall j :: 0 <= j < calls ==> outcome(j).Timeout?
      invariant retryNum >= 0 ==> RetryFrom(outcome, retryNum, 0) == RetryFrom(outcome, budget, calls)
      decreases if retryNum >= 0 then budget else k - calls
    {
      var o := outcome(calls);
      calls := calls + 1;
      match o
      case Value(v) =>
        return Some(v), calls;
      case Timeout =>
        budget := budget - 1;
      case Raised =>
        return None, calls;
    }
    r := None;
  }
}

/**
 * The counted loop of lib/repeat.js. The callback's effect is modelled as a
 * state transformer that receives the loop index, so the loop's result is the
 * callback applied to the indices in increasing order.
 */
module Repetition {
  /** The state after calling `f` with indices 0, 1, ..., n - 1 in turn. */
  function Iterate<S>(f: (nat, S) -> S, s: S, n: nat): S
    decreases n
  {
    if n == 0 then s else f(n - 1, Iterate(f, s, n - 1))
  }

  /**
   * `repeat(times, callback)`: one call per index below `times`, in increasing
   * order, each finishing before the next; no call at all when `times <= 0`.
   * `calls` is the sequence of indices the callback received.
   */
  method Repeat<S>(times: int, callback: (nat, S) -> S, init: S) returns (calls: seq<nat>, s: S)
    ensures times <= 0 ==> calls == []
    ensures times > 0 ==> |calls| == times
    ensures forall k :: 0 <= k < |calls| ==> calls[k] == k
    ensures s == Iterate(callback, init, |calls|)
  {
    calls := [];
    s := init;
    var i := 0;
    while i < times
      invariant 0 <= i <= (if times > 0 then times else 0)
      invariant |calls| == i
      invariant forall k :: 0 <= k < i ==> calls[k] == k
      invariant s == Iterate(callback, init, i)
    {
      s := callback(i, s);
      calls := calls + [i];
      i := i + 1;
    }
  }
}

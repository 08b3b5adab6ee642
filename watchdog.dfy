/**
 * watchdog.go: a one-bit abort flag shared by the writer and the poller of
 * a benchmark.  The mutex around the flag and the log line `Abort` prints
 * are left out; `Timer` is a clock and appears in the harness only as the
 * "timer fired first" outcome of a race.
 */
module Watchdog {

  class WatchDog {
    /** Set once a timeout has been reached. */
    var aborted: bool

    /** `NewWatchDog()`: not aborted. */
    constructor ()
      ensures !aborted
    {
      aborted := false;
    }

    /** `Abort(msg)`: aborted, whatever the flag was before. */
    method Abort(msg: string)
      modifies this
      ensures aborted
    {
      aborted := true;
    }

    /** `IsAborted()`: the flag, read without changing anything. */
    method IsAborted() returns (r: bool)
      ensures r == aborted
    {
      r := aborted;
    }
  }

  /** A call on the watchdog, as either task may make it. */
  datatype Call = AbortCall(msg: string) | IsAbortedCall

  /** Whether any of `calls` aborts. */
  predicate AnyAbort(calls: seq<Call>)
  {
    exists i :: 0 <= i < |calls| && calls[i].AbortCall?
  }

  /**
   * Any sequence of calls, in the order the two tasks interleave them: the
   * flag ends up set exactly when it was set before or some call aborted,
   * and the answers `IsAborted` gives never go from true back to false.
   */
  method Replay(w: WatchDog, calls: seq<Call>) returns (seen: seq<bool>)
    modifies w
    ensures w.aborted == (old(w.aborted) || AnyAbort(calls))
    ensures forall i, j :: 0 <= i <= j < |seen| && seen[i] ==> seen[j]
    ensures old(w.aborted) ==> forall i :: 0 <= i < |seen| ==> seen[i]
  {
    seen := [];
    for k := 0 to |calls|
      invariant w.aborted == (old(w.aborted) || AnyAbort(calls[..k]))
      invariant forall i, j :: 0 <= i <= j < |seen| && seen[i] ==> seen[j]
      invariant forall i :: 0 <= i < |seen| && seen[i] ==> w.aborted
      invariant old(w.aborted) ==> forall i :: 0 <= i < |seen| ==> seen[i]
    {
      assert calls[..k + 1] == calls[..k] + [calls[k]];
      match calls[k]
      case AbortCall(msg) =>
        w.Abort(msg);
        assert calls[..k + 1][k].AbortCall?;
      case IsAbortedCall =>
        var r := w.IsAborted();
        seen := seen + [r];
        if AnyAbort(calls[..k + 1]) {
          var i :| 0 <= i < k + 1 && calls[..k + 1][i].AbortCall?;
          assert calls[..k][i] == calls[..k + 1][i];
        }
    }
    assert calls[..|calls|] == calls;
  }
}

/**
 * The pacing rule of `Send`/`sendData`: before every send but the first,
 * with `elapsed` the time since the previous send and `target` a delay
 * drawn with `Int(d0, d1)`, sleep `ns = target - elapsed` when it is
 * positive.  Clocks are inputs; durations are nanoseconds.
 */
module Pacing {
  import opened Wire
  import opened Draws

  /** `Elapsed(j)`: the time since the previous send when batch `j` (from 1 on) is ready to go. */
  type Elapsed = nat -> Nanos

  /** The time between two sends: the elapsed time plus the sleep, if any. */
  function Gap(elapsed: Nanos, target: int64): (gap: int)
    ensures gap >= elapsed && gap >= target
    ensures target >= 0 ==> gap == if elapsed < target then target else elapsed
  {
    var ns := Wrap64(target - elapsed);
    elapsed + (if ns > 0 then ns else 0)
  }

  /** The delay target drawn before send `j + 1`, when every earlier send drew one too. */
  function Target(src: Source, pos: nat, d0: int64, d1: int64, j: nat): (t: int64)
    ensures Fits(d0, d1) ==> InRange(t, d0, d1)
  {
    RandInt(src, pos + (if DrawCost(d0, d1) == 0 then 0 else j), d0, d1).value
  }

  /** The target drawn before send `j + 1` is the draw at the position that many earlier draws lead to. */
  lemma TargetAt(src: Source, pos: nat, d0: int64, d1: int64, j: nat, at: nat)
    requires at == pos + (if DrawCost(d0, d1) == 0 then 0 else j)
    ensures Target(src, pos, d0, d1, j) == RandInt(src, at, d0, d1).value
  {
  }

  /** With `max - min` in range, every gap is at least `d0`: the lower bound replay promises. */
  lemma GapAtLeastMin(elapsed: Nanos, src: Source, pos: nat, d0: int64, d1: int64, j: nat)
    requires Fits(d0, d1)
    ensures Gap(elapsed, Target(src, pos, d0, d1, j)) >= d0
  {
  }

  /** Gap `j` is the pause before send `j + 1`, aimed at the `j`-th drawn target. */
  ghost predicate Paced(gaps: seq<int>, elapsed: Elapsed, src: Source, pos: nat, d0: int64, d1: int64)
  {
    forall j :: 0 <= j < |gaps| ==> gaps[j] == Gap(elapsed(j + 1), Target(src, pos, d0, d1, j))
  }

  lemma GapsSnoc(gaps: seq<int>, g: int, elapsed: Elapsed, src: Source, pos: nat, d0: int64, d1: int64)
    requires Paced(gaps, elapsed, src, pos, d0, d1)
    requires g == Gap(elapsed(|gaps| + 1), Target(src, pos, d0, d1, |gaps|))
    ensures Paced(gaps + [g], elapsed, src, pos, d0, d1)
  {
  }
}

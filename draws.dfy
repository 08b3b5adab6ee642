/**
 * The pseudo-random source, replaced by an abstract oracle.  A seeded
 * generator is a `Source`: its k-th call `Intn(bound)` yields
 * `source(k) % bound`.  `Int(min, max)` of data.go and `randN(min, max)`
 * of main.go are the same arithmetic on one such draw.
 */
module Draws {
  import opened Wire

  type Source = nat -> nat

  /** `rand.Intn(bound)` taken at position `pos` of the source. */
  function Intn(src: Source, pos: nat, bound: int): (r: nat)
    requires bound >= 1
    ensures r < bound
  {
    src(pos) % bound
  }

  /** A drawn value together with the source position after the draw. */
  datatype Drawn<T> = Drawn(value: T, next: nat)

  /** `max - min` does not overflow Go's 64-bit `int`. */
  predicate Fits(min: int64, max: int64)
  {
    MinInt64 <= max - min <= MaxInt64
  }

  /** Where `Int(min, max)` may land: exactly `min` when `max - min < 1`, else `[min, max)`. */
  predicate InRange(x: int, min: int, max: int)
  {
    if max - min < 1 then x == min else min <= x < max
  }

  /** How many draws `Int(min, max)` consumes: none when the computed difference is below 1. */
  function DrawCost(min: int64, max: int64): nat
  {
    if Wrap64(max - min) < 1 then 0 else 1
  }

  /**
   * `Int(min, max)` (data.go) and `randN(min, max)` (main.go): `diff := max - min`
   * in 64-bit arithmetic; `min` when `diff < 1`, otherwise `min + Intn(diff)`.
   */
  function RandInt(src: Source, pos: nat, min: int64, max: int64): (d: Drawn<int64>)
    ensures d.next == pos + DrawCost(min, max)
    ensures Fits(min, max) ==> InRange(d.value, min, max)
  {
    var diff := Wrap64(max - min);
    if diff < 1 then Drawn(min, pos)
    else Drawn(Wrap64(min + Intn(src, pos, diff)), pos + 1)
  }

  /** Without overflow, a drawn value is the minimum plus the draw reduced modulo the width of the range. */
  lemma RandIntValue(src: Source, pos: nat, min: int64, max: int64)
    requires Fits(min, max) && max - min >= 1
    ensures RandInt(src, pos, min, max) == Drawn(min + src(pos) % (max - min), pos + 1)
  {
  }

  /** `n` bytes, the i-th being `byte(Intn(255))` at position `pos + i`. */
  function RandBytes(src: Source, pos: nat, n: nat): (s: seq<byte>)
    ensures |s| == n
  {
    if n == 0 then [] else RandBytes(src, pos, n - 1) + [DrawByte(src, pos + n - 1)]
  }

  /** Byte `i` comes from draw `pos + i`, and no byte is ever 255. */
  lemma {:induction false} RandBytesAt(src: Source, pos: nat, n: nat)
    ensures forall i :: 0 <= i < n ==> RandBytes(src, pos, n)[i] == src(pos + i) % 255 <= 254
  {
    if n > 0 {
      RandBytesAt(src, pos, n - 1);
      var s := RandBytes(src, pos, n);
      assert s == RandBytes(src, pos, n - 1) + [DrawByte(src, pos + n - 1)];
    }
  }

  /** `byte(Intn(255))`: never 255. */
  function DrawByte(src: Source, pos: nat): (b: byte)
    ensures b <= 254
  {
    Intn(src, pos, 255)
  }

  /**
   * The random state a generator draws from.  `Shared`: lengths and bytes
   * come from one seeded source (data.go's `Random`).  `Split`: lengths come
   * from the seeded `rnd` and bytes from the process-wide generator of
   * `math/rand` (main.go's `randN` and `randBytes`).
   */
  datatype Rng =
    | Shared(src: Source, pos: nat)
    | Split(rnd: Source, rpos: nat, global: Source, gpos: nat)
  {
    /** The position of the source lengths are drawn from. */
    function IntPos(): nat
    {
      if Shared? then pos else rpos
    }
  }

  /** One `Int`/`randN` call on the state. */
  function NextInt(g: Rng, min: int64, max: int64): (d: Drawn<int64>)
    ensures Fits(min, max) ==> InRange(d.value, min, max)
  {
    match g
    case Shared(src, pos) => RandInt(src, pos, min, max)
    case Split(rnd, rpos, _, _) => RandInt(rnd, rpos, min, max)
  }

  /** The state after a `NextInt` call. */
  function AfterInt(g: Rng, min: int64, max: int64): (g': Rng)
    ensures g'.Shared? == g.Shared?
    ensures g'.IntPos() == g.IntPos() + DrawCost(min, max)
    ensures g.Shared? ==> g'.src == g.src
    ensures g.Split? ==> g'.rnd == g.rnd && g'.global == g.global && g'.gpos == g.gpos
  {
    var d := NextInt(g, min, max);
    match g
    case Shared(src, _) => Shared(src, d.next)
    case Split(rnd, _, global, gpos) => Split(rnd, d.next, global, gpos)
  }

  /** One `Bytes`/`randBytes` call on the state. */
  function NextBytes(g: Rng, n: nat): (s: seq<byte>)
    ensures |s| == n
  {
    match g
    case Shared(src, pos) => RandBytes(src, pos, n)
    case Split(_, _, global, gpos) => RandBytes(global, gpos, n)
  }

  lemma NextBytesBelow255(g: Rng, n: nat)
    ensures forall i :: 0 <= i < n ==> NextBytes(g, n)[i] <= 254
  {
    match g
    case Shared(src, pos) => RandBytesAt(src, pos, n);
    case Split(_, _, global, gpos) => RandBytesAt(global, gpos, n);
  }

  /** The state after a `NextBytes` call: in `Split` the seeded source is untouched. */
  function AfterBytes(g: Rng, n: nat): (g': Rng)
    ensures g'.Shared? == g.Shared?
    ensures g'.IntPos() == if g.Shared? then g.IntPos() + n else g.IntPos()
    ensures g.Shared? ==> g'.src == g.src
    ensures g.Split? ==> g'.rnd == g.rnd && g'.global == g.global && g'.gpos == g.gpos + n
  {
    match g
    case Shared(src, pos) => Shared(src, pos + n)
    case Split(rnd, rpos, global, gpos) => Split(rnd, rpos, global, gpos + n)
  }
}

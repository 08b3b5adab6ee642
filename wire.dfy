/**
 * Go's fixed-width integers and the little-endian `int64` framing that
 * `binary.Write`/`binary.Read` use for every length in the workload stream.
 */
module Wire {

  /** A Go `byte`. */
  type byte = b: int | 0 <= b < 256

  const MinInt64: int := -0x8000_0000_0000_0000
  const MaxInt64: int := 0x7fff_ffff_ffff_ffff
  const TwoTo64: int := 0x1_0000_0000_0000_0000

  /** A Go `int64`; Go's `int` has the same width on the 64-bit platforms the benchmark runs on. */
  type int64 = x: int | MinInt64 <= x <= MaxInt64

  /** A non-negative `time.Duration`, in nanoseconds. */
  type Nanos = x: int | 0 <= x <= MaxInt64

  /**
   * The largest allocation `make` accepts, in bytes: the Go runtime's
   * `maxAlloc` on 64-bit Linux (2^48).  A larger length or capacity makes
   * `make` panic ("len out of range", "cap out of range").
   */
  const MaxAlloc: int := 0x1_0000_0000_0000

  /** Two's-complement wrap-around of an exact result into 64 bits, as Go's `+` and `-` do. */
  function Wrap64(x: int): (r: int64)
    ensures MinInt64 <= x <= MaxInt64 ==> r == x
  {
    var u := x % TwoTo64;
    if u > MaxInt64 then u - TwoTo64 else u
  }

  /** The wrapped result differs from the exact one by a multiple of 2^64. */
  lemma Wrap64Congruent(x: int)
    ensures (x - Wrap64(x)) % TwoTo64 == 0
  {
  }

  function Pow256(n: nat): (p: nat)
    ensures p >= 1
  {
    if n == 0 then 1 else 256 * Pow256(n - 1)
  }

  lemma Pow256Eight()
    ensures Pow256(8) == TwoTo64
  {
    calc {
      Pow256(8);
      256 * 256 * 256 * 256 * 256 * 256 * 256 * 256 * Pow256(0);
    }
  }

  /** The `n` low-order bytes of `u`, least significant first. */
  function ToLE(u: nat, n: nat): (s: seq<byte>)
    ensures |s| == n
  {
    if n == 0 then [] else [u % 256] + ToLE(u / 256, n - 1)
  }

  /** The unsigned number whose little-endian bytes are `s`. */
  function FromLE(s: seq<byte>): (u: nat)
    ensures u < Pow256(|s|)
  {
    if s == [] then 0 else s[0] + 256 * FromLE(s[1..])
  }

  lemma {:induction false} FromLEOfToLE(u: nat, n: nat)
    requires u < Pow256(n)
    ensures FromLE(ToLE(u, n)) == u
  {
    if n > 0 {
      FromLEOfToLE(u / 256, n - 1);
      assert ToLE(u, n)[1..] == ToLE(u / 256, n - 1);
    }
  }

  lemma {:induction false} ToLEOfFromLE(s: seq<byte>)
    ensures ToLE(FromLE(s), |s|) == s
  {
    if s != [] {
      ToLEOfFromLE(s[1..]);
      var u := FromLE(s);
      assert u % 256 == s[0] && u / 256 == FromLE(s[1..]);
    }
  }

  /** The width of an `int64` on the wire, in bytes. */
  const Int64Size: nat := 8

  /** `binary.Write(w, binary.LittleEndian, int64(x))`: eight bytes, two's complement. */
  function EncodeInt64(x: int64): (s: seq<byte>)
    ensures |s| == 8
  {
    ToLE(if x < 0 then x + TwoTo64 else x, Int64Size)
  }

  /** `FromLE` of exactly eight bytes, with the place values written out. */
  function FromLE8(s: seq<byte>): (u: nat)
    requires |s| == 8
  {
    s[0] as int + 0x100 * (s[1] as int) + 0x1_0000 * (s[2] as int) + 0x100_0000 * (s[3] as int)
    + 0x1_0000_0000 * (s[4] as int) + 0x100_0000_0000 * (s[5] as int)
    + 0x1_0000_0000_0000 * (s[6] as int) + 0x100_0000_0000_0000 * (s[7] as int)
  }

  lemma FromLE8IsFromLE(s: seq<byte>)
    requires |s| == 8
    ensures FromLE8(s) == FromLE(s)
  {
    assert FromLE(s[7..]) == s[7] by { assert s[7..][1..] == []; }
    assert FromLE(s[6..]) == s[6] + 256 * FromLE(s[7..]) by { assert s[6..][1..] == s[7..]; }
    assert FromLE(s[5..]) == s[5] + 256 * FromLE(s[6..]) by { assert s[5..][1..] == s[6..]; }
    assert FromLE(s[4..]) == s[4] + 256 * FromLE(s[5..]) by { assert s[4..][1..] == s[5..]; }
    assert FromLE(s[3..]) == s[3] + 256 * FromLE(s[4..]) by { assert s[3..][1..] == s[4..]; }
    assert FromLE(s[2..]) == s[2] + 256 * FromLE(s[3..]) by { assert s[2..][1..] == s[3..]; }
    assert FromLE(s[1..]) == s[1] + 256 * FromLE(s[2..]) by { assert s[1..][1..] == s[2..]; }
  }

  /** `binary.Read(r, binary.LittleEndian, &x)` for an `int64 x`, given the eight bytes read. */
  function DecodeInt64(s: seq<byte>): (x: int64)
    requires |s| == 8
    ensures x < 0 <==> s[7] >= 0x80
    ensures x >= 0 ==> x == FromLE8(s)
  {
    var u := FromLE8(s);
    if u > MaxInt64 then u - TwoTo64 else u
  }

  /** Reading back what was written gives the same number, negative ones included. */
  lemma DecodeEncodeInt64(x: int64)
    ensures DecodeInt64(EncodeInt64(x)) == x
  {
    Pow256Eight();
    FromLEOfToLE(if x < 0 then x + TwoTo64 else x, Int64Size);
    FromLE8IsFromLE(EncodeInt64(x));
  }

  /** Every eight bytes are the encoding of exactly one `int64`. */
  lemma EncodeDecodeInt64(s: seq<byte>)
    requires |s| == 8
    ensures EncodeInt64(DecodeInt64(s)) == s
  {
    Pow256Eight();
    ToLEOfFromLE(s);
    FromLE8IsFromLE(s);
  }

  /** Concatenation regrouped; stated once so that callers need not rediscover it. */
  lemma AppendAssoc<T>(a: seq<T>, b: seq<T>, c: seq<T>)
    ensures a + b + c == a + (b + c)
  {
  }

  /** Five pieces regrouped, as one record of the stream is written. */
  lemma Append4<T>(w: seq<T>, a: seq<T>, b: seq<T>, c: seq<T>, d: seq<T>)
    ensures w + a + b + c + d == w + (a + b + c + d)
  {
  }
}

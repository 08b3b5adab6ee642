/**
 * Row keys and values (rows.go).  A key or value wraps an opaque byte
 * sequence; decoding copies the caller's buffer byte by byte, and `Bytes`
 * copies it back out into a fresh buffer.  Once built, a key or value is
 * never changed, so it is a value here (its bytes a `seq`), and the
 * caller's buffers are `array`s.
 */
module Rows {
  import opened Wire
  import opened Wrappers

  datatype RowKey = RowKey(b: seq<byte>)
  {
    /** `RowKey.Bytes`: a freshly allocated copy of the stored bytes; the error is always nil. */
    method Bytes() returns (out: array<byte>, err: Option<string>)
      ensures fresh(out)
      ensures out[..] == b && err == None
    {
      out := new byte[|b|];
      for i := 0 to |b|
        invariant out[..i] == b[..i]
      {
        out[i] := b[i];
      }
      err := None;
    }
  }

  datatype RowValue = RowValue(b: seq<byte>)
  {
    /** `RowValue.Bytes`: a freshly allocated copy of the stored bytes; the error is always nil. */
    method Bytes() returns (out: array<byte>, err: Option<string>)
      ensures fresh(out)
      ensures out[..] == b && err == None
    {
      out := new byte[|b|];
      for i := 0 to |b|
        invariant out[..i] == b[..i]
      {
        out[i] := b[i];
      }
      err := None;
    }

    /** `Merge`: a reserved extension point that does nothing. */
    method Merge(m: RowValue)
    {
    }
  }

  /** A row of a batch.  The `Err` field of the Go struct is nil on every row built here. */
  datatype Row = Row(key: RowKey, value: RowValue)

  /** `NewRowValue`: a value holding no bytes. */
  function NewRowValue(): (v: RowValue)
    ensures |v.b| == 0
  {
    RowValue([])
  }

  /** `DecodeRowKey`: copy `b` into a new buffer, byte for byte; the error is always nil. */
  method DecodeRowKey(b: array<byte>) returns (rk: RowKey, err: Option<string>)
    ensures rk.b == b[..] && err == None
  {
    var buf := new byte[b.Length];
    for i := 0 to b.Length
      invariant buf[..i] == b[..i]
    {
      buf[i] := b[i];
    }
    rk, err := RowKey(buf[..]), None;
  }

  /** `DecodeRowValue`: copy `b` into a new buffer, byte for byte; the error is always nil. */
  method DecodeRowValue(b: array<byte>) returns (rv: RowValue, err: Option<string>)
    ensures rv.b == b[..] && err == None
  {
    var buf := new byte[b.Length];
    for i := 0 to b.Length
      invariant buf[..i] == b[..i]
    {
      buf[i] := b[i];
    }
    rv, err := RowValue(buf[..]), None;
  }

  /** Decoding a key and asking for its bytes gives back the input, in a different buffer. */
  method KeyRoundTrip(b: array<byte>) returns (out: array<byte>)
    ensures out[..] == b[..] && out != b
  {
    var rk, _ := DecodeRowKey(b);
    var err;
    out, err := rk.Bytes();
  }

  /** Decoding a value and asking for its bytes gives back the input, in a different buffer. */
  method ValueRoundTrip(b: array<byte>) returns (out: array<byte>)
    ensures out[..] == b[..] && out != b
  {
    var rv, _ := DecodeRowValue(b);
    var err;
    out, err := rv.Bytes();
  }
}

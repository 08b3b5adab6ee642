/**
 * The binary workload stream (data.go `Write`/`Send`, main.go
 * `generateData`/`sendData`): a sequence of blocks, each a little-endian
 * `int64` row count followed by that many records; a record is an `int64`
 * key length, the key bytes, an `int64` value length and the value bytes.
 * The stream simply ends; there is no terminator.  Reading is modelled on
 * an in-memory `seq<byte>`: each read takes bytes from the front.
 */
module Stream {
  import opened Wire
  import opened Wrappers
  import opened Rows

  type Batch = seq<Row>

  /** A block as written: the count field, and the records that follow it. */
  datatype Block = Block(count: int64, rows: seq<Row>)

  /**
   * A row whose lengths `make` accepts (at most `MaxAlloc` bytes each), so
   * that it can be written as `int64` lengths and allocated again when read.
   */
  predicate RowFits(r: Row)
  {
    |r.key.b| <= MaxAlloc && |r.value.b| <= MaxAlloc
  }

  predicate RowsFit(rs: seq<Row>)
  {
    forall i :: 0 <= i < |rs| ==> RowFits(rs[i])
  }

  predicate BlocksFit(bs: seq<Block>)
  {
    forall i :: 0 <= i < |bs| ==> RowsFit(bs[i].rows)
  }

  /**
   * The most rows `make([]*Row, 0, x)` accepts as a capacity: `MaxAlloc`
   * bytes of eight-byte pointers.
   */
  const MaxRows: int := 0x2000_0000_0000

  /**
   * A block whose count field tells the truth about the records after it,
   * and whose every count and length the reader can allocate.
   */
  predicate WellFormed(b: Block)
  {
    b.count == |b.rows| && |b.rows| <= MaxRows && RowsFit(b.rows)
  }

  // ---------------------------------------------------------------- encoding

  function EncodeRow(r: Row): (s: seq<byte>)
    requires RowFits(r)
    ensures |s| == 16 + |r.key.b| + |r.value.b|
  {
    EncodeInt64(|r.key.b|) + r.key.b + EncodeInt64(|r.value.b|) + r.value.b
  }

  /** The records of a block, back to back: at least sixteen bytes apiece. */
  function EncodeRows(rs: seq<Row>): (s: seq<byte>)
    requires RowsFit(rs)
    ensures |s| >= 16 * |rs|
    ensures rs != [] ==> s[..8] == EncodeInt64(|rs[0].key.b|)
  {
    if rs == [] then [] else EncodeRow(rs[0]) + EncodeRows(rs[1..])
  }

  /** A block: its count field, then its records. */
  function EncodeBlock(b: Block): (s: seq<byte>)
    requires RowsFit(b.rows)
    ensures |s| >= 8 + 16 * |b.rows|
    ensures s[..8] == EncodeInt64(b.count)
  {
    EncodeInt64(b.count) + EncodeRows(b.rows)
  }

  /** The whole stream: the blocks back to back, with nothing after the last. */
  function EncodeBlocks(bs: seq<Block>): (s: seq<byte>)
    requires BlocksFit(bs)
    ensures |s| >= 8 * |bs|
    ensures bs == [] <==> s == []
    ensures bs != [] ==> s[..8] == EncodeInt64(bs[0].count)
  {
    if bs == [] then [] else EncodeBlock(bs[0]) + EncodeBlocks(bs[1..])
  }

  /** Writing one more record appends its encoding. */
  lemma {:induction false} EncodeRowsSnoc(rs: seq<Row>, r: Row)
    requires RowsFit(rs) && RowFits(r)
    ensures RowsFit(rs + [r])
    ensures EncodeRows(rs + [r]) == EncodeRows(rs) + EncodeRow(r)
  {
    if rs == [] {
      assert rs + [r] == [r];
      assert EncodeRows([r]) == EncodeRow(r) + EncodeRows([]);
    } else {
      calc {
        EncodeRows(rs + [r]);
        { assert (rs + [r])[0] == rs[0] && (rs + [r])[1..] == rs[1..] + [r]; }
        EncodeRow(rs[0]) + EncodeRows(rs[1..] + [r]);
        { EncodeRowsSnoc(rs[1..], r); }
        EncodeRow(rs[0]) + (EncodeRows(rs[1..]) + EncodeRow(r));
        { AppendAssoc(EncodeRow(rs[0]), EncodeRows(rs[1..]), EncodeRow(r)); }
        EncodeRows(rs) + EncodeRow(r);
      }
    }
  }

  /** Writing one more block appends its encoding. */
  lemma {:induction false} EncodeBlocksSnoc(bs: seq<Block>, b: Block)
    requires BlocksFit(bs) && RowsFit(b.rows)
    ensures BlocksFit(bs + [b])
    ensures EncodeBlocks(bs + [b]) == EncodeBlocks(bs) + EncodeBlock(b)
  {
    if bs == [] {
      assert bs + [b] == [b];
      assert EncodeBlocks([b]) == EncodeBlock(b) + EncodeBlocks([]);
    } else {
      calc {
        EncodeBlocks(bs + [b]);
        { assert (bs + [b])[0] == bs[0] && (bs + [b])[1..] == bs[1..] + [b]; }
        EncodeBlock(bs[0]) + EncodeBlocks(bs[1..] + [b]);
        { EncodeBlocksSnoc(bs[1..], b); }
        EncodeBlock(bs[0]) + (EncodeBlocks(bs[1..]) + EncodeBlock(b));
        { AppendAssoc(EncodeBlock(bs[0]), EncodeBlocks(bs[1..]), EncodeBlock(b)); }
        EncodeBlocks(bs) + EncodeBlock(b);
      }
    }
  }

  // ---------------------------------------------------------------- decoding

  /** What `io.ReadFull` (under `binary.Read`) reports: nothing left, or less than asked for. */
  datatype ReadError = EOF | UnexpectedEOF

  /**
   * Why replay stopped.  `Read`: an error from `binary.Read`, returned as it
   * is.  `KeyLength`: the key-length read failed, and the error is wrapped
   * ("error reading key length").  `SizeOutOfRange`: a count or length that
   * is negative or above what `make` can allocate reached `make`, where Go
   * panics instead of returning.
   */
  datatype SendError = Read(cause: ReadError) | KeyLength(cause: ReadError) | SizeOutOfRange

  /** A length `make([]byte, n)` accepts. */
  predicate LenOk(n: int64)
  {
    0 <= n <= MaxAlloc
  }

  /** A capacity `make([]*Row, 0, x)` accepts. */
  predicate CapOk(x: int64)
  {
    0 <= x <= MaxRows
  }

  /** A decoded item and the input that remains after it. */
  datatype Taken<T> = Taken(value: T, rest: seq<byte>)

  /** `binary.Read` of an `int64`: eight bytes, `EOF` if none are left, `UnexpectedEOF` if some but too few. */
  function ReadInt64(s: seq<byte>): (r: Result<Taken<int64>, ReadError>)
    ensures r.Ok? ==> |s| >= 8 && r.value.rest == s[8..]
  {
    if |s| == 0 then Err(EOF)
    else if |s| < 8 then Err(UnexpectedEOF)
    else Ok(Taken(DecodeInt64(s[..8]), s[8..]))
  }

  /** Eight bytes or more: the first eight are the number's encoding; none: `EOF`; one to seven: `UnexpectedEOF`. */
  lemma ReadInt64Outcome(s: seq<byte>)
    ensures ReadInt64(s).Ok? <==> |s| >= 8
    ensures ReadInt64(s).Ok? ==> EncodeInt64(ReadInt64(s).value.value) == s[..8]
    ensures ReadInt64(s) == Err(EOF) <==> |s| == 0
    ensures ReadInt64(s) == Err(UnexpectedEOF) <==> 0 < |s| < 8
  {
    if |s| >= 8 {
      EncodeDecodeInt64(s[..8]);
    }
  }

  /** `binary.Read` into a buffer of `n` bytes: an empty buffer always succeeds. */
  function ReadBytes(s: seq<byte>, n: nat): (r: Result<Taken<seq<byte>>, ReadError>)
    ensures r.Ok? ==> r.value.value + r.value.rest == s && |r.value.value| == n
  {
    if n == 0 then Ok(Taken([], s))
    else if |s| == 0 then Err(EOF)
    else if |s| < n then Err(UnexpectedEOF)
    else
      assert s[..n] + s[n..] == s;
      Ok(Taken(s[..n], s[n..]))
  }

  /** `n` bytes or more: they are read; none left (and `n > 0`): `EOF`; some but too few: `UnexpectedEOF`. */
  lemma ReadBytesOutcome(s: seq<byte>, n: nat)
    ensures ReadBytes(s, n).Ok? <==> n <= |s|
    ensures ReadBytes(s, n) == Err(EOF) <==> n > 0 && |s| == 0
    ensures ReadBytes(s, n) == Err(UnexpectedEOF) <==> 0 < |s| < n
  {
  }

  /** One record, with the error handling of the inner loop of `Send`/`sendData`. */
  function ParseRow(s: seq<byte>): (r: Result<Taken<Row>, SendError>)
    ensures r.Ok? ==> |r.value.rest| <= |s| - 16 && RowFits(r.value.value)
    ensures |s| >= 8 && !LenOk(DecodeInt64(s[..8])) ==> r == Err(SizeOutOfRange)
  {
    match ReadInt64(s)
    case Err(e) => Err(KeyLength(e))
    case Ok(Taken(k, s1)) =>
      if !LenOk(k) then Err(SizeOutOfRange)
      else
        match ReadBytes(s1, k)
        case Err(e) => Err(Read(e))
        case Ok(Taken(kb, s2)) =>
          match ReadInt64(s2)
          case Err(e) => Err(Read(e))
          case Ok(Taken(v, s3)) =>
            if !LenOk(v) then Err(SizeOutOfRange)
            else
              match ReadBytes(s3, v)
              case Err(e) => Err(Read(e))
              case Ok(Taken(vb, s4)) => Ok(Taken(Row(RowKey(kb), RowValue(vb)), s4))
  }

  /**
   * The first `n` passes of the inner loop of `Send`/`sendData`: the rows
   * read and the input left, or the first error, after which nothing more
   * is read.
   */
  function ParseRows(s: seq<byte>, n: nat): (r: Result<Taken<seq<Row>>, SendError>)
    ensures r.Ok? ==> |r.value.rest| <= |s| && |r.value.value| == n
  {
    if n == 0 then Ok(Taken([], s))
    else
      match ParseRows(s, n - 1)
      case Err(e) => Err(e)
      case Ok(Taken(rows, s1)) =>
        match ParseRow(s1)
        case Err(e) => Err(e)
        case Ok(Taken(row, s2)) => Ok(Taken(rows + [row], s2))
  }

  /** One more pass of the inner loop appends the record it reads. */
  lemma ParseRowsSnoc(s: seq<byte>, n: nat, rows: seq<Row>, t: seq<byte>, row: Row, tail: seq<byte>)
    requires ParseRows(s, n) == Ok(Taken(rows, t)) && ParseRow(t) == Ok(Taken(row, tail))
    ensures ParseRows(s, n + 1) == Ok(Taken(rows + [row], tail))
  {
  }

  /** Once a record fails, the block fails with the same error however many records it was to hold. */
  lemma {:induction false} ParseRowsErrSticks(s: seq<byte>, n: nat, m: nat)
    requires n <= m && ParseRows(s, n).Err?
    ensures ParseRows(s, m) == ParseRows(s, n)
    decreases m - n
  {
    if n < m {
      ParseRowsErrSticks(s, n, m - 1);
      assert ParseRows(s, m - 1).Err?;
    }
  }

  /** The batches replay sends, in order, and the error it returns: it always returns one. */
  datatype Replay = Replay(batches: seq<Batch>, err: SendError)

  /**
   * The outer loop of `Send`/`sendData`, with the batches `sent` so far:
   * block after block until a read fails.  A whole stream replays as
   * `ParseBlocks(s, [])`.  Batches already sent stay in front, and every
   * further batch took at least the eight bytes of its count field.
   */
  function ParseBlocks(s: seq<byte>, sent: seq<Batch>): (r: Replay)
    ensures sent <= r.batches
    ensures 8 * (|r.batches| - |sent|) <= |s|
    ensures |s| >= 8 && !CapOk(DecodeInt64(s[..8])) ==> r == Replay(sent, SizeOutOfRange)
    decreases |s|
  {
    match ReadInt64(s)
    case Err(e) => Replay(sent, Read(e))
    case Ok(Taken(x, s1)) =>
      if !CapOk(x) then Replay(sent, SizeOutOfRange)
      else
        match ParseRows(s1, x)
        case Err(e) => Replay(sent, e)
        case Ok(Taken(rows, s2)) => ParseBlocks(s2, sent + [rows])
  }

  /**
   * The step `ReadRows` runs: one record read the way the inner loop of
   * `Send`/`sendData` reads it, stopping at the first failure.  It is not a
   * second parser: its contract ties it to `ParseRow`.
   */
  method ReadRecord(s: seq<byte>) returns (r: Result<Taken<Row>, SendError>)
    ensures r == ParseRow(s)
  {
    var rk := ReadInt64(s);
    if rk.Err? {
      return Err(KeyLength(rk.error));
    }
    var k := rk.value.value;
    if !LenOk(k) {
      return Err(SizeOutOfRange);
    }
    var rkb := ReadBytes(rk.value.rest, k);
    if rkb.Err? {
      return Err(Read(rkb.error));
    }
    var rv := ReadInt64(rkb.value.rest);
    if rv.Err? {
      return Err(Read(rv.error));
    }
    var v := rv.value.value;
    if !LenOk(v) {
      return Err(SizeOutOfRange);
    }
    var rvb := ReadBytes(rv.value.rest, v);
    if rvb.Err? {
      return Err(Read(rvb.error));
    }
    r := Ok(Taken(Row(RowKey(rkb.value.value), RowValue(rvb.value.value)), rvb.value.rest));
  }

  /** The inner loop of `Send`/`sendData`: `count` records, or the first error. */
  method ReadRows(s: seq<byte>, count: int64) returns (r: Result<Taken<seq<Row>>, SendError>)
    requires count >= 0
    ensures r == ParseRows(s, count)
  {
    var rows: seq<Row> := [];
    var rest := s;
    var i := 0;
    while i < count
      invariant 0 <= i <= count
      invariant ParseRows(s, i) == Ok(Taken(rows, rest))
    {
      var rr := ReadRecord(rest);
      if rr.Err? {
        ParseRowsErrSticks(s, i + 1, count);
        return Err(rr.error);
      }
      rows, rest := rows + [rr.value.value], rr.value.rest;
      i := i + 1;
    }
    r := Ok(Taken(rows, rest));
  }

  // ---------------------------------------------------------------- round trip

  /** The batches a list of blocks carries. */
  function Batches(bs: seq<Block>): (r: seq<Batch>)
    ensures |r| == |bs|
    ensures forall i :: 0 <= i < |bs| ==> r[i] == bs[i].rows
  {
    if bs == [] then [] else [bs[0].rows] + Batches(bs[1..])
  }

  lemma ReadInt64Encoded(x: int64, tail: seq<byte>)
    ensures ReadInt64(EncodeInt64(x) + tail) == Ok(Taken(x, tail))
  {
    var s := EncodeInt64(x) + tail;
    assert s[..8] == EncodeInt64(x) && s[8..] == tail;
    DecodeEncodeInt64(x);
  }

  lemma ReadBytesEncoded(b: seq<byte>, tail: seq<byte>)
    ensures ReadBytes(b + tail, |b|) == Ok(Taken(b, tail))
  {
    var s := b + tail;
    assert s[..|b|] == b && s[|b|..] == tail;
  }

  lemma ParseRowEncoded(r: Row, tail: seq<byte>)
    requires RowFits(r)
    ensures ParseRow(EncodeRow(r) + tail) == Ok(Taken(r, tail))
  {
    var kl, kb, vl, vb := |r.key.b|, r.key.b, |r.value.b|, r.value.b;
    var s := EncodeRow(r) + tail;
    var s1 := kb + EncodeInt64(vl) + vb + tail;
    var s2 := EncodeInt64(vl) + vb + tail;
    var s3 := vb + tail;
    assert s == EncodeInt64(kl) + s1;
    assert s1 == kb + s2;
    assert s2 == EncodeInt64(vl) + s3;
    ReadInt64Encoded(kl, s1);
    ReadBytesEncoded(kb, s2);
    ReadInt64Encoded(vl, s3);
    ReadBytesEncoded(vb, tail);
  }

  lemma {:induction false} ParseRowsEncoded(rs: seq<Row>, tail: seq<byte>)
    requires RowsFit(rs)
    ensures ParseRows(EncodeRows(rs) + tail, |rs|) == Ok(Taken(rs, tail))
  {
    if rs != [] {
      var init, last := rs[..|rs| - 1], rs[|rs| - 1];
      assert rs == init + [last];
      var t := EncodeRow(last) + tail;
      var whole := EncodeRows(init) + t;
      assert EncodeRows(rs) + tail == whole by {
        EncodeRowsSnoc(init, last);
        AppendAssoc(EncodeRows(init), EncodeRow(last), tail);
      }
      assert ParseRows(whole, |init|) == Ok(Taken(init, t)) by {
        ParseRowsEncoded(init, t);
      }
      assert ParseRow(t) == Ok(Taken(last, tail)) by {
        ParseRowEncoded(last, tail);
      }
      ParseRowsSnoc(whole, |init|, init, t, last, tail);
    } else {
      assert EncodeRows(rs) + tail == tail;
    }
  }

  /** Replaying a stream that starts with an encoded well-formed block sends that block's rows next. */
  lemma ParseBlocksCons(b: Block, rest: seq<byte>, sent: seq<Batch>)
    requires WellFormed(b)
    ensures ParseBlocks(EncodeBlock(b) + rest, sent) == ParseBlocks(rest, sent + [b.rows])
  {
    var s1 := EncodeRows(b.rows) + rest;
    AppendAssoc(EncodeInt64(b.count), EncodeRows(b.rows), rest);
    ReadInt64Encoded(b.count, s1);
    ParseRowsEncoded(b.rows, rest);
  }

  /**
   * Replaying an encoded list of well-formed blocks sends exactly their
   * batches, in order, and then stops with `EOF` at a block boundary.
   */
  lemma {:induction false} ParseBlocksEncoded(bs: seq<Block>, sent: seq<Batch>)
    requires forall i :: 0 <= i < |bs| ==> WellFormed(bs[i])
    ensures BlocksFit(bs)
    ensures ParseBlocks(EncodeBlocks(bs), sent) == Replay(sent + Batches(bs), Read(EOF))
  {
    if bs != [] {
      assert WellFormed(bs[0]);
      ParseBlocksEncoded(bs[1..], sent + [bs[0].rows]);
      assert BlocksFit(bs) by {
        forall i | 0 <= i < |bs|
          ensures RowsFit(bs[i].rows)
        {
          assert WellFormed(bs[i]);
        }
      }
      var rest := EncodeBlocks(bs[1..]);
      assert EncodeBlocks(bs) == EncodeBlock(bs[0]) + rest;
      ParseBlocksCons(bs[0], rest, sent);
      assert Batches(bs) == [bs[0].rows] + Batches(bs[1..]);
      AppendAssoc(sent, [bs[0].rows], Batches(bs[1..]));
    } else {
      assert EncodeBlocks(bs) == [];
      assert sent + Batches(bs) == sent;
    }
  }

  /**
   * A stream cut off right after a key length that `make` accepts replays
   * exactly like an empty stream: reading the missing key bytes reports a
   * bare `EOF`, the same error that ends a stream at a block boundary.  A
   * key length too large to allocate panics instead.
   */
  lemma TruncatedRecordLooksLikeCleanEnd(k: int64)
    requires k > 0
    ensures k <= MaxAlloc ==> ParseBlocks(EncodeInt64(1) + EncodeInt64(k), []) == ParseBlocks([], [])
    ensures k > MaxAlloc ==> ParseBlocks(EncodeInt64(1) + EncodeInt64(k), []) == Replay([], SizeOutOfRange)
  {
    ReadInt64Encoded(1, EncodeInt64(k));
    ReadInt64Encoded(k, []);
    assert EncodeInt64(k) + [] == EncodeInt64(k);
    assert ParseRows(EncodeInt64(k), 0) == Ok(Taken([], EncodeInt64(k)));
    if k <= MaxAlloc {
      assert ParseRow(EncodeInt64(k)) == Err(Read(EOF));
    } else {
      assert ParseRow(EncodeInt64(k)) == Err(SizeOutOfRange);
    }
  }
}

/**
 * data.go: `Random`, a seeded pseudo-random source with the workload
 * writer and the paced replayer built on it.  The mutex that serialises
 * access is left out; every call here runs alone.
 */
module Data {
  import opened Wire
  import opened Draws
  import opened Rows
  import opened Stream
  import opened Gen
  import opened Pacing
  import opened Wrappers

  class Random {
    /** The seeded generator's draws (`rand.New(rand.NewSource(seed))`). */
    const source: Source
    /** How many draws have been taken. */
    var pos: nat

    /** `NewRandom(seed)`, with the seed's draw sequence given as `source`. */
    constructor (source: Source)
      ensures this.source == source && pos == 0
    {
      this.source := source;
      pos := 0;
    }

    /** `Int(min, max)`: `min` without a draw when `max - min < 1`, else `min + Intn(max - min)`. */
    method Int(min: int64, max: int64) returns (r: int64)
      modifies this
      ensures r == RandInt(source, old(pos), min, max).value
      ensures pos == RandInt(source, old(pos), min, max).next
    {
      var diff := Wrap64(max - min);
      if diff < 1 {
        return min;
      }
      r := Wrap64(min + Intn(source, pos, diff));
      pos := pos + 1;
    }

    /** `Bytes(w, n)`: appends `n` bytes to `w`, each `byte(Intn(255))`, one draw apiece. */
    method Bytes(w: seq<byte>, n: int) returns (w': seq<byte>)
      requires n >= 0
      modifies this
      ensures w' == w + RandBytes(source, old(pos), n)
      ensures pos == old(pos) + n
    {
      var buf := new byte[n];
      for i := 0 to n
        invariant pos == old(pos) + i
        invariant buf[..i] == RandBytes(source, old(pos), i)
      {
        buf[i] := DrawByte(source, pos);
        pos := pos + 1;
      }
      w' := w + buf[..];
    }

    /**
     * `Write(w, n, b0, b1, k0, k1, v0, v1)`: appends the encoding of the
     * blocks the generator draws from this source (see `Gen.GenBlocks`).
     */
    method Write(w: seq<byte>, n: int64, p: Params) returns (w': seq<byte>)
      requires LengthsOk(p)
      modifies this
      ensures var g := GenBlocks(Shared(source, old(pos)), if n < 0 then 0 else n, p);
              BlocksFit(g.value) && w' == w + EncodeBlocks(g.value) && g.next == Shared(source, pos)
    {
      ghost var start := Shared(source, pos);
      ghost var blocks: seq<Block> := [];
      w' := w;
      ghost var count: nat := if n < 0 then 0 else n;
      var i := 0;
      while i < n
        invariant 0 <= i <= count
        invariant GenBlocks(start, i, p) == Generated(blocks, Shared(source, pos))
        invariant BlocksFit(blocks) && w' == w + EncodeBlocks(blocks)
      {
        ghost var block := GenBlock(Shared(source, pos), p);
        GenBlocksStep(start, i, p);
        w' := WriteBlock(w', p);
        EncodeBlocksSnoc(blocks, block.value);
        AppendAssoc(w, EncodeBlocks(blocks), EncodeBlock(block.value));
        blocks := blocks + [block.value];
        i := i + 1;
      }
      assert i == count;
    }

    /** One pass of `Write`'s outer loop: the row count, then that many records. */
    method WriteBlock(w: seq<byte>, p: Params) returns (w': seq<byte>)
      requires LengthsOk(p)
      modifies this
      ensures var b := GenBlock(Shared(source, old(pos)), p);
              RowsFit(b.value.rows) && w' == w + EncodeBlock(b.value) && b.next == Shared(source, pos)
    {
      ghost var g0 := Shared(source, pos);
      var x := Int(p.b0, p.b1);
      w' := w + EncodeInt64(x);
      ghost var rowsStart := w';
      ghost var afterCount := Shared(source, pos);
      ghost var rows: seq<Row> := [];
      ghost var count: nat := if x < 0 then 0 else x;
      var j := 0;
      while j < x
        invariant 0 <= j <= count
        invariant GenRows(afterCount, j, p) == Generated(rows, Shared(source, pos))
        invariant RowsFit(rows) && w' == rowsStart + EncodeRows(rows)
      {
        ghost var row := GenRow(Shared(source, pos), p);
        GenRowsStep(afterCount, j, p);
        w' := WriteRecord(w', p);
        EncodeRowsSnoc(rows, row.value);
        AppendAssoc(rowsStart, EncodeRows(rows), EncodeRow(row.value));
        rows := rows + [row.value];
        j := j + 1;
      }
      assert j == count;
      ghost var block := GenBlock(g0, p);
      assert block.value == Block(x, rows);
      AppendAssoc(w, EncodeInt64(x), EncodeRows(rows));
    }

    /** One record of `Write`'s inner loop: key length, key bytes, value length, value bytes. */
    method WriteRecord(w: seq<byte>, p: Params) returns (w': seq<byte>)
      requires LengthsOk(p)
      modifies this
      ensures var row := GenRow(Shared(source, old(pos)), p);
              w' == w + EncodeRow(row.value) && row.next == Shared(source, pos)
    {
      ghost var row := GenRow(Shared(source, pos), p);
      ghost var kd := RandInt(source, pos, p.k0, p.k1);
      GenRowShared(source, pos, p);
      ghost var kb := RandBytes(source, kd.next, kd.value);
      ghost var vd := RandInt(source, kd.next + kd.value, p.v0, p.v1);
      ghost var vb := RandBytes(source, vd.next, vd.value);
      assert row.value == Row(RowKey(kb), RowValue(vb));
      var k := Int(p.k0, p.k1);
      assert k == kd.value && pos == kd.next;
      var w1 := w + EncodeInt64(k);
      var w2 := Bytes(w1, k);
      assert w2 == w1 + kb && pos == kd.next + kd.value;
      var v := Int(p.v0, p.v1);
      assert v == vd.value && pos == vd.next;
      var w3 := w2 + EncodeInt64(v);
      w' := Bytes(w3, v);
      assert w' == w3 + vb;
      Append4(w, EncodeInt64(k), row.value.key.b, EncodeInt64(v), row.value.value.b);
    }

    /**
     * `Send(ch, r, d0, d1)`: replays the stream `input`, sending each
     * complete block as a batch (`sent`), and returns the error that ended
     * it.  Before every send but the first it draws a target delay with
     * `Int(d0, d1)`; `gaps[j]` is the time between send `j` and send `j + 1`.
     */
    method Send(input: seq<byte>, d0: int64, d1: int64, elapsed: Elapsed)
      returns (sent: seq<Batch>, gaps: seq<int>, err: SendError)
      modifies this
      ensures sent == ParseBlocks(input, []).batches && err == ParseBlocks(input, []).err
      ensures |gaps| == if sent == [] then 0 else |sent| - 1
      ensures pos == old(pos) + (if DrawCost(d0, d1) == 0 then 0 else |gaps|)
      ensures forall j :: 0 <= j < |gaps| ==> gaps[j] == Gap(elapsed(j + 1), Target(source, old(pos), d0, d1, j))
      ensures Fits(d0, d1) ==> forall j :: 0 <= j < |gaps| ==> gaps[j] >= d0
    {
      sent, gaps := [], [];
      var rest := input;
      ghost var pos0 := pos;
      while true
        invariant ParseBlocks(input, []) == ParseBlocks(rest, sent)
        invariant |gaps| == if sent == [] then 0 else |sent| - 1
        invariant pos0 == old(pos)
        invariant pos == pos0 + (if DrawCost(d0, d1) == 0 then 0 else |gaps|)
        invariant Paced(gaps, elapsed, source, pos0, d0, d1)
        decreases |rest|
      {
        var rx := ReadInt64(rest);
        if rx.Err? {
          err := Read(rx.error);
          return;
        }
        var x := rx.value.value;
        if !CapOk(x) {
          err := SizeOutOfRange;
          return;
        }
        var rr := ReadRows(rx.value.rest, x);
        if rr.Err? {
          err := rr.error;
          return;
        }
        var rows := rr.value.value;
        rest := rr.value.rest;
        if sent != [] {
          TargetAt(source, pos0, d0, d1, |gaps|, pos);
          var target := Int(d0, d1);
          GapsSnoc(gaps, Gap(elapsed(|sent|), target), elapsed, source, pos0, d0, d1);
          gaps := gaps + [Gap(elapsed(|sent|), target)];
        }
        sent := sent + [rows];
      }
    }
  }

  /**
   * Two `Random`s built from the same seed, asked for `Int` with the same
   * bounds in the same order, give the same answers, each within its
   * bounds.
   */
  method SameDrawsSameInts(source: Source, calls: seq<(int64, int64)>) returns (r1: seq<int64>, r2: seq<int64>)
    ensures |r1| == |calls| && r2 == r1
    ensures forall i :: 0 <= i < |calls| && Fits(calls[i].0, calls[i].1) ==> InRange(r1[i], calls[i].0, calls[i].1)
  {
    var a := new Random(source);
    var b := new Random(source);
    r1, r2 := [], [];
    for i := 0 to |calls|
      invariant a.pos == b.pos && |r1| == i && r2 == r1
      invariant forall j :: 0 <= j < i && Fits(calls[j].0, calls[j].1) ==> InRange(r1[j], calls[j].0, calls[j].1)
    {
      var x := a.Int(calls[i].0, calls[i].1);
      var y := b.Int(calls[i].0, calls[i].1);
      r1, r2 := r1 + [x], r2 + [y];
    }
  }

  /**
   * Identical inputs give an identical data file: two `Random`s built from
   * the same seed write the same bytes, the encoding of the same generated
   * blocks.
   */
  method SameSeedSameFile(source: Source, n: int64, p: Params) returns (f1: seq<byte>, f2: seq<byte>)
    requires LengthsOk(p)
    ensures var bs := GenBlocks(Shared(source, 0), if n < 0 then 0 else n, p).value;
            BlocksFit(bs) && f1 == EncodeBlocks(bs) && f2 == f1
  {
    var a := new Random(source);
    var b := new Random(source);
    f1 := a.Write([], n, p);
    f2 := b.Write([], n, p);
  }
}

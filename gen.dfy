/**
 * What the workload generator writes (data.go `Write`, main.go
 * `generateData`): `n` blocks; each block draws its row count `x` with
 * `Int(b0, b1)` and then `x` records, each a key length `Int(k0, k1)`, that
 * many random bytes, a value length `Int(v0, v1)` and that many random
 * bytes.  The two Go versions differ only in where the bytes come from,
 * which `Rng` records.
 */
module Gen {
  import opened Wire
  import opened Draws
  import opened Rows
  import opened Stream

  /** One generation run's size bounds: rows per block `[b0, b1)`, key bytes `[k0, k1)`, value bytes `[v0, v1)`. */
  datatype Params = Params(b0: int64, b1: int64, k0: int64, k1: int64, v0: int64, v1: int64)

  /**
   * Every key and value length drawn is one `make` in `Bytes`/`randBytes`
   * accepts, between 0 and `MaxAlloc`: the minimum is in that range, the
   * maximum at most one above it, and `max - min` does not overflow.
   */
  predicate LengthsOk(p: Params)
  {
    && 0 <= p.k0 <= MaxAlloc && p.k1 <= MaxAlloc + 1 && Fits(p.k0, p.k1)
    && 0 <= p.v0 <= MaxAlloc && p.v1 <= MaxAlloc + 1 && Fits(p.v0, p.v1)
  }

  /** Every row count drawn is a capacity the reader's `make` accepts. */
  predicate CountsOk(p: Params)
  {
    0 <= p.b0 <= MaxRows && p.b1 <= MaxRows + 1 && Fits(p.b0, p.b1)
  }

  predicate BytesBelow255(s: seq<byte>)
  {
    forall i :: 0 <= i < |s| ==> s[i] <= 254
  }

  /** A generated record: lengths in range, bytes never 255, lengths writable as `int64`. */
  predicate RowShaped(r: Row, p: Params)
  {
    && InRange(|r.key.b|, p.k0, p.k1) && InRange(|r.value.b|, p.v0, p.v1)
    && BytesBelow255(r.key.b) && BytesBelow255(r.value.b)
    && RowFits(r)
  }

  /** A generated block: as many records as its count says (none for a negative count), each shaped. */
  predicate BlockShaped(b: Block, p: Params)
  {
    && |b.rows| == (if b.count < 0 then 0 else b.count)
    && (Fits(p.b0, p.b1) ==> InRange(b.count, p.b0, p.b1))
    && forall j :: 0 <= j < |b.rows| ==> RowShaped(b.rows[j], p)
  }

  /** A generated value and the random state after generating it. */
  datatype Generated<T> = Generated(value: T, next: Rng)

  /** One record of the inner loop. */
  function GenRow(g: Rng, p: Params): (r: Generated<Row>)
    requires LengthsOk(p)
    ensures RowFits(r.value)
    ensures r.next.Shared? == g.Shared?
  {
    var k := NextInt(g, p.k0, p.k1).value;
    var g1 := AfterInt(g, p.k0, p.k1);
    var kb := NextBytes(g1, k);
    var g2 := AfterBytes(g1, k);
    var v := NextInt(g2, p.v0, p.v1).value;
    var g3 := AfterInt(g2, p.v0, p.v1);
    var vb := NextBytes(g3, v);
    Generated(Row(RowKey(kb), RowValue(vb)), AfterBytes(g3, v))
  }

  /** The first `count` records of the inner loop. */
  function GenRows(g: Rng, count: nat, p: Params): (r: Generated<seq<Row>>)
    requires LengthsOk(p)
    ensures |r.value| == count
    ensures r.next.Shared? == g.Shared?
  {
    if count == 0 then Generated([], g)
    else
      var prev := GenRows(g, count - 1, p);
      var row := GenRow(prev.next, p);
      Generated(prev.value + [row.value], row.next)
  }

  /** One more pass of the inner loop appends one record. */
  lemma GenRowsStep(g: Rng, count: nat, p: Params)
    requires LengthsOk(p)
    ensures var prev := GenRows(g, count, p);
            var row := GenRow(prev.next, p);
            GenRows(g, count + 1, p) == Generated(prev.value + [row.value], row.next)
  {
  }

  /** One block: the count `Int(b0, b1)`, then that many records (none when it is negative). */
  function GenBlock(g: Rng, p: Params): (r: Generated<Block>)
    requires LengthsOk(p)
    ensures |r.value.rows| == if r.value.count < 0 then 0 else r.value.count
    ensures r.next.Shared? == g.Shared?
  {
    var x := NextInt(g, p.b0, p.b1).value;
    var rows := GenRows(AfterInt(g, p.b0, p.b1), if x < 0 then 0 else x, p);
    Generated(Block(x, rows.value), rows.next)
  }

  /** The first `n` blocks of the outer loop. */
  function GenBlocks(g: Rng, n: nat, p: Params): (r: Generated<seq<Block>>)
    requires LengthsOk(p)
    ensures |r.value| == n
    ensures r.next.Shared? == g.Shared?
  {
    if n == 0 then Generated([], g)
    else
      var prev := GenBlocks(g, n - 1, p);
      var b := GenBlock(prev.next, p);
      Generated(prev.value + [b.value], b.next)
  }

  /** One more pass of the outer loop appends one block. */
  lemma GenBlocksStep(g: Rng, n: nat, p: Params)
    requires LengthsOk(p)
    ensures var prev := GenBlocks(g, n, p);
            var b := GenBlock(prev.next, p);
            GenBlocks(g, n + 1, p) == Generated(prev.value + [b.value], b.next)
  {
  }

  /** Every generated record has its lengths in range and no byte 255. */
  lemma GenRowShaped(g: Rng, p: Params)
    requires LengthsOk(p)
    ensures RowShaped(GenRow(g, p).value, p)
  {
    var k := NextInt(g, p.k0, p.k1).value;
    var g1 := AfterInt(g, p.k0, p.k1);
    NextBytesBelow255(g1, k);
    var g2 := AfterBytes(g1, k);
    var v := NextInt(g2, p.v0, p.v1).value;
    NextBytesBelow255(AfterInt(g2, p.v0, p.v1), v);
  }

  lemma {:induction false} GenRowsShaped(g: Rng, count: nat, p: Params)
    requires LengthsOk(p)
    ensures forall j :: 0 <= j < count ==> RowShaped(GenRows(g, count, p).value[j], p)
  {
    if count > 0 {
      var prev := GenRows(g, count - 1, p);
      var r := GenRow(prev.next, p).value;
      assert forall j :: 0 <= j < |prev.value| ==> RowShaped(prev.value[j], p) by {
        GenRowsShaped(g, count - 1, p);
      }
      assert RowShaped(r, p) by {
        GenRowShaped(prev.next, p);
      }
      assert GenRows(g, count, p).value == prev.value + [r] by {
        GenRowsStep(g, count - 1, p);
      }
      RowsShapedSnoc(prev.value, r, p);
    }
  }

  lemma RowsShapedSnoc(rs: seq<Row>, r: Row, p: Params)
    requires forall j :: 0 <= j < |rs| ==> RowShaped(rs[j], p)
    requires RowShaped(r, p)
    ensures forall j :: 0 <= j < |rs| + 1 ==> RowShaped((rs + [r])[j], p)
  {
    forall j | 0 <= j < |rs| + 1
      ensures RowShaped((rs + [r])[j], p)
    {
      if j < |rs| {
        assert (rs + [r])[j] == rs[j];
      }
    }
  }

  /** Every generated block has a count in range and exactly that many shaped records. */
  lemma GenBlockShaped(g: Rng, p: Params)
    requires LengthsOk(p)
    ensures BlockShaped(GenBlock(g, p).value, p)
  {
    var x := NextInt(g, p.b0, p.b1).value;
    GenRowsShaped(AfterInt(g, p.b0, p.b1), if x < 0 then 0 else x, p);
  }

  lemma {:induction false} GenBlocksShaped(g: Rng, n: nat, p: Params)
    requires LengthsOk(p)
    ensures forall i :: 0 <= i < n ==> BlockShaped(GenBlocks(g, n, p).value[i], p)
  {
    if n > 0 {
      var prev := GenBlocks(g, n - 1, p);
      var b := GenBlock(prev.next, p).value;
      assert forall i :: 0 <= i < |prev.value| ==> BlockShaped(prev.value[i], p) by {
        GenBlocksShaped(g, n - 1, p);
      }
      assert BlockShaped(b, p) by {
        GenBlockShaped(prev.next, p);
      }
      assert GenBlocks(g, n, p).value == prev.value + [b] by {
        GenBlocksStep(g, n - 1, p);
      }
      BlocksShapedSnoc(prev.value, b, p);
    }
  }

  lemma BlocksShapedSnoc(bs: seq<Block>, b: Block, p: Params)
    requires forall i :: 0 <= i < |bs| ==> BlockShaped(bs[i], p)
    requires BlockShaped(b, p)
    ensures forall i :: 0 <= i < |bs| + 1 ==> BlockShaped((bs + [b])[i], p)
  {
    forall i | 0 <= i < |bs| + 1
      ensures BlockShaped((bs + [b])[i], p)
    {
      if i < |bs| {
        assert (bs + [b])[i] == bs[i];
      }
    }
  }

  /** One record drawn from a single seeded source, spelled out draw by draw. */
  lemma GenRowShared(src: Source, pos: nat, p: Params)
    requires LengthsOk(p)
    ensures var k := RandInt(src, pos, p.k0, p.k1);
            var v := RandInt(src, k.next + k.value, p.v0, p.v1);
            && k.value >= 0 && v.value >= 0
            && GenRow(Shared(src, pos), p)
               == Generated(Row(RowKey(RandBytes(src, k.next, k.value)), RowValue(RandBytes(src, v.next, v.value))),
                            Shared(src, v.next + v.value))
  {
  }

  /**
   * One record from a split state, spelled out draw by draw: the lengths
   * from the seeded source, the bytes from the process-wide one.
   */
  lemma GenRowSplit(rnd: Source, rpos: nat, global: Source, gpos: nat, p: Params)
    requires LengthsOk(p)
    ensures var k := RandInt(rnd, rpos, p.k0, p.k1);
            var v := RandInt(rnd, k.next, p.v0, p.v1);
            && k.value >= 0 && v.value >= 0
            && GenRow(Split(rnd, rpos, global, gpos), p)
               == Generated(Row(RowKey(RandBytes(global, gpos, k.value)), RowValue(RandBytes(global, gpos + k.value, v.value))),
                            Split(rnd, v.next, global, gpos + k.value + v.value))
  {
  }

  lemma ShapedBlocksFit(bs: seq<Block>, p: Params)
    requires forall i :: 0 <= i < |bs| ==> BlockShaped(bs[i], p)
    ensures BlocksFit(bs)
  {
    forall i | 0 <= i < |bs|
      ensures RowsFit(bs[i].rows)
    {
      assert forall j :: 0 <= j < |bs[i].rows| ==> RowShaped(bs[i].rows[j], p);
    }
  }

  /**
   * Generate, write, replay: with a non-negative row-count minimum, the
   * replayed stream yields exactly the `n` generated batches, each with a
   * row count in `[b0, b1)` and every key and value length in range, and
   * ends with `EOF` at a block boundary.
   */
  lemma WrittenStreamReplays(g: Rng, n: nat, p: Params)
    requires LengthsOk(p) && CountsOk(p)
    ensures BlocksFit(GenBlocks(g, n, p).value)
    ensures var bs := GenBlocks(g, n, p).value;
            var r := ParseBlocks(EncodeBlocks(bs), []);
            && r == Replay(Batches(bs), Read(EOF))
            && |r.batches| == n
            && forall i :: 0 <= i < n ==>
                 && InRange(|r.batches[i]|, p.b0, p.b1)
                 && forall j :: 0 <= j < |r.batches[i]| ==> RowShaped(r.batches[i][j], p)
  {
    var bs := GenBlocks(g, n, p).value;
    GenBlocksShaped(g, n, p);
    ShapedBlocksFit(bs, p);
    forall i | 0 <= i < |bs|
      ensures WellFormed(bs[i])
    {
      assert BlockShaped(bs[i], p);
      assert forall j :: 0 <= j < |bs[i].rows| ==> RowShaped(bs[i].rows[j], p);
    }
    ParseBlocksEncoded(bs, []);
    assert [] + Batches(bs) == Batches(bs);
  }

  // ------------------------------------------------------- main.go's split source

  /** Two record lists with the same key and value lengths, bytes aside. */
  predicate SameRowLengths(a: seq<Row>, b: seq<Row>)
  {
    && |a| == |b|
    && forall j :: 0 <= j < |a| ==> |a[j].key.b| == |b[j].key.b| && |a[j].value.b| == |b[j].value.b|
  }

  /** Two block lists with the same counts and the same key and value lengths, bytes aside. */
  predicate SameLengths(a: seq<Block>, b: seq<Block>)
  {
    && |a| == |b|
    && forall i :: 0 <= i < |a| ==> a[i].count == b[i].count && SameRowLengths(a[i].rows, b[i].rows)
  }

  /** Two split states that agree on the seeded source and its position. */
  ghost predicate SameSeeded(g: Rng, h: Rng)
  {
    g.Split? && h.Split? && g.rnd == h.rnd && g.rpos == h.rpos
  }

  lemma GenRowSameLengths(g: Rng, h: Rng, p: Params)
    requires LengthsOk(p) && SameSeeded(g, h)
    ensures SameSeeded(GenRow(g, p).next, GenRow(h, p).next)
    ensures SameRowLengths([GenRow(g, p).value], [GenRow(h, p).value])
  {
  }

  lemma {:induction false} GenRowsSameLengths(g: Rng, h: Rng, count: nat, p: Params)
    requires LengthsOk(p) && SameSeeded(g, h)
    ensures SameSeeded(GenRows(g, count, p).next, GenRows(h, count, p).next)
    ensures SameRowLengths(GenRows(g, count, p).value, GenRows(h, count, p).value)
  {
    if count > 0 {
      var pg, ph := GenRows(g, count - 1, p), GenRows(h, count - 1, p);
      GenRowsSameLengths(g, h, count - 1, p);
      var rg, rh := GenRow(pg.next, p), GenRow(ph.next, p);
      GenRowSameLengths(pg.next, ph.next, p);
      assert GenRows(g, count, p) == Generated(pg.value + [rg.value], rg.next);
      assert GenRows(h, count, p) == Generated(ph.value + [rh.value], rh.next);
      SameRowLengthsAppend(pg.value, ph.value, [rg.value], [rh.value]);
    }
  }

  lemma SameRowLengthsAppend(a: seq<Row>, b: seq<Row>, c: seq<Row>, d: seq<Row>)
    requires SameRowLengths(a, b) && SameRowLengths(c, d)
    ensures SameRowLengths(a + c, b + d)
  {
    forall j | 0 <= j < |a + c|
      ensures |(a + c)[j].key.b| == |(b + d)[j].key.b| && |(a + c)[j].value.b| == |(b + d)[j].value.b|
    {
      if j < |a| {
        assert (a + c)[j] == a[j] && (b + d)[j] == b[j];
      } else {
        assert (a + c)[j] == c[j - |a|] && (b + d)[j] == d[j - |a|];
      }
    }
  }

  /**
   * In main.go the bytes come from `math/rand`'s process-wide generator and
   * only the lengths from the seeded `rnd`: whatever the process-wide
   * generator holds, the counts and lengths written are the same.
   */
  lemma GenBlockSameLengths(g: Rng, h: Rng, p: Params)
    requires LengthsOk(p) && SameSeeded(g, h)
    ensures SameSeeded(GenBlock(g, p).next, GenBlock(h, p).next)
    ensures GenBlock(g, p).value.count == GenBlock(h, p).value.count
    ensures SameRowLengths(GenBlock(g, p).value.rows, GenBlock(h, p).value.rows)
  {
    var x := NextInt(g, p.b0, p.b1).value;
    assert x == NextInt(h, p.b0, p.b1).value;
    GenRowsSameLengths(AfterInt(g, p.b0, p.b1), AfterInt(h, p.b0, p.b1), if x < 0 then 0 else x, p);
  }

  lemma SameLengthsSnoc(a: seq<Block>, b: seq<Block>, x: Block, y: Block)
    requires SameLengths(a, b) && x.count == y.count && SameRowLengths(x.rows, y.rows)
    ensures SameLengths(a + [x], b + [y])
  {
    forall i | 0 <= i < |a + [x]|
      ensures (a + [x])[i].count == (b + [y])[i].count && SameRowLengths((a + [x])[i].rows, (b + [y])[i].rows)
    {
      if i < |a| {
        assert (a + [x])[i] == a[i] && (b + [y])[i] == b[i];
      }
    }
  }

  lemma {:induction false} GenBlocksSameLengths(g: Rng, h: Rng, n: nat, p: Params)
    requires LengthsOk(p) && SameSeeded(g, h)
    ensures SameSeeded(GenBlocks(g, n, p).next, GenBlocks(h, n, p).next)
    ensures SameLengths(GenBlocks(g, n, p).value, GenBlocks(h, n, p).value)
  {
    if n > 0 {
      var pg, ph := GenBlocks(g, n - 1, p), GenBlocks(h, n - 1, p);
      GenBlocksSameLengths(g, h, n - 1, p);
      GenBlockSameLengths(pg.next, ph.next, p);
      GenBlocksStep(g, n - 1, p);
      GenBlocksStep(h, n - 1, p);
      SameLengthsSnoc(pg.value, ph.value, GenBlock(pg.next, p).value, GenBlock(ph.next, p).value);
    }
  }

  /**
   * ... but the bytes are not determined by the seeded source: one block of
   * one record with a one-byte key, generated with the same seeded source and
   * two different process-wide generators, differs in that byte.
   */
  lemma GlobalSourceChangesBytes(rnd: Source)
    ensures var p := Params(1, 1, 1, 1, 0, 0);
            GenBlocks(Split(rnd, 0, _ => 0, 0), 1, p).value != GenBlocks(Split(rnd, 0, _ => 1, 0), 1, p).value
  {
    var p := Params(1, 1, 1, 1, 0, 0);
    var g0: Source, g1: Source := _ => 0, _ => 1;
    assert RandBytes(g0, 0, 1) == [0] && RandBytes(g1, 0, 1) == [1];
    var a := GenBlocks(Split(rnd, 0, g0, 0), 1, p).value;
    var b := GenBlocks(Split(rnd, 0, g1, 0), 1, p).value;
    assert GenRow(Split(rnd, 0, g0, 0), p).value.key.b == [0];
    assert GenRow(Split(rnd, 0, g1, 0), p).value.key.b == [1];
    assert AfterInt(Split(rnd, 0, g0, 0), 1, 1) == Split(rnd, 0, g0, 0);
    assert AfterInt(Split(rnd, 0, g1, 0), 1, 1) == Split(rnd, 0, g1, 0);
    assert GenRows(Split(rnd, 0, g0, 0), 1, p).value == [GenRow(Split(rnd, 0, g0, 0), p).value];
    assert GenRows(Split(rnd, 0, g1, 0), 1, p).value == [GenRow(Split(rnd, 0, g1, 0), p).value];
    assert GenBlock(Split(rnd, 0, g0, 0), p).value.rows == GenRows(Split(rnd, 0, g0, 0), 1, p).value;
    assert GenBlock(Split(rnd, 0, g1, 0), p).value.rows == GenRows(Split(rnd, 0, g1, 0), 1, p).value;
    assert GenBlocks(Split(rnd, 0, g0, 0), 0, p) == Generated([], Split(rnd, 0, g0, 0));
    assert GenBlocks(Split(rnd, 0, g1, 0), 0, p) == Generated([], Split(rnd, 0, g1, 0));
    assert a == [GenBlock(Split(rnd, 0, g0, 0), p).value];
    assert b == [GenBlock(Split(rnd, 0, g1, 0), p).value];
    assert a[0].rows[0].key.b == [0];
    assert b[0].rows[0].key.b == [1];
  }
}

/**
 * main.go: the command-line program's own copies of the generator, the
 * paced replayer and a simpler benchmark runner.  Its package state is the
 * seeded `rnd` used for lengths and delays and the process-wide generator
 * of `math/rand` used for bytes; `Process` holds both.  Flag parsing, files
 * and logging are left out.
 */
module MainProgram {
  import opened Wire
  import opened Draws
  import opened Rows
  import opened Stream
  import opened Gen
  import opened Pacing
  import opened Wrappers
  import Harness

  class Process {
    /** `rnd = rand.New(rand.NewSource(seed))`. */
    const rnd: Source
    /** The generator behind `rand.Intn`, seeded by nobody in this program. */
    const global: Source
    var rndPos: nat
    var globalPos: nat

    constructor (rnd: Source, global: Source)
      ensures this.rnd == rnd && this.global == global && rndPos == 0 && globalPos == 0
    {
      this.rnd := rnd;
      this.global := global;
      rndPos, globalPos := 0, 0;
    }

    /** The generator state both sources are in. */
    ghost function State(): Rng
      reads this
    {
      Split(rnd, rndPos, global, globalPos)
    }

    /** `randN(min, max)`: `min` without a draw when `max - min < 1`, else `min + rnd.Intn(max - min)`. */
    method RandN(min: int64, max: int64) returns (r: int64)
      modifies this
      ensures r == RandInt(rnd, old(rndPos), min, max).value
      ensures rndPos == RandInt(rnd, old(rndPos), min, max).next && globalPos == old(globalPos)
    {
      var diff := Wrap64(max - min);
      if diff < 1 {
        return min;
      }
      r := Wrap64(min + Intn(rnd, rndPos, diff));
      rndPos := rndPos + 1;
    }

    /** `randBytes(w, n)`: appends `n` bytes, each `byte(rand.Intn(255))` from the process-wide generator. */
    method RandBytes(w: seq<byte>, n: int) returns (w': seq<byte>)
      requires n >= 0
      modifies this
      ensures w' == w + Draws.RandBytes(global, old(globalPos), n)
      ensures globalPos == old(globalPos) + n && rndPos == old(rndPos)
    {
      var buf := new byte[n];
      for i := 0 to n
        invariant globalPos == old(globalPos) + i && rndPos == old(rndPos)
        invariant buf[..i] == Draws.RandBytes(global, old(globalPos), i)
      {
        buf[i] := DrawByte(global, globalPos);
        globalPos := globalPos + 1;
      }
      w' := w + buf[..];
    }

    /**
     * `generateData(w, n, b0, b1, k0, k1, v0, v1)`: appends the encoding of
     * the blocks the generator draws from the split state.
     */
    method GenerateData(w: seq<byte>, n: int64, p: Params) returns (w': seq<byte>)
      requires LengthsOk(p)
      modifies this
      ensures var g := GenBlocks(old(State()), if n < 0 then 0 else n, p);
              BlocksFit(g.value) && w' == w + EncodeBlocks(g.value) && g.next == State()
    {
      ghost var start := State();
      ghost var blocks: seq<Block> := [];
      w' := w;
      ghost var count: nat := if n < 0 then 0 else n;
      var i := 0;
      while i < n
        invariant 0 <= i <= count
        invariant GenBlocks(start, i, p) == Generated(blocks, State())
        invariant BlocksFit(blocks) && w' == w + EncodeBlocks(blocks)
      {
        ghost var block := GenBlock(State(), p);
        GenBlocksStep(start, i, p);
        w' := GenerateBlock(w', p);
        EncodeBlocksSnoc(blocks, block.value);
        AppendAssoc(w, EncodeBlocks(blocks), EncodeBlock(block.value));
        blocks := blocks + [block.value];
        i := i + 1;
      }
      assert i == count;
    }

    /** One pass of `generateData`'s outer loop. */
    method GenerateBlock(w: seq<byte>, p: Params) returns (w': seq<byte>)
      requires LengthsOk(p)
      modifies this
      ensures var b := GenBlock(old(State()), p);
              RowsFit(b.value.rows) && w' == w + EncodeBlock(b.value) && b.next == State()
    {
      ghost var g0 := State();
      var x := RandN(p.b0, p.b1);
      w' := w + EncodeInt64(x);
      ghost var rowsStart := w';
      ghost var afterCount := State();
      ghost var rows: seq<Row> := [];
      ghost var count: nat := if x < 0 then 0 else x;
      var j := 0;
      while j < x
        invariant 0 <= j <= count
        invariant GenRows(afterCount, j, p) == Generated(rows, State())
        invariant RowsFit(rows) && w' == rowsStart + EncodeRows(rows)
      {
        ghost var row := GenRow(State(), p);
        GenRowsStep(afterCount, j, p);
        w' := GenerateRecord(w', p);
        EncodeRowsSnoc(rows, row.value);
        AppendAssoc(rowsStart, EncodeRows(rows), EncodeRow(row.value));
        rows := rows + [row.value];
        j := j + 1;
      }
      assert j == count;
      ghost var block := GenBlock(g0, p);
      assert block.value == Block(x, rows);
      AppendAssoc(w, EncodeInt64(x), EncodeRows(rows));
    }

    /** One record of `generateData`'s inner loop. */
    method GenerateRecord(w: seq<byte>, p: Params) returns (w': seq<byte>)
      requires LengthsOk(p)
      modifies this
      ensures var row := GenRow(old(State()), p);
              w' == w + EncodeRow(row.value) && row.next == State()
    {
      ghost var row := GenRow(State(), p);
      ghost var kd := RandInt(rnd, rndPos, p.k0, p.k1);
      ghost var vd := RandInt(rnd, kd.next, p.v0, p.v1);
      GenRowSplit(rnd, rndPos, global, globalPos, p);
      ghost var kb := Draws.RandBytes(global, globalPos, kd.value);
      ghost var vb := Draws.RandBytes(global, globalPos + kd.value, vd.value);
      assert row.value == Row(RowKey(kb), RowValue(vb));
      var k := RandN(p.k0, p.k1);
      assert k == kd.value && rndPos == kd.next;
      var w1 := w + EncodeInt64(k);
      var w2 := RandBytes(w1, k);
      assert w2 == w1 + kb && rndPos == kd.next;
      var v := RandN(p.v0, p.v1);
      assert v == vd.value && rndPos == vd.next;
      var w3 := w2 + EncodeInt64(v);
      w' := RandBytes(w3, v);
      assert w' == w3 + vb;
      Append4(w, EncodeInt64(k), row.value.key.b, EncodeInt64(v), row.value.value.b);
    }

    /**
     * `sendData(r, ch, d0, d1)`: the same replay as `Random.Send`, with the
     * delay targets drawn by `randN` from `rnd`.
     */
    method SendData(input: seq<byte>, d0: int64, d1: int64, elapsed: Elapsed)
      returns (sent: seq<Batch>, gaps: seq<int>, err: SendError)
      modifies this
      ensures sent == ParseBlocks(input, []).batches && err == ParseBlocks(input, []).err
      ensures |gaps| == if sent == [] then 0 else |sent| - 1
      ensures rndPos == old(rndPos) + (if DrawCost(d0, d1) == 0 then 0 else |gaps|)
      ensures globalPos == old(globalPos)
      ensures forall j :: 0 <= j < |gaps| ==> gaps[j] == Gap(elapsed(j + 1), Target(rnd, old(rndPos), d0, d1, j))
      ensures Fits(d0, d1) ==> forall j :: 0 <= j < |gaps| ==> gaps[j] >= d0
    {
      sent, gaps := [], [];
      var rest := input;
      ghost var pos0 := rndPos;
      while true
        invariant ParseBlocks(input, []) == ParseBlocks(rest, sent)
        invariant |gaps| == if sent == [] then 0 else |sent| - 1
        invariant pos0 == old(rndPos) && globalPos == old(globalPos)
        invariant rndPos == pos0 + (if DrawCost(d0, d1) == 0 then 0 else |gaps|)
        invariant Paced(gaps, elapsed, rnd, pos0, d0, d1)
        decreases |rest|
      {
        var rx := ReadInt64(rest);
        if rx.Err? {
          err := Read(rx.error);
          return;
        }
        var x := rx.value.value;
        if !CapOk(x) {
          err := SizeOutOfRange;
          return;
        }
        var rr := ReadRows(rx.value.rest, x);
        if rr.Err? {
          err := rr.error;
          return;
        }
        var rows := rr.value.value;
        rest := rr.value.rest;
        if sent != [] {
          TargetAt(rnd, pos0, d0, d1, |gaps|, rndPos);
          var target := RandN(d0, d1);
          GapsSnoc(gaps, Gap(elapsed(|sent|), target), elapsed, rnd, pos0, d0, d1);
          gaps := gaps + [Gap(elapsed(|sent|), target)];
        }
        sent := sent + [rows];
      }
    }
  }

  /**
   * With the same seed, two runs of `generateData` write the same counts
   * and lengths whatever the process-wide generator holds; the bytes,
   * though, may differ (`Gen.GlobalSourceChangesBytes`).
   */
  method SameSeedSameLengths(rnd: Source, global1: Source, global2: Source, n: int64, p: Params)
    returns (f1: seq<byte>, f2: seq<byte>)
    requires LengthsOk(p)
    ensures var bs1 := GenBlocks(Split(rnd, 0, global1, 0), if n < 0 then 0 else n, p).value;
            var bs2 := GenBlocks(Split(rnd, 0, global2, 0), if n < 0 then 0 else n, p).value;
            && BlocksFit(bs1) && BlocksFit(bs2)
            && f1 == EncodeBlocks(bs1) && f2 == EncodeBlocks(bs2) && SameLengths(bs1, bs2)
  {
    var a := new Process(rnd, global1);
    var b := new Process(rnd, global2);
    f1 := a.GenerateData([], n, p);
    f2 := b.GenerateData([], n, p);
    GenBlocksSameLengths(Split(rnd, 0, global1, 0), Split(rnd, 0, global2, 0), if n < 0 then 0 else n, p);
  }

  // ------------------------------------------------------------ collections

  /** main.go's `NewBenchmark(id, path)` switch: a store, or an error naming the id. */
  function NewCollection(id: string): (r: Result<Harness.Backend, string>)
    ensures r.Ok? <==> id == "bolt" || id == "kv" || id == "leveldb" || id == "noop"
    ensures r.Err? ==> r.error == "unknown benchmark id: " + id
  {
    match id
    case "bolt" => Ok(Harness.Bolt)
    case "kv" => Ok(Harness.KV)
    case "leveldb" => Ok(Harness.LevelDB)
    case "noop" => Ok(Harness.Noop)
    case _ => Err("unknown benchmark id: " + id)
  }

  /** The two switches agree on every id but "kv-mu", which only benchmark.go knows (as `kv` behind a lock). */
  lemma NewCollectionAgrees(id: string)
    ensures id != "kv-mu" ==>
              (NewCollection(id).Ok? <==> Harness.SelectBackend(id).Ok?)
              && (NewCollection(id).Ok? ==> NewCollection(id).value == Harness.SelectBackend(id).value.backend)
              && (NewCollection(id).Err? ==> NewCollection(id).error == Harness.SelectBackend(id).error)
    ensures NewCollection("kv-mu").Err? && Harness.SelectBackend("kv-mu") == Ok(Harness.Setup(Harness.KV, true))
  {
  }

  /**
   * The checks `main` makes before a replay: `-b` and `-f` must be given,
   * and the store must open (`openErr` is what its constructor returned;
   * the no-op store never fails).  `None`: the replay goes ahead.
   */
  function InputError(benchmarkId: string, databasePath: string, openErr: Option<string>): (e: Option<string>)
    ensures e == None <==>
              benchmarkId != "" && databasePath != "" && NewCollection(benchmarkId).Ok?
              && (benchmarkId == "noop" || openErr == None)
    ensures benchmarkId == "" ==> e == Some("missing required -b <benchmarkId> argument")
    ensures benchmarkId != "" && databasePath == "" ==> e == Some("missing required -f <database> argument")
  {
    if benchmarkId == "" then Some("missing required -b <benchmarkId> argument")
    else if databasePath == "" then Some("missing required -f <database> argument")
    else match NewCollection(benchmarkId)
      case Err(e) => Some(e)
      case Ok(b) => if b == Harness.Noop then None else openErr
  }

  // ------------------------------------------------------------ runBenchmark

  /** The sum of the gaps from the second arrival on. */
  function LaterGaps(gaps: seq<Nanos>): nat
  {
    if |gaps| <= 1 then 0 else LaterGaps(gaps[..|gaps| - 1]) + gaps[|gaps| - 1]
  }

  /** The index of the first failing `Set`, or `|fails|` when none fails. */
  function FirstFailure(fails: seq<bool>): (k: nat)
    ensures k <= |fails|
    ensures forall i :: 0 <= i < k ==> !fails[i]
    ensures k < |fails| ==> fails[k]
  {
    if fails == [] then 0 else if fails[0] then 0 else 1 + FirstFailure(fails[1..])
  }

  /**
   * `runBenchmark`'s writer: for each batch, counts it, adds the gap since
   * the previous arrival from the second batch on, and stores it; on a
   * `Set` error it returns at once.  Only when the batches run out does it
   * signal `done`, and then it reports the mean inter-arrival time if any
   * batch arrived.
   */
  method RunWriter(batches: seq<Batch>, gaps: seq<Nanos>, fails: seq<bool>)
    returns (n: nat, ns: nat, signalled: bool, average: Option<nat>)
    requires |gaps| == |batches| && |fails| == |batches|
    ensures signalled <==> forall i :: 0 <= i < |fails| ==> !fails[i]
    ensures n == if signalled then |batches| else FirstFailure(fails) + 1
    ensures ns == LaterGaps(gaps[..n])
    ensures average == if signalled && n > 0 then Some(ns / n) else None
  {
    n, ns := 0, 0;
    average := None;
    while n < |batches|
      invariant n <= |batches| && n <= FirstFailure(fails)
      invariant ns == LaterGaps(gaps[..n])
    {
      assert gaps[..n + 1][..n] == gaps[..n];
      ns := if n + 1 > 1 then ns + gaps[n] else ns;
      n := n + 1;
      if fails[n - 1] {
        signalled := false;
        return;
      }
    }
    signalled := true;
    if n > 0 {
      average := Some(ns / n);
    }
  }

  /** One pass of `runBenchmark`'s poller: whether `done` is ready, then what `Timing` returned. */
  datatype Tick = Tick(doneReady: bool, count: nat, took: Nanos)

  /** A timing line as logged: the rows counted and the time in whole milliseconds. */
  datatype Timing = Timing(count: nat, millis: nat)

  function Millis(t: Nanos): (ms: nat)
    ensures ms * 1_000_000 <= t < ms * 1_000_000 + 1_000_000
  {
    t / 1_000_000
  }

  /**
   * `runBenchmark`'s poller: times the collection on every pass, and on the
   * pass where `done` is ready times it once more and returns.  Without a
   * `done` it never returns; here it runs out of ticks instead.
   */
  method RunPoller(ticks: seq<Tick>) returns (timings: seq<Timing>, finished: bool)
    ensures finished <==> exists i :: 0 <= i < |ticks| && ticks[i].doneReady
    ensures |timings| == if finished then FirstDone(ticks) + 1 else |ticks|
    ensures forall i :: 0 <= i < |timings| ==> timings[i] == Timing(ticks[i].count, Millis(ticks[i].took))
  {
    timings := [];
    var i := 0;
    while i < |ticks|
      invariant i <= |ticks| && |timings| == i
      invariant forall j :: 0 <= j < i ==> !ticks[j].doneReady
      invariant forall j :: 0 <= j < i ==> timings[j] == Timing(ticks[j].count, Millis(ticks[j].took))
    {
      timings := timings + [Timing(ticks[i].count, Millis(ticks[i].took))];
      if ticks[i].doneReady {
        FirstDoneIs(ticks, i);
        finished := true;
        return;
      }
      i := i + 1;
    }
    finished := false;
  }

  /** The index of the first tick on which `done` is ready, or `|ticks|`. */
  function FirstDone(ticks: seq<Tick>): (k: nat)
    ensures k <= |ticks|
    ensures forall i :: 0 <= i < k ==> !ticks[i].doneReady
    ensures k < |ticks| ==> ticks[k].doneReady
  {
    if ticks == [] then 0 else if ticks[0].doneReady then 0 else 1 + FirstDone(ticks[1..])
  }

  lemma FirstDoneIs(ticks: seq<Tick>, i: nat)
    requires i < |ticks| && ticks[i].doneReady
    requires forall j :: 0 <= j < i ==> !ticks[j].doneReady
    ensures FirstDone(ticks) == i
  {
  }

  /**
   * `runBenchmark` as a whole: the poller polls `polls` times before the
   * writer's `done` could be ready, then checks once more.  It returns, and
   * with it `main`'s wait, exactly when no `Set` failed.
   */
  method RunBenchmark(batches: seq<Batch>, gaps: seq<Nanos>, fails: seq<bool>, polls: seq<Tick>, last: Tick)
    returns (signalled: bool, finished: bool)
    requires |gaps| == |batches| && |fails| == |batches|
    requires forall i :: 0 <= i < |polls| ==> !polls[i].doneReady
    ensures signalled <==> forall i :: 0 <= i < |fails| ==> !fails[i]
    ensures finished <==> forall i :: 0 <= i < |fails| ==> !fails[i]
  {
    var n, ns, average;
    n, ns, signalled, average := RunWriter(batches, gaps, fails);
    var ticks := polls + [last.(doneReady := signalled)];
    var timings;
    timings, finished := RunPoller(ticks);
    if finished {
      var i :| 0 <= i < |ticks| && ticks[i].doneReady;
      assert i == |polls|;
    } else {
      assert !ticks[|polls|].doneReady;
    }
  }

  /** A single batch whose `Set` fails: `done` is never signalled, so the poller never returns. */
  method SetErrorHangs(b: Batch, polls: seq<Tick>, last: Tick) returns (signalled: bool, finished: bool)
    requires forall i :: 0 <= i < |polls| ==> !polls[i].doneReady
    ensures !signalled && !finished
  {
    signalled, finished := RunBenchmark([b], [0], [true], polls, last);
    assert [true][0];
  }
}

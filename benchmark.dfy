/**
 * benchmark.go: a benchmark wraps a collection, a watchdog and the two
 * tasks that drive it.  The writer stores each arriving batch and keeps
 * totals; the poller times iterations over the collection.  Goroutines,
 * channels and the lock are left out: each task is a loop over the events
 * it sees, and whatever the other task or a clock decides arrives with
 * the event.
 */
module Harness {
  import opened Wire
  import opened Stream
  import opened Wrappers
  import opened Watchdog

  /** The stores a benchmark can drive. */
  datatype Backend = Bolt | KV | LevelDB | Noop

  /** What `NewBenchmark` sets up: the store, and whether writes and polls take a lock. */
  datatype Setup = Setup(backend: Backend, locked: bool)

  /** The ids `NewBenchmark` knows. */
  predicate KnownId(id: string)
  {
    id == "bolt" || id == "kv" || id == "kv-mu" || id == "leveldb" || id == "noop"
  }

  /** The switch of `NewBenchmark`: the store for the id, or an error naming it. */
  function SelectBackend(id: string): (r: Result<Setup, string>)
    ensures r.Ok? <==> KnownId(id)
    ensures r.Ok? ==> (r.value.locked <==> id == "kv-mu")
    ensures r.Ok? ==> (r.value.backend == KV <==> id == "kv" || id == "kv-mu")
    ensures r.Err? ==> r.error == "unknown benchmark id: " + id
  {
    match id
    case "bolt" => Ok(Setup(Bolt, false))
    case "kv" => Ok(Setup(KV, false))
    case "kv-mu" => Ok(Setup(KV, true))
    case "leveldb" => Ok(Setup(LevelDB, false))
    case "noop" => Ok(Setup(Noop, false))
    case _ => Err("unknown benchmark id: " + id)
  }

  // ------------------------------------------------------------------ writer

  /**
   * What the writer learns about one batch besides its rows: `gap`, the
   * time since the previous arrival; `write`, how long `Set` took;
   * `otherAborted`, the poller aborted the watchdog before the writer looked
   * at it; `timerFirst`, the write timeout fired before `Set` returned;
   * `setFails`, `Set` returned an error.
   */
  datatype Arrival = Arrival(gap: Nanos, write: Nanos, otherAborted: bool, timerFirst: bool, setFails: bool)

  /** `Set` returned in time and without error. */
  predicate Completed(a: Arrival)
  {
    !a.timerFirst && !a.setFails
  }

  /** Why the writer returned. */
  datatype WriterStop = Drained | AbortedAtEntry | WriteTimeout | SetFailed

  /** The writer's counters: `sets_ttl`, `rows_ttl`, `logged`, `arrival_t`, `write_t`. */
  datatype WriterTotals = WriterTotals(sets: nat, rows: nat, logged: nat, arrival: nat, write: nat)

  /** The final write statistics: mean inter-arrival time, and nanoseconds per row written when any row was. */
  datatype WriteReport = WriteReport(sets: nat, avgArrival: nat, rows: nat, write: nat, nsPerOp: Option<nat>)

  /** A panic the Go runtime raises. */
  datatype Panic = DivideByZero

  /** The second statistics line of benchmark.go: rows written, the time they took, nanoseconds per row. */
  datatype OpsLine = OpsLine(rows: nat, write: nat, nsPerOp: nat)

  /**
   * What benchmark.go's final write statistics produce: the arrival-rate
   * line (`sets_ttl` and the mean inter-arrival time), logged first, then
   * the per-row line or the panic raised while computing it.
   */
  datatype WriteLog = WriteLog(sets: nat, avgArrival: nat, ops: Result<OpsLine, Panic>)

  /** The rows in a list of batches (`rows_ttl` after they were all counted). */
  function RowTotal(batches: seq<Batch>): nat
  {
    if batches == [] then 0 else RowTotal(batches[..|batches| - 1]) + |batches[|batches| - 1]|
  }

  /** The inter-arrival gaps of `arr` counted from the second arrival on. */
  function ArrivalTotal(arr: seq<Arrival>): nat
  {
    if |arr| <= 1 then 0 else ArrivalTotal(arr[..|arr| - 1]) + arr[|arr| - 1].gap
  }

  /** The sum of every gap in `arr`. */
  function GapSum(arr: seq<Arrival>): nat
  {
    if arr == [] then 0 else arr[0].gap + GapSum(arr[1..])
  }

  /** The time every `Set` that returned took. */
  function WriteTotal(arr: seq<Arrival>): nat
  {
    if arr == [] then 0 else WriteTotal(arr[..|arr| - 1]) + (if arr[|arr| - 1].timerFirst then 0 else arr[|arr| - 1].write)
  }

  /** Every `rows_ttl` the writer held after a batch, starting with the 0 it begins with. */
  function RowTotals(batches: seq<Batch>): (t: seq<nat>)
    ensures |t| == |batches| + 1
  {
    if batches == [] then [0] else RowTotals(batches[..|batches| - 1]) + [RowTotal(batches)]
  }

  /** `logged`: the row total the last progress line reported, 0 before the first. */
  function LastLogged(lines: seq<nat>): nat
  {
    if lines == [] then 0 else lines[|lines| - 1]
  }

  /**
   * The "%d rows written" progress lines the writer logs while storing
   * `batches`: after each stored batch, one line with `rows_ttl` whenever
   * more than `logevery` rows were written since the last line.
   */
  function ProgressLines(batches: seq<Batch>, logevery: int): seq<nat>
  {
    if batches == [] then []
    else
      var lines := ProgressLines(batches[..|batches| - 1], logevery);
      if logevery > 0 && RowTotal(batches) - LastLogged(lines) > logevery then lines + [RowTotal(batches)] else lines
  }

  /** Storing batch `i` after the first `i`: a line is logged exactly when the threshold is crossed. */
  lemma ProgressStep(batches: seq<Batch>, i: nat, logevery: int)
    requires i < |batches|
    ensures var lines := ProgressLines(batches[..i], logevery);
            var rows := RowTotal(batches[..i + 1]);
            ProgressLines(batches[..i + 1], logevery)
            == if logevery > 0 && rows - LastLogged(lines) > logevery then lines + [rows] else lines
  {
    assert batches[..i + 1][..i] == batches[..i];
  }

  /**
   * The progress lines are spaced as `logevery` promises: none when it is
   * not positive; otherwise every line reports more than `logevery` rows
   * beyond the one before (or beyond 0), each reports a `rows_ttl` the
   * writer really held, and after the last at most `logevery` rows are
   * unreported.
   */
  lemma {:induction false} ProgressLinesSpaced(batches: seq<Batch>, logevery: int)
    ensures var lines := ProgressLines(batches, logevery);
            && (logevery <= 0 ==> lines == [])
            && (logevery > 0 ==> RowTotal(batches) - LastLogged(lines) <= logevery)
            && LastLogged(lines) <= RowTotal(batches)
            && (lines != [] ==> lines[0] > logevery)
            && (forall i :: 0 < i < |lines| ==> lines[i] - lines[i - 1] > logevery)
            && (forall i :: 0 <= i < |lines| ==> lines[i] in RowTotals(batches))
  {
    if batches != [] {
      var init := batches[..|batches| - 1];
      ProgressLinesSpaced(init, logevery);
      assert RowTotals(batches) == RowTotals(init) + [RowTotal(batches)];
    }
  }

  /** The first arrival adds nothing to `arrival_t`: it is the sum of the gaps of all later arrivals. */
  lemma {:induction false} ArrivalTotalSkipsFirst(arr: seq<Arrival>)
    requires |arr| >= 1
    ensures ArrivalTotal(arr) == GapSum(arr[1..])
  {
    if |arr| > 1 {
      var init := arr[..|arr| - 1];
      ArrivalTotalSkipsFirst(init);
      GapSumSnoc(init[1..], arr[|arr| - 1]);
      assert init[1..] + [arr[|arr| - 1]] == arr[1..];
    }
  }

  lemma {:induction false} GapSumSnoc(arr: seq<Arrival>, a: Arrival)
    ensures GapSum(arr + [a]) == GapSum(arr) + a.gap
  {
    if arr != [] {
      GapSumSnoc(arr[1..], a);
      assert (arr + [a])[1..] == arr[1..] + [a];
    }
  }

  /**
   * The write statistics as benchmark.go computes them: `arrival_t /
   * sets_ttl` for the first line and `write_t / rows_ttl` for the second.
   * Only `sets_ttl > 0` is checked, so when every batch was empty the first
   * line is still logged, and then the second division is by zero and Go
   * panics.
   */
  function WriteReportAsWritten(t: WriterTotals): (r: WriteLog)
    requires t.sets > 0
    ensures r.sets == t.sets && r.avgArrival * t.sets <= t.arrival < r.avgArrival * t.sets + t.sets
    ensures r.ops.Err? <==> t.rows == 0
    ensures r.ops.Ok? ==> r.ops.value.rows == t.rows && r.ops.value.write == t.write
    ensures r.ops.Ok? ==> r.ops.value.nsPerOp * t.rows <= t.write < r.ops.value.nsPerOp * t.rows + t.rows
  {
    WriteLog(t.sets, Quotient(t.arrival, t.sets),
             if t.rows == 0 then Err(DivideByZero) else Ok(OpsLine(t.rows, t.write, Quotient(t.write, t.rows))))
  }

  /** The figures benchmark.go logs are the corrected ones, line for line, up to the panic. */
  predicate SameFigures(l: WriteLog, r: WriteReport)
  {
    && l.sets == r.sets && l.avgArrival == r.avgArrival
    && (l.ops.Ok? <==> r.nsPerOp.Some?)
    && (l.ops.Ok? ==> l.ops.value == OpsLine(r.rows, r.write, r.nsPerOp.value))
  }

  /** The write statistics with the per-row figure left out when no row was written. */
  function WriteStats(t: WriterTotals): (r: WriteReport)
    requires t.sets > 0
    ensures r.sets == t.sets && r.rows == t.rows && r.write == t.write
    ensures r.avgArrival * t.sets <= t.arrival < r.avgArrival * t.sets + t.sets
    ensures r.nsPerOp.Some? <==> t.rows > 0
    ensures r.nsPerOp.Some? ==> r.nsPerOp.value * t.rows <= t.write < r.nsPerOp.value * t.rows + t.rows
  {
    var avg := Quotient(t.arrival, t.sets);
    WriteReport(t.sets, avg, t.rows, t.write, if t.rows > 0 then Some(Quotient(t.write, t.rows)) else None)
  }

  /** Go's `/` on non-negative operands: the floor of the quotient. */
  function Quotient(a: nat, b: nat): (q: nat)
    requires b > 0
    ensures q * b <= a < q * b + b
  {
    a / b
  }

  /**
   * Whatever the totals, the corrected statistics agree with benchmark.go's:
   * the arrival line always, and the per-row line wherever benchmark.go
   * does not panic, which is exactly where the corrected report has one.
   */
  lemma WriteStatsAgrees(t: WriterTotals)
    requires t.sets > 0
    ensures SameFigures(WriteReportAsWritten(t), WriteStats(t))
  {
  }

  /** The writer's counters after it has counted the first `k` batches. */
  predicate Counted(t: WriterTotals, batches: seq<Batch>, arrivals: seq<Arrival>, k: nat)
    requires k <= |batches| && k <= |arrivals|
  {
    && t.sets == k
    && t.rows == RowTotal(batches[..k]) && t.logged <= t.rows && t.logged in RowTotals(batches[..k])
    && t.arrival == ArrivalTotal(arrivals[..k]) && t.write == WriteTotal(arrivals[..k])
  }

  // ------------------------------------------------------------------ poller

  /**
   * What the poller sees on one pass: `otherAborted`, the writer aborted
   * the watchdog before the poller looked at it; `doneReady`, the writer
   * has signalled `done`; `count` and `took`, what `Timing` returned;
   * `timerFirst`, the read timeout fired before `Timing` returned.
   */
  datatype PollEvent = PollEvent(otherAborted: bool, doneReady: bool, count: nat, took: Nanos, timerFirst: bool)

  /** Why the poller returned; `Waiting`: the events ran out and it would poll again. */
  datatype PollerStop = PollAborted | Finished | ReadTimeout | Waiting

  /** The final read statistics: nanoseconds per row read, when any row was. */
  datatype ReadReport = ReadReport(rows: nat, read: nat, nsPerOp: Option<nat>)

  /** The read statistics as benchmark.go computes them: `read_t / n`, unguarded. */
  function ReadReportAsWritten(n: nat, read: nat): (r: Result<ReadReport, Panic>)
    ensures r.Err? <==> n == 0
  {
    if n == 0 then Err(DivideByZero) else Ok(ReadReport(n, read, Some(read / n)))
  }

  /** The read statistics with the per-row figure left out when nothing was read. */
  function ReadStats(n: nat, read: nat): (r: ReadReport)
    ensures r.rows == n && r.read == read
    ensures r.nsPerOp.Some? <==> n > 0
    ensures r.nsPerOp.Some? ==> r.nsPerOp.value * n <= read < r.nsPerOp.value * n + n
  {
    ReadReport(n, read, if n > 0 then Some(Quotient(read, n)) else None)
  }

  lemma ReadStatsAgrees(n: nat, read: nat)
    ensures ReadReportAsWritten(n, read).Ok? ==> ReadReportAsWritten(n, read).value == ReadStats(n, read)
  {
  }

  /** The rows counted and the time spent by the polls in `ps` that returned in time. */
  function PolledRows(ps: seq<PollEvent>): nat
  {
    if ps == [] then 0 else PolledRows(ps[..|ps| - 1]) + ps[|ps| - 1].count
  }

  function PolledTime(ps: seq<PollEvent>): nat
  {
    if ps == [] then 0 else PolledTime(ps[..|ps| - 1]) + ps[|ps| - 1].took
  }

  // --------------------------------------------------------------- benchmark

  class Benchmark {
    const id: string
    /** The store, or `None` for an unknown id (Go leaves the collection nil). */
    const setup: Option<Setup>
    const guard: WatchDog

    /** A benchmark for `id` with a fresh watchdog; the store is `None` for an unknown id. */
    constructor (id: string)
      ensures this.id == id && fresh(guard) && !guard.aborted
      ensures setup == (if SelectBackend(id).Ok? then Some(SelectBackend(id).value) else None)
    {
      this.id := id;
      guard := new WatchDog();
      setup := if SelectBackend(id).Ok? then Some(SelectBackend(id).value) else None;
    }

    /** The error `NewBenchmark` returns along with the benchmark. */
    static function OpenError(id: string, openErr: Option<string>): (err: Option<string>)
      ensures err == None <==> KnownId(id) && (id == "noop" || openErr == None)
      ensures KnownId(id) && id != "noop" ==> err == openErr
      ensures !KnownId(id) ==> err == Some("unknown benchmark id: " + id)
    {
      match SelectBackend(id)
      case Err(e) => Some(e)
      case Ok(s) => if s.backend == Noop then None else openErr
    }

    /**
     * `NewBenchmark(id, path)`: the benchmark, and the error the id or the
     * store's constructor gave; `openErr` is what the store's constructor
     * returned.  Go returns the benchmark even alongside an error.
     */
    static method NewBenchmark(id: string, openErr: Option<string>) returns (b: Benchmark, err: Option<string>)
      ensures fresh(b) && fresh(b.guard) && b.id == id && !b.guard.aborted
      ensures b.setup.Some? <==> KnownId(id)
      ensures b.setup.Some? ==> b.setup.value == SelectBackend(id).value
      ensures err == OpenError(id, openErr)
    {
      b := new Benchmark(id);
      err := OpenError(id, openErr);
    }

    /** `Wait()`: whether the benchmark was aborted (the wait for the tasks is left out). */
    method Wait() returns (aborted: bool)
      ensures aborted == guard.aborted
    {
      aborted := guard.IsAborted();
    }

    /**
     * `writer`: takes batch after batch.  Before each it returns if the
     * watchdog is aborted; otherwise it counts the batch and its rows, adds
     * the gap since the previous arrival from the second batch on, and
     * stores the batch, returning if the write timeout fires first (which
     * aborts the watchdog) or `Set` fails.  After each batch stored it logs
     * a progress line (`progress`) whenever more than `logevery` rows were
     * written since the last one.  Once the batches run out it reports
     * statistics if any batch arrived, as benchmark.go computes them: a
     * panic when no row was written.  On every return, the panic included,
     * it signals `done`.
     */
    method Writer(batches: seq<Batch>, arrivals: seq<Arrival>, logevery: int)
      returns (t: WriterTotals, stop: WriterStop, progress: seq<nat>, report: Option<WriteLog>, signalled: bool)
      requires |arrivals| == |batches|
      modifies guard
      ensures t.sets <= |batches|
      // which batches were taken, and why the writer stopped
      ensures t.sets > 0 ==> !old(guard.aborted)
      ensures forall i :: 0 <= i < t.sets ==> !arrivals[i].otherAborted
      ensures forall i :: 0 <= i < t.sets - 1 ==> Completed(arrivals[i])
      ensures stop == Drained ==> t.sets == |batches| && (t.sets > 0 ==> Completed(arrivals[t.sets - 1]))
      ensures stop == AbortedAtEntry ==>
                && t.sets < |batches| && (old(guard.aborted) || arrivals[t.sets].otherAborted)
                && (t.sets > 0 ==> Completed(arrivals[t.sets - 1]))
      ensures stop == WriteTimeout ==> t.sets > 0 && arrivals[t.sets - 1].timerFirst
      ensures stop == SetFailed ==> t.sets > 0 && !arrivals[t.sets - 1].timerFirst && arrivals[t.sets - 1].setFails
      ensures guard.aborted == (old(guard.aborted) || stop == AbortedAtEntry || stop == WriteTimeout)
      // the counters
      ensures t.rows == RowTotal(batches[..t.sets])
      ensures t.arrival == ArrivalTotal(arrivals[..t.sets])
      ensures t.write == WriteTotal(arrivals[..t.sets])
      ensures t.logged <= t.rows && t.logged in RowTotals(batches[..t.sets])
      ensures logevery > 0 && (stop == Drained || stop == AbortedAtEntry) ==> t.rows - t.logged <= logevery
      // the progress lines: those of every batch stored, the one that timed out or failed excluded
      ensures progress == ProgressLines(batches[..if stop == WriteTimeout || stop == SetFailed then t.sets - 1 else t.sets], logevery)
      ensures t.logged == LastLogged(progress)
      // the report, as benchmark.go computes it, and the signal, which is deferred and so sent even then
      ensures report == if stop == Drained && t.sets > 0 then Some(WriteReportAsWritten(t)) else None
      ensures report.Some? ==> SameFigures(report.value, WriteStats(t))
      ensures signalled
    {
      t := WriterTotals(0, 0, 0, 0, 0);
      stop := Drained;
      progress := [];
      report := None;
      var i := 0;
      while i < |batches|
        invariant 0 <= i <= |batches| && t.sets == i && stop == Drained
        invariant i > 0 ==> !old(guard.aborted)
        invariant forall j :: 0 <= j < i ==> !arrivals[j].otherAborted && Completed(arrivals[j])
        invariant guard.aborted == old(guard.aborted)
        invariant Counted(t, batches, arrivals, i)
        invariant logevery > 0 ==> t.rows - t.logged <= logevery
        invariant progress == ProgressLines(batches[..i], logevery) && t.logged == LastLogged(progress)
      {
        t, stop, progress := Pass(t, batches, arrivals, i, logevery, progress);
        if stop != Drained {
          break;
        }
        i := i + 1;
      }
      if stop == Drained && t.sets > 0 {
        WriteStatsAgrees(t);
        report := Some(WriteReportAsWritten(t));
      }
      signalled := true;
    }

    /**
     * One pass of `writer`'s loop over batch `i`; `Drained` here means the
     * batch was stored and the loop goes on.
     */
    method Pass(t: WriterTotals, batches: seq<Batch>, arrivals: seq<Arrival>, i: nat, logevery: int, progress: seq<nat>)
      returns (t': WriterTotals, stop: WriterStop, progress': seq<nat>)
      requires |arrivals| == |batches| && i < |batches| && Counted(t, batches, arrivals, i)
      requires logevery > 0 ==> t.rows - t.logged <= logevery
      requires progress == ProgressLines(batches[..i], logevery) && t.logged == LastLogged(progress)
      modifies guard
      ensures stop == AbortedAtEntry <==> old(guard.aborted) || arrivals[i].otherAborted
      ensures t'.sets == if stop == AbortedAtEntry then i else i + 1
      ensures stop == AbortedAtEntry ==> t' == t
      ensures stop != AbortedAtEntry ==> Counted(t', batches, arrivals, i + 1)
      ensures stop == WriteTimeout <==> stop != AbortedAtEntry && arrivals[i].timerFirst
      ensures stop == SetFailed <==> stop != AbortedAtEntry && !arrivals[i].timerFirst && arrivals[i].setFails
      ensures guard.aborted == (old(guard.aborted) || stop == AbortedAtEntry || stop == WriteTimeout)
      ensures stop == Drained ==> logevery > 0 ==> t'.rows - t'.logged <= logevery
      ensures stop == Drained ==> progress' == ProgressLines(batches[..i + 1], logevery)
      ensures stop != Drained ==> progress' == progress
      ensures t'.logged == LastLogged(progress')
    {
      progress' := progress;
      var a := arrivals[i];
      if a.otherAborted {
        guard.Abort("read timeout reached");
      }
      var aborted := guard.IsAborted();
      if aborted {
        return t, AbortedAtEntry, progress';
      }
      t' := CountBatch(t, batches, arrivals, i);
      if a.timerFirst {
        guard.Abort("write timeout reached");
        return t', WriteTimeout, progress';
      }
      if a.setFails {
        return t', SetFailed, progress';
      }
      ProgressStep(batches, i, logevery);
      if logevery > 0 && t'.rows - t'.logged > logevery {
        t' := t'.(logged := t'.rows);
        progress' := progress' + [t'.rows];
        assert Counted(t', batches, arrivals, i + 1);
      }
      stop := Drained;
    }

    /**
     * The counting half of one pass of the writer: batch `i` arrives, and
     * is counted, its gap added (from the second batch on) and, unless the
     * timer fired first, its write time added.
     */
    static method CountBatch(t: WriterTotals, batches: seq<Batch>, arrivals: seq<Arrival>, i: nat)
      returns (t': WriterTotals)
      requires |arrivals| == |batches| && i < |batches| && Counted(t, batches, arrivals, i)
      ensures Counted(t', batches, arrivals, i + 1) && t'.logged == t.logged
      ensures t'.rows in RowTotals(batches[..i + 1])
    {
      var a := arrivals[i];
      var arrival := if i + 1 > 1 then t.arrival + a.gap else t.arrival;
      var write := if a.timerFirst then t.write else t.write + a.write;
      t' := WriterTotals(i + 1, t.rows + |batches[i]|, t.logged, arrival, write);
      assert batches[..i + 1][..i] == batches[..i];
      assert arrivals[..i + 1][..i] == arrivals[..i];
      assert RowTotals(batches[..i + 1]) == RowTotals(batches[..i]) + [RowTotal(batches[..i + 1])];
    }

    /**
     * `poller`: pass after pass, it returns if the watchdog is aborted;
     * reports (as benchmark.go computes it: a panic when no row was read)
     * and returns once the writer has signalled `done`; otherwise
     * times an iteration over the collection, returning if the read timeout
     * fires first (which aborts the watchdog).
     */
    method Poller(events: seq<PollEvent>)
      returns (k: nat, n: nat, read: nat, stop: PollerStop, report: Option<Result<ReadReport, Panic>>)
      modifies guard
      ensures k <= |events|
      ensures k > 0 ==> !old(guard.aborted)
      ensures forall i :: 0 <= i < k ==> !events[i].otherAborted && !events[i].doneReady && !events[i].timerFirst
      ensures stop == Waiting <==> k == |events|
      ensures stop == PollAborted ==> k < |events| && (old(guard.aborted) || events[k].otherAborted)
      ensures stop == Finished ==> k < |events| && !old(guard.aborted) && !events[k].otherAborted && events[k].doneReady
      ensures stop == ReadTimeout ==>
                && k < |events| && !old(guard.aborted) && !events[k].otherAborted
                && !events[k].doneReady && events[k].timerFirst
      ensures guard.aborted == (old(guard.aborted) || stop == PollAborted || stop == ReadTimeout)
      ensures n == PolledRows(events[..k]) && read == PolledTime(events[..k])
      ensures report == if stop == Finished then Some(ReadReportAsWritten(n, read)) else None
      ensures report.Some? && report.value.Ok? ==> report.value.value == ReadStats(n, read)
    {
      k, n, read := 0, 0, 0;
      report := None;
      while k < |events|
        invariant k <= |events|
        invariant k > 0 ==> !old(guard.aborted)
        invariant forall i :: 0 <= i < k ==> !events[i].otherAborted && !events[i].doneReady && !events[i].timerFirst
        invariant guard.aborted == old(guard.aborted)
        invariant n == PolledRows(events[..k]) && read == PolledTime(events[..k])
      {
        var e := events[k];
        if e.otherAborted {
          guard.Abort("write timeout reached");
        }
        var aborted := guard.IsAborted();
        if aborted {
          stop := PollAborted;
          return;
        }
        if e.doneReady {
          ReadStatsAgrees(n, read);
          report := Some(ReadReportAsWritten(n, read));
          stop := Finished;
          return;
        }
        if e.timerFirst {
          guard.Abort("read timeout reached");
          stop := ReadTimeout;
          return;
        }
        assert events[..k + 1][..k] == events[..k];
        n, read := n + e.count, read + e.took;
        k := k + 1;
      }
      stop := Waiting;
    }
  }

  /**
   * Every batch empty: the writer drains them and counts one set and no
   * rows; benchmark.go logs the arrival line (one set, mean gap 0) and then
   * divides by zero.
   */
  method EmptyBatchRun() returns (t: WriterTotals, stop: WriterStop, report: Option<WriteLog>)
    ensures stop == Drained && t.sets == 1 && t.rows == 0
    ensures report == Some(WriteLog(1, 0, Err(DivideByZero)))
  {
    var b := new Benchmark("noop");
    var batches: seq<Batch> := [[]];
    var progress, signalled;
    t, stop, progress, report, signalled := b.Writer(batches, [Arrival(0, 0, false, false, false)], 0);
    assert batches[..1] == batches;
    assert RowTotal(batches) == RowTotal([]) + 0;
  }

  /**
   * The writer signals `done` before the first poll: the poller reports
   * having read no rows, and benchmark.go's statistics divide by zero.
   */
  method DoneBeforeFirstPoll() returns (n: nat, read: nat, stop: PollerStop, report: Option<Result<ReadReport, Panic>>)
    ensures stop == Finished && n == 0
    ensures report == Some(Err(DivideByZero))
  {
    var b := new Benchmark("noop");
    var k;
    k, n, read, stop, report := b.Poller([PollEvent(false, true, 0, 0, false)]);
  }
}

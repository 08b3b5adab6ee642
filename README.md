# kvbench, modelled in Dafny

kvbench is a benchmark harness for embedded key-value stores. It has two phases.

In the first phase it **generates** a binary workload file. The file is a series of blocks. Each block is a little-endian `int64` row count followed by that many records. Each record is an `int64` key length, the key bytes, an `int64` value length and the value bytes. Every count and length is drawn from a seeded pseudo-random generator between a minimum and a maximum.

In the second phase it **replays** that file. Each block becomes a batch of rows, and the batches are sent to a writer at a paced rate: at least `d0` apart, with a random target in `[d0, d1)`. The writer stores each batch in a collection. Meanwhile a poller times full iterations over the collection, and a watchdog aborts the run when a write or a read takes too long.

This project models the sequential logic of that harness and proves properties of it:

- **Rows** (`rows.dfy`, rows.go): `RowKey` and `RowValue` copy a caller's buffer in and out. The round trip gives back the input in a fresh buffer.
- **Framing** (`wire.dfy`, `stream.dfy`): the `int64` little-endian encoding and its inverse, the encoder for blocks and records, and the reader that `Send`/`sendData` run.
  - Reading back an encoded list of well-formed blocks yields exactly its batches, in order, and ends with `EOF` at a block boundary.
  - Every other outcome is an explicit error. A count or length that is negative or larger than Go's allocation limit (`MaxAlloc`, 2^48 bytes on 64-bit Linux) becomes `SizeOutOfRange`, because Go's `make` would panic on it.
- **Random draws** (`draws.dfy`): the seeded generator is an oracle `Source = nat -> nat`. Its k-th `Intn(bound)` is `source(k) % bound`.
  - `Int`/`randN` is 64-bit arithmetic on one draw (`RandInt`).
  - Random bytes are `Intn(255)` draws, so no byte is ever 255.
- **Generator** (`gen.dfy`, `data.dfy`, `mainprog.dfy`): `GenBlocks` is the reference definition of what `Random.Write` and `generateData` write. An `Rng` records where the draws come from:
  - one seeded source for data.go;
  - the seeded `rnd` for lengths and the process-wide `math/rand` generator for bytes in main.go.
  - Both imperative writers are proved to append exactly the encoding of `GenBlocks`. Replaying such a file gives back the generated batches, with every count and length in range.
- **Pacing** (`pacing.dfy`): before every send but the first, the sender sleeps `target - elapsed` when that is positive. Whenever `d1 - d0` does not overflow, every gap between sends is therefore at least `d0`. Clock readings are inputs.
- **Watchdog** (`watchdog.dfy`): a one-bit abort flag. It starts clear, `Abort` sets it, and nothing clears it. Any interleaving of calls leaves it set exactly when some call aborted.
- **No-op collection** (`noop.dfy`): a row counter. `Set` adds the batch size, `Delete` saturates at zero, and `Rows`/`Timing` yield or count exactly the stored number of rows.
- **Benchmark** (`benchmark.dfy`, benchmark.go): the id switch of `NewBenchmark`, `Wait`, and the accounting of the writer and the poller, written as loops over the events each task sees.
  - The totals are tied to reference sums over the batches seen.
  - The progress lines the writer logs are exactly those of a reference definition over the batches stored. Each line reports more than `logevery` rows beyond the one before. After the writer drains its batches or stops at an aborted guard, at most `logevery` rows are unreported. A write timeout or a failing `Set` stops it with its last batch counted but never checked against the threshold.
  - Both tasks report their statistics as benchmark.go computes them, divide-by-zero panics included. The writer logs its arrival line before its panic. Every line logged carries the same figures as the guarded statistics.
  - The exact stopping conditions are stated, together with the watchdog's final state.
- **main.go** (`mainprog.dfy`): the program's older copies of the generator, the sender, the collection switch and a simpler runner.

Goroutines, channels and locks are not modelled. Where the other task's action matters (it aborted the watchdog, it signalled `done`, a timer fired first), that fact arrives as a flag on the event being processed.

## Model

| member | source | states |
|---|---|---|
| Rows.DecodeRowKey | rows.go:13-19 | the key holds exactly the input bytes, and the error is nil |
| Rows.RowKey.Bytes | rows.go:21-27 | a freshly allocated buffer equal to the stored bytes, and the error is nil |
| Rows.DecodeRowValue | rows.go:41-47 | the value holds exactly the input bytes, and the error is nil |
| Rows.RowValue.Bytes | rows.go:49-55 | a freshly allocated buffer equal to the stored bytes, and the error is nil |
| Rows.NewRowValue | rows.go:37-39 | a value with no bytes |
| Rows.KeyRoundTrip | rows.go:13-27 | decoding a key and asking for its bytes gives back the input, in a different buffer |
| Rows.ValueRoundTrip | rows.go:41-55 | decoding a value and asking for its bytes gives back the input, in a different buffer |
| Wire.Wrap64 | data.go:31 | Go's 64-bit wrap-around: the identity on every in-range result |
| Wire.EncodeInt64 | data.go:65 | `binary.Write` of an `int64` is eight bytes |
| Wire.DecodeInt64 | data.go:104-107 | `binary.Read` of an `int64` is negative exactly when the top bit of the last byte is set, and otherwise the little-endian value of the eight bytes |
| Wire.DecodeEncodeInt64 | data.go:104-107 | reading back the eight bytes written for any `int64`, negative ones included, gives that number |
| Wire.EncodeDecodeInt64 | data.go:104-107 | every eight bytes are the encoding of exactly one `int64` |
| Draws.Intn | data.go:37 | a draw for `Intn(bound)` is below `bound` |
| Draws.RandInt | data.go:30-38 | `Int(min, max)` consumes no draw when `max - min < 1`, otherwise exactly one; without overflow the result is `min` in the first case and in `[min, max)` in the second |
| Draws.RandIntValue | data.go:30-38 | without overflow, `Int(min, max)` is `min` plus the draw reduced modulo `max - min` |
| Draws.RandBytes | data.go:42-50 | `n` random bytes are exactly `n` bytes |
| Draws.RandBytesAt | data.go:45-48 | byte `i` comes from draw `pos + i`, as `Intn(255)`, so it is never 255 |
| Draws.DrawByte | data.go:47 | `byte(Intn(255))` is never 255, and never truncated |
| Draws.NextInt | main.go:354-360 | a length drawn from either kind of state lies in its range whenever the range does not overflow |
| Draws.AfterInt | main.go:354-360 | a length draw advances the position of the source it draws from by the draw's cost; the sources themselves, and in main.go's split state the process-wide generator and its position, stay the same |
| Draws.NextBytes | main.go:364-370 | a byte draw of `n` gives `n` bytes, from the seeded source in data.go and the process-wide one in main.go |
| Draws.NextBytesBelow255 | main.go:364-370 | no drawn byte is 255, whichever source it came from |
| Draws.AfterBytes | main.go:364-370 | a byte draw of `n` advances the byte source by `n`; in main.go's split state the seeded source and its position stay the same |
| Stream.EncodeRow | data.go:70-84 | a record is 16 bytes of lengths plus its key and value bytes |
| Stream.EncodeRows | data.go:69-85 | a block's records are written back to back, at least 16 bytes apiece, starting with the first key length |
| Stream.EncodeBlock | data.go:64-85 | a block starts with its eight-byte count and holds at least 16 bytes per record after it |
| Stream.EncodeBlocks | data.go:63-86 | the stream is empty exactly when there are no blocks, takes at least eight bytes per block and starts with the first block's count |
| Stream.EncodeRowsSnoc | data.go:69-85 | writing one more record appends exactly its encoding |
| Stream.EncodeBlocksSnoc | data.go:63-86 | writing one more block appends exactly its encoding |
| Stream.ReadInt64 | data.go:104-107 | a successful `int64` read consumes exactly eight bytes |
| Stream.ReadInt64Outcome | data.go:104-107 | the `int64` read succeeds exactly on eight bytes or more, whose first eight are the number's encoding; it fails with `EOF` exactly on empty input and with `UnexpectedEOF` exactly on one to seven bytes |
| Stream.ReadBytes | data.go:117-120 | a successful read of `n` bytes returns exactly the first `n` bytes and the rest |
| Stream.ReadBytesOutcome | data.go:117-120 | reading `n > 0` bytes fails with `EOF` on empty input and with `UnexpectedEOF` when fewer than `n` remain |
| Stream.ParseRow | data.go:111-144 | a parsed record consumes at least its 16 bytes of lengths, and `make` accepts its lengths; a key length that is negative or above `MaxAlloc` ends the replay with `SizeOutOfRange` (Go's panic) |
| Stream.ParseRows | data.go:109-145 | parsing `n` records yields exactly `n` rows and never grows the input |
| Stream.ParseRowsErrSticks | data.go:110-145 | once a record fails, every longer run of the loop fails with the same error |
| Stream.ParseBlocks | data.go:103-160 | replay never takes back a batch already sent, every batch it adds took at least its eight-byte count, and a count that is negative or above what `make([]*Row, 0, x)` accepts ends it with `SizeOutOfRange` (Go's panic) |
| Stream.ReadRecord | data.go:111-144 | the inner loop's step, written as sequential reads, is exactly the record parser |
| Stream.ReadRows | data.go:109-145 | the inner loop over `count` records is exactly the first `count` records of the stream, or their first error |
| Stream.Batches | data.go:109-159 | the batches a list of blocks carries, one per block |
| Stream.ReadInt64Encoded | data.go:104-107 | an encoded `int64` followed by anything reads back as that number and that remainder |
| Stream.ReadBytesEncoded | data.go:117-120 | `n` bytes followed by anything read back as those bytes and that remainder |
| Stream.ParseRowEncoded | data.go:111-144 | an encoded record followed by anything parses back to that record and that remainder |
| Stream.ParseRowsEncoded | data.go:109-145 | encoded records followed by anything parse back to those records and that remainder |
| Stream.ParseBlocksCons | data.go:103-159 | a stream that starts with an encoded well-formed block sends that block's rows next |
| Stream.ParseBlocksEncoded | data.go:95-161 | replaying encoded well-formed blocks sends exactly their batches, in order, and ends with `EOF` |
| Stream.TruncatedRecordLooksLikeCleanEnd | data.go:111-120 | a stream cut off after a positive key length that `make` accepts ends with the same bare `EOF` as an empty stream; a larger key length ends it with `SizeOutOfRange` instead |
| Gen.GenRow | data.go:70-84 | a generated record's lengths are ones `make` accepts, and the state keeps its kind |
| Gen.GenRows | data.go:69-85 | the inner loop generates exactly `count` records |
| Gen.GenBlock | data.go:64-85 | a generated block holds as many records as its count says (none for a negative count) |
| Gen.GenBlocks | data.go:63-86 | the outer loop generates exactly `n` blocks |
| Gen.GenRowShaped | data.go:70-84 | every generated record has key and value lengths in range and no byte 255 |
| Gen.GenRowsShaped | data.go:69-85 | every record of the inner loop is shaped that way |
| Gen.GenBlockShaped | data.go:64-85 | every generated block has a count in range and exactly that many shaped records |
| Gen.GenBlocksShaped | data.go:63-86 | every block of the outer loop is shaped that way |
| Gen.GenRowShared | data.go:70-84 | with one seeded source, a record is key length, key bytes, value length and value bytes, drawn in that order |
| Gen.GenRowSplit | main.go:332-346 | in main.go the lengths come from `rnd` and the bytes from the process-wide generator |
| Gen.WrittenStreamReplays | data.go:62-161 | generate, write, replay: when every row count drawn is a capacity the reader can allocate, exactly the `n` generated batches come back, with counts and lengths in range, and the replay ends with `EOF` |
| Gen.GenRowSameLengths | main.go:332-346 | one record from the same seeded state has the same lengths, whatever the process-wide generator holds |
| Gen.GenRowsSameLengths | main.go:331-347 | the same holds for the inner loop |
| Gen.GenBlockSameLengths | main.go:326-347 | the same holds for one block: same count, same lengths |
| Gen.GenBlocksSameLengths | main.go:325-348 | the same holds for all the blocks `generateData` writes |
| Gen.GlobalSourceChangesBytes | main.go:364-369 | two process-wide generators and the same seed give different key bytes |
| Pacing.Gap | data.go:147-156 | the time between two sends is at least the elapsed time and at least the target, and exactly their maximum for a non-negative target |
| Pacing.Target | data.go:152 | the target drawn before a send lies in `[d0, d1)` whenever the range does not overflow |
| Pacing.GapAtLeastMin | data.go:147-156 | whenever `d1 - d0` does not overflow, every gap between sends is at least `d0` |
| Data.Random.constructor | data.go:22-26 | a new `Random` has taken no draws from its seed |
| Data.Random.Int | data.go:30-38 | `Int` returns the arithmetic of `RandInt` on the next draw, and takes a draw only when it needs one |
| Data.Random.Bytes | data.go:42-50 | `Bytes` appends exactly the next `n` random bytes and takes `n` draws |
| Data.Random.Write | data.go:62-88 | `Write` appends exactly the encoding of the generated blocks, and leaves the source where generation ends |
| Data.Random.WriteBlock | data.go:64-85 | one outer pass appends the encoding of one generated block |
| Data.Random.WriteRecord | data.go:70-84 | one inner pass appends the encoding of one generated record |
| Data.Random.Send | data.go:95-161 | replay sends exactly the parsed batches and returns the error that ended the stream; a target is drawn before every send but the first, and whenever `d1 - d0` does not overflow every gap is at least `d0` |
| Data.SameDrawsSameInts | data.go:22-38 | two `Random`s from the same seed give the same answers to the same `Int` calls, each in range |
| Data.SameSeedSameFile | data.go:22-88 | two `Random`s from the same seed write the same file |
| Watchdog.WatchDog.constructor | watchdog.go:20-25 | a new watchdog is not aborted |
| Watchdog.WatchDog.Abort | watchdog.go:35-40 | after `Abort` the watchdog is aborted, whatever it was before |
| Watchdog.WatchDog.IsAborted | watchdog.go:45-49 | `IsAborted` returns the flag and changes nothing |
| Watchdog.Replay | watchdog.go:12-49 | after any sequence of calls the flag is set exactly when it was set before or some call aborted; the answers `IsAborted` gives never go from true back to false |
| Noop.EmptyRow | collection_noop.go:32 | the row `Rows` sends has an empty key and an empty value |
| Noop.NoopCollection.constructor | collection_noop.go:14-16 | a new collection holds no rows |
| Noop.NoopCollection.Close | collection_noop.go:18-20 | `Close` never fails and changes nothing |
| Noop.NoopCollection.Rows | collection_noop.go:22-39 | `Rows` yields exactly `n` rows, each empty |
| Noop.NoopCollection.Set | collection_noop.go:41-46 | `Set` adds exactly the batch size and never fails |
| Noop.NoopCollection.Delete | collection_noop.go:48-55 | `Delete` removes one row, but never goes below zero, and never fails |
| Noop.NoopCollection.Timing | collection_noop.go:57-65 | `Timing` counts exactly the stored rows and reports the time it was given |
| Noop.StoreThenDelete | collection_noop.go:41-65 | after storing batches and deleting `d` keys, `Timing` counts the total minus `d`, never below zero |
| Harness.SelectBackend | benchmark.go:33-47 | known ids are exactly bolt, kv, kv-mu, leveldb and noop; only kv-mu takes the lock; kv and kv-mu both use the kv store; an unknown id gives an error naming it |
| Harness.ArrivalTotalSkipsFirst | benchmark.go:100-104 | the arrival total is the sum of the gaps of every arrival but the first |
| Harness.ProgressLinesSpaced | benchmark.go:145-148 | with `logevery` not positive no progress line is logged; otherwise the first line reports more than `logevery` rows, each later one more than `logevery` beyond the one before, each a row total the writer held, and at most `logevery` rows stay unreported |
| Harness.WriteReportAsWritten | benchmark.go:151-157 | the write statistics as written always log the arrival line (`sets_ttl` and the floor of the mean gap), then the per-row line with the floor of `write_t / rows_ttl`, or panic exactly when no row was written |
| Harness.WriteStats | benchmark.go:151-157 | the mean inter-arrival time and the ns per row are the floors of their quotients, and the per-row figure is present exactly when some row was written |
| Harness.Quotient | benchmark.go:153 | the quotient of two non-negative numbers is the floor |
| Harness.WriteStatsAgrees | benchmark.go:151-157 | the statistics as written and the guarded ones give the same arrival line always, and the same per-row line wherever the written ones do not panic, which is exactly where the guarded ones have one |
| Harness.ReadReportAsWritten | benchmark.go:176-177 | the read statistics as written panic exactly when no row was read |
| Harness.ReadStats | benchmark.go:176-177 | the ns per row read is the floor of its quotient, present exactly when some row was read |
| Harness.ReadStatsAgrees | benchmark.go:176-177 | wherever the statistics as written do not panic, they equal the guarded ones |
| Harness.Benchmark.constructor | benchmark.go:26-31 | a new benchmark has a fresh guard that is not aborted, and the store its id selects |
| Harness.Benchmark.OpenError | benchmark.go:33-49 | no error exactly for a known id whose store opened (noop always opens); an unknown id gives an error naming it |
| Harness.Benchmark.NewBenchmark | benchmark.go:25-50 | the benchmark comes back even with an error; its guard is not aborted; its store is set exactly for a known id |
| Harness.Benchmark.Wait | benchmark.go:54-57 | `Wait` returns exactly whether the guard is aborted |
| Harness.Benchmark.Writer | benchmark.go:75-158 | the writer takes batches until they run out, the guard is aborted at loop entry, the write timer wins or `Set` fails. `sets_ttl` is the number of batches taken, `rows_ttl` their row total and `arrival_t` the gaps after the first. The progress lines are exactly `ProgressLines` of the batches stored (the one that timed out or failed excluded), and `logged` is the last of them; it is at most `logevery` rows behind when the batches ran out or the guard was aborted. The statistics are reported, as benchmark.go computes them (the arrival line, then a panic when no row was written), only when the batches ran out and some arrived, and give the same figures as `WriteStats` up to the panic. `done` is signalled on every return |
| Harness.Benchmark.Pass | benchmark.go:88-149 | one pass stops exactly when the guard is aborted at entry, the timer wins or `Set` fails; otherwise it counts the batch, logs the progress line `ProgressLines` adds for it, and keeps the log threshold |
| Harness.Benchmark.CountBatch | benchmark.go:96-104 | counting a batch adds one set, its rows and (after the first) its gap, and keeps `logged` a past row total |
| Harness.Benchmark.Poller | benchmark.go:163-210 | the poller stops exactly when the guard is aborted, `done` is ready or the read timer wins; `n` and `read_t` sum the completed polls; it reports only on `done`, as benchmark.go computes it (a panic when no row was read), agreeing with `ReadStats` when it does not panic |
| Harness.EmptyBatchRun | benchmark.go:151-156 | one empty batch drains with one set and no rows; the writer logs the arrival line (one set, mean gap 0) and then panics dividing by zero |
| Harness.DoneBeforeFirstPoll | benchmark.go:174-178 | `done` before the first poll finishes with no rows read, and the poller's report is the divide-by-zero panic |
| MainProgram.Process.constructor | main.go:131 | a new process has taken no draws from either generator |
| MainProgram.Process.RandN | main.go:354-360 | `randN` returns the arithmetic of `RandInt` on the next draw of `rnd`, and leaves the process-wide generator alone |
| MainProgram.Process.RandBytes | main.go:364-370 | `randBytes` appends the next `n` bytes of the process-wide generator and leaves `rnd` alone |
| MainProgram.Process.GenerateData | main.go:324-350 | `generateData` appends exactly the encoding of the blocks generated from the split state |
| MainProgram.Process.GenerateBlock | main.go:326-347 | one outer pass appends the encoding of one generated block |
| MainProgram.Process.GenerateRecord | main.go:332-346 | one inner pass appends the encoding of one generated record |
| MainProgram.Process.SendData | main.go:246-313 | `sendData` sends exactly the parsed batches and returns the error that ended the stream; it draws targets from `rnd` only, and whenever `d1 - d0` does not overflow every gap is at least `d0` |
| MainProgram.SameSeedSameLengths | main.go:324-350 | two runs with the same seed write files with the same counts and lengths, whatever the process-wide generator holds |
| MainProgram.NewCollection | main.go:87-101 | known ids are exactly bolt, kv, leveldb and noop; anything else gives an error naming the id |
| MainProgram.NewCollectionAgrees | main.go:87-101 | main.go's switch agrees with benchmark.go's on every id except kv-mu, which only benchmark.go knows |
| MainProgram.InputError | main.go:148-162 | a replay goes ahead exactly when `-b` and `-f` are given and the store opens; the missing-flag messages come first |
| MainProgram.FirstFailure | main.go:211-215 | the first failing `Set`: every earlier one succeeded |
| MainProgram.RunWriter | main.go:200-222 | `n` counts the batches taken, up to and including a failing one; `ns` sums the gaps from the second arrival on; `done` is signalled exactly when no `Set` failed; the average is reported only then and only when `n > 0` |
| MainProgram.Millis | main.go:230 | the logged milliseconds are the floor of nanoseconds over 10^6 |
| MainProgram.RunPoller | main.go:224-238 | the poller times the collection on every pass and returns exactly on the first pass where `done` is ready, after one last timing |
| MainProgram.RunBenchmark | main.go:197-239 | the poller, and so `main`'s wait, returns exactly when no `Set` failed |
| MainProgram.SetErrorHangs | main.go:211-218 | a single batch whose `Set` fails never signals `done`, and the poller never returns |

## Left out

- Goroutines, channels, `select`, `sync.WaitGroup` and the mutexes in `Random`, `WatchDog`, `NoopCollection` and `Benchmark` are not modelled. Each task is a sequential loop over the events it sees. What the other task or a timer did arrives as a flag on the event.
- `Benchmark.Run` (benchmark.go:66-71) only starts the two tasks; it is not modelled.
- Wall-clock time is not modelled. `time.Now`, `time.Sleep` and `WatchDog.Timer` appear only as durations given as inputs (`Elapsed`, `Arrival`, `PollEvent`, `Tick`) and as "timer fired first" flags.
- Go's `math/rand` algorithm is not modelled. A seeded generator is an oracle from call number to number.
- Draws.Intn: Go's rejection sampling inside `Intn` is not modelled. Every call takes exactly one draw.
- `bufio` and `binary.Read`/`binary.Write` are not modelled. Streams are in-memory byte sequences read from the front and written by appending.
- Data.Random.Write: the writer's own I/O errors are not modelled, because appending to a sequence cannot fail.
- Data.Random.Write: requires key and value lengths between 0 and `MaxAlloc` whose range does not overflow. Outside that range Go's `make` in `Bytes` panics, and the model does not state the panic.
- MainProgram.Process.GenerateData: requires the same length preconditions as `Random.Write`, for the same reason.
- Rows.DecodeRowKey: keys and values are immutable values here, so whether decoding shares storage with the caller's buffer (aliasing) is not modelled. The model captures the copy only through the fresh buffers that `Bytes` returns (`KeyRoundTrip`, `ValueRoundTrip`).
- `MaxAlloc` is the Go runtime's limit on 64-bit Linux. Other platforms have other limits. An allocation below the limit that the machine cannot satisfy ends Go with a fatal out-of-memory error, which is not modelled.
- Gen.WrittenStreamReplays: requires row counts the reader can allocate (`CountsOk`). A negative or larger count is written without complaint but panics on replay, as `ParseBlocks` states.
- The `Err` field of `Row` is not modelled. Every row built in the core leaves it nil.
- Rows.RowValue.Merge has no contract. It does nothing, and on immutable values there is nothing it could change.
- Harness.Benchmark.Writer: `sets_ttl`, `rows_ttl` and the durations are unbounded integers. Go's 64-bit counters would wrap after 2^63.
- Harness.Benchmark.Poller: `n` and `read_t` are unbounded. A read that times out keeps running in Go and may still add to them, which is not modelled.
- MainProgram.RunWriter: `n` and `ns` are unbounded integers.
- Go's `/` truncates toward zero. Every division modelled here has non-negative operands, so it is the floor.
- The `log` output (the text of each message) is not modelled. Only whether and when a report or a progress line is produced is.
- collection.go is not part of this model. It is an interface without logic.
- collection_bolt.go, collection_kv.go and collection_leveldb.go are not part of this model. Their stores appear only as `Backend` values, and the error their constructors return is the input `openErr`.
- The `main` function's flag parsing, help text, file handling and the `io.EOF` filter on the replay error are not modelled. Only its input checks (`InputError`) are.
- The process-wide generator's position before `generateData` is taken to be zero: nothing else in main.go draws from it.

## Findings

| source | as written | input that shows it | evidently intended | confidence | as-written member | corrected member |
|---|---|---|---|---|---|---|
| benchmark.go:151-156 | the final write statistics are guarded by `sets_ttl > 0` but divide `write_t` by `rows_ttl` | one batch with no rows: `sets_ttl = 1`, `rows_ttl = 0`, integer divide by zero panics | report the per-row figure only when some row was written | high (not executed) | Harness.WriteReportAsWritten, Harness.Benchmark.Writer, Harness.EmptyBatchRun | Harness.WriteStats |
| benchmark.go:174-177 | on `done` the poller divides `read_t` by `n` with no guard | `done` ready before the first poll: `n = 0`, integer divide by zero panics | report the per-row figure only when some row was read | high (not executed) | Harness.ReadReportAsWritten, Harness.Benchmark.Poller, Harness.DoneBeforeFirstPoll | Harness.ReadStats |
| main.go:211-218 | on a `Set` error the writer returns before `done <- true`, so the poller loops forever and `main` never returns from its wait | one batch whose `Set` fails | signal `done` on every return, as benchmark.go's writer does with `defer` | high (not executed) | MainProgram.RunWriter, MainProgram.SetErrorHangs | Harness.Benchmark.Writer |
| main.go:364-369 | `randBytes` draws key and value bytes from the process-wide `rand`, not the seeded `rnd`, although the usage text (main.go:26-28) promises that the seed controls the data and that identical inputs give an identical file | the same seed with two different process-wide generator states: the key byte differs | draw the bytes from the seeded source, as data.go's `Random.Bytes` does | medium (not executed; whether the process-wide generator differs between runs depends on the Go release) | Gen.GlobalSourceChangesBytes, MainProgram.SameSeedSameLengths | Data.Random.Write, Data.SameSeedSameFile |

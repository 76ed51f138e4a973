# zstd backend layer of stargz-snapshotter, modelled in Dafny

This project models the zstd compression layer of stargz-snapshotter
(`compression/zstd`). The layer has:

- two backends behind one `Compressor` interface:
  - a pure-Go backend over klauspost/compress;
  - a native backend over libzstd through gozstd.
- a worker-count heuristic that tunes both backends;
- a memoised selector that picks a backend once per process;
- the deterministic data builders and the fault-injecting writer of its test
  suite.

The codecs themselves are foreign. The model captures what this layer itself
decides:

- which levels a backend accepts;
- which level and worker count reach the encoder;
- which errors come back;
- which backend is chosen, and when that choice is fixed;
- exactly which bytes each test-data builder produces.

Modules and files:

| module | file | models |
|---|---|---|
| `Wrappers` | wrappers.dfy | `Option` for Go's nil results, `Result` for `(value, error)` pairs |
| `Bytes` | bytes.dfy | bytes; Go's `copy` and `bytes.Repeat`; "first n bytes of an endless concatenation of pieces" (`Take`, `StreamPrefix`) |
| `Decimal` | decimal.dfy | `%d` formatting and `strconv.Atoi` on 64-bit `int` |
| `CpuCores` | cpu_cores.dfy | cpu_cores.go |
| `Streams` | streams.dfy | the writer and reader handles and the errors the backends return |
| `PureWrapper` | pure_wrapper.dfy | pure_wrapper.go |
| `GozstdWrapper` | gozstd_wrapper.dfy | gozstd_wrapper.go |
| `Interface` | interface.dfy | interface.go: dispatch over the two backends |
| `Selector` | selector.dfy | selector.go, as a class `Selection` whose fields are the package variables `defaultCompressor` and `once` |
| `Stress` | stress.dfy | stress_test.go: class `FailingWriter`, and `min` |
| `Compatibility` | compatibility.dfy | compatibility_test.go generators |
| `CommonTest` | common.dfy | common_test.go; testsuite_test.go carries the same code |
| `Performance` | performance.dfy | performance_test.go generators; `generateCompressibleData` of decompression_benchmark_test.go is the same code |
| `Benchmark` | benchmark.dfy | benchmark_test.go `generateTestData` |
| `TestData` | testdata.dfy | testdata_generator.go, with the cache as class `TestDataCache` |

Loops in the source are modelled as methods with `while`/`for` loops over
arrays or sequences. Each such method is proved equal to a specification
function. The properties are then proved about that function.

Random draws are oracles passed in as parameters:

- `math/rand` draws become `raw: nat -> nat`: the k-th `Intn(n)` is `raw(k) % n`.
- `Float32() < t` tests become `coin: nat -> bool`.
- `GetVariedSourceData` takes an `imap<nat, nat>` whose keys are the loop
  iterations whose `Float32` draw is below 0.1, each mapped to its comment
  draw. Such an iteration writes a comment over the base data only while `pos+100 < size`
  (testdata_generator.go:187).
- Environment variables, host core counts and the outcome of libzstd's trial
  compression are parameters too.

Where the package's own tests expect something else, the model follows the
code. Other behaviour of the code that is easy to miss:

- An unavailable native backend reports maximum level 0
  (gozstd_wrapper.go:149-154). gozstd_wrapper_test.go:97-105 expects 11.
- The pure backend rejects levels above 11; it does not cap them
  (pure_wrapper.go:38-40). klauspost_wrapper_test.go:51 and 97-101 expect
  capping.
- The pure `NewReader` returns the decoder constructor's error, so it can
  fail at construction (pure_wrapper.go:59-64).
- Native level 0 is accepted and replaced by gozstd's default level
  (gozstd_wrapper.go:79-81).
- Backend selection can panic when the trial compression panics; see
  Findings.

## Model

| member | source | states |
|---|---|---|
| `Decimal.Atoi` | compression/zstd/cpu_cores.go:34 | a parse succeeds only for an optional sign followed by at least one digit, with a value inside int64, and the value is the signed value of those digits |
| `Decimal.AtoiSignedDigits` | compression/zstd/cpu_cores.go:34 | conversely, every "", "+" or "-" followed by at least one digit parses to the signed value of the digits when that value is an int64, so "+4" and "007" are accepted as Go accepts them |
| `Decimal.AtoiFormatInt` | compression/zstd/cpu_cores.go:33-37 | every int64 reads back from its decimal text: `Atoi(FormatInt(n)) == Some(n)` |
| `Decimal.FormatInt` | compression/zstd/testsuite/common_test.go:116-129 | the `%d` text is non-empty and all digits, with a leading '-' exactly for negative values, and has no leading zero unless it is the single digit "0" |
| `Decimal.FormatIntInjective` | compression/zstd/testsuite/common_test.go:127-129 | two int64 values print the same only if they are equal |
| `CpuCores.GetOptimalWorkerCount` | compression/zstd/cpu_cores.go:31-60 | the worker count is at least 1 on every path: override, physical cores, logical CPUs; a valid override yields exactly the number Atoi reads from it |
| `CpuCores.ParsedOverrideIsExact` | compression/zstd/cpu_cores.go:33-37 | every ZSTD_WORKERS value of an optional '+' followed by digits whose value n is a positive int64 yields exactly n, whatever the host reports; leading zeros included |
| `CpuCores.OverrideIsExact` | compression/zstd/cpu_cores.go:33-37 | in particular the decimal text of n > 0 yields exactly n |
| `CpuCores.NonCanonicalOverrides` | compression/zstd/cpu_cores.go:33-37 | "+4" gives 4 and "007" gives 7, as strconv.Atoi reads them |
| `CpuCores.InvalidOverrideIgnored` | compression/zstd/cpu_cores.go:33-39 | an empty, unparsable, zero or negative override gives the same result as no override |
| `CpuCores.OverrideExamples` | compression/zstd/cpu_cores.go:33-39 | "4" gives 4 and "1" gives 1; "0", "-1" and "invalid" behave like an unset variable |
| `CpuCores.PhysicalCoresRule` | compression/zstd/cpu_cores.go:42-49 | a physical count c > 0 gives floor(3c/4) when c >= 2 and 1 when c = 1, never more than c |
| `CpuCores.LogicalCpusRule` | compression/zstd/cpu_cores.go:53-59 | without a usable physical count, the result is half the logical CPUs, at least 1, and never above a positive logical count |
| `PureWrapper.Name` | compression/zstd/pure_wrapper.go:70-72 | the constant name "pure-go (klauspost/compress)" |
| `PureWrapper.IsLibzstdAvailable` | compression/zstd/pure_wrapper.go:75-77 | the pure backend never reports libzstd |
| `PureWrapper.MaxCompressionLevel` | compression/zstd/pure_wrapper.go:80-87 | always 11, the top of the window NewWriter accepts |
| `PureWrapper.NewWriter` | compression/zstd/pure_wrapper.go:35-56 | levels outside [0, 11] fail with InvalidLevel. Inside the window, only the encoder constructor's error can fail the call, and it is passed on unchanged. On success the encoder gets the level and a concurrency of at least 1 |
| `PureWrapper.NewWriterUsesWorkerCount` | compression/zstd/pure_wrapper.go:46-50 | the concurrency given to the encoder is the worker heuristic's value, and an accepted level is at most MaxCompressionLevel |
| `PureWrapper.NewReader` | compression/zstd/pure_wrapper.go:59-67 | succeeds with an open decoder exactly when the decoder constructor reports no error; otherwise returns that error |
| `PureWrapper.Close` | compression/zstd/pure_wrapper.go:94-97 | closes the decoder and always returns a nil error |
| `GozstdWrapper.NewGozstdCompressorAsWritten` | compression/zstd/gozstd_wrapper.go:51-65 | as written, the constructor returns nil exactly when the trial compression panics. Otherwise `available` is whether the trial returned non-nil |
| `GozstdWrapper.NewGozstdCompressor` | compression/zstd/gozstd_wrapper.go:51-65 | corrected constructor: `available` holds exactly when the trial returned non-nil. It agrees with the as-written constructor whenever the trial does not panic |
| `GozstdWrapper.PanickingTrialGivesNil` | compression/zstd/gozstd_wrapper.go:54-64 | on a panicking trial the as-written constructor gives nil and the corrected one an unavailable compressor |
| `GozstdWrapper.Name` | compression/zstd/gozstd_wrapper.go:136-141 | "libzstd (via gozstd)" when available, else "gozstd (unavailable)" |
| `GozstdWrapper.IsLibzstdAvailable` | compression/zstd/gozstd_wrapper.go:144-146 | reports exactly the flag fixed by the constructor's trial |
| `GozstdWrapper.MaxCompressionLevel` | compression/zstd/gozstd_wrapper.go:149-154 | 22 when available, 0 otherwise |
| `GozstdWrapper.NewWriter` | compression/zstd/gozstd_wrapper.go:68-114 | checks availability before the level; rejects levels outside [0, 22]; replaces level 0 by the library default and passes 1..22 unchanged; sets the worker count, the heuristic's value, only when the injection succeeded |
| `GozstdWrapper.InjectionNeverChangesOutcome` | compression/zstd/gozstd_wrapper.go:87-113 | the three injection outcomes (field inaccessible, parameter rejected, parameter set) give the same success or failure, the same error and the same encoder level |
| `GozstdWrapper.NewReader` | compression/zstd/gozstd_wrapper.go:117-123 | fails with Unavailable exactly when libzstd is unavailable, else returns an open reader |
| `GozstdWrapper.Close` | compression/zstd/gozstd_wrapper.go:130-133 | releases the native reader and always returns a nil error |
| `Interface.Name` | compression/zstd/interface.go:36 | dispatch to the variant's Name: the pure name, or the native name by availability |
| `Interface.IsLibzstdAvailable` | compression/zstd/interface.go:39 | true exactly for the available native backend |
| `Interface.MaxCompressionLevel` | compression/zstd/interface.go:42 | 22 for the available native backend, 11 for the pure one, 0 for an unavailable native one |
| `Interface.NewWriter` | compression/zstd/interface.go:30 | an unavailable native backend refuses every level. The others fail with InvalidLevel exactly for the levels outside [0, MaxCompressionLevel]. Inside the window the native backend always succeeds, and the pure one fails only with the encoder constructor's error. A writer comes from the variant's own library |
| `Interface.NewReader` | compression/zstd/interface.go:33 | fails exactly for an unavailable native backend, or for the pure one when its decoder constructor fails; a reader returned is open and belongs to the variant's library |
| `Interface.CapabilitySurface` | compression/zstd/interface.go:35-42 | the capability invariant across variants: reporting libzstd goes with maximum level 22, otherwise the level is at most 11; level 0 exactly for an unavailable native backend; the name tells the three variants apart (gozstd_wrapper.go:136-154, pure_wrapper.go:70-87) |
| `Interface.AcceptedLevelsAreTheWindow` | compression/zstd/interface.go:29-30 | every level either backend accepts lies in [0, MaxCompressionLevel]. Every level in that window is accepted unless the backend is native and unavailable, or the foreign encoder constructor fails |
| `Interface.InvalidLevelsRejected` | compression/zstd/testsuite/testsuite_test.go:219-227 | levels -1 and 100 are rejected by both backends, with or without libzstd |
| `Selector.Decide` | compression/zstd/selector.go:33-50 | "1" forces the pure backend; otherwise native exactly when the trial returned non-nil. A native result is always available, so the chosen backend's maximum level is at least 11 |
| `Selector.OnlyOneForcesPure` | compression/zstd/selector.go:35 | any value other than "1", such as "0" or "true", decides like an unset variable |
| `Selector.DecideAsWritten` | compression/zstd/selector.go:41-49 | as written, selection dereferences nil exactly when pure is not forced and the trial panics; otherwise it agrees with `Decide` |
| `Selector.PanickingTrialCrashesSelection` | compression/zstd/selector.go:42-43 | with an unset variable and a panicking trial, the as-written selection panics where the corrected one falls back to pure |
| `Selector.Selection.constructor` | compression/zstd/selector.go:26-29 | package initial state: nil compressor, `once` not yet done, no trial made |
| `Selector.Selection.GetCompressor` | compression/zstd/selector.go:32-52 | the corrected state machine, built on the corrected constructor (see Findings). The first call stores `Decide`'s choice and makes the trial only when pure is not forced. Later calls change nothing and return the stored value. At most one trial is ever made (`Valid`) |
| `Selector.Selection.SetCompressor` | compression/zstd/selector.go:55-57 | replaces the stored value and leaves `once` untouched |
| `Selector.SetBeforeFirstGetIsLost` | compression/zstd/selector.go:33-57 | a value set before the first GetCompressor is overwritten by that call's decision |
| `Selector.SetAfterFirstGetSticks` | compression/zstd/selector.go:51-57 | a value set after the first GetCompressor is returned by every later call, whatever the environment then says |
| `Selector.RepeatedGetIsMemoised` | compression/zstd/selector.go:32-52 | the second call returns the first call's decision even if the environment or libzstd changed; the stored backend has maximum level at least 1 |
| `Stress.FailingWriter.constructor` | compression/zstd/testsuite/stress_test.go:480-483 | a new writer has written nothing and keeps the given limit |
| `Stress.FailingWriter.Write` | compression/zstd/testsuite/stress_test.go:485-496 | the three branches exactly: full write; partial write up to the limit with an error; zero bytes with an error. The count grows by the returned n ≤ len(p), the writer stays within its limit, and with a non-negative limit an error comes back exactly when n < len(p) |
| `Stress.ExhaustedWriterRejects` | compression/zstd/testsuite/stress_test.go:486-492 | once the limit is reached, a non-empty write returns 0 and "write failed" |
| `Stress.CrossingWriteIsShort` | compression/zstd/testsuite/stress_test.go:486-491 | a write that crosses the limit accepts exactly the bytes that remain to it and reports "write failed after" |
| `Stress.Min` | compression/zstd/testsuite/stress_test.go:503-508 | the result is one of the two arguments and at most both |
| `Compatibility.GenerateBinaryData` | compression/zstd/testsuite/compatibility_test.go:316-322 | `size` bytes with byte i equal to i mod 256; the Binary generators of common_test.go:103-108 and testsuite_test.go:111-116 are the same code |
| `Compatibility.MixedPattern` | compression/zstd/testsuite/compatibility_test.go:326-336 | iteration k copies pattern k mod 4, each at least 4 bytes long, so the loop advances |
| `Compatibility.GenerateMixedContent` | compression/zstd/testsuite/compatibility_test.go:324-342 | exactly `size` bytes: the first `size` bytes of the four patterns repeated in order |
| `CommonTest.QuickBrownFoxLength` | compression/zstd/testsuite/common_test.go:91 | the repeated phrase is 45 bytes long |
| `CommonTest.FormatSize` | compression/zstd/testsuite/common_test.go:116-125 | the label ends in "MB" exactly for sizes of at least 1048576, in "KB" exactly for 1024 ≤ size < 1048576, otherwise in "B" |
| `CommonTest.FormatSizeReadsBack` | compression/zstd/testsuite/testsuite_test.go:323-332 | the text before the unit is exactly the `%d` text of size divided by its unit, rounded down, and reads back as that number (common_test.go:116-125 is the same code) |
| `CommonTest.FormatSizeExamples` | compression/zstd/decompression_benchmark_test.go:242-251 | 0 → "0B", 1023 → "1023B", 1024 → "1KB", 1536 → "1KB", 65536 → "64KB", 1048576 → "1MB", 10485760 → "10MB" (the same code as common_test.go:116-125) |
| `CommonTest.FormatLevel` | compression/zstd/testsuite/common_test.go:127-129 | the label is "Level" followed by a non-empty number |
| `CommonTest.FormatLevelReadsBack` | compression/zstd/testsuite/testsuite_test.go:334-336 | the label is "Level" followed by exactly the `%d` text of the level, which reads back, so distinct levels get distinct names (common_test.go:127-129 is the same code) |
| `CommonTest.Zeros` | compression/zstd/testsuite/common_test.go:82-84 | `size` zero bytes; testsuite_test.go:90-92 is the same code |
| `CommonTest.GenerateRepetitive` | compression/zstd/testsuite/common_test.go:90-96 | byte i is the phrase's byte i mod 45, for length `size`; testsuite_test.go:98-104 is the same code |
| `Performance.GenerateCompressibleData` | compression/zstd/testsuite/performance_test.go:457-474 | `size` bytes; byte i is the phrase's byte i mod 45 when coin i says "pattern", else the drawn byte; decompression_benchmark_test.go:222-239 is the same code |
| `Performance.AllPatternCoinsGiveRepetition` | compression/zstd/decompression_benchmark_test.go:230-236 | when every coin says "pattern", the data is the phrase repeated |
| `Performance.WordsAreLong` | compression/zstd/testsuite/performance_test.go:483-484 | every word of the list has at least 3 letters |
| `Performance.TextPiecesAreLong` | compression/zstd/testsuite/performance_test.go:488-494 | each iteration appends a word and one separator, at least 4 bytes, so the loop ends |
| `Performance.GenerateTextData` | compression/zstd/testsuite/performance_test.go:482-498 | exactly `size` bytes: the first `size` bytes of drawn words, each followed by exactly one '\n' or ' ' as its coin says |
| `Performance.JsonRecord` | compression/zstd/testsuite/performance_test.go:505-506 | one record's text is at least 30 bytes long |
| `Performance.RecordPiecesNonEmpty` | compression/zstd/testsuite/performance_test.go:504-507 | every record appends bytes, so the record loop ends |
| `Performance.GenerateJSONData` | compression/zstd/testsuite/performance_test.go:500-524 | exactly `size` bytes: the closed JSON text cut to `size` when longer, otherwise the text followed by spaces |
| `Performance.PadWithSpaces` | compression/zstd/testsuite/performance_test.go:517-523 | the data, then spaces up to `size` |
| `Performance.GenerateBinarySequence` | compression/zstd/testsuite/performance_test.go:526-532 | `size` bytes with byte i equal to 7i mod 256 |
| `Bytes.Copy` | compression/zstd/testsuite/compatibility_test.go:337 | Go's `copy(dst[off:], src)`: copies min(len(src), len(dst) - off) bytes to offset off and leaves every other byte alone |
| `Bytes.Repeat` | compression/zstd/testsuite/testdata_generator.go:114 | `bytes.Repeat(pattern, count)` is count times as long as the pattern |
| `Bytes.RepeatIsCycle` | compression/zstd/testsuite/testdata_generator.go:114 | the repeated pattern is the pattern cycled: byte i is pattern[i mod len(pattern)] |
| `Benchmark.GenerateTestData` | compression/zstd/benchmark_test.go:29-41 | exactly 1048576 bytes, byte i being the phrase's byte i mod 45; the same bytes on every call |
| `Benchmark.FinalBlockIsTruncated` | compression/zstd/benchmark_test.go:36-38 | the last copy is cut to 1048576 mod 45 = 31 bytes, the phrase's first 31 |
| `TestData.PiecesNonEmpty` | compression/zstd/testsuite/testdata_generator.go:128-134 | every iteration adds at least one byte, even for an empty source, so the loop ends |
| `TestData.TestDataSpec` | compression/zstd/testsuite/testdata_generator.go:123-137 | the first n bytes of the picked sources, each followed by a newline, laid end to end, is exactly n bytes |
| `TestData.FallbackIsCycle` | compression/zstd/testsuite/testdata_generator.go:111-115 | without sources, byte i is the fallback program's byte i mod its length |
| `TestData.FallbackRepeat` | compression/zstd/testsuite/testdata_generator.go:113-114 | `bytes.Repeat(pattern, n/len+1)` is at least n bytes, and its first n bytes are the fallback data |
| `TestData.WriteStep` | compression/zstd/testsuite/testdata_generator.go:128-134 | writing the whole source and a newline, or only the part that fits, extends the buffer along the pieces |
| `TestData.CreateTestData` | compression/zstd/testsuite/testdata_generator.go:110-138 | exactly `targetSize` bytes equal to `TestDataSpec`, in both the fallback branch and the concatenation branch |
| `TestData.TestDataIsPrefixClosed` | compression/zstd/testsuite/testdata_generator.go:67-71 | with the same sources and draws, every smaller entry is a prefix of every larger one |
| `TestData.KeyInjective` | compression/zstd/testsuite/testdata_generator.go:67-71 | the five buckets have five distinct Go keys "small" to "xxlarge", so the map over buckets is the map over those strings |
| `TestData.BucketFor` | compression/zstd/testsuite/testdata_generator.go:148-158 | for sizes up to 10 MiB, the chosen entry is the smallest one at least as large as the size |
| `TestData.FilledCacheOf` | compression/zstd/testsuite/testdata_generator.go:67-71 | the five-key map built from the five entries is a filled cache |
| `TestData.FillCache` | compression/zstd/testsuite/testdata_generator.go:66-71 | every key holds createTestData of its size: 1 KiB, 10 KiB, 100 KiB, 1 MiB, 10 MiB |
| `TestData.RepeatLargest` | compression/zstd/testsuite/testdata_generator.go:159-166 | the stepping copy loop yields `size` bytes with byte i equal to data[i mod len(data)] |
| `TestData.CommentsInsertable` | compression/zstd/testsuite/testdata_generator.go:178-183 | there are four comments, each non-empty and shorter than 100 bytes |
| `TestData.Pick` | compression/zstd/testsuite/testdata_generator.go:188 | the drawn comment has 1 to 99 bytes |
| `TestData.Varied` | compression/zstd/testsuite/testdata_generator.go:186-202 | the varied data from any position on has exactly the base data's remaining length |
| `TestData.VariedEndsWithBase` | compression/zstd/testsuite/testdata_generator.go:192-201 | from the first base-copy iteration on, every byte is the base byte at the same position: that branch fills the rest and ends the loop |
| `TestData.ShortDataIsUnvaried` | compression/zstd/testsuite/testdata_generator.go:187 | base data of at most 100 bytes comes back unchanged |
| `TestData.NoDrawsNoVariation` | compression/zstd/testsuite/testdata_generator.go:187-201 | if no Float32 draw falls below 0.1, the result is the base data |
| `TestData.FirstCommentOpens` | compression/zstd/testsuite/testdata_generator.go:187-190 | a comment drawn at the first iteration of data longer than 100 bytes opens the result |
| `TestData.InsertKeeps` | compression/zstd/testsuite/testdata_generator.go:188-190 | a comment iteration keeps "bytes written + bytes still to come" equal to the whole result |
| `TestData.CopyKeeps` | compression/zstd/testsuite/testdata_generator.go:191-201 | the copy iteration writes all the bytes still to come |
| `TestData.CopyBase` | compression/zstd/testsuite/testdata_generator.go:193-200 | the copy branch writes base[pos..] and leaves the bytes before pos alone |
| `TestData.CopyComment` | compression/zstd/testsuite/testdata_generator.go:188-190 | the whole comment is written at pos and the bytes before pos are kept |
| `TestData.Vary` | compression/zstd/testsuite/testdata_generator.go:185-204 | the overwriting loop over base data of the result's length produces exactly `Varied` of it |
| `TestData.TestDataCache.SourceCodeData` | compression/zstd/testsuite/testdata_generator.go:141-168 | what GetSourceCodeData returns has exactly `size` bytes |
| `TestData.TestDataCache.constructor` | compression/zstd/testsuite/testdata_generator.go:31-35 | package initial state: cache not yet initialised; found and embedded sources recorded |
| `TestData.TestDataCache.InitTestData` | compression/zstd/testsuite/testdata_generator.go:38-72 | uses the found files, or the embedded samples when none were found, and fills all five entries |
| `TestData.TestDataCache.GetSourceCodeData` | compression/zstd/testsuite/testdata_generator.go:141-168 | initialises the cache on first use. Up to 10 MiB it returns the chosen entry's first `size` bytes, which equal createTestData of that size. Above that it repeats the 10 MiB entry |
| `TestData.TestDataCache.GetVariedSourceData` | compression/zstd/testsuite/testdata_generator.go:171-205 | exactly `size` bytes: the source-code data of that size with comments written over the base data where the draws say so |

## Left out

- Compression and decompression themselves (the Zstandard format of RFC 8878) belong to klauspost/compress and libzstd. Writers and readers are handles recording the level and the worker count. Foreign errors are parameters (`encoderError`, `decoderError`).
- `zstd.EncoderLevelFromZstd` is foreign, so the pure encoder handle records the zstd level it was given.
- `gozstd.DefaultCompressionLevel` is foreign and is the parameter `libDefault`.
- The reflective/`unsafe` worker injection in gozstd_wrapper.go:90-111 is reduced to its three outcomes. Line 95 passes `csField.UnsafeAddr()`, which is the address of the `cs` field inside the Go `gozstd.Writer`, not the `ZSTD_CStream` pointer stored there. So `ZSTD_CCtx_setParameter` is handed Go struct memory as if it were a compression context. What libzstd then does with that memory (misreport, corrupt the writer, crash) is not modelled. `GozstdWrapper.InjectionNeverChangesOutcome` holds only under the assumption that the call ends in one of the three outcomes. This was not executed.
- Logging through `log.L` is left out; it has no effect on results.
- `sync.Once` and `sync.RWMutex` have their cross-goroutine semantics left out. Selection and the test-data cache are modelled for sequential callers: the first call does the work.
- `os.Getenv`, `cpu.Counts` and `runtime.NumCPU` are host queries: their values are parameters.
- The trial compression in the native constructor is the parameter `trial`.
- `collectGoFiles` and the directory walk in `initTestData` (testdata_generator.go:44-57, 75-107) are file-system I/O. The files the walk finds are the parameter `found`.
- The embedded samples `embeddedGoCode1..3` (testdata_generator.go:208-475) are the parameter `embedded`.
- `Selector.Selection.GetCompressor` does not model the as-written panic inside `once.Do` (selector.go:33-47), after which the Once counts as done and later calls return nil; the class uses the corrected decision instead.
- The pseudo-random generators of `math/rand` are not modelled. Draws are oracles indexed by iteration or position, not one interleaved stream.
- `generateRandomData` and the Random generator of `TestDataPatterns` are left out: they fill with `rand.Read` and have no law beyond their length.
- Floating point is left out. `Float32() < t` is an oracle boolean, and the `%f` text in `generateJSONData` is an opaque string per record.
- `generateStressTestData` (stress_test.go:498-501) only calls `GetVariedSourceData` and has no member of its own.
- Go's `int` is 64 bits, and overflow of sizes and counts is not modelled.
- Sizes are `nat`: Go panics on a negative size.
- The cache's string keys are modelled by the datatype `Bucket`. `TestData.Key` gives each bucket its Go key, and `TestData.KeyInjective` shows the correspondence is one to one.
- `NewTestSuite`, the Test* and Benchmark* functions, and TestMain are left out; they are tests and benchmarks whose logic is I/O, timing and goroutines.
- The tests that disagree with the code are not modelled:
  - klauspost_wrapper_test.go expects levels above 11 to be capped;
  - selector_test.go resets a variable selector.go does not have;
  - gozstd_wrapper_test.go expects maximum level 11 when libzstd is unavailable.

## Findings

| source | as written | input that shows it | evidently intended | confidence | as-written member | corrected member |
|---|---|---|---|---|---|---|
| compression/zstd/gozstd_wrapper.go:52-64 | The deferred `recover` sets the local `available` to false. The function's result is unnamed, so after a panic it returns nil. `GetCompressor` then calls `gozstd.IsLibzstdAvailable()` on that nil pointer (selector.go:42-43), and the lookup of the `available` field panics. The panic leaves `once.Do` (selector.go:33) with the Once marked done and `defaultCompressor` still nil. So if the caller recovers, every later `GetCompressor` returns nil without deciding again; this last consequence is not modelled, since `Selector.Selection.GetCompressor` uses the corrected decision. | `gozstd.Compress` panics in the trial, with STARGZ_FORCE_PURE_GO_ZSTD unset | a panicking trial yields an unavailable compressor, and selection falls back to the pure backend | not executed | `GozstdWrapper.NewGozstdCompressorAsWritten`, `Selector.DecideAsWritten` (witness `Selector.PanickingTrialCrashesSelection`) | `GozstdWrapper.NewGozstdCompressor`, `Selector.Decide` |

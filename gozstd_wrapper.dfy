/**
 * GozstdCompressor of compression/zstd/gozstd_wrapper.go: the backend built
 * on libzstd through cgo. Its one field, available, is fixed by the
 * constructor's trial compression.
 */
module GozstdWrapper {
  import opened Wrappers
  import opened Streams
  import CpuCores

  const MaxLevel: int := 22

  datatype GozstdCompressor = GozstdCompressor(available: bool)

  /** What gozstd.Compress(nil, []byte("test")) does in the constructor. */
  datatype TrialCompress = Returned(nonNil: bool) | Panicked

  /** What became of the attempt to set ZSTD_c_nbWorkers through reflection. */
  datatype Injection = FieldInaccessible | ParameterRejected | ParameterSet

  /** NewGozstdCompressor as written. The deferred recover sets a local, but
      the result is unnamed, so after a panic the function returns nil. */
  function NewGozstdCompressorAsWritten(trial: TrialCompress): (r: Option<GozstdCompressor>)
    ensures r.None? <==> trial.Panicked?
    ensures r.Some? ==> r.value.available == trial.nonNil
  {
    match trial
    case Panicked => None
    case Returned(nonNil) => Some(GozstdCompressor(nonNil))
  }

  /** NewGozstdCompressor as intended: a panicking trial yields an unavailable
      compressor rather than nil. */
  function NewGozstdCompressor(trial: TrialCompress): (g: GozstdCompressor)
    ensures g.available <==> trial == Returned(true)
    ensures trial.Returned? ==> NewGozstdCompressorAsWritten(trial) == Some(g)
  {
    match trial
    case Panicked => GozstdCompressor(false)
    case Returned(nonNil) => GozstdCompressor(nonNil)
  }

  /** The discrepancy: a panicking trial makes the constructor return nil. */
  lemma PanickingTrialGivesNil()
    ensures NewGozstdCompressorAsWritten(Panicked) == None
    ensures NewGozstdCompressor(Panicked) == GozstdCompressor(false)
  {
  }

  function Name(g: GozstdCompressor): (s: string)
    ensures g.available ==> s == "libzstd (via gozstd)"
    ensures !g.available ==> s == "gozstd (unavailable)"
  {
    if g.available then "libzstd (via gozstd)" else "gozstd (unavailable)"
  }

  /** Reports the flag the constructor's trial fixed. */
  function IsLibzstdAvailable(g: GozstdCompressor): (b: bool)
    ensures b <==> g.available
  {
    g.available
  }

  /** 22 with libzstd, 0 without; with libzstd it is the top of the window
      NewWriter accepts. */
  function MaxCompressionLevel(g: GozstdCompressor): (m: int)
    ensures g.available ==> m == 22
    ensures !g.available ==> m == 0
  {
    if g.available then MaxLevel else 0
  }

  /** NewWriter(w, level). libDefault is gozstd.DefaultCompressionLevel; the
      injection outcome is whatever the reflective parameter setting does. */
  function NewWriter(g: GozstdCompressor, level: int, host: CpuCores.Host, libDefault: int, injection: Injection)
    : (r: Result<Writer, Error>)
    ensures !g.available ==> r == Failure(Unavailable)
    ensures g.available && (level < 0 || level > 22) ==> r == Failure(InvalidLevel(level, 22))
    ensures r.Success? <==> g.available && 0 <= level <= 22
    ensures r.Success? ==> r.value.GozstdWriter?
    ensures r.Success? && level == 0 ==> r.value.level == libDefault
    ensures r.Success? && level != 0 ==> r.value.level == level
    ensures r.Success? ==> (r.value.workers.Some? <==> injection == ParameterSet)
    ensures r.Success? && r.value.workers.Some? ==> r.value.workers.value == CpuCores.GetOptimalWorkerCount(host)
  {
    if !g.available then Failure(Unavailable)
    else if level < 0 || level > MaxLevel then Failure(InvalidLevel(level, MaxLevel))
    else
      var effective := if level == 0 then libDefault else level;
      var workers := CpuCores.GetOptimalWorkerCount(host);
      var tuned := if injection == ParameterSet then Some(workers) else None;
      Success(GozstdWriter(effective, tuned))
  }

  /** The injection is best effort: whatever it does, NewWriter fails or
      succeeds alike and builds the encoder at the same level. */
  lemma InjectionNeverChangesOutcome(g: GozstdCompressor, level: int, host: CpuCores.Host, libDefault: int,
                                     i1: Injection, i2: Injection)
    ensures NewWriter(g, level, host, libDefault, i1).Success? == NewWriter(g, level, host, libDefault, i2).Success?
    ensures NewWriter(g, level, host, libDefault, i1).Failure? ==>
      NewWriter(g, level, host, libDefault, i1) == NewWriter(g, level, host, libDefault, i2)
    ensures NewWriter(g, level, host, libDefault, i1).Success? ==>
      NewWriter(g, level, host, libDefault, i1).value.level == NewWriter(g, level, host, libDefault, i2).value.level
  {
  }

  /** NewReader(r): an error exactly when libzstd is unavailable. */
  function NewReader(g: GozstdCompressor): (r: Result<Reader, Error>)
    ensures r.Failure? <==> !g.available
    ensures r.Failure? ==> r.error == Unavailable
    ensures r.Success? ==> r.value == GozstdReader(false)
  {
    if !g.available then Failure(Unavailable) else Success(GozstdReader(false))
  }

  /** gozstdReaderWrapper.Close: releases the native reader and reports no error. */
  function Close(rd: Reader): (r: (Reader, Option<Error>))
    requires rd.GozstdReader?
    ensures r.0 == GozstdReader(true) && r.1 == None
  {
    (GozstdReader(true), None)
  }
}

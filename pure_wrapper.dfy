/**
 * PureGoCompressor of compression/zstd/pure_wrapper.go: the backend built on
 * the klauspost/compress encoder and decoder. The struct has no fields, so
 * its methods are functions of their arguments alone.
 */
module PureWrapper {
  import opened Wrappers
  import opened Streams
  import CpuCores

  const MaxLevel: int := 11

  function Name(): (s: string)
    ensures s == "pure-go (klauspost/compress)"
  {
    "pure-go (klauspost/compress)"
  }

  /** The pure backend never reports libzstd. */
  function IsLibzstdAvailable(): (b: bool)
    ensures !b
  {
    false
  }

  /** The top of the level window NewWriter accepts. */
  function MaxCompressionLevel(): (m: int)
    ensures m == 11
  {
    MaxLevel
  }

  /** NewWriter(w, level). encoderError is what zstd.NewWriter reports, if anything. */
  function NewWriter(level: int, host: CpuCores.Host, encoderError: Option<string>): (r: Result<Writer, Error>)
    ensures (level < 0 || level > 11) ==> r == Failure(InvalidLevel(level, 11))
    ensures 0 <= level <= 11 && encoderError.Some? ==> r == Failure(Foreign(encoderError.value))
    ensures r.Success? <==> 0 <= level <= 11 && encoderError.None?
    ensures r.Success? ==> r.value.KlauspostEncoder? && r.value.level == level && r.value.concurrency >= 1
  {
    if level < 0 || level > MaxLevel then Failure(InvalidLevel(level, MaxLevel))
    else
      var workers := CpuCores.GetOptimalWorkerCount(host);
      match encoderError
      case Some(e) => Failure(Foreign(e))
      case None => Success(KlauspostEncoder(level, workers))
  }

  /** The encoder is configured with the worker heuristic's value, and only
      levels up to MaxCompressionLevel are accepted. */
  lemma NewWriterUsesWorkerCount(level: int, host: CpuCores.Host)
    requires NewWriter(level, host, None).Success?
    ensures NewWriter(level, host, None).value.concurrency == CpuCores.GetOptimalWorkerCount(host)
    ensures 0 <= level <= MaxCompressionLevel()
  {
  }

  /** NewReader(r). decoderError is what zstd.NewReader reports, if anything. */
  function NewReader(decoderError: Option<string>): (r: Result<Reader, Error>)
    ensures r.Success? <==> decoderError.None?
    ensures r.Success? ==> r.value == KlauspostDecoder(false)
    ensures r.Failure? ==> r.error == Foreign(decoderError.value)
  {
    match decoderError
    case Some(e) => Failure(Foreign(e))
    case None => Success(KlauspostDecoder(false))
  }

  /** zstdReadCloser.Close: closes the decoder and reports no error. */
  function Close(rd: Reader): (r: (Reader, Option<Error>))
    requires rd.KlauspostDecoder?
    ensures r.0 == KlauspostDecoder(true) && r.1 == None
  {
    (KlauspostDecoder(true), None)
  }
}

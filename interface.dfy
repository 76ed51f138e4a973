/**
 * The Compressor interface of compression/zstd/interface.go and Go's
 * dynamic dispatch over its two implementations.
 */
module Interface {
  import opened Wrappers
  import opened Streams
  import CpuCores
  import PureWrapper
  import GozstdWrapper

  /** A value of the interface: the field-less pure backend, or the native one
      with its availability flag. */
  datatype Compressor = Pure | Native(available: bool)

  /** The foreign outcomes a writer construction may depend on. */
  datatype WriterEnv = WriterEnv(
    host: CpuCores.Host,
    encoderError: Option<string>,          // zstd.NewWriter's error (pure backend)
    libDefault: int,                       // gozstd.DefaultCompressionLevel (native backend)
    injection: GozstdWrapper.Injection)    // fate of the worker injection (native backend)

  function Name(c: Compressor): (s: string)
    ensures s == (if c == Pure then "pure-go (klauspost/compress)"
                  else if c == Native(true) then "libzstd (via gozstd)"
                  else "gozstd (unavailable)")
  {
    match c
    case Pure => PureWrapper.Name()
    case Native(a) => GozstdWrapper.Name(GozstdWrapper.GozstdCompressor(a))
  }

  function IsLibzstdAvailable(c: Compressor): (b: bool)
    ensures b <==> c == Native(true)
  {
    match c
    case Pure => PureWrapper.IsLibzstdAvailable()
    case Native(a) => GozstdWrapper.IsLibzstdAvailable(GozstdWrapper.GozstdCompressor(a))
  }

  function MaxCompressionLevel(c: Compressor): (m: int)
    ensures m == (if c == Native(true) then 22 else if c == Pure then 11 else 0)
  {
    match c
    case Pure => PureWrapper.MaxCompressionLevel()
    case Native(a) => GozstdWrapper.MaxCompressionLevel(GozstdWrapper.GozstdCompressor(a))
  }

  /** An unavailable native backend refuses before looking at the level; the
      others refuse exactly the levels outside [0, MaxCompressionLevel], and
      build the encoder of their own library. */
  function NewWriter(c: Compressor, level: int, env: WriterEnv): (r: Result<Writer, Error>)
    ensures c == Native(false) ==> r == Failure(Unavailable)
    ensures c != Native(false) && (level < 0 || level > MaxCompressionLevel(c)) ==>
      r == Failure(InvalidLevel(level, MaxCompressionLevel(c)))
    ensures r.Success? ==> 0 <= level <= MaxCompressionLevel(c)
    ensures r.Failure? && r.error.InvalidLevel? ==>
      c != Native(false) && (level < 0 || level > MaxCompressionLevel(c))
    ensures c == Pure && 0 <= level <= 11 && r.Failure? ==>
      env.encoderError.Some? && r.error == Foreign(env.encoderError.value)
    ensures c == Native(true) && 0 <= level <= 22 ==> r.Success?
    ensures r.Success? ==> (r.value.KlauspostEncoder? <==> c == Pure)
  {
    match c
    case Pure => PureWrapper.NewWriter(level, env.host, env.encoderError)
    case Native(a) =>
      GozstdWrapper.NewWriter(GozstdWrapper.GozstdCompressor(a), level, env.host, env.libDefault, env.injection)
  }

  /** decoderError is what zstd.NewReader reports (pure backend only). */
  function NewReader(c: Compressor, decoderError: Option<string>): (r: Result<Reader, Error>)
    ensures r.Failure? <==> c == Native(false) || (c == Pure && decoderError.Some?)
    ensures r.Success? ==> !r.value.released && (r.value.KlauspostDecoder? <==> c == Pure)
  {
    match c
    case Pure => PureWrapper.NewReader(decoderError)
    case Native(a) => GozstdWrapper.NewReader(GozstdWrapper.GozstdCompressor(a))
  }

  /** The capability record's invariant: reporting libzstd goes with the
      native ceiling 22, the name tells the three variants apart, and a
      backend that can write at all has a maximum level of at least 11. */
  lemma CapabilitySurface(c: Compressor, d: Compressor)
    ensures IsLibzstdAvailable(c) ==> MaxCompressionLevel(c) == 22
    ensures !IsLibzstdAvailable(c) ==> MaxCompressionLevel(c) <= 11
    ensures Name(c) == Name(d) ==> c == d
    ensures MaxCompressionLevel(c) == 0 <==> c == Native(false)
  {
  }

  /** Every level a backend accepts lies in [0, MaxCompressionLevel]; and the
      whole window [0, MaxCompressionLevel] is accepted when the foreign
      constructor does not fail. */
  lemma AcceptedLevelsAreTheWindow(c: Compressor, level: int, env: WriterEnv)
    ensures NewWriter(c, level, env).Success? ==> 0 <= level <= MaxCompressionLevel(c)
    ensures c != Native(false) && env.encoderError.None? && 0 <= level <= MaxCompressionLevel(c)
      ==> NewWriter(c, level, env).Success?
  {
  }

  /** Levels -1 and 100, which the suite's invalid-level test uses, are
      rejected by both backends whether or not libzstd is present. */
  lemma InvalidLevelsRejected(c: Compressor, env: WriterEnv)
    ensures NewWriter(c, -1, env).Failure? && NewWriter(c, 100, env).Failure?
  {
  }
}

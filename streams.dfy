/**
 * The stream handles and errors that the two backends of compression/zstd
 * hand back. The encoders and decoders themselves belong to foreign codec
 * libraries; a handle records only what this layer decides about them.
 */
module Streams {
  import opened Wrappers

  /** A WriteFlushCloser as built by one of the two backends. */
  datatype Writer =
    | KlauspostEncoder(level: int, concurrency: int)
      // the library default level, or the level passed through; workers is
      // Some(n) only when the thread-count parameter was set on the native encoder
    | GozstdWriter(level: int, workers: Option<int>)

  /** An io.ReadCloser; released records whether Close has given back the decoder. */
  datatype Reader = KlauspostDecoder(released: bool) | GozstdReader(released: bool)

  datatype Error =
    | InvalidLevel(level: int, maxLevel: int)   // "invalid compression level %d: must be between 0 and %d"
    | Unavailable                               // "libzstd not available"
    | Foreign(message: string)                  // an error of the codec library, passed on unchanged
}

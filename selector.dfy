/**
 * The memoised backend choice of compression/zstd/selector.go: the package
 * variables defaultCompressor and once become the fields of a Selection
 * object. The environment variable STARGZ_FORCE_PURE_GO_ZSTD and the outcome
 * of the libzstd trial compression are inputs of GetCompressor; they are read
 * only on the first call.
 */
module Selector {
  import opened Wrappers
  import opened Interface
  import GozstdWrapper

  /** The decision body run under once.Do, with the intended constructor. */
  function Decide(forcePure: string, trial: GozstdWrapper.TrialCompress): (c: Compressor)
    ensures forcePure == "1" ==> c == Pure
    ensures c.Native? ==> c.available
    ensures forcePure != "1" ==> (c.Native? <==> trial == GozstdWrapper.Returned(true))
    ensures MaxCompressionLevel(c) >= 11
  {
    if forcePure == "1" then Pure
    else
      var g := GozstdWrapper.NewGozstdCompressor(trial);
      if GozstdWrapper.IsLibzstdAvailable(g) then Native(g.available) else Pure
  }

  /** Only the exact value "1" forces the pure backend; "", "0", "true" or any
      other value decide as if the variable were unset. */
  lemma OnlyOneForcesPure(forcePure: string, trial: GozstdWrapper.TrialCompress)
    requires forcePure != "1"
    ensures Decide(forcePure, trial) == Decide("", trial)
    ensures Decide("0", trial) == Decide("", trial) && Decide("true", trial) == Decide("", trial)
  {
  }

  /** The outcome of the decision body as written in the source. */
  datatype Decision = Chose(c: Compressor) | NilDereference

  /** The decision body as written, with the constructor that can return nil:
      calling IsLibzstdAvailable on a nil *GozstdCompressor panics. */
  function DecideAsWritten(forcePure: string, trial: GozstdWrapper.TrialCompress): (d: Decision)
    ensures d.NilDereference? <==> forcePure != "1" && trial.Panicked?
    ensures d.Chose? ==> d.c == Decide(forcePure, trial)
  {
    if forcePure == "1" then Chose(Pure)
    else match GozstdWrapper.NewGozstdCompressorAsWritten(trial)
      case None => NilDereference
      case Some(g) => if GozstdWrapper.IsLibzstdAvailable(g) then Chose(Native(g.available)) else Chose(Pure)
  }

  /** The discrepancy: a panicking trial, meant to mean "libzstd unusable",
      makes selection itself panic instead of falling back to the pure backend. */
  lemma PanickingTrialCrashesSelection()
    ensures DecideAsWritten("", GozstdWrapper.Panicked) == NilDereference
    ensures Decide("", GozstdWrapper.Panicked) == Pure
  {
  }

  class Selection {
    var defaultCompressor: Option<Compressor>   // None is Go's nil interface value
    var once: bool                              // whether once.Do has run its body
    ghost var probes: nat                       // trial compressions made so far

    /** The trial compression is made at most once, and only by the first call. */
    ghost predicate Valid()
      reads this
    {
      probes <= (if once then 1 else 0)
    }

    /** The state at package initialisation. */
    constructor ()
      ensures Valid()
      ensures defaultCompressor == None && !once && probes == 0
    {
      defaultCompressor := None;
      once := false;
      probes := 0;
    }

    method GetCompressor(forcePure: string, trial: GozstdWrapper.TrialCompress) returns (c: Option<Compressor>)
      requires Valid()
      modifies this
      ensures Valid() && once
      ensures !old(once) ==> defaultCompressor == Some(Decide(forcePure, trial))
      ensures old(once) ==> defaultCompressor == old(defaultCompressor)
      ensures probes == old(probes) + (if !old(once) && forcePure != "1" then 1 else 0)
      ensures c == defaultCompressor
    {
      if !once {
        once := true;
        if forcePure == "1" {
          defaultCompressor := Some(Pure);
        } else {
          probes := probes + 1;
          var g := GozstdWrapper.NewGozstdCompressor(trial);
          if GozstdWrapper.IsLibzstdAvailable(g) {
            defaultCompressor := Some(Native(g.available));
          } else {
            defaultCompressor := Some(Pure);
          }
        }
      }
      c := defaultCompressor;
    }

    /** SetCompressor(c): replaces the stored value without touching once. */
    method SetCompressor(c: Option<Compressor>)
      requires Valid()
      modifies this
      ensures Valid()
      ensures defaultCompressor == c && once == old(once) && probes == old(probes)
    {
      defaultCompressor := c;
    }
  }

  /** A value set before the first GetCompressor is overwritten by its decision. */
  method SetBeforeFirstGetIsLost(x: Option<Compressor>, forcePure: string, trial: GozstdWrapper.TrialCompress)
    returns (c: Option<Compressor>)
    ensures c == Some(Decide(forcePure, trial))
  {
    var s := new Selection();
    s.SetCompressor(x);
    c := s.GetCompressor(forcePure, trial);
  }

  /** A value set after the first GetCompressor is what every later call returns,
      whatever the environment says by then. */
  method SetAfterFirstGetSticks(x: Option<Compressor>, f1: string, t1: GozstdWrapper.TrialCompress,
                                f2: string, t2: GozstdWrapper.TrialCompress, f3: string, t3: GozstdWrapper.TrialCompress)
    returns (c2: Option<Compressor>, c3: Option<Compressor>)
    ensures c2 == x && c3 == x
  {
    var s := new Selection();
    var c1 := s.GetCompressor(f1, t1);
    s.SetCompressor(x);
    c2 := s.GetCompressor(f2, t2);
    c3 := s.GetCompressor(f3, t3);
  }

  /** Without SetCompressor, later calls return the first decision: changes to the
      environment or to libzstd's state after the first call have no effect, and
      the trial compression is not repeated. */
  method RepeatedGetIsMemoised(f1: string, t1: GozstdWrapper.TrialCompress, f2: string, t2: GozstdWrapper.TrialCompress)
    returns (c1: Option<Compressor>, c2: Option<Compressor>)
    ensures c1 == c2 == Some(Decide(f1, t1))
    ensures c1.value.Native? ==> c1.value.available
    ensures MaxCompressionLevel(c1.value) >= 1
  {
    var s := new Selection();
    c1 := s.GetCompressor(f1, t1);
    c2 := s.GetCompressor(f2, t2);
  }
}

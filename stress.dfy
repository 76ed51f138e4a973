/**
 * The fault-injecting sink of compression/zstd/testsuite/stress_test.go:
 * failingWriter accepts bytes until failAfter of them have been written, then
 * fails, and the min helper of the same file.
 */
module Stress {
  import opened Wrappers
  import opened Bytes

  datatype WriteError =
    | FailedAfter(limit: int)   // "write failed after %d bytes"
    | Failed                    // "write failed"

  class FailingWriter {
    var written: int
    const failAfter: int

    /** Once anything is written, the count stays within the limit. */
    ghost predicate Valid()
      reads this
    {
      0 <= written && (written == 0 || written <= failAfter)
    }

    /** &failingWriter{failAfter: failAfter} */
    constructor (failAfter: int)
      ensures Valid() && written == 0 && this.failAfter == failAfter
    {
      written := 0;
      this.failAfter := failAfter;
    }

    method Write(p: seq<byte>) returns (n: int, err: Option<WriteError>)
      requires Valid()
      modifies this
      ensures Valid()
      ensures old(written) + |p| <= failAfter ==> n == |p| && err == None && written == old(written) + |p|
      ensures old(written) + |p| > failAfter && failAfter - old(written) > 0 ==>
        n == failAfter - old(written) && err == Some(FailedAfter(failAfter)) && written == failAfter
      ensures old(written) + |p| > failAfter && failAfter - old(written) <= 0 ==>
        n == 0 && err == Some(Failed) && written == old(written)
      ensures 0 <= n <= |p|
      ensures failAfter >= 0 ==> (err.Some? <==> n < |p|)
      ensures written == old(written) + n
    {
      if written + |p| > failAfter {
        var canWrite := failAfter - written;
        if canWrite > 0 {
          written := written + canWrite;
          return canWrite, Some(FailedAfter(failAfter));
        }
        return 0, Some(Failed);
      }
      written := written + |p|;
      return |p|, None;
    }
  }

  /** Once the limit is reached, every non-empty write fails without writing. */
  method ExhaustedWriterRejects(limit: nat, first: seq<byte>, p: seq<byte>)
    returns (n: int, err: Option<WriteError>)
    requires |first| >= limit && |p| > 0
    ensures n == 0 && err == Some(Failed)
  {
    var w := new FailingWriter(limit);
    var n1, e1 := w.Write(first);
    n, err := w.Write(p);
  }

  /** A run of writes stops short exactly at the limit: the accepted bytes of a
      write that crosses it add up to failAfter. */
  method CrossingWriteIsShort(limit: nat, a: seq<byte>, b: seq<byte>)
    returns (n1: int, n2: int, err2: Option<WriteError>)
    requires |a| < limit < |a| + |b|
    ensures n1 == |a| && n1 + n2 == limit && err2 == Some(FailedAfter(limit))
  {
    var w := new FailingWriter(limit);
    var e1;
    n1, e1 := w.Write(a);
    n2, err2 := w.Write(b);
  }

  /** min(a, b) */
  function Min(a: int, b: int): (r: int)
    ensures r <= a && r <= b
    ensures r == a || r == b
  {
    if a < b then a else b
  }
}

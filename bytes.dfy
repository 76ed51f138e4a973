/**
 * Byte strings and the few slice operations of Go that the generators use:
 * conversion of an ASCII literal to []byte, the built-in copy, and the
 * "first n bytes of an endless concatenation of pieces" view of a loop that
 * appends pieces to a bytes.Buffer until it is long enough.
 */
module Bytes {
  newtype byte = x: int | 0 <= x < 256

  const NL: byte := 10
  const SP: byte := 32

  /** []byte(s) for a Go string literal; every literal modelled here is ASCII,
      where the UTF-8 encoding is the character code itself. */
  function AsBytes(s: string): (r: seq<byte>)
    ensures |r| == |s|
  {
    seq(|s|, i requires 0 <= i < |s| => (s[i] as int % 256) as byte)
  }

  /** The pattern repeated without end, cut to n bytes. */
  function Cycle(pattern: seq<byte>, n: nat): (r: seq<byte>)
    requires |pattern| > 0
    ensures |r| == n
  {
    seq(n, i requires 0 <= i < n => pattern[i % |pattern|])
  }

  /** bytes.Repeat(pattern, count): count copies of pattern, one after the other. */
  function Repeat(pattern: seq<byte>, count: nat): (r: seq<byte>)
    ensures |r| == count * |pattern|
  {
    if count == 0 then [] else Repeat(pattern, count - 1) + pattern
  }

  lemma {:induction false} RepeatIsCycle(pattern: seq<byte>, count: nat)
    requires |pattern| > 0
    ensures |Repeat(pattern, count)| == count * |pattern|
    ensures Repeat(pattern, count) == Cycle(pattern, count * |pattern|)
  {
    if count > 0 {
      RepeatIsCycle(pattern, count - 1);
      var prev := Repeat(pattern, count - 1);
      var n := (count - 1) * |pattern|;
      forall i | 0 <= i < count * |pattern|
        ensures Repeat(pattern, count)[i] == pattern[i % |pattern|]
      {
        if i >= n {
          ModShift(i, count - 1, |pattern|);
        }
      }
    }
  }

  /** j lies in the block that starts at q * d, so its remainder is its offset there. */
  lemma ModShift(j: int, q: nat, d: nat)
    requires d > 0 && q * d <= j < q * d + d
    ensures j % d == j - q * d
  {
    var t := j / d - q;
    assert d * t == (j - q * d) - j % d;
    if t >= 1 {
      MulAtLeast(d, t);
    } else if t <= -1 {
      MulAtLeast(d, -t);
    }
  }

  lemma MulAtLeast(d: nat, t: int)
    requires t >= 1
    ensures d * t >= d
  {
    assert d * t == d + d * (t - 1);
  }

  /** Go's copy(dst[off:], src): copies min(len(dst) - off, len(src)) bytes. */
  method Copy(dst: array<byte>, off: nat, src: seq<byte>) returns (n: nat)
    requires off <= dst.Length
    modifies dst
    ensures n == if |src| < dst.Length - off then |src| else dst.Length - off
    ensures forall i :: 0 <= i < dst.Length ==>
      dst[i] == if off <= i < off + n then src[i - off] else old(dst[i])
  {
    n := if |src| < dst.Length - off then |src| else dst.Length - off;
    forall i | off <= i < off + n {
      dst[i] := src[i - off];
    }
  }

  /** The concatenation of the first k pieces of an endless sequence of pieces. */
  function Take(piece: nat -> seq<byte>, k: nat): (r: seq<byte>)
  {
    if k == 0 then [] else Take(piece, k - 1) + piece(k - 1)
  }

  ghost predicate NonEmptyPieces(piece: nat -> seq<byte>)
  {
    forall i :: |piece(i)| >= 1
  }

  lemma {:induction false} TakeLength(piece: nat -> seq<byte>, k: nat)
    requires NonEmptyPieces(piece)
    ensures |Take(piece, k)| >= k
  {
    if k > 0 {
      TakeLength(piece, k - 1);
      assert |piece(k - 1)| >= 1;
    }
  }

  lemma {:induction false} TakePrefix(piece: nat -> seq<byte>, j: nat, k: nat)
    requires j <= k
    ensures |Take(piece, j)| <= |Take(piece, k)|
    ensures Take(piece, k)[..|Take(piece, j)|] == Take(piece, j)
  {
    if j < k {
      TakePrefix(piece, j, k - 1);
      assert Take(piece, k) == Take(piece, k - 1) + piece(k - 1);
    }
  }

  lemma ConcatAssoc(a: seq<byte>, b: seq<byte>, c: seq<byte>)
    ensures (a + b) + c == a + (b + c)
  {
  }

  /** Appending part of the next piece extends the concatenation. */
  lemma TakeStep(piece: nat -> seq<byte>, k: nat, n: nat)
    requires n <= |piece(k)|
    ensures Take(piece, k + 1)[..|Take(piece, k)| + n] == Take(piece, k) + piece(k)[..n]
  {
    assert Take(piece, k + 1) == Take(piece, k) + piece(k);
  }

  /** The first n bytes of piece(0) + piece(1) + ... */
  function StreamPrefix(piece: nat -> seq<byte>, n: nat): (r: seq<byte>)
    requires NonEmptyPieces(piece)
    ensures |r| == n
  {
    TakeLength(piece, n);
    Take(piece, n)[..n]
  }

  lemma {:induction false} TakeConstant(pattern: seq<byte>, piece: nat -> seq<byte>, k: nat)
    requires forall i :: piece(i) == pattern
    ensures Take(piece, k) == Repeat(pattern, k)
  {
    if k > 0 {
      TakeConstant(pattern, piece, k - 1);
      assert piece(k - 1) == pattern;
    }
  }

  /** Repeating one pattern without end is cycling through it. */
  lemma StreamOfConstant(pattern: seq<byte>, piece: nat -> seq<byte>, n: nat)
    requires |pattern| > 0 && forall i :: piece(i) == pattern
    ensures NonEmptyPieces(piece)
    ensures StreamPrefix(piece, n) == Cycle(pattern, n)
  {
    forall i ensures |piece(i)| >= 1 {
      assert piece(i) == pattern;
    }
    var d := |pattern|;
    var k := n / d + 1;
    assert k * d == (n / d) * d + d;
    TakeConstant(pattern, piece, k);
    RepeatIsCycle(pattern, k);
    StreamPrefixOf(piece, k, n);
  }

  /** Any long enough finite concatenation agrees with the endless one. */
  lemma StreamPrefixOf(piece: nat -> seq<byte>, k: nat, n: nat)
    requires NonEmptyPieces(piece)
    requires |Take(piece, k)| >= n
    ensures Take(piece, k)[..n] == StreamPrefix(piece, n)
  {
    TakeLength(piece, n);
    if k <= n {
      TakePrefix(piece, k, n);
    } else {
      TakePrefix(piece, n, k);
    }
  }

  lemma StreamPrefixMonotone(piece: nat -> seq<byte>, n: nat, m: nat)
    requires NonEmptyPieces(piece)
    requires n <= m
    ensures StreamPrefix(piece, n) == StreamPrefix(piece, m)[..n]
  {
    TakeLength(piece, m);
    StreamPrefixOf(piece, m, n);
  }
}

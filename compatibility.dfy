/**
 * Data builders of compression/zstd/testsuite/compatibility_test.go.
 */
module Compatibility {
  import opened Bytes

  /** generateBinaryData(size): byte i is i & 0xFF. */
  method GenerateBinaryData(size: nat) returns (r: seq<byte>)
    ensures |r| == size
    ensures forall i :: 0 <= i < size ==> r[i] as int == i % 256
  {
    var data := new byte[size];
    for i := 0 to size
      invariant forall j :: 0 <= j < i ==> data[j] as int == j % 256
    {
      data[i] := (i % 256) as byte;
    }
    r := data[..];
  }

  /** The four patterns of generateMixedContent, in order. */
  const Patterns: seq<seq<byte>> :=
    [AsBytes("text content "), [0x00, 0x01, 0x02, 0x03], AsBytes("more text\n"), [0xFF, 0xFE, 0xFD, 0xFC]]

  /** The pattern copied by iteration k. */
  function MixedPattern(k: nat): (p: seq<byte>)
    ensures |p| >= 4
  {
    Patterns[k % |Patterns|]
  }

  /** generateMixedContent(size): the first size bytes of the endless
      concatenation pattern 0, 1, 2, 3, 0, 1, ...; iteration k copies pattern
      k mod 4, and only the final copy may be cut short. */
  method GenerateMixedContent(size: nat) returns (r: seq<byte>)
    ensures |r| == size
    ensures r == StreamPrefix(MixedPattern, size)
  {
    var data := new byte[size];
    var pos: nat := 0;
    var patternIdx: nat := 0;
    while pos < size
      invariant pos <= size && pos <= |Take(MixedPattern, patternIdx)|
      invariant pos < size ==> pos == |Take(MixedPattern, patternIdx)|
      invariant data[..pos] == Take(MixedPattern, patternIdx)[..pos]
      decreases size - pos
    {
      var pattern := Patterns[patternIdx % |Patterns|];
      assert pattern == MixedPattern(patternIdx);
      ghost var before := data[..pos];
      var n := Copy(data, pos, pattern);
      assert data[..pos + n] == before + pattern[..n] by {
        forall j | 0 <= j < pos + n ensures data[j] == (before + pattern[..n])[j] {
        }
      }
      TakeStep(MixedPattern, patternIdx, n);
      pos := pos + n;
      patternIdx := patternIdx + 1;
    }
    StreamPrefixOf(MixedPattern, patternIdx, size);
    r := data[..];
    assert r == data[..pos];
  }
}

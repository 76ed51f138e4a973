/**
 * Helpers of compression/zstd/testsuite/common_test.go: the size and level
 * labels used to name sub-tests, and the deterministic generators of
 * TestDataPatterns. testsuite_test.go carries the same code.
 */
module CommonTest {
  import opened Wrappers
  import opened Bytes
  import opened Decimal

  /** The 45-byte phrase that the suite's compressible data repeats. */
  const QuickBrownFox: seq<byte> := AsBytes("The quick brown fox jumps over the lazy dog. ")

  lemma QuickBrownFoxLength()
    ensures |QuickBrownFox| == 45
  {
  }

  /** The divisor that formatSize applies to size. */
  function SizeScale(size: int): (d: nat)
  {
    if size >= 1048576 then 1048576 else if size >= 1024 then 1024 else 1
  }

  /** formatSize(size): whole mebibytes, whole kibibytes, or bytes. */
  function FormatSize(size: int): (s: string)
    ensures |s| >= 2 && s[|s| - 1] == 'B'
    ensures s[|s| - 2] == 'M' <==> size >= 1048576
    ensures s[|s| - 2] == 'K' <==> 1024 <= size < 1048576
  {
    if size >= 1048576 then FormatInt(size / 1048576) + "MB"
    else if size >= 1024 then FormatInt(size / 1024) + "KB"
    else FormatInt(size) + "B"
  }

  /** The number before the unit reads back as size divided by its scale,
      rounded down. */
  lemma FormatSizeReadsBack(size: int)
    requires MinInt64 <= size <= MaxInt64
    ensures var s := FormatSize(size);
      var unit := if SizeScale(size) == 1 then 1 else 2;
      s[..|s| - unit] == FormatInt(size / SizeScale(size)) &&
      Atoi(s[..|s| - unit]) == Some(size / SizeScale(size))
  {
    var s := FormatSize(size);
    var q := size / SizeScale(size);
    assert MinInt64 <= q <= MaxInt64;
    AtoiFormatInt(q);
    if SizeScale(size) == 1 {
      assert s[..|s| - 1] == FormatInt(q);
    } else {
      assert s[..|s| - 2] == FormatInt(q);
    }
  }

  /** Labels the suite's benchmarks and tables produce; division truncates. */
  lemma FormatSizeExamples()
    ensures FormatSize(0) == "0B" && FormatSize(100) == "100B" && FormatSize(1023) == "1023B"
    ensures FormatSize(1024) == "1KB" && FormatSize(1536) == "1KB" && FormatSize(65536) == "64KB"
    ensures FormatSize(1048576) == "1MB" && FormatSize(10485760) == "10MB"
  {
    assert FormatInt(0) == "0" && FormatInt(1) == "1";
    assert FormatInt(100) == "100" && FormatInt(1023) == "1023";
    assert FormatInt(64) == "64" && FormatInt(10) == "10";
  }

  /** formatLevel(level) */
  function FormatLevel(level: int): (s: string)
    ensures |s| > 5 && s[..5] == "Level"
  {
    "Level" + FormatInt(level)
  }

  /** The level is recoverable from its label, so distinct levels get distinct names. */
  lemma FormatLevelReadsBack(level: int)
    requires MinInt64 <= level <= MaxInt64
    ensures FormatLevel(level)[5..] == FormatInt(level)
    ensures Atoi(FormatLevel(level)[5..]) == Some(level)
  {
    assert FormatLevel(level)[5..] == FormatInt(level);
    AtoiFormatInt(level);
  }

  /** The Zeros generator: make([]byte, size). */
  function Zeros(size: nat): (r: seq<byte>)
    ensures |r| == size && forall i :: 0 <= i < size ==> r[i] == 0
  {
    seq(size, _ => 0)
  }

  /** The Repetitive generator: byte i is pattern[i % len(pattern)]. */
  method GenerateRepetitive(size: nat) returns (r: seq<byte>)
    ensures r == Cycle(QuickBrownFox, size)
  {
    var pattern := QuickBrownFox;
    var data := new byte[size];
    for i := 0 to size
      invariant forall j :: 0 <= j < i ==> data[j] == pattern[j % |pattern|]
    {
      data[i] := pattern[i % |pattern|];
    }
    r := data[..];
  }
}

/**
 * generateTestData of compression/zstd/benchmark_test.go: one mebibyte of
 * the repeated 45-byte phrase, written block by block with copy.
 */
module Benchmark {
  import opened Bytes
  import CommonTest

  const TestDataSize: nat := 1024 * 1024

  method GenerateTestData() returns (r: seq<byte>)
    ensures |r| == TestDataSize
    ensures r == Cycle(CommonTest.QuickBrownFox, TestDataSize)
  {
    var size := TestDataSize;
    var data := new byte[size];
    var pattern := CommonTest.QuickBrownFox;
    var i: nat := 0;
    ghost var blocks: nat := 0;
    while i < size
      invariant i == blocks * |pattern|
      invariant forall j :: 0 <= j < size && j < i ==> data[j] == pattern[j % |pattern|]
      decreases size - i
    {
      var n := Copy(data, i, pattern);
      forall j | i <= j < i + n
        ensures data[j] == pattern[j % |pattern|]
      {
        ModShift(j, blocks, |pattern|);
      }
      i := i + |pattern|;
      blocks := blocks + 1;
    }
    r := data[..];
  }

  /** The last block is cut to 1048576 mod 45 = 31 bytes: the data ends with
      the phrase's first 31 bytes. */
  lemma FinalBlockIsTruncated()
    ensures TestDataSize % 45 == 31
    ensures Cycle(CommonTest.QuickBrownFox, TestDataSize)[TestDataSize - 31..] == CommonTest.QuickBrownFox[..31]
  {
    var c := Cycle(CommonTest.QuickBrownFox, TestDataSize);
    CommonTest.QuickBrownFoxLength();
    forall j | 0 <= j < 31
      ensures c[TestDataSize - 31 + j] == CommonTest.QuickBrownFox[j]
    {
      ModShift(TestDataSize - 31 + j, TestDataSize / 45, 45);
    }
  }
}

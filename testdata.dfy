/**
 * The source-code test corpus of compression/zstd/testsuite/testdata_generator.go.
 * The Go files that the directory walk would collect are an input of the
 * cache, and so are the three embedded fallback samples. Every call of
 * createTestData seeds its own generator with 42, so all of them see the same
 * draws: raw(k) % len(sources) is the k-th pick.
 */
module TestData {
  import opened Wrappers
  import opened Bytes

  const MiB: nat := 1024 * 1024

  /** The program that createTestData repeats when it has no sources. */
  const FallbackPattern: seq<byte> :=
    AsBytes("package main\n\nimport \"fmt\"\n\nfunc main() {\n\tfmt.Println(\"Hello, World!\")\n}\n")

  /** Iteration k of createTestData's loop: the picked source and a newline;
      without sources every piece is the fallback program. */
  function Pieces(sources: seq<seq<byte>>, raw: nat -> nat): (piece: nat -> seq<byte>)
  {
    if |sources| == 0 then (k: nat) => FallbackPattern
    else (k: nat) => sources[raw(k) % |sources|] + [NL]
  }

  lemma PiecesNonEmpty(sources: seq<seq<byte>>, raw: nat -> nat)
    ensures NonEmptyPieces(Pieces(sources, raw))
  {
    forall k: nat ensures |Pieces(sources, raw)(k)| >= 1 {
      if |sources| > 0 {
        assert Pieces(sources, raw)(k) == sources[raw(k) % |sources|] + [NL];
      }
    }
  }

  /** What createTestData(sources, n) returns: the first n bytes of the
      pieces laid end to end. */
  function TestDataSpec(sources: seq<seq<byte>>, raw: nat -> nat, n: nat): (r: seq<byte>)
    ensures |r| == n
  {
    PiecesNonEmpty(sources, raw);
    StreamPrefix(Pieces(sources, raw), n)
  }

  /** Without sources the data is the fallback program, cycled. */
  lemma FallbackIsCycle(raw: nat -> nat, n: nat)
    ensures TestDataSpec([], raw, n) == Cycle(FallbackPattern, n)
  {
    StreamOfConstant(FallbackPattern, Pieces([], raw), n);
  }

  /** The fallback branch of createTestData: bytes.Repeat(pattern,
      targetSize/len(pattern)+1)[:targetSize]. */
  lemma FallbackRepeat(raw: nat -> nat, targetSize: nat)
    ensures var count := targetSize / |FallbackPattern| + 1;
      targetSize <= |Repeat(FallbackPattern, count)| &&
      Repeat(FallbackPattern, count)[..targetSize] == TestDataSpec([], raw, targetSize)
  {
    var d := |FallbackPattern|;
    var count := targetSize / d + 1;
    assert count * d == (targetSize / d) * d + d;
    RepeatIsCycle(FallbackPattern, count);
    FallbackIsCycle(raw, targetSize);
  }

  /** One iteration of createTestData's loop: writing the picked source and
      a newline, or only the part of it that still fits, extends the buffer
      along the pieces. */
  lemma WriteStep(piece: nat -> seq<byte>, k: nat, buf: seq<byte>, source: seq<byte>, remaining: nat)
    requires buf == Take(piece, k) && piece(k) == source + [NL]
    ensures |source| <= remaining ==> buf + source + [NL] == Take(piece, k + 1)
    ensures |source| > remaining ==>
      |buf + source[..remaining]| <= |Take(piece, k + 1)| &&
      buf + source[..remaining] == Take(piece, k + 1)[..|buf| + remaining]
  {
    assert Take(piece, k + 1) == buf + (source + [NL]);
    ConcatAssoc(buf, source, [NL]);
    if |source| > remaining {
      assert (buf + (source + [NL]))[..|buf| + remaining] == buf + source[..remaining];
    }
  }

  /** createTestData(sources, targetSize) */
  method CreateTestData(sources: seq<seq<byte>>, raw: nat -> nat, targetSize: nat) returns (r: seq<byte>)
    ensures |r| == targetSize
    ensures r == TestDataSpec(sources, raw, targetSize)
  {
    if |sources| == 0 {
      var pattern := FallbackPattern;
      FallbackRepeat(raw, targetSize);
      r := Repeat(pattern, targetSize / |pattern| + 1)[..targetSize];
      return;
    }
    var piece := Pieces(sources, raw);
    PiecesNonEmpty(sources, raw);
    var buf: seq<byte> := [];
    var k: nat := 0;
    while |buf| < targetSize
      invariant |buf| <= |Take(piece, k)| && buf == Take(piece, k)[..|buf|]
      invariant |buf| < targetSize ==> buf == Take(piece, k)
      decreases targetSize - |buf|
    {
      var source := sources[raw(k) % |sources|];
      var remaining := targetSize - |buf|;
      WriteStep(piece, k, buf, source, remaining);
      if |source| <= remaining {
        buf := buf + source + [NL];
      } else {
        buf := buf + source[..remaining];
      }
      k := k + 1;
    }
    StreamPrefixOf(piece, k, targetSize);
    r := buf[..targetSize];
  }

  /** Runs with the same sources and draws agree on their common prefix, so
      every cache entry is a prefix of every larger one. */
  lemma TestDataIsPrefixClosed(sources: seq<seq<byte>>, raw: nat -> nat, n: nat, m: nat)
    requires n <= m
    ensures TestDataSpec(sources, raw, n) == TestDataSpec(sources, raw, m)[..n]
  {
    PiecesNonEmpty(sources, raw);
    StreamPrefixMonotone(Pieces(sources, raw), n, m);
  }

  /** The five keys of the cache, "small" to "xxlarge". */
  datatype Bucket = Small | Medium | Large | XLarge | XXLarge

  function Key(b: Bucket): (k: string)
  {
    match b
    case Small => "small"
    case Medium => "medium"
    case Large => "large"
    case XLarge => "xlarge"
    case XXLarge => "xxlarge"
  }

  /** Distinct buckets have distinct Go keys, so a map over Bucket is the
      map initTestData fills, key for key. */
  lemma KeyInjective(a: Bucket, b: Bucket)
    ensures Key(a) == Key(b) ==> a == b
  {
  }

  /** The size initTestData gives each entry. */
  function EntrySize(b: Bucket): (n: nat)
  {
    match b
    case Small => 1024
    case Medium => 10 * 1024
    case Large => 100 * 1024
    case XLarge => MiB
    case XXLarge => 10 * MiB
  }

  /** The entry GetSourceCodeData reads for sizes up to 10 MiB: the smallest
      whose size is at least the size asked for. */
  function BucketFor(size: nat): (b: Bucket)
    requires size <= 10 * MiB
    ensures size <= EntrySize(b)
    ensures forall c: Bucket :: size <= EntrySize(c) ==> EntrySize(b) <= EntrySize(c)
  {
    if size <= 1024 then Small
    else if size <= 10 * 1024 then Medium
    else if size <= 100 * 1024 then Large
    else if size <= MiB then XLarge
    else XXLarge
  }

  /** createTestData over fixed sources and draws, as a function of the size. */
  function Generator(sources: seq<seq<byte>>, raw: nat -> nat): (gen: nat -> seq<byte>)
  {
    (n: nat) => TestDataSpec(sources, raw, n)
  }

  /** m is the cache initTestData fills: every key holds gen of the key's size. */
  ghost predicate IsFilledCache(m: map<Bucket, seq<byte>>, gen: nat -> seq<byte>)
  {
    forall b: Bucket :: b in m && m[b] == gen(EntrySize(b))
  }

  lemma FilledCacheOf(gen: nat -> seq<byte>, small: seq<byte>, medium: seq<byte>,
                      large: seq<byte>, xlarge: seq<byte>, xxlarge: seq<byte>)
    requires small == gen(EntrySize(Small))
    requires medium == gen(EntrySize(Medium))
    requires large == gen(EntrySize(Large))
    requires xlarge == gen(EntrySize(XLarge))
    requires xxlarge == gen(EntrySize(XXLarge))
    ensures IsFilledCache(map[Small := small, Medium := medium, Large := large,
                              XLarge := xlarge, XXLarge := xxlarge], gen)
  {
    var m := map[Small := small, Medium := medium, Large := large,
                 XLarge := xlarge, XXLarge := xxlarge];
    forall b: Bucket
      ensures b in m && m[b] == gen(EntrySize(b))
    {
      match b
      case Small =>
      case Medium =>
      case Large =>
      case XLarge =>
      case XXLarge =>
    }
  }

  /** The five createTestData calls of initTestData. */
  method FillCache(sourceFiles: seq<seq<byte>>, raw: nat -> nat) returns (m: map<Bucket, seq<byte>>)
    ensures IsFilledCache(m, Generator(sourceFiles, raw))
  {
    var small := CreateTestData(sourceFiles, raw, EntrySize(Small));
    var medium := CreateTestData(sourceFiles, raw, EntrySize(Medium));
    var large := CreateTestData(sourceFiles, raw, EntrySize(Large));
    var xlarge := CreateTestData(sourceFiles, raw, EntrySize(XLarge));
    var xxlarge := CreateTestData(sourceFiles, raw, EntrySize(XXLarge));
    FilledCacheOf(Generator(sourceFiles, raw), small, medium, large, xlarge, xxlarge);
    m := map[Small := small, Medium := medium, Large := large, XLarge := xlarge, XXLarge := xxlarge];
  }

  /** The default branch of GetSourceCodeData: the largest entry written again
      and again from offset 0 until size bytes are filled. */
  method RepeatLargest(data: seq<byte>, size: nat) returns (r: seq<byte>)
    requires |data| > 0
    ensures r == Cycle(data, size)
  {
    var result := new byte[size];
    var i: nat := 0;
    ghost var blocks: nat := 0;
    while i < size
      invariant i == blocks * |data|
      invariant forall j :: 0 <= j < size && j < i ==> result[j] == data[j % |data|]
      decreases size - i
    {
      var n := Copy(result, i, data);
      forall j | i <= j < i + n
        ensures result[j] == data[j % |data|]
      {
        ModShift(j, blocks, |data|);
      }
      i := i + |data|;
      blocks := blocks + 1;
    }
    r := result[..];
  }

  /** The four comments that GetVariedSourceData writes over the base data. */
  const Comments: seq<seq<byte>> := [
    AsBytes("// TODO: optimize this\n"),
    AsBytes("// FIXME: handle edge case\n"),
    AsBytes("// NOTE: performance critical section\n"),
    AsBytes("/* Multi-line comment\n * explaining the logic\n */\n")]

  /** A comment table the overwriting loop can use: non-empty, and every
      comment is non-empty and shorter than the 100 bytes that must remain. */
  ghost predicate Insertable(comments: seq<seq<byte>>)
  {
    |comments| > 0 && forall i :: 0 <= i < |comments| ==> 1 <= |comments[i]| < 100
  }

  lemma CommentsInsertable()
    ensures |Comments| == 4 && Insertable(Comments)
  {
  }

  /** comments[r.Intn(len(comments))] for the draw d. */
  function Pick(comments: seq<seq<byte>>, d: nat): (c: seq<byte>)
    requires Insertable(comments)
    ensures 1 <= |c| < 100
  {
    comments[d % |comments|]
  }

  /** The bytes GetVariedSourceData writes from position pos on, at loop
      iteration k: a comment when iteration k writes one and more than 100 bytes
      remain, otherwise the rest of the base data. k is in draws when the
      Float32 draw of iteration k is below 0.1, and draws[k] is then the draw
      that r.Intn(len(comments)) reduces. */
  function Varied(base: seq<byte>, comments: seq<seq<byte>>, draws: imap<nat, nat>, pos: nat, k: nat): (r: seq<byte>)
    requires Insertable(comments) && pos <= |base|
    ensures |r| == |base| - pos
    decreases |base| - pos
  {
    if pos == |base| then []
    else if k in draws && pos + 100 < |base| then
      var c := Pick(comments, draws[k]);
      c + Varied(base, comments, draws, pos + |c|, k + 1)
    else base[pos..]
  }

  /** The position at which the base-copy branch runs. */
  function CopyStart(base: seq<byte>, comments: seq<seq<byte>>, draws: imap<nat, nat>, pos: nat, k: nat): (p: nat)
    requires Insertable(comments) && pos < |base|
    ensures pos <= p < |base|
    decreases |base| - pos
  {
    if k in draws && pos + 100 < |base| then
      CopyStart(base, comments, draws, pos + |Pick(comments, draws[k])|, k + 1)
    else pos
  }

  /** The copy branch runs exactly once: from its start on, every byte of the
      result is the byte of the base data at the same position. */
  lemma {:induction false} VariedEndsWithBase(base: seq<byte>, comments: seq<seq<byte>>, draws: imap<nat, nat>,
                                              pos: nat, k: nat, i: nat)
    requires Insertable(comments) && pos < |base|
    requires CopyStart(base, comments, draws, pos, k) <= i < |base|
    ensures Varied(base, comments, draws, pos, k)[i - pos] == base[i]
    decreases |base| - pos
  {
    if k in draws && pos + 100 < |base| {
      var c := Pick(comments, draws[k]);
      var rest := Varied(base, comments, draws, pos + |c|, k + 1);
      assert Varied(base, comments, draws, pos, k) == c + rest;
      VariedEndsWithBase(base, comments, draws, pos + |c|, k + 1, i);
    }
  }

  /** Data of at most 100 bytes is never varied: a comment needs more than
      100 bytes after its position. */
  lemma ShortDataIsUnvaried(base: seq<byte>, comments: seq<seq<byte>>, draws: imap<nat, nat>)
    requires Insertable(comments) && |base| <= 100
    ensures Varied(base, comments, draws, 0, 0) == base
  {
  }

  /** Without a draw below 0.1 the result is the base data itself. */
  lemma NoDrawsNoVariation(base: seq<byte>, comments: seq<seq<byte>>, pos: nat, k: nat)
    requires Insertable(comments) && pos <= |base|
    ensures Varied(base, comments, imap[], pos, k) == base[pos..]
  {
  }

  /** A comment drawn at the first iteration opens the result. */
  lemma FirstCommentOpens(base: seq<byte>, comments: seq<seq<byte>>, draws: imap<nat, nat>)
    requires Insertable(comments) && 0 in draws && 100 < |base|
    ensures var c := Pick(comments, draws[0]);
      Varied(base, comments, draws, 0, 0)[..|c|] == c
  {
    var c := Pick(comments, draws[0]);
    assert Varied(base, comments, draws, 0, 0) == c + Varied(base, comments, draws, |c|, 1);
  }

  /** One comment iteration keeps "written so far + what is still to come". */
  lemma InsertKeeps(base: seq<byte>, comments: seq<seq<byte>>, draws: imap<nat, nat>, pos: nat, k: nat,
                    written: seq<byte>, whole: seq<byte>)
    requires Insertable(comments) && k in draws && pos + 100 < |base|
    requires written + Varied(base, comments, draws, pos, k) == whole
    ensures var c := Pick(comments, draws[k]);
      (written + c) + Varied(base, comments, draws, pos + |c|, k + 1) == whole
  {
    var c := Pick(comments, draws[k]);
    ConcatAssoc(written, c, Varied(base, comments, draws, pos + |c|, k + 1));
  }

  /** The copy iteration writes everything that is still to come. */
  lemma CopyKeeps(base: seq<byte>, comments: seq<seq<byte>>, draws: imap<nat, nat>, pos: nat, k: nat,
                  written: seq<byte>, whole: seq<byte>)
    requires Insertable(comments) && pos < |base| && !(k in draws && pos + 100 < |base|)
    requires written + Varied(base, comments, draws, pos, k) == whole
    ensures (written + base[pos..]) + Varied(base, comments, draws, |base|, k + 1) == whole
  {
    assert Varied(base, comments, draws, |base|, k + 1) == [];
  }

  /** The copy branch of GetVariedSourceData's loop: the rest of the base
      data, read from offset pos % len(baseData), which is pos itself. */
  method CopyBase(result: array<byte>, pos: nat, baseData: seq<byte>) returns (n: nat)
    requires pos < |baseData| == result.Length
    modifies result
    ensures n == |baseData| - pos
    ensures result[..] == old(result[..pos]) + baseData[pos..]
  {
    var size := result.Length;
    var remaining := size - pos;
    ModShift(pos, 0, |baseData|);
    var basePos := pos % |baseData|;
    var toCopy := remaining;
    if basePos + toCopy > |baseData| {
      toCopy := |baseData| - basePos;
    }
    ghost var before := result[..pos];
    n := Copy(result, pos, baseData[basePos..basePos + toCopy]);
    assert result[..] == before + baseData[pos..];
  }

  /** The comment branch of GetVariedSourceData's loop: copy(result[pos:],
      comment) with pos + 100 < len(result), so the whole comment fits. */
  method CopyComment(result: array<byte>, pos: nat, comment: seq<byte>) returns (n: nat)
    requires pos + |comment| <= result.Length
    modifies result
    ensures n == |comment|
    ensures result[..pos + n] == old(result[..pos]) + comment
  {
    ghost var before := result[..pos];
    n := Copy(result, pos, comment);
    assert result[..pos + n] == before + comment;
  }

  /** The loop of GetVariedSourceData over its base data; the base data has
      the result's length, so the base offset pos % len(baseData) is pos. */
  method Vary(baseData: seq<byte>, comments: seq<seq<byte>>, draws: imap<nat, nat>) returns (r: seq<byte>)
    requires Insertable(comments)
    ensures r == Varied(baseData, comments, draws, 0, 0)
  {
    var size := |baseData|;
    var result := new byte[size];
    var pos: nat := 0;
    var k: nat := 0;
    ghost var written: seq<byte> := [];
    ghost var whole := Varied(baseData, comments, draws, 0, 0);
    while pos < size
      invariant pos <= size && result[..pos] == written
      invariant written + Varied(baseData, comments, draws, pos, k) == whole
      decreases size - pos
    {
      if k in draws && pos + 100 < size {
        var comment := Pick(comments, draws[k]);
        var n := CopyComment(result, pos, comment);
        InsertKeeps(baseData, comments, draws, pos, k, written, whole);
        written := written + comment;
        pos := pos + n;
      } else {
        var n := CopyBase(result, pos, baseData);
        CopyKeeps(baseData, comments, draws, pos, k, written, whole);
        written := written + baseData[pos..];
        pos := pos + n;
      }
      k := k + 1;
    }
    r := result[..pos];  // pos == size: the whole result
  }

  class TestDataCache {
    const found: seq<seq<byte>>      // the Go files collectGoFiles gathered
    const embedded: seq<seq<byte>>   // embeddedGoCode1..3
    const raw: nat -> nat            // draws of the seed-42 generator
    var cache: map<Bucket, seq<byte>>
    var initialized: bool            // whether testDataInitOnce has run

    /** The sources initTestData uses. */
    function SourceFiles(): (sources: seq<seq<byte>>)
    {
      if |found| == 0 then embedded else found
    }

    ghost predicate Valid()
      reads this
    {
      initialized ==> IsFilledCache(cache, Generator(SourceFiles(), raw))
    }

    /** What GetSourceCodeData(size) returns. */
    function SourceCodeData(size: nat): (r: seq<byte>)
      ensures |r| == size
    {
      if size <= 10 * MiB then TestDataSpec(SourceFiles(), raw, size)
      else Cycle(TestDataSpec(SourceFiles(), raw, 10 * MiB), size)
    }

    constructor (found: seq<seq<byte>>, embedded: seq<seq<byte>>, raw: nat -> nat)
      ensures Valid() && !initialized
      ensures this.found == found && this.embedded == embedded && this.raw == raw
    {
      this.found := found;
      this.embedded := embedded;
      this.raw := raw;
      cache := map[];
      initialized := false;
    }

    method InitTestData()
      modifies this
      ensures initialized && IsFilledCache(cache, Generator(SourceFiles(), raw))
    {
      cache := FillCache(SourceFiles(), raw);
      initialized := true;
    }

    /** GetSourceCodeData(size): a prefix of the entry the size thresholds
        pick, or for sizes above 10 MiB the largest entry repeated. */
    method GetSourceCodeData(size: nat) returns (r: seq<byte>)
      requires Valid()
      modifies this
      ensures Valid() && initialized && IsFilledCache(cache, Generator(SourceFiles(), raw))
      ensures size <= 10 * MiB ==> r == cache[BucketFor(size)][..size]
      ensures size > 10 * MiB ==> r == Cycle(cache[XXLarge], size)
      ensures r == SourceCodeData(size)
    {
      if !initialized {
        InitTestData();
      }
      if size <= 10 * MiB {
        var b := BucketFor(size);
        r := cache[b][..size];
        TestDataIsPrefixClosed(SourceFiles(), raw, size, EntrySize(b));
      } else {
        r := RepeatLargest(cache[XXLarge], size);
      }
    }

    /** GetVariedSourceData(size, seed): the source-code data of that size
        with comments written over the base data where the seeded draws say so; the draws of
        the seed are the imap described at Varied. */
    method GetVariedSourceData(size: nat, draws: imap<nat, nat>) returns (r: seq<byte>)
      requires Valid()
      modifies this
      ensures Valid() && initialized && IsFilledCache(cache, Generator(SourceFiles(), raw))
      ensures |r| == size
      ensures r == Varied(SourceCodeData(size), Comments, draws, 0, 0)
    {
      var baseData := GetSourceCodeData(size);
      CommentsInsertable();
      r := Vary(baseData, Comments, draws);
    }
  }
}

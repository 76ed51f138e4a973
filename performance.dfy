/**
 * Data builders of compression/zstd/testsuite/performance_test.go. The
 * draws of math/rand are oracles: coin(i) is the outcome of
 * rand.Float32() < threshold at draw i, and the k-th rand.Intn(n) is
 * raw(k) % n.
 */
module Performance {
  import opened Bytes
  import opened Decimal
  import CommonTest

  /** The value generateCompressibleData puts at position i. */
  function CompressibleByte(i: nat, coin: nat -> bool, raw: nat -> nat): (b: byte)
  {
    if coin(i) then CommonTest.QuickBrownFox[i % |CommonTest.QuickBrownFox|] else (raw(i) % 256) as byte
  }

  /** generateCompressibleData(size): position i holds the phrase's byte for
      that position when its coin says "pattern", else a drawn byte. */
  method GenerateCompressibleData(size: nat, coin: nat -> bool, raw: nat -> nat) returns (r: seq<byte>)
    ensures |r| == size
    ensures forall i :: 0 <= i < size ==> r[i] == CompressibleByte(i, coin, raw)
  {
    var data := new byte[size];
    var pattern := CommonTest.QuickBrownFox;
    var patternLen := |pattern|;
    for i := 0 to size
      invariant forall j :: 0 <= j < i ==> data[j] == CompressibleByte(j, coin, raw)
    {
      if coin(i) {
        data[i] := pattern[i % patternLen];
      } else {
        data[i] := (raw(i) % 256) as byte;
      }
    }
    r := data[..];
  }

  /** Where every coin says "pattern", the data is the repeated phrase. */
  lemma AllPatternCoinsGiveRepetition(size: nat, coin: nat -> bool, raw: nat -> nat, r: seq<byte>)
    requires forall i :: coin(i)
    requires |r| == size && forall i :: 0 <= i < size ==> r[i] == CompressibleByte(i, coin, raw)
    ensures r == Cycle(CommonTest.QuickBrownFox, size)
  {
  }

  const Words: seq<string> := ["the", "quick", "brown", "fox", "jumps", "over", "lazy", "dog",
                               "and", "then", "runs", "away", "quickly", "through", "forest", "path"]

  lemma WordsAreLong(w: nat)
    requires w < |Words|
    ensures |Words[w]| >= 3
  {
    assert forall x | x in Words :: |x| >= 3;
    assert Words[w] in Words;
  }

  /** Iteration k of generateTextData: a drawn word and one separator,
      '\n' when the coin says so, else ' '. */
  function TextPiece(rawWord: nat -> nat, newline: nat -> bool): (piece: nat -> seq<byte>)
  {
    (k: nat) => AsBytes(Words[rawWord(k) % |Words|]) + [if newline(k) then NL else SP]
  }

  lemma TextPiecesAreLong(rawWord: nat -> nat, newline: nat -> bool)
    ensures forall k :: |TextPiece(rawWord, newline)(k)| >= 4
    ensures NonEmptyPieces(TextPiece(rawWord, newline))
  {
    forall k: nat ensures |TextPiece(rawWord, newline)(k)| >= 4 {
      WordsAreLong(rawWord(k) % |Words|);
    }
  }

  /** generateTextData(size): the buffer grows by at least four bytes per
      iteration; the result is its first size bytes. */
  method GenerateTextData(size: nat, rawWord: nat -> nat, newline: nat -> bool) returns (r: seq<byte>)
    ensures |r| == size
    ensures NonEmptyPieces(TextPiece(rawWord, newline)) && r == StreamPrefix(TextPiece(rawWord, newline), size)
  {
    ghost var piece := TextPiece(rawWord, newline);
    TextPiecesAreLong(rawWord, newline);
    var buf: seq<byte> := [];
    var k: nat := 0;
    while |buf| < size
      invariant buf == Take(piece, k)
      decreases size - |buf|
    {
      var word := Words[rawWord(k) % |Words|];
      ghost var before := buf;
      buf := buf + AsBytes(word);
      if newline(k) {
        buf := buf + [NL];
      } else {
        buf := buf + [SP];
      }
      ConcatAssoc(before, AsBytes(word), [if newline(k) then NL else SP]);
      assert piece(k) == AsBytes(word) + [if newline(k) then NL else SP];
      assert Take(piece, k + 1) == Take(piece, k) + piece(k);
      k := k + 1;
    }
    StreamPrefixOf(piece, k, size);
    r := buf[..size];
  }

  /** The text of one record, `{"id":%d,"name":"item_%d","value":%f},`, with
      the float's rendering taken as given. */
  function JsonRecord(id: int, item: int, value: string): (s: seq<byte>)
    ensures |s| >= 30
  {
    AsBytes("{\"id\":" + FormatInt(id) + ",\"name\":\"item_" + FormatInt(item) + "\",\"value\":" + value + "},")
  }

  /** Record k draws rand.Intn(1000) twice and a float. */
  function RecordPiece(rawId: nat -> nat, rawItem: nat -> nat, value: nat -> string): (piece: nat -> seq<byte>)
  {
    (k: nat) => JsonRecord(rawId(k) % 1000, rawItem(k) % 1000, value(k))
  }

  const JsonHead: seq<byte> := AsBytes("{\"data\":[")
  const JsonTail: seq<byte> := AsBytes("],\"status\":\"ok\"}")

  /** The number of records after which the buffer holds at least size - 100 bytes. */
  function RecordCount(piece: nat -> seq<byte>, size: nat, k: nat): (count: nat)
    requires NonEmptyPieces(piece)
    decreases size - k
  {
    TakeLength(piece, k);
    if |JsonHead| + |Take(piece, k)| < size - 100 then RecordCount(piece, size, k + 1) else k
  }

  /** The text before padding or truncation. */
  function JsonText(piece: nat -> seq<byte>, size: nat): (text: seq<byte>)
    requires NonEmptyPieces(piece)
  {
    JsonHead + Take(piece, RecordCount(piece, size, 0)) + JsonTail
  }

  lemma RecordPiecesNonEmpty(rawId: nat -> nat, rawItem: nat -> nat, value: nat -> string)
    ensures NonEmptyPieces(RecordPiece(rawId, rawItem, value))
  {
    forall k: nat ensures |RecordPiece(rawId, rawItem, value)(k)| >= 1 {
      var s := JsonRecord(rawId(k) % 1000, rawItem(k) % 1000, value(k));
    }
  }

  /** generateJSONData(size): records are appended while the buffer is shorter
      than size - 100; the closed text is then cut to size bytes or padded
      with spaces up to size bytes. */
  method GenerateJSONData(size: nat, rawId: nat -> nat, rawItem: nat -> nat, value: nat -> string)
    returns (r: seq<byte>)
    ensures NonEmptyPieces(RecordPiece(rawId, rawItem, value))
    ensures |r| == size
    ensures var text := JsonText(RecordPiece(rawId, rawItem, value), size);
      if |text| > size then r == text[..size]
      else r[..|text|] == text && forall i :: |text| <= i < size ==> r[i] == SP
  {
    var piece := RecordPiece(rawId, rawItem, value);
    RecordPiecesNonEmpty(rawId, rawItem, value);
    var buf := JsonHead;
    var k: nat := 0;
    while |buf| < size - 100
      invariant buf == JsonHead + Take(piece, k)
      invariant RecordCount(piece, size, k) == RecordCount(piece, size, 0)
      decreases size - |buf|
    {
      TakeLength(piece, k + 1);
      assert Take(piece, k + 1) == Take(piece, k) + piece(k);
      ConcatAssoc(JsonHead, Take(piece, k), piece(k));
      buf := buf + piece(k);
      k := k + 1;
    }
    buf := buf + JsonTail;
    if |buf| > size {
      return buf[..size];
    }
    r := PadWithSpaces(buf, size);
  }

  /** copy(result, data) into make([]byte, size), then spaces from len(data) on. */
  method PadWithSpaces(data: seq<byte>, size: nat) returns (r: seq<byte>)
    requires |data| <= size
    ensures |r| == size && r[..|data|] == data
    ensures forall i :: |data| <= i < size ==> r[i] == SP
  {
    var result := new byte[size];
    var n := Copy(result, 0, data);
    for i := |data| to size
      invariant forall j :: 0 <= j < |data| ==> result[j] == data[j]
      invariant forall j :: |data| <= j < i ==> result[j] == SP
    {
      result[i] := SP;
    }
    r := result[..];
  }

  /** generateBinarySequence(size): byte i is (7 * i) & 0xFF. */
  method GenerateBinarySequence(size: nat) returns (r: seq<byte>)
    ensures |r| == size
    ensures forall i :: 0 <= i < size ==> r[i] as int == (7 * i) % 256
  {
    var data := new byte[size];
    for i := 0 to size
      invariant forall j :: 0 <= j < i ==> data[j] as int == (7 * j) % 256
    {
      data[i] := ((i * 7) % 256) as byte;
    }
    r := data[..];
  }
}

/** Text going out to a chat: a bounded buffer for streamed text, and the
    splitting of a long text into chunks. Characters stand for UTF-16 code units. */
module ImText {
  import opened Basics

  const MAX_IM_TEXT_CHARS := 3800
  const MAX_IM_TEXT_CHUNKS := 6
  const MAX_IM_TEXT_BUFFER_CHARS := MAX_IM_TEXT_CHARS * MAX_IM_TEXT_CHUNKS

  function Marker(): (m: string)
    ensures |m| == 20
  {
     "\n\n[truncated for IM]"
  }

  function Prefix(): (p: string)
    ensures |p| == 12
  {
    "[continued]\n"
  }

  lemma Lengths()
    ensures |Marker()| == 20 && |Prefix()| == 12 && MAX_IM_TEXT_BUFFER_CHARS == 22800
  {
  }

  function TruncateImText(text: string): (r: string)
    ensures |r| <= MAX_IM_TEXT_CHARS
    ensures |text| <= MAX_IM_TEXT_CHARS <==> r == text
    ensures text[..Min(|text|, 3776)] <= r
  {
    if |text| <= MAX_IM_TEXT_CHARS then text else text[..MAX_IM_TEXT_CHARS - 24] + Marker()
  }

  // ---- the streamed buffer --------------------------------------------

  function AppendImText(base: string, delta: string): string {
    var next := base + delta;
    if |next| <= MAX_IM_TEXT_BUFFER_CHARS then next
    else next[..MAX_IM_TEXT_BUFFER_CHARS - 24] + Marker()
  }

  /** The buffer after all deltas, in order. */
  function Streamed(deltas: seq<string>): string {
    if deltas == [] then "" else AppendImText(Streamed(deltas[..|deltas| - 1]), deltas[|deltas| - 1])
  }

  function Joined(deltas: seq<string>): string {
    if deltas == [] then "" else Joined(deltas[..|deltas| - 1]) + deltas[|deltas| - 1]
  }

  /** The buffer is the whole text as long as that fits; after that it is the
      text's first 22776 characters, the truncation notice, and up to four
      characters of whatever came later. */
  lemma {:induction false} StreamedBounds(deltas: seq<string>)
    ensures var whole, b := Joined(deltas), Streamed(deltas);
      && |b| <= 22800
      && (|whole| <= 22800 ==> b == whole)
      && (|whole| > 22800 ==>
            22796 <= |b| && b[..22776] == whole[..22776] && b[22776..22796] == Marker())
  {
    if deltas != [] {
      var front, delta := deltas[..|deltas| - 1], deltas[|deltas| - 1];
      StreamedBounds(front);
      AppendBounds(Joined(front), Streamed(front), delta);
    }
  }

  /** One more delta. */
  lemma AppendBounds(whole: string, b: string, delta: string)
    requires |b| <= 22800 && (|whole| <= 22800 ==> b == whole)
    requires |whole| > 22800 ==> 22796 <= |b| && b[..22776] == whole[..22776] && b[22776..22796] == Marker()
    ensures var c, more := AppendImText(b, delta), whole + delta;
      && |c| <= 22800
      && (|more| <= 22800 ==> c == more)
      && (|more| > 22800 ==> 22796 <= |c| && c[..22776] == more[..22776] && c[22776..22796] == Marker())
  {
    var next, c, more := b + delta, AppendImText(b, delta), whole + delta;
    if |whole| > 22800 {
      assert more[..22776] == whole[..22776];
      assert next[..22776] == b[..22776] && next[22776..22796] == b[22776..22796];
    }
    if |next| > 22800 {
      assert c[..22776] == next[..22776] && c[22776..22796] == Marker();
    }
  }

  // ---- splitting ------------------------------------------------------

  /** How many characters of the text chunk number `k` can carry. */
  function Room(k: nat): nat { if k == 0 then 3800 else 3788 }

  /** Where chunk number `k` of an untruncated split starts. */
  function StartOf(k: nat): nat { if k == 0 then 0 else 3800 + 3788 * (k - 1) }

  function ChunkPrefix(k: nat): string { if k == 0 then "" else Prefix() }

  /** Chunk number `k`: its stretch of the text behind its prefix; the sixth and
      last one ends in the truncation notice if the text goes on. */
  function Chunk(text: string, k: nat): string
    requires k < 6 && StartOf(k) <= |text|
  {
    var stop := Min(StartOf(k) + Room(k), |text|);
    if k == 5 && stop < |text| then ChunkPrefix(k) + text[StartOf(k)..StartOf(k) + 3768] + Marker()
    else ChunkPrefix(k) + text[StartOf(k)..stop]
  }

  /** The number of chunks: enough for the text, at most six. */
  function ChunkCount(text: string): (n: nat)
    ensures 1 <= n <= 6
    ensures n == 6 || |text| <= StartOf(n)
    ensures n == 1 || StartOf(n - 1) < |text|
  {
    if |text| <= 3800 then 1
    else if |text| <= 7588 then 2
    else if |text| <= 11376 then 3
    else if |text| <= 15164 then 4
    else if |text| <= 18952 then 5
    else 6
  }

  /** The chunks with their continuation prefixes taken off, end to end. */
  function Reassembled(chunks: seq<string>): string
  {
    if chunks == [] then ""
    else
      var k := |chunks| - 1;
      Reassembled(chunks[..k]) + Unprefixed(chunks[k], k)
  }

  /** `chunks` are the first so many chunks of the text. */
  predicate Prefixes(chunks: seq<string>, text: string) {
    |chunks| <= 6 && forall k :: 0 <= k < |chunks| ==> StartOf(k) <= |text| && chunks[k] == Chunk(text, k)
  }

  predicate IsSplit(chunks: seq<string>, text: string) {
    |chunks| == ChunkCount(text) && Prefixes(chunks, text)
  }

  /** One turn of the splitting loop: the stretch it cuts off is chunk `k`, or,
      when the text goes on after the sixth, becomes it. */
  lemma CutIsChunk(text: string, k: nat, cut: string)
    requires k < 6 && StartOf(k) < |text|
    requires cut == text[StartOf(k)..Min(StartOf(k) + Room(k), |text|)]
    ensures var more := k == 5 && StartOf(k) + |cut| < |text|;
      && (more ==> |cut| == 3788 && Chunk(text, k) == ChunkPrefix(k) + (cut[..3768] + Marker()))
      && (!more ==> Chunk(text, k) == ChunkPrefix(k) + cut)
  {
    if k == 5 && StartOf(k) + |cut| < |text| {
      assert cut[..3768] == text[StartOf(k)..StartOf(k) + 3768];
      var p, c, m := ChunkPrefix(k), cut[..3768], Marker();
      assert p + c + m == p + (c + m);
    }
  }

  lemma OneMore(chunks: seq<string>, text: string, c: string)
    requires |chunks| < 6 && Prefixes(chunks, text)
    requires StartOf(|chunks|) <= |text| && c == Chunk(text, |chunks|)
    ensures Prefixes(chunks + [c], text)
  {
    hide Chunk, Prefix, Marker;
  }

  lemma ShortText(text: string)
    ensures Prefixes([], text) && (|text| <= 3800 ==> IsSplit([text], text))
  {
    hide Prefix, Marker;
    if |text| <= 3800 {
      assert text[0..|text|] == text && "" + text == text;
    }
  }

  method SplitImText(text: string) returns (chunks: seq<string>)
    ensures IsSplit(chunks, text)
  {
    hide Prefix, Marker, Prefixes;
    ShortText(text);
    if |text| <= MAX_IM_TEXT_CHARS {
      return [text];
    }
    chunks := [];
    var offset := 0;
    while offset < |text| && |chunks| < MAX_IM_TEXT_CHUNKS
      invariant |chunks| <= 6 && 0 <= offset <= |text|
      invariant |chunks| < 6 ==> offset == Min(StartOf(|chunks|), |text|)
      invariant |chunks| == 6 ==> offset == |text|
      invariant |chunks| > 0 ==> StartOf(|chunks| - 1) < |text|
      invariant Prefixes(chunks, text)
      decreases |text| - offset
    {
      ghost var k := |chunks|;
      var prefix := if |chunks| == 0 then "" else Prefix();
      assert prefix == ChunkPrefix(k) && |prefix| == 3800 - Room(k);
      var limit := MAX_IM_TEXT_CHARS - |prefix|;
      var lastAllowedChunk := |chunks| == MAX_IM_TEXT_CHUNKS - 1;
      var chunk := text[offset..Min(offset + limit, |text|)];
      CutIsChunk(text, k, chunk);
      offset := offset + |chunk|;
      if lastAllowedChunk && offset < |text| {
        chunk := chunk[..Max(0, limit - |Marker()|)] + Marker();
        offset := |text|;
      }
      OneMore(chunks, text, prefix + chunk);
      chunks := chunks + [prefix + chunk];
    }
  }

  lemma ChunkLength(text: string, k: nat)
    requires k < 6 && StartOf(k) <= |text|
    ensures |Chunk(text, k)| <= 3800 && (k > 0 ==> 12 <= |Chunk(text, k)| && Chunk(text, k)[..12] == Prefix())
  {
    Lengths();
  }

  function Unprefixed(chunk: string, k: nat): string {
    if k > 0 && |chunk| >= 12 then chunk[12..] else chunk
  }

  /** An untruncated chunk carries exactly its stretch of the text. */
  lemma Carries(text: string, k: nat)
    requires k < 6 && StartOf(k) <= |text|
    requires k == 5 ==> |text| <= 22740
    ensures Unprefixed(Chunk(text, k), k) == text[StartOf(k)..Min(StartOf(k + 1), |text|)]
  {
    hide Prefix, Marker;
  }

  /** The first `n` untruncated chunks carry the text up to where chunk `n` would start. */
  lemma {:induction false} FirstChunks(chunks: seq<string>, text: string, n: nat)
    requires n <= |chunks| && Prefixes(chunks, text)
    requires n == 6 ==> |text| <= 22740
    ensures Reassembled(chunks[..n]) == text[..Min(StartOf(n), |text|)]
  {
    hide Prefix, Marker, Chunk;
    if n > 0 {
      FirstChunks(chunks, text, n - 1);
      assert chunks[..n][..n - 1] == chunks[..n - 1] && chunks[..n][n - 1] == chunks[n - 1];
      Carries(text, n - 1);
      var from, to := StartOf(n - 1), Min(StartOf(n), |text|);
      assert text[..from] + text[from..to] == text[..to];
    }
  }

  lemma {:induction false} ReassembledLength(chunks: seq<string>, text: string, n: nat)
    requires n <= |chunks| && Prefixes(chunks, text)
    ensures |Reassembled(chunks[..n])| <= StartOf(n)
  {
    hide Chunk, Marker, Prefix;
    if n > 0 {
      ReassembledLength(chunks, text, n - 1);
      assert chunks[..n][..n - 1] == chunks[..n - 1] && chunks[..n][n - 1] == chunks[n - 1];
      ChunkLength(text, n - 1);
    }
  }

  /** At most six chunks of at most 3800 characters, each but the first behind the
      prefix; without the prefixes they are the text if and only if it has at
      most 22740 characters. */
  lemma SplitLosesNothingIff(text: string, chunks: seq<string>)
    requires IsSplit(chunks, text)
    ensures 1 <= |chunks| <= 6 && forall k :: 0 <= k < |chunks| ==> |chunks[k]| <= 3800
    ensures forall k :: 0 < k < |chunks| ==> Prefix() <= chunks[k]
    ensures Reassembled(chunks) == text <==> |text| <= 22740
  {
    hide Chunk, Marker, Prefix;
    forall k | 0 <= k < |chunks| ensures |chunks[k]| <= 3800 && (k > 0 ==> Prefix() <= chunks[k]) {
      ChunkLength(text, k);
    }
    var n := |chunks|;
    assert chunks[..n] == chunks;
    if |text| <= 22740 {
      FirstChunks(chunks, text, n);
      assert text[..|text|] == text;
    } else {
      ReassembledLength(chunks, text, n);
    }
  }

  /** The sixth chunk of a text that goes on. */
  lemma LastChunk(text: string)
    requires |text| > 22740
    ensures Unprefixed(Chunk(text, 5), 5) == text[18952..22720] + Marker()
  {
    hide Prefix, Marker;
    var p, c, m := ChunkPrefix(5), text[18952..22720], Marker();
    assert Chunk(text, 5) == p + c + m && (p + c + m)[12..] == c + m;
  }

  /** A longer text keeps its first 22720 characters, and says so. */
  lemma SplitTruncates(text: string, chunks: seq<string>)
    requires IsSplit(chunks, text) && |text| > 22740
    ensures |chunks| == 6 && Reassembled(chunks) == text[..22720] + Marker()
  {
    hide Prefix, Marker, Chunk;
    FirstChunks(chunks, text, 5);
    LastChunk(text);
    assert text[..18952] + (text[18952..22720] + Marker()) == text[..22720] + Marker();
  }
}

/**
 * The pure helpers of the retrieval engine: the sliding-window chunker that
 * splits a document into overlapping segments, the document identifier cut
 * from a content digest, and the keyword guard that keeps the live-database
 * tool read-only.
 *
 * The digest function (SHA-256 rendered as hexadecimal) is a parameter.
 */
module Rag {
  import opened Common

  // ---------------------------------------------------------------------------
  // _chunk_text
  // ---------------------------------------------------------------------------

  const DEFAULT_MAX_CHARS: int := 1500
  const DEFAULT_OVERLAP: int := 200

  /** The characters of `text` at indices `start <= i < min(start + maxChars, |text|)`, as the source's comprehension selects them. */
  function Piece(text: string, start: nat, maxChars: int): (r: string)
    ensures |r| == if maxChars <= 0 || start >= |text| then 0
                   else if start + maxChars <= |text| then maxChars else |text| - start
    ensures start + |r| <= |text| ==> r == text[start..start + |r|]
  {
    var end := if start + maxChars <= |text| then start + maxChars else |text|;
    if end <= start then "" else text[start..end]
  }

  /** How many windows `step` apart start inside a text of length `len`. */
  function NumChunks(len: nat, step: int): (r: nat)
    requires step > 0
    ensures r == 0 <==> len == 0
  {
    if len == 0 then 0 else (len - 1) / step + 1
  }

  /**
   * `_chunk_text`'s result: the whole text when it fits, otherwise the pieces
   * starting at 0, step, 2 * step, … while the start lies inside the text,
   * where step is `maxChars - overlap`. The source's loop only ends when the
   * step is positive, the text fits, or the text is empty (a negative
   * `maxChars`, where the loop never runs), hence the precondition.
   */
  function Chunks(text: string, maxChars: int, overlap: int): (r: seq<string>)
    requires |text| <= maxChars || maxChars > overlap || |text| == 0
    ensures |text| <= maxChars ==> r == [text]
    ensures |text| > maxChars ==> (r == [] <==> |text| == 0)
    ensures |text| > maxChars && maxChars > overlap ==> |r| == NumChunks(|text|, maxChars - overlap)
  {
    if |text| <= maxChars then [text]
    else if maxChars <= overlap then []
    else Windows(text, maxChars, maxChars - overlap, NumChunks(|text|, maxChars - overlap))
  }

  /** The first `n` windows: the pieces starting at 0, step, …, (n - 1) * step. */
  function Windows(text: string, maxChars: int, step: nat, n: nat): (r: seq<string>)
    ensures |r| == n
    ensures forall k :: 0 <= k < n ==> r[k] == Piece(text, k * step, maxChars)
  {
    seq(n, k requires 0 <= k => Piece(text, k * step, maxChars))
  }

  /** One more window is the piece at `n * step`. */
  lemma WindowsSnoc(text: string, maxChars: int, step: nat, n: nat)
    ensures Windows(text, maxChars, step, n + 1) == Windows(text, maxChars, step, n) + [Piece(text, n * step, maxChars)]
  {
  }

  /** `_chunk_text` as the source writes it: a loop that advances `start` by `maxChars - overlap`. */
  method ChunkText(text: string, maxChars: int, overlap: int) returns (chunks: seq<string>)
    requires |text| <= maxChars || maxChars > overlap || |text| == 0
    ensures chunks == Chunks(text, maxChars, overlap)
  {
    if |text| <= maxChars {
      return [text];
    }
    if |text| == 0 {
      // Empty text with a negative `maxChars`: the loop below never runs.
      return [];
    }
    var step := maxChars - overlap;
    chunks := [];
    var start := 0;
    while start < |text|
      invariant start == |chunks| * step
      invariant chunks != [] ==> (|chunks| - 1) * step < |text|
      invariant chunks == Windows(text, maxChars, step, |chunks|)
      invariant |text| == 0 ==> chunks == []
      decreases |text| - start
    {
      var end := if start + maxChars <= |text| then start + maxChars else |text|;
      var chunk := if end <= start then "" else text[start..end];
      assert chunk == Piece(text, start, maxChars);
      WindowsSnoc(text, maxChars, step, |chunks|);
      MulSucc(|chunks|, step);
      chunks := chunks + [chunk];
      start := start + step;
    }
    if |text| > 0 {
      CountUnique(|text|, step, |chunks|);
    }
    assert |chunks| == NumChunks(|text|, step);
  }

  /** The last window starts inside the text and one more step would pass its end. */
  lemma ChunkCountBounds(len: nat, step: int)
    requires step > 0 && len > 0
    ensures var n := NumChunks(len, step);
            n >= 1 && (n - 1) * step < len <= n * step
  {
    var q := (len - 1) / step;
    DivBounds(len - 1, step);
    MulSucc(q, step);
  }

  /** `NumChunks` is the only count whose windows start inside the text and reach its end. */
  lemma CountUnique(len: nat, step: int, n: nat)
    requires step > 0 && len > 0
    requires n >= 1 && (n - 1) * step < len <= n * step
    ensures n == NumChunks(len, step)
  {
    var m := NumChunks(len, step);
    ChunkCountBounds(len, step);
    if n < m {
      MulMonotoneNat(n, m - 1, step);
      assert false;
    } else if n > m {
      MulMonotoneNat(m, n - 1, step);
      assert false;
    }
  }

  /** A text that fits is returned whole, as the single chunk. */
  lemma ShortTextOneChunk(text: string, maxChars: int, overlap: int)
    requires |text| <= maxChars
    ensures Chunks(text, maxChars, overlap) == [text]
  {
  }

  /** A text that does not fit is cut into `ceil(|text| / step)` chunks, at least two when the overlap is non-negative. */
  lemma LongTextChunkCount(text: string, maxChars: int, overlap: int)
    requires maxChars > overlap >= 0 && |text| > maxChars
    ensures var n := |Chunks(text, maxChars, overlap)|;
            var step := maxChars - overlap;
            n >= 2 && (n - 1) * step < |text| <= n * step
  {
    var step := maxChars - overlap;
    var n := NumChunks(|text|, step);
    ChunkCountBounds(|text|, step);
    if n < 2 {
      assert false;
    }
  }

  /** With a non-negative overlap every character of the text lies in some chunk. */
  lemma Coverage(text: string, maxChars: int, overlap: int, i: nat)
    requires maxChars > overlap >= 0 && |text| > maxChars && i < |text|
    ensures exists k :: 0 <= k < |Chunks(text, maxChars, overlap)|
                        && k * (maxChars - overlap) <= i < k * (maxChars - overlap) + |Chunks(text, maxChars, overlap)[k]|
  {
    var step := maxChars - overlap;
    var cs := Chunks(text, maxChars, overlap);
    var n := |cs|;
    var k := i / step;
    DivBounds(i, step);
    ChunkCountBounds(|text|, step);
    if k >= n {
      MulMonotoneNat(n, k, step);
      assert false;
    }
    assert cs[k] == Piece(text, k * step, maxChars);
  }

  lemma DivBounds(i: nat, step: int)
    requires step > 0
    ensures (i / step) * step <= i < (i / step) * step + step
  {
  }

  lemma MulSucc(k: nat, step: int)
    ensures (k + 1) * step == k * step + step
  {
  }

  lemma MulMonotoneNat(a: nat, b: nat, c: nat)
    requires a <= b
    ensures a * c <= b * c
  {
  }

  /** With a non-negative overlap the last chunk ends at the end of the text. */
  lemma LastChunkReachesEnd(text: string, maxChars: int, overlap: int)
    requires maxChars > overlap >= 0 && |text| > maxChars
    ensures var cs := Chunks(text, maxChars, overlap);
            var s := (|cs| - 1) * (maxChars - overlap);
            |cs| >= 1 && s < |text| && cs[|cs| - 1] == text[s..]
  {
    var step := maxChars - overlap;
    var cs := Chunks(text, maxChars, overlap);
    var n := |cs|;
    ChunkCountBounds(|text|, step);
    MulSucc(n - 1, step);
    assert cs[n - 1] == Piece(text, (n - 1) * step, maxChars);
  }

  /** Neighbouring chunks share exactly `overlap` characters when the earlier one is full length. */
  lemma ConsecutiveOverlap(text: string, maxChars: int, overlap: int, k: nat)
    requires maxChars > overlap >= 0 && |text| > maxChars
    requires k + 1 < |Chunks(text, maxChars, overlap)|
    requires |Chunks(text, maxChars, overlap)[k]| == maxChars
    ensures var cs := Chunks(text, maxChars, overlap);
            |cs[k + 1]| >= overlap && cs[k][maxChars - overlap..] == cs[k + 1][..overlap]
  {
    var s := NeighbourChunks(text, maxChars, overlap, k);
    OverlapOfPieces(text, s, maxChars, overlap);
  }

  /** Chunks `k` and `k + 1` are the pieces at some `s` and `s + step`, the second starting inside the text. */
  lemma NeighbourChunks(text: string, maxChars: int, overlap: int, k: nat) returns (s: nat)
    requires maxChars > overlap >= 0 && |text| > maxChars
    requires k + 1 < |Chunks(text, maxChars, overlap)|
    ensures s + (maxChars - overlap) < |text|
    ensures Chunks(text, maxChars, overlap)[k] == Piece(text, s, maxChars)
    ensures Chunks(text, maxChars, overlap)[k + 1] == Piece(text, s + (maxChars - overlap), maxChars)
  {
    var step := maxChars - overlap;
    var n := NumChunks(|text|, step);
    var cs := Windows(text, maxChars, step, n);
    assert Chunks(text, maxChars, overlap) == cs by {
      ChunksAreWindows(text, maxChars, overlap);
    }
    s := k * step;
    assert s + step < |text| by {
      NextStartInside(|text|, step, k);
    }
    assert cs[k] == Piece(text, s, maxChars) && cs[k + 1] == Piece(text, s + step, maxChars) by {
      WindowsNeighbours(text, maxChars, step, n, k, s);
    }
  }

  /** Windows `k` and `k + 1` are the pieces at `k * step` and one step further. */
  lemma WindowsNeighbours(text: string, maxChars: int, step: nat, n: nat, k: nat, s: nat)
    requires k + 1 < n && s == k * step
    ensures Windows(text, maxChars, step, n)[k] == Piece(text, s, maxChars)
    ensures Windows(text, maxChars, step, n)[k + 1] == Piece(text, s + step, maxChars)
  {
    assert (k + 1) * step == s + step;
  }

  /** Text that does not fit is cut into `NumChunks` windows one step apart. */
  lemma ChunksAreWindows(text: string, maxChars: int, overlap: int)
    requires maxChars > overlap && |text| > maxChars
    ensures Chunks(text, maxChars, overlap)
            == Windows(text, maxChars, maxChars - overlap, NumChunks(|text|, maxChars - overlap))
  {
  }

  /** A window that is not the last is followed by one that starts inside the text. */
  lemma NextStartInside(len: nat, step: int, k: nat)
    requires step > 0 && len > 0 && k + 1 < NumChunks(len, step)
    ensures (k + 1) * step == k * step + step < len
  {
    ChunkCountBounds(len, step);
    MulSucc(k, step);
    MulMonotoneNat(k + 1, NumChunks(len, step) - 1, step);
  }

  /** Two pieces `maxChars - overlap` apart, the first full length, share `overlap` characters. */
  lemma OverlapOfPieces(text: string, s: nat, maxChars: int, overlap: int)
    requires maxChars > overlap >= 0
    requires s + maxChars <= |text| && s + (maxChars - overlap) < |text|
    ensures var a := Piece(text, s, maxChars);
            var b := Piece(text, s + (maxChars - overlap), maxChars);
            |b| >= overlap && a[maxChars - overlap..] == b[..overlap]
  {
    var step := maxChars - overlap;
    var a := Piece(text, s, maxChars);
    var b := Piece(text, s + step, maxChars);
    assert a == text[s..s + maxChars];
    assert a[step..] == text[s + step..s + maxChars];
    assert b[..overlap] == text[s + step..s + maxChars];
  }

  // ---------------------------------------------------------------------------
  // _doc_id
  // ---------------------------------------------------------------------------

  /** A digest function rendering SHA-256 as 64 hexadecimal characters. */
  ghost predicate HexDigest256(hexdigest: string -> string)
  {
    forall t :: |hexdigest(t)| == 64
  }

  /** `_doc_id`: the first 16 characters of the content's hexadecimal digest. */
  function DocId(text: string, hexdigest: string -> string): (r: string)
    ensures |r| <= 16 && |r| <= |hexdigest(text)| && r == hexdigest(text)[..|r|]
    ensures |hexdigest(text)| >= 16 ==> |r| == 16
  {
    var digest := hexdigest(text);
    if |digest| <= 16 then digest else digest[..16]
  }

  /** With a 64-character digest every identifier has exactly 16 characters. */
  lemma DocIdLength(text: string, hexdigest: string -> string)
    requires HexDigest256(hexdigest)
    ensures |DocId(text, hexdigest)| == 16
  {
    assert |hexdigest(text)| == 64;
  }

  // ---------------------------------------------------------------------------
  // The read-only guard of _query_live_db
  // ---------------------------------------------------------------------------

  const WRITE_KEYWORDS: seq<string> := ["DROP", "DELETE", "UPDATE", "INSERT", "ALTER"]

  const READ_ONLY_ERROR: string := "Error: Only read-only queries are allowed."

  /** What `_query_live_db` does with a query: refuse it without opening a session, or run it. */
  datatype QueryAction = RefuseReadOnly | Execute(sql: string)

  /** The guard: the upper-cased query contains a write keyword anywhere, even inside a longer word. */
  predicate MentionsWrite(query: string): (r: bool)
    ensures r ==> |query| >= 4
  {
    KeywordNeedsRoom(Upper(query));
    exists k :: 0 <= k < |WRITE_KEYWORDS| && Contains(Upper(query), WRITE_KEYWORDS[k])
  }

  /** Every write keyword has at least four letters, so only a text that long can contain one. */
  lemma KeywordNeedsRoom(s: string)
    ensures forall k :: 0 <= k < |WRITE_KEYWORDS| && Contains(s, WRITE_KEYWORDS[k]) ==> |s| >= 4
  {
    forall k | 0 <= k < |WRITE_KEYWORDS| && Contains(s, WRITE_KEYWORDS[k])
      ensures |s| >= 4
    {
      ContainsIff(s, WRITE_KEYWORDS[k]);
    }
  }

  function LiveDbAction(query: string): (r: QueryAction)
    ensures r == RefuseReadOnly <==> MentionsWrite(query)
    ensures r.Execute? ==> r.sql == query
  {
    if MentionsWrite(query) then RefuseReadOnly else Execute(query)
  }

  /** The guard ignores case: a query and its lower-cased form are treated alike. */
  lemma GuardIgnoresCase(query: string)
    ensures LiveDbAction(Lower(query)) == RefuseReadOnly <==> LiveDbAction(query) == RefuseReadOnly
  {
    UpperOfLower(query);
  }

  /** A query is refused exactly when a write keyword occurs at some position of its upper-cased form. */
  lemma RefusedIffOccurs(query: string)
    ensures LiveDbAction(query) == RefuseReadOnly
            <==> exists k, i :: 0 <= k < |WRITE_KEYWORDS| && OccursAt(Upper(query), WRITE_KEYWORDS[k], i)
  {
    forall k | 0 <= k < |WRITE_KEYWORDS|
      ensures Contains(Upper(query), WRITE_KEYWORDS[k]) <==> exists i :: OccursAt(Upper(query), WRITE_KEYWORDS[k], i)
    {
      ContainsIff(Upper(query), WRITE_KEYWORDS[k]);
    }
  }
}

// The chunk loop as its tests and callers evidently intend it: the loop
// stops once a window has reached the end of the text, and the next start
// always moves forward. This is the chunker the ingestion worker uses.
module FixedChunking {
  import opened Wrappers
  import opened Text
  import opened Chunking
  import opened ChunkFacts

  /** The window end of the corrected loop: min(start + chunkSize, len),
      snapped to one past a sentence end lying more than 100 chars past
      start, in unbounded arithmetic. */
  function FixedWindowEnd(t: string, start: int, chunkSize: int): (r: int)
    requires 0 <= start < |t| && chunkSize > 0
    ensures start < r <= |t|
  {
    var limit := Min(start + chunkSize, |t|);
    SentenceBoundarySpec(t, start + MinSentenceOffset, limit);
    if limit < |t| then
      var sentenceEnd := SentenceBoundary(t, start + MinSentenceOffset, limit);
      if sentenceEnd > start then sentenceEnd else limit
    else limit
  }

  /** A window of the corrected loop is at most chunkSize + 1 long. */
  lemma FixedWindowEndBound(t: string, start: int, chunkSize: int)
    requires 0 <= start < |t| && chunkSize > 0
    ensures FixedWindowEnd(t, start, chunkSize) - start <= chunkSize + 1
  {
    SentenceBoundarySpec(t, start + MinSentenceOffset, Min(start + chunkSize, |t|));
  }

  /** Where no int arithmetic overflows, the corrected window end is the
      service's. */
  lemma FixedWindowEndAgrees(t: string, start: int, chunkSize: int)
    requires 0 <= start < |t| && 0 < chunkSize && IsInt32(chunkSize)
    requires |t| + chunkSize <= MaxInt && |t| + MinSentenceOffset <= MaxInt
    ensures WindowEnd(t, start, chunkSize) == FixedWindowEnd(t, start, chunkSize)
  {
  }

  /** The windows of the corrected loop from start: after each window the
      loop stops if it reached len, and otherwise goes on from
      max(end - overlap, start + 1). */
  function FixedRun(t: string, chunkSize: int, overlap: int, start: int): seq<Window>
    requires 0 <= start < |t| && chunkSize > 0 && overlap >= 0
    decreases |t| - start
  {
    var end := FixedWindowEnd(t, start, chunkSize);
    if end == |t| then [Window(start, end)]
    else [Window(start, end)] + FixedRun(t, chunkSize, overlap, Max(end - overlap, start + 1))
  }

  /** ws cover [from, len) in order: the first window starts at from and the
      last ends at len; each later window starts after the one before and
      no later than its end, sharing at most overlap chars with it. */
  predicate Covers(ws: seq<Window>, from: int, len: int, overlap: int)
    decreases |ws|
  {
    |ws| > 0 && ws[0].start == from && from < ws[0].end <= len
    && if |ws| == 1 then ws[0].end == len
       else
         ws[0].end < len && from < ws[1].start <= ws[0].end
         && ws[0].end - ws[1].start <= overlap
         && Covers(ws[1..], ws[1].start, len, overlap)
  }

  /** The corrected loop covers the text from start to its end with windows
      inside the text of at most chunkSize + 1 chars. */
  lemma {:induction false} FixedRunCovers(t: string, chunkSize: int, overlap: int, start: int)
    requires 0 <= start < |t| && chunkSize > 0 && overlap >= 0
    ensures Covers(FixedRun(t, chunkSize, overlap, start), start, |t|, overlap)
    ensures WindowsWithin(t, FixedRun(t, chunkSize, overlap, start), chunkSize + 1)
    decreases |t| - start
  {
    var end := FixedWindowEnd(t, start, chunkSize);
    FixedWindowEndBound(t, start, chunkSize);
    var ws := FixedRun(t, chunkSize, overlap, start);
    if end < |t| {
      var next := Max(end - overlap, start + 1);
      FixedRunCovers(t, chunkSize, overlap, next);
      var rest := FixedRun(t, chunkSize, overlap, next);
      assert ws == [Window(start, end)] + rest;
      assert ws[1..] == rest;
      ConsWithin(t, Window(start, end), rest, chunkSize + 1);
    } else {
      assert ws == [Window(start, end)];
      assert WindowsWithin(t, ws[1..], chunkSize + 1);
    }
  }

  /** Index k lies in window i of ws. */
  predicate InWindow(ws: seq<Window>, i: int, k: int) {
    0 <= i < |ws| && ws[i].start <= k < ws[i].end
  }

  /** Every index of [from, len) lies in a window of a cover. */
  lemma {:induction false} CoveredIndex(ws: seq<Window>, from: int, len: int, overlap: int, k: int)
    requires Covers(ws, from, len, overlap) && from <= k < len
    ensures exists i :: InWindow(ws, i, k)
    decreases |ws|
  {
    if k >= ws[0].end {
      CoveredIndex(ws[1..], ws[1].start, len, overlap, k);
      var i :| InWindow(ws[1..], i, k);
      assert InWindow(ws, i + 1, k);
    } else {
      assert InWindow(ws, 0, k);
    }
  }

  /** A window holding a char trim() keeps gives a chunk. */
  lemma VisibleWindowGivesChunk(t: string, w: Window, k: int)
    requires 0 <= w.start <= k < w.end <= |t| && !IsTrimmable(t[k])
    ensures Piece(t, w) != []
  {
    var x := t[w.start..w.end];
    assert x[k - w.start] == t[k];
    VisibleHasKept(x, k - w.start);
    TrimKeepsVisible(x);
  }

  lemma {:induction false} VisibleHasKept(s: string, k: int)
    requires 0 <= k < |s| && !IsTrimmable(s[k])
    ensures Visible(s) != []
    decreases |s|
  {
    if k > 0 && IsTrimmable(s[0]) {
      VisibleHasKept(s[1..], k - 1);
    }
  }

  predicate CanFixedChunk(text: Option<string>, chunkSize: int, overlap: int) {
    chunkSize > 0 && overlap >= 0
  }

  /** The chunks of the corrected chunkText. */
  function FixedChunked(text: Option<string>, chunkSize: int, overlap: int): seq<string>
    requires CanFixedChunk(text, chunkSize, overlap)
  {
    if text.None? || IsBlank(text.value) then []
    else
      var t := Normalize(text.value);
      if |t| == 0 then [] else Pieces(t, FixedRun(t, chunkSize, overlap, 0))
  }

  /** Every corrected chunk is non-empty, trimmed, a substring of the
      normalised text and at most chunkSize + 1 chars long; and every char
      of the normalised text that trim() keeps lies in a window that gives
      a chunk: no text is lost. */
  lemma FixedChunksAreGood(text: string, chunkSize: int, overlap: int, k: int)
    requires chunkSize > 0 && overlap >= 0
    ensures forall c :: c in FixedChunked(Some(text), chunkSize, overlap) ==>
      c != [] && IsTrimmed(c) && IsInfix(c, Normalize(text)) && |c| <= chunkSize + 1
    ensures var t := Normalize(text);
      0 <= k < |t| && !IsTrimmable(t[k]) ==>
        exists i :: InWindow(FixedRun(t, chunkSize, overlap, 0), i, k)
          && Piece(t, FixedRun(t, chunkSize, overlap, 0)[i]) != []
  {
    var t := Normalize(text);
    if |t| > 0 {
      var ws := FixedRun(t, chunkSize, overlap, 0);
      FixedRunCovers(t, chunkSize, overlap, 0);
      PiecesGood(t, ws, chunkSize + 1);
      if 0 <= k < |t| && !IsTrimmable(t[k]) {
        CoveredIndex(ws, 0, |t|, overlap, k);
        var i :| InWindow(ws, i, k);
        WithinAt(t, ws, chunkSize + 1, i);
        VisibleWindowGivesChunk(t, ws[i], k);
      }
    }
  }

  /** Each window of a WindowsWithin sequence lies inside the text. */
  lemma {:induction false} WithinAt(t: string, ws: seq<Window>, bound: int, i: int)
    requires WindowsWithin(t, ws, bound) && 0 <= i < |ws|
    ensures 0 <= ws[i].start <= ws[i].end <= |t|
    decreases i
  {
    if i > 0 {
      WithinAt(t, ws[1..], bound, i - 1);
    }
  }

  /** With overlap 0 and no int overflow, the service's own loop does stop:
      it makes exactly the corrected windows. */
  lemma {:induction false} ZeroOverlapRun(t: string, chunkSize: int, start: int, fuel: nat)
    requires Params(t, chunkSize, 0) && 0 <= start < |t| && chunkSize > 0
    requires |t| + chunkSize <= MaxInt && |t| + MinSentenceOffset <= MaxInt
    requires fuel >= |t| - start
    ensures Run(t, chunkSize, 0, start, fuel) == Done(FixedRun(t, chunkSize, 0, start))
    decreases |t| - start
  {
    var end := FixedWindowEnd(t, start, chunkSize);
    FixedWindowEndAgrees(t, start, chunkSize);
    StepOf(t, chunkSize, 0, start, end);
    if end < |t| {
      ZeroOverlapRun(t, chunkSize, end, fuel - 1);
      assert Max(end - 0, start + 1) == end;
    }
  }

  /** With overlap 0 the service returns the corrected chunks, cut from
      windows that tile the normalised text: each starts where the one
      before it ended. */
  lemma ZeroOverlapTiles(text: string, chunkSize: int)
    requires 0 < chunkSize && |text| + chunkSize <= MaxInt && |text| + MinSentenceOffset <= MaxInt
    ensures Chunked(Some(text), chunkSize, 0) == Chunks(FixedChunked(Some(text), chunkSize, 0))
    ensures var t := Normalize(text);
      0 < |t| ==> Covers(FixedRun(t, chunkSize, 0, 0), 0, |t|, 0)
  {
    var t := Normalize(text);
    if 0 < |t| {
      FixedRunCovers(t, chunkSize, 0, 0);
    }
    if !IsBlank(text) && |t| > 0 {
      ZeroOverlapSlide(t, chunkSize);
    }
  }

  /** With overlap 0 the service's loop over normalised text t returns the
      chunks of the corrected windows. */
  lemma ZeroOverlapSlide(t: string, chunkSize: int)
    requires 0 < chunkSize && 0 < |t| && |t| + chunkSize <= MaxInt && |t| + MinSentenceOffset <= MaxInt
    ensures Slide(t, chunkSize, 0) == Chunks(Pieces(t, FixedRun(t, chunkSize, 0, 0)))
  {
    ZeroOverlapRun(t, chunkSize, 0, |t| + 1);
  }

  /** chunkText as evidently intended: null or blank text gives no chunks;
      otherwise the normalised text is cut by windows until one reaches its
      end, each next window starting overlap chars before the last one
      ended, or one char after it started when that is further on. */
  method FixedChunkText(text: Option<string>, chunkSize: int, overlap: int) returns (chunks: seq<string>)
    requires CanFixedChunk(text, chunkSize, overlap)
    ensures chunks == FixedChunked(text, chunkSize, overlap)
  {
    if text.None? || IsBlank(text.value) {
      return [];
    }
    var t := Normalize(text.value);
    if |t| == 0 {
      return [];
    }
    chunks := FixedSlide(t, chunkSize, overlap);
  }

  /** The loop state (windows so far, start) still leads to the corrected
      run from 0. */
  ghost predicate FixedTracks(t: string, chunkSize: int, overlap: int, ws: seq<Window>, start: int)
    requires 0 <= start < |t| && chunkSize > 0 && overlap >= 0
  {
    FixedRun(t, chunkSize, overlap, 0) == ws + FixedRun(t, chunkSize, overlap, start)
  }

  /** One pass of the corrected loop: the window [start, end) is the last
      one when it reaches len, and the loop goes on from the next start
      otherwise. */
  lemma FixedTracksPass(t: string, chunkSize: int, overlap: int, ws: seq<Window>, start: int, end: int)
    requires 0 <= start < |t| && chunkSize > 0 && overlap >= 0
    requires FixedTracks(t, chunkSize, overlap, ws, start)
    requires end == FixedWindowEnd(t, start, chunkSize)
    ensures end == |t| ==> FixedRun(t, chunkSize, overlap, 0) == ws + [Window(start, end)]
    ensures end < |t| ==>
      FixedTracks(t, chunkSize, overlap, ws + [Window(start, end)], Max(end - overlap, start + 1))
  {
    if end < |t| {
      var next := Max(end - overlap, start + 1);
      assert FixedRun(t, chunkSize, overlap, start)
        == [Window(start, end)] + FixedRun(t, chunkSize, overlap, next);
      assert ws + ([Window(start, end)] + FixedRun(t, chunkSize, overlap, next))
        == (ws + [Window(start, end)]) + FixedRun(t, chunkSize, overlap, next);
    }
  }

  /** The corrected while loop over the normalised text t. */
  method FixedSlide(t: string, chunkSize: int, overlap: int) returns (chunks: seq<string>)
    requires 0 < |t| && chunkSize > 0 && overlap >= 0
    ensures chunks == Pieces(t, FixedRun(t, chunkSize, overlap, 0))
  {
    chunks := [];
    var start := 0;
    ghost var ws: seq<Window> := [];
    assert FixedTracks(t, chunkSize, overlap, ws, start);
    while true
      invariant 0 <= start < |t|
      invariant FixedTracks(t, chunkSize, overlap, ws, start)
      invariant chunks == Pieces(t, ws)
      decreases |t| - start
    {
      var end := FindFixedWindowEnd(t, start, chunkSize);
      FixedTracksPass(t, chunkSize, overlap, ws, start, end);
      var chunk := Trim(t[start..end]);
      AddWindow(t, ws, chunks, start, end, chunk);
      if chunk != [] {
        chunks := chunks + [chunk];
      }
      if end == |t| {
        return;
      }
      ws := ws + [Window(start, end)];
      start := Max(end - overlap, start + 1);
    }
  }

  /** The window end of the corrected loop, step by step. */
  method FindFixedWindowEnd(t: string, start: int, chunkSize: int) returns (end: int)
    requires 0 <= start < |t| && chunkSize > 0
    ensures end == FixedWindowEnd(t, start, chunkSize)
  {
    end := Min(start + chunkSize, |t|);
    if end < |t| {
      var sentenceEnd := FindSentenceBoundary(t, start + MinSentenceOffset, end);
      if sentenceEnd > start {
        end := sentenceEnd;
      }
    }
  }
}

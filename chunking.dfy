// ChunkingService: whitespace normalisation and the sliding-window chunk
// loop, with Java's 32-bit int arithmetic written out.
module Chunking {
  import opened Wrappers
  import opened Text

  const DefaultChunkSize: int := 1000
  const DefaultOverlap: int := 200
  /** A sentence end moves the window end only when it lies more than this
      many chars past the window start. */
  const MinSentenceOffset: int := 100

  const MinInt: int := -0x8000_0000
  const MaxInt: int := 0x7FFF_FFFF

  predicate IsInt32(x: int) {
    MinInt <= x <= MaxInt
  }

  /** Java int addition or subtraction of two ints: the mathematical result,
      moved by 2^32 back into the int range when it overflows. */
  function Wrap32(x: int): (r: int)
    requires 2 * MinInt <= x <= 2 * MaxInt + 1
    ensures IsInt32(r)
    ensures IsInt32(x) ==> r == x
  {
    if x > MaxInt then x - 0x1_0000_0000
    else if x < MinInt then x + 0x1_0000_0000
    else x
  }

  function Min(a: int, b: int): int {
    if a <= b then a else b
  }

  function Max(a: int, b: int): int {
    if a >= b then a else b
  }

  /** text.replaceAll("\\s+", " ").trim(). */
  function Normalize(s: string): (r: string)
    ensures r == [] || (!IsTrimmable(r[0]) && !IsTrimmable(r[|r| - 1]))
    ensures |r| <= |s|
  {
    Trim(CollapseSpaces(s))
  }

  /** Normalisation removes whitespace only: every other char is kept, in
      order. */
  lemma NormalizeKeepsVisible(s: string)
    ensures Visible(Normalize(s)) == Visible(s)
  {
    TrimKeepsVisible(CollapseSpaces(s));
    CollapseKeepsVisible(s);
  }

  /** Normalised text holds no two whitespace chars in a row, and no
      whitespace but the plain space. */
  lemma NormalizeSingleSpaced(s: string)
    ensures SingleSpaced(Normalize(s))
  {
    var c := CollapseSpaces(s);
    var i := LeadingTrimmable(c);
    var r := Trim(c);
    TrimIsInfix(c);
    assert c[i..i + |r|] == r;
    SingleSpacedInfix(c, i, i + |r|);
  }

  predicate IsSentenceEnd(c: char) {
    c == '.' || c == '!' || c == '?'
  }

  /** The last index at or before from holding a '.', '!' or '?', or -1. */
  function LastSentenceEnd(t: string, from: int): (r: int)
    ensures -1 <= r < |t| && r <= Max(from, -1)
    ensures r >= 0 ==> IsSentenceEnd(t[r])
    decreases if from < 0 then 0 else from + 1
  {
    if from < 0 then -1
    else if from >= |t| then LastSentenceEnd(t, |t| - 1)
    else if IsSentenceEnd(t[from]) then from
    else LastSentenceEnd(t, from - 1)
  }

  /** No sentence end lies after the one LastSentenceEnd finds. */
  lemma {:induction false} LastSentenceEndSpec(t: string, from: int)
    ensures forall k :: LastSentenceEnd(t, from) < k <= from && 0 <= k < |t| ==> !IsSentenceEnd(t[k])
    decreases if from < 0 then 0 else from + 1
  {
    if from >= |t| {
      LastSentenceEndSpec(t, |t| - 1);
    } else if 0 <= from && !IsSentenceEnd(t[from]) {
      LastSentenceEndSpec(t, from - 1);
    }
  }

  /** The service looks for the three marks with three lastIndexOf calls
      and keeps the largest index: the same as one backward scan. */
  lemma {:induction false} LastSentenceEndIsMax(t: string, from: int)
    ensures LastSentenceEnd(t, from)
      == Max(LastIndexOf(t, '.', from), Max(LastIndexOf(t, '!', from), LastIndexOf(t, '?', from)))
    decreases if from < 0 then 0 else from + 1
  {
    if from >= |t| {
      LastSentenceEndIsMax(t, |t| - 1);
    } else if 0 <= from && !IsSentenceEnd(t[from]) {
      LastSentenceEndIsMax(t, from - 1);
    }
  }

  /** findSentenceBoundary: one past the last sentence end at or before
      index end, when that mark lies beyond floor; end otherwise. The
      service passes floor = start + 100 in int arithmetic. */
  function SentenceBoundary(t: string, floor: int, end: int): int
  {
    var best := LastSentenceEnd(t, end);
    if best > floor then best + 1 else end
  }

  /** What findSentenceBoundary returns, other than end itself, is one past
      a sentence end lying beyond floor and at or before end (or 0 when no
      mark was found and floor has wrapped below -1), and no later sentence
      end lies at or before end. */
  lemma SentenceBoundarySpec(t: string, floor: int, end: int)
    ensures var r := SentenceBoundary(t, floor, end);
      r != end ==> (floor < r - 1
        && (r == 0 || (0 < r <= |t| && r - 1 <= end && IsSentenceEnd(t[r - 1]))))
    ensures var r := SentenceBoundary(t, floor, end);
      r != end ==> forall k :: r <= k <= end && k < |t| ==> !IsSentenceEnd(t[k])
  {
    LastSentenceEndSpec(t, end);
  }

  /** findSentenceBoundary(text, start, end), step by step. */
  method FindSentenceBoundary(t: string, floor: int, end: int) returns (r: int)
    ensures r == SentenceBoundary(t, floor, end)
  {
    var lastPeriod := LastIndexOf(t, '.', end);
    var lastExclamation := LastIndexOf(t, '!', end);
    var lastQuestion := LastIndexOf(t, '?', end);
    var best := Max(lastPeriod, Max(lastExclamation, lastQuestion));
    LastSentenceEndIsMax(t, end);
    if best > floor {
      r := best + 1;
    } else {
      r := end;
    }
  }

  /** Where the pass starting at start ends its window: at
      min(start + chunkSize, len), or one past a sentence end found by
      SentenceBoundary when that lies beyond start. */
  function WindowEnd(t: string, start: int, chunkSize: int): (r: int)
    requires 0 <= start && IsInt32(start) && IsInt32(chunkSize)
    ensures r <= |t|
  {
    var limit := Min(Wrap32(start + chunkSize), |t|);
    if limit < |t| then
      var sentenceEnd := SentenceBoundary(t, Wrap32(start + MinSentenceOffset), limit);
      if sentenceEnd > start then sentenceEnd else limit
    else limit
  }

  /** The window ends at min(start + chunkSize, len), or, when that is
      short of len, one past a sentence end at or before it that lies more
      than 100 chars past start (in int arithmetic). */
  lemma WindowEndSpec(t: string, start: int, chunkSize: int)
    requires 0 <= start && IsInt32(start) && IsInt32(chunkSize)
    ensures var r := WindowEnd(t, start, chunkSize);
      var limit := Min(Wrap32(start + chunkSize), |t|);
      r == limit
      || (limit < |t| && start < r && r - 1 <= limit && IsSentenceEnd(t[r - 1])
          && Wrap32(start + MinSentenceOffset) < r - 1)
  {
    var limit := Min(Wrap32(start + chunkSize), |t|);
    SentenceBoundarySpec(t, Wrap32(start + MinSentenceOffset), limit);
  }

  /** A window [start, end) of the normalised text. */
  datatype Window = Window(start: int, end: int)

  /** The chunk a window contributes: its trimmed text, dropped when empty.
      Run only makes windows that lie inside the text (WindowsWithin). */
  function Piece(t: string, w: Window): (p: seq<string>)
    ensures |p| <= 1
  {
    if 0 <= w.start <= w.end <= |t| then
      var chunk := Trim(t[w.start..w.end]);
      if chunk == [] then [] else [chunk]
    else []
  }

  /** The chunks a sequence of windows contributes, in order. */
  function Pieces(t: string, ws: seq<Window>): seq<string>
  {
    if ws == [] then [] else Piece(t, ws[0]) + Pieces(t, ws[1..])
  }

  lemma {:induction false} PiecesAppend(t: string, a: seq<Window>, b: seq<Window>)
    ensures Pieces(t, a + b) == Pieces(t, a) + Pieces(t, b)
  {
    if a == [] {
      assert a + b == b;
    } else {
      assert (a + b)[0] == a[0];
      assert (a + b)[1..] == a[1..] + b;
      PiecesAppend(t, a[1..], b);
    }
  }

  /** How a bounded run of the chunk loop ends: every pass exited normally
      after the given windows, substring(start, end) threw because
      end < start, or the passes allowed ran out while the loop was still
      going. */
  datatype Pass = Done(windows: seq<Window>) | Throws | OutOfFuel

  function Prepend(ws: seq<Window>, p: Pass): (r: Pass)
    ensures r.OutOfFuel? <==> p.OutOfFuel?
    ensures r.Throws? <==> p.Throws?
  {
    if p.Done? then Done(ws + p.windows) else p
  }

  lemma PrependTwice(a: seq<Window>, b: seq<Window>, p: Pass)
    ensures Prepend(a, Prepend(b, p)) == Prepend(a + b, p)
  {
    if p.Done? {
      assert a + (b + p.windows) == (a + b) + p.windows;
    }
  }

  predicate Params(t: string, chunkSize: int, overlap: int) {
    IsInt32(chunkSize) && IsInt32(overlap) && |t| <= MaxInt
  }

  /** What one pass of the loop does from start: substring(start, end)
      throws, the loop exits after the window, or it goes round again from
      the next start. */
  datatype Step = Throw | Last(window: Window) | Again(window: Window, next: int)

  /** One pass of the chunk loop from start. */
  function StepAt(t: string, chunkSize: int, overlap: int, start: int): (r: Step)
    requires Params(t, chunkSize, overlap) && 0 <= start < |t|
    ensures r.Again? ==> 0 < r.next < |t|
  {
    var end := WindowEnd(t, start, chunkSize);
    if end < start then Throw
    else
      var next := Wrap32(end - overlap);
      if next <= 0 || next >= |t| then Last(Window(start, end))
      else Again(Window(start, end), next)
  }

  /** The pass from start, taken apart: the window [start, end) and the
      next start end - overlap. */
  lemma StepOf(t: string, chunkSize: int, overlap: int, start: int, end: int)
    requires Params(t, chunkSize, overlap) && 0 <= start < |t|
    requires end == WindowEnd(t, start, chunkSize)
    ensures end < start <==> StepAt(t, chunkSize, overlap, start).Throw?
    ensures start <= end && (Wrap32(end - overlap) <= 0 || Wrap32(end - overlap) >= |t|) ==>
      StepAt(t, chunkSize, overlap, start) == Last(Window(start, end))
    ensures start <= end && 0 < Wrap32(end - overlap) < |t| ==>
      StepAt(t, chunkSize, overlap, start) == Again(Window(start, end), Wrap32(end - overlap))
  {
  }

  /** The chunk loop of chunkText over normalised text t, from start, for at
      most fuel passes. */
  function Run(t: string, chunkSize: int, overlap: int, start: int, fuel: nat): Pass
    requires Params(t, chunkSize, overlap) && 0 <= start < |t|
    decreases fuel
  {
    if fuel == 0 then OutOfFuel
    else
      match StepAt(t, chunkSize, overlap, start)
      case Throw => Throws
      case Last(w) => Done([w])
      case Again(w, next) => Prepend([w], Run(t, chunkSize, overlap, next, fuel - 1))
  }

  /** One pass of Run, taken apart. */
  lemma RunPass(t: string, chunkSize: int, overlap: int, start: int, fuel: nat, end: int)
    requires Params(t, chunkSize, overlap) && 0 <= start < |t| && fuel > 0
    requires end == WindowEnd(t, start, chunkSize)
    ensures end < start ==> Run(t, chunkSize, overlap, start, fuel) == Throws
    ensures start <= end && (Wrap32(end - overlap) <= 0 || Wrap32(end - overlap) >= |t|) ==>
      Run(t, chunkSize, overlap, start, fuel) == Done([Window(start, end)])
    ensures start <= end && 0 < Wrap32(end - overlap) < |t| ==>
      Run(t, chunkSize, overlap, start, fuel)
      == Prepend([Window(start, end)], Run(t, chunkSize, overlap, Wrap32(end - overlap), fuel - 1))
  {
    StepOf(t, chunkSize, overlap, start, end);
  }

  /** What chunkText does: the chunk list, a StringIndexOutOfBoundsException,
      or a loop that never exits. In the last case every pass adds one more
      chunk to the list, so the JVM ends the call with an OutOfMemoryError
      and the transaction of the caller rolls back; the model does not
      count memory and names the endless loop instead. */
  datatype ChunkOutcome = Chunks(list: seq<string>) | IndexOutOfBounds | EndlessLoop

  predicate CanChunk(text: Option<string>, chunkSize: int, overlap: int) {
    IsInt32(chunkSize) && IsInt32(overlap) && (text.Some? ==> |text.value| <= MaxInt)
  }

  /** The outcome of chunkText(text, chunkSize, overlap). */
  function Chunked(text: Option<string>, chunkSize: int, overlap: int): ChunkOutcome
    requires CanChunk(text, chunkSize, overlap)
  {
    if text.None? || IsBlank(text.value) then Chunks([])
    else Slide(Normalize(text.value), chunkSize, overlap)
  }

  /** The outcome of the chunk loop over normalised text t. The loop's only
      state between passes is start, a value in [0, len), so a loop still
      going after len + 1 passes never exits (ChunkTermination proves it). */
  function Slide(t: string, chunkSize: int, overlap: int): ChunkOutcome
    requires Params(t, chunkSize, overlap)
  {
    if |t| == 0 then Chunks([])
    else
      match Run(t, chunkSize, overlap, 0, |t| + 1)
      case Done(ws) => Chunks(Pieces(t, ws))
      case Throws => IndexOutOfBounds
      case OutOfFuel => EndlessLoop
  }

  /** ChunkingService.chunkText(text, chunkSize, overlap): null or blank text
      gives no chunks; otherwise the text is normalised and cut by the
      window loop. */
  method ChunkText(text: Option<string>, chunkSize: int, overlap: int) returns (r: ChunkOutcome)
    requires CanChunk(text, chunkSize, overlap)
    ensures r == Chunked(text, chunkSize, overlap)
    ensures text.None? || IsBlank(text.value) ==> r == Chunks([])
  {
    if text.None? || IsBlank(text.value) {
      return Chunks([]);
    }
    var t := Normalize(text.value);
    r := SlideWindows(t, chunkSize, overlap);
  }

  /** chunkText(text): the one-argument overload with chunk size 1000 and
      overlap 200. */
  method ChunkTextDefault(text: Option<string>) returns (r: ChunkOutcome)
    requires text.Some? ==> |text.value| <= MaxInt
    ensures r == Chunked(text, DefaultChunkSize, DefaultOverlap)
  {
    r := ChunkText(text, DefaultChunkSize, DefaultOverlap);
  }

  /** The loop state (windows so far, start, passes left) still leads to
      the outcome of the whole run. */
  ghost predicate Tracks(t: string, chunkSize: int, overlap: int, ws: seq<Window>, start: int, fuel: nat)
    requires Params(t, chunkSize, overlap) && 0 <= start < |t|
  {
    Run(t, chunkSize, overlap, 0, |t| + 1) == Prepend(ws, Run(t, chunkSize, overlap, start, fuel))
  }

  lemma TracksStart(t: string, chunkSize: int, overlap: int)
    requires Params(t, chunkSize, overlap) && 0 < |t|
    ensures Tracks(t, chunkSize, overlap, [], 0, |t| + 1)
  {
    var full := Run(t, chunkSize, overlap, 0, |t| + 1);
    if full.Done? {
      assert [] + full.windows == full.windows;
    }
  }

  /** No passes left: the loop is still going after len + 1 passes. */
  lemma TracksOut(t: string, chunkSize: int, overlap: int, ws: seq<Window>, start: int)
    requires Params(t, chunkSize, overlap) && 0 <= start < |t|
    requires Tracks(t, chunkSize, overlap, ws, start, 0)
    ensures Slide(t, chunkSize, overlap) == EndlessLoop
  {
  }

  /** A pass whose window would end before it starts. */
  lemma TracksThrows(t: string, chunkSize: int, overlap: int, ws: seq<Window>, start: int, fuel: nat, end: int)
    requires Params(t, chunkSize, overlap) && 0 <= start < |t| && fuel > 0
    requires Tracks(t, chunkSize, overlap, ws, start, fuel)
    requires end == WindowEnd(t, start, chunkSize) && end < start
    ensures Slide(t, chunkSize, overlap) == IndexOutOfBounds
  {
    RunPass(t, chunkSize, overlap, start, fuel, end);
  }

  /** A pass that does not throw: it leaves the loop when the next start
      is outside (0, len), and goes round again from it otherwise. */
  lemma TracksPass(t: string, chunkSize: int, overlap: int, ws: seq<Window>, start: int, fuel: nat, end: int)
    requires Params(t, chunkSize, overlap) && 0 <= start < |t| && fuel > 0
    requires Tracks(t, chunkSize, overlap, ws, start, fuel)
    requires end == WindowEnd(t, start, chunkSize) && start <= end
    ensures Wrap32(end - overlap) <= 0 || Wrap32(end - overlap) >= |t| ==>
      Slide(t, chunkSize, overlap) == Chunks(Pieces(t, ws + [Window(start, end)]))
    ensures 0 < Wrap32(end - overlap) < |t| ==>
      Tracks(t, chunkSize, overlap, ws + [Window(start, end)], Wrap32(end - overlap), fuel - 1)
  {
    RunPass(t, chunkSize, overlap, start, fuel, end);
    if 0 < Wrap32(end - overlap) < |t| {
      PrependTwice(ws, [Window(start, end)], Run(t, chunkSize, overlap, Wrap32(end - overlap), fuel - 1));
    }
  }

  /** Adding the window [start, end) adds its piece to the chunk list. */
  lemma AddWindow(t: string, ws: seq<Window>, chunks: seq<string>, start: int, end: int, chunk: string)
    requires chunks == Pieces(t, ws)
    requires 0 <= start <= end <= |t| && chunk == Trim(t[start..end])
    ensures Pieces(t, ws + [Window(start, end)]) == if chunk == [] then chunks else chunks + [chunk]
  {
    assert Pieces(t, [Window(start, end)]) == Piece(t, Window(start, end));
    PiecesAppend(t, ws, [Window(start, end)]);
  }

  /** The loop state: the chunks are the pieces of the windows so far, and
      the state still leads to the outcome of the whole run. */
  ghost predicate Sliding(t: string, chunkSize: int, overlap: int, chunks: seq<string>, ws: seq<Window>, start: int,
                          fuel: nat)
  {
    Params(t, chunkSize, overlap) && 0 <= start < |t| && chunks == Pieces(t, ws)
    && Tracks(t, chunkSize, overlap, ws, start, fuel)
  }

  /** One pass of the loop that does not throw, on the whole loop state. */
  lemma SlidingPass(t: string, chunkSize: int, overlap: int, chunks: seq<string>, ws: seq<Window>, start: int,
                    fuel: nat, end: int)
    requires Sliding(t, chunkSize, overlap, chunks, ws, start, fuel) && fuel > 0
    requires end == WindowEnd(t, start, chunkSize) && start <= end <= |t|
    ensures var chunk := Trim(t[start..end]);
      var after := if chunk == [] then chunks else chunks + [chunk];
      var next := Wrap32(end - overlap);
      (next <= 0 || next >= |t| ==> Slide(t, chunkSize, overlap) == Chunks(after))
      && (0 < next < |t| ==> Sliding(t, chunkSize, overlap, after, ws + [Window(start, end)], next, fuel - 1))
  {
    TracksPass(t, chunkSize, overlap, ws, start, fuel, end);
    AddWindow(t, ws, chunks, start, end, Trim(t[start..end]));
  }

  /** The while loop of chunkText over the normalised text t. */
  method SlideWindows(t: string, chunkSize: int, overlap: int) returns (r: ChunkOutcome)
    requires Params(t, chunkSize, overlap)
    ensures r == Slide(t, chunkSize, overlap)
  {
    if |t| == 0 {
      return Chunks([]);
    }
    var chunks: seq<string> := [];
    var start := 0;
    var passes: nat := 0;
    ghost var ws: seq<Window> := [];
    ghost var fuel: nat := |t| + 1;
    TracksStart(t, chunkSize, overlap);
    while start < |t|
      invariant passes <= |t| + 1 && fuel == |t| + 1 - passes
      invariant Sliding(t, chunkSize, overlap, chunks, ws, start, fuel)
      decreases |t| + 1 - passes
    {
      if passes == |t| + 1 {
        // start has taken len + 1 values in [0, len): the passes now repeat
        TracksOut(t, chunkSize, overlap, ws, start);
        return EndlessLoop;
      }
      var end := FindWindowEnd(t, start, chunkSize);
      if end < start {
        TracksThrows(t, chunkSize, overlap, ws, start, fuel, end);
        return IndexOutOfBounds;
      }
      var chunk := Trim(t[start..end]);
      SlidingPass(t, chunkSize, overlap, chunks, ws, start, fuel, end);
      if chunk != [] {
        chunks := chunks + [chunk];
      }
      var next := Wrap32(end - overlap);
      passes := passes + 1;
      if next <= 0 || next >= |t| {
        return Chunks(chunks);
      }
      ws := ws + [Window(start, end)];
      fuel := fuel - 1;
      start := next;
    }
    // the loop leaves only through the returns above
    assert false;
  }

  /** The end of the window starting at start: min(start + chunkSize, len),
      pulled back to one past a sentence end when one lies far enough in. */
  method FindWindowEnd(t: string, start: int, chunkSize: int) returns (end: int)
    requires 0 <= start && IsInt32(start) && IsInt32(chunkSize)
    ensures end == WindowEnd(t, start, chunkSize)
  {
    end := Min(Wrap32(start + chunkSize), |t|);
    if end < |t| {
      var sentenceEnd := FindSentenceBoundary(t, Wrap32(start + MinSentenceOffset), end);
      if sentenceEnd > start {
        end := sentenceEnd;
      }
    }
  }
}

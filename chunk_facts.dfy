// What the chunk loop of ChunkingService guarantees about the chunks it
// returns, and the inputs on which it fails to return them all.
module ChunkFacts {
  import opened Wrappers
  import opened Text
  import opened Chunking

  /** c occurs in t at index i. */
  ghost predicate InfixAt(c: string, t: string, i: int) {
    0 <= i && i + |c| <= |t| && t[i..i + |c|] == c
  }

  /** c occurs in t as a contiguous substring. */
  ghost predicate IsInfix(c: string, t: string) {
    exists i :: InfixAt(c, t, i)
  }

  /** Every window lies inside t and is no longer than bound. */
  predicate WindowsWithin(t: string, ws: seq<Window>, bound: int) {
    ws == []
    || (0 <= ws[0].start <= ws[0].end <= |t| && ws[0].end - ws[0].start <= bound
        && WindowsWithin(t, ws[1..], bound))
  }

  /** A window that does not throw is at most chunkSize + 1 long: a sentence
      end found exactly at index start + chunkSize is taken in. */
  lemma WindowEndBound(t: string, start: int, chunkSize: int)
    requires 0 <= start && IsInt32(start) && IsInt32(chunkSize)
    ensures start <= WindowEnd(t, start, chunkSize) ==> WindowEnd(t, start, chunkSize) - start <= chunkSize + 1
  {
    WindowEndSpec(t, start, chunkSize);
  }

  /** Below a chunk size of 101 the sentence snap never moves a window. */
  lemma NoSnapForSmallChunks(t: string, start: int, chunkSize: int)
    requires 0 <= start && start + MinSentenceOffset <= MaxInt && IsInt32(chunkSize)
    requires chunkSize <= MinSentenceOffset
    ensures WindowEnd(t, start, chunkSize) == Min(Wrap32(start + chunkSize), |t|)
  {
  }

  /** A run that returns made only windows inside t of at most bound chars. */
  predicate RunWithin(t: string, p: Pass, bound: int) {
    p.Done? ==> WindowsWithin(t, p.windows, bound)
  }

  lemma ConsWithin(t: string, w: Window, rest: seq<Window>, bound: int)
    requires 0 <= w.start <= w.end <= |t| && w.end - w.start <= bound
    requires WindowsWithin(t, rest, bound)
    ensures WindowsWithin(t, [w] + rest, bound)
  {
    assert ([w] + rest)[1..] == rest;
  }

  /** The window of a pass that does not throw starts at start, lies inside
      the text and is at most chunkSize + 1 long. */
  lemma StepWithin(t: string, chunkSize: int, overlap: int, start: int)
    requires Params(t, chunkSize, overlap) && 0 <= start < |t|
    ensures var step := StepAt(t, chunkSize, overlap, start);
      !step.Throw? ==>
        step.window.start == start && start <= step.window.end <= |t|
        && step.window.end - start <= chunkSize + 1
  {
    var end := WindowEnd(t, start, chunkSize);
    WindowEndBound(t, start, chunkSize);
    StepOf(t, chunkSize, overlap, start, end);
  }

  /** Every window of a run lies inside the text and is at most
      chunkSize + 1 long. */
  lemma {:induction false} RunWindowsWithin(t: string, chunkSize: int, overlap: int, start: int, fuel: nat)
    requires Params(t, chunkSize, overlap) && 0 <= start < |t|
    ensures RunWithin(t, Run(t, chunkSize, overlap, start, fuel), chunkSize + 1)
    decreases fuel
  {
    if fuel > 0 {
      StepWithin(t, chunkSize, overlap, start);
      var step := StepAt(t, chunkSize, overlap, start);
      if step.Again? {
        RunWindowsWithin(t, chunkSize, overlap, step.next, fuel - 1);
        var rest := Run(t, chunkSize, overlap, step.next, fuel - 1);
        if rest.Done? {
          ConsWithin(t, step.window, rest.windows, chunkSize + 1);
        }
      }
    }
  }

  lemma PieceGood(t: string, w: Window, bound: int)
    requires 0 <= w.start <= w.end <= |t| && w.end - w.start <= bound
    ensures forall c :: c in Piece(t, w) ==> c != [] && IsTrimmed(c) && IsInfix(c, t) && |c| <= bound
  {
    if 0 <= w.start <= w.end <= |t| {
      var x := t[w.start..w.end];
      var c := Trim(x);
      if c != [] {
        assert Piece(t, w) == [c];
        TrimIsInfix(x);
        InfixOfInfix(t, w.start, w.end, LeadingTrimmable(x), c);
      }
    }
  }

  /** An infix of the infix t[a..b] is an infix of t. */
  lemma InfixOfInfix(t: string, a: int, b: int, l: int, c: string)
    requires 0 <= a <= b <= |t| && 0 <= l && l + |c| <= b - a
    requires t[a..b][l..l + |c|] == c
    ensures InfixAt(c, t, a + l)
  {
    forall k | 0 <= k < |c|
      ensures t[a + l + k] == c[k]
    {
      assert c[k] == t[a..b][l..l + |c|][k];
    }
  }

  lemma {:induction false} PiecesGood(t: string, ws: seq<Window>, bound: int)
    requires WindowsWithin(t, ws, bound)
    ensures forall c :: c in Pieces(t, ws) ==> c != [] && IsTrimmed(c) && IsInfix(c, t) && |c| <= bound
  {
    if ws != [] {
      PieceGood(t, ws[0], bound);
      PiecesGood(t, ws[1..], bound);
    }
  }

  /** Every chunk chunkText returns is non-empty, trimmed, a substring of the
      normalised text, and at most chunkSize + 1 chars long. */
  lemma ChunksAreGood(text: Option<string>, chunkSize: int, overlap: int)
    requires CanChunk(text, chunkSize, overlap)
    ensures text.Some? && Chunked(text, chunkSize, overlap).Chunks? ==>
      forall c :: c in Chunked(text, chunkSize, overlap).list ==>
        c != [] && IsTrimmed(c) && IsInfix(c, Normalize(text.value)) && |c| <= chunkSize + 1
  {
    if text.Some? && !IsBlank(text.value) {
      var t := Normalize(text.value);
      if |t| > 0 {
        var p := Run(t, chunkSize, overlap, 0, |t| + 1);
        RunWindowsWithin(t, chunkSize, overlap, 0, |t| + 1);
        if p.Done? {
          PiecesGood(t, p.windows, chunkSize + 1);
        }
      }
    }
  }

  /** Normalised text no longer than the chunk size or the overlap comes
      back as one chunk equal to it. */
  lemma ShortTextIsOneChunk(text: string, chunkSize: int, overlap: int)
    requires CanChunk(Some(text), chunkSize, overlap) && !IsBlank(text)
    requires 0 < |Normalize(text)| <= chunkSize && |Normalize(text)| <= overlap
    ensures Chunked(Some(text), chunkSize, overlap) == Chunks([Normalize(text)])
  {
    ShortSlideIsOneChunk(Normalize(text), chunkSize, overlap);
  }

  lemma ShortSlideIsOneChunk(t: string, chunkSize: int, overlap: int)
    requires Params(t, chunkSize, overlap) && IsTrimmed(t)
    requires 0 < |t| <= chunkSize && |t| <= overlap
    ensures Slide(t, chunkSize, overlap) == Chunks([t])
  {
    RunPass(t, chunkSize, overlap, 0, |t| + 1, WindowEnd(t, 0, chunkSize));
    TrimOfTrimmed(t);
    assert t[0..|t|] == t;
    assert Pieces(t, [Window(0, |t|)]) == [t];
  }

  /** Once a window reaches the end of the text the next pass starts at
      len - overlap, and its window reaches the end again: from there the
      loop runs for ever. */
  lemma {:induction false} EndWindowRepeats(t: string, chunkSize: int, overlap: int, fuel: nat)
    requires Params(t, chunkSize, overlap) && 0 < overlap < |t| && overlap <= chunkSize
    requires |t| - overlap + chunkSize <= MaxInt
    ensures Run(t, chunkSize, overlap, |t| - overlap, fuel) == OutOfFuel
    decreases fuel
  {
    if fuel > 0 {
      var s := |t| - overlap;
      var end := WindowEnd(t, s, chunkSize);
      assert end == |t|;
      RunPass(t, chunkSize, overlap, s, fuel, end);
      EndWindowRepeats(t, chunkSize, overlap, fuel - 1);
    }
  }

  /** Every window ends before index n. */
  predicate EndsBefore(ws: seq<Window>, n: int) {
    ws == [] || (ws[0].end < n && EndsBefore(ws[1..], n))
  }

  /** There is a last window, and it ends at or before index n. */
  predicate LastEndsBy(ws: seq<Window>, n: int) {
    0 < |ws| && ws[|ws| - 1].end <= n
  }

  /** A run that returns leaves the text after its last window out: no
      window reached index len and the last one ended within the first
      overlap chars. */
  predicate LosesTail(t: string, overlap: int, p: Pass) {
    p.Done? ==> EndsBefore(p.windows, |t|) && LastEndsBy(p.windows, overlap)
  }

  lemma ConsWindow(w: Window, rest: seq<Window>, len: int, overlap: int)
    requires w.end < len && EndsBefore(rest, len) && LastEndsBy(rest, overlap)
    ensures EndsBefore([w] + rest, len) && LastEndsBy([w] + rest, overlap)
  {
    var ws := [w] + rest;
    assert ws[|ws| - 1] == rest[|rest| - 1];
    assert ws[1..] == rest;
  }

  /** Whenever the loop does return, no window reached the end of the text
      and the last window ended within the first overlap chars: the text
      after it lies in no window and in no chunk. */
  lemma {:induction false} TailIsLost(t: string, chunkSize: int, overlap: int, start: int, fuel: nat)
    requires Params(t, chunkSize, overlap) && 0 <= start < |t|
    requires 0 < overlap < |t| && overlap <= chunkSize && |t| + chunkSize <= MaxInt
    ensures LosesTail(t, overlap, Run(t, chunkSize, overlap, start, fuel))
    decreases fuel
  {
    if fuel > 0 {
      var step := StepAt(t, chunkSize, overlap, start);
      if step.Again? {
        TailIsLost(t, chunkSize, overlap, step.next, fuel - 1);
      }
      TailPass(t, chunkSize, overlap, start, fuel);
    }
  }

  /** One pass of TailIsLost, given the property for the rest of the run. */
  lemma TailPass(t: string, chunkSize: int, overlap: int, start: int, fuel: nat)
    requires Params(t, chunkSize, overlap) && 0 <= start < |t| && fuel > 0
    requires 0 < overlap < |t| && overlap <= chunkSize && |t| + chunkSize <= MaxInt
    requires var step := StepAt(t, chunkSize, overlap, start);
      step.Again? ==> LosesTail(t, overlap, Run(t, chunkSize, overlap, step.next, fuel - 1))
    ensures LosesTail(t, overlap, Run(t, chunkSize, overlap, start, fuel))
  {
    var end := WindowEnd(t, start, chunkSize);
    StepOf(t, chunkSize, overlap, start, end);
    var step := StepAt(t, chunkSize, overlap, start);
    if start <= end && end == |t| {
      TailPassAtEnd(t, chunkSize, overlap, start, fuel);
    } else if step.Again? {
      var rest := Run(t, chunkSize, overlap, step.next, fuel - 1);
      if rest.Done? {
        ConsWindow(step.window, rest.windows, |t|, overlap);
      }
    }
  }

  /** A pass whose window reaches the end never lets the loop exit. */
  lemma TailPassAtEnd(t: string, chunkSize: int, overlap: int, start: int, fuel: nat)
    requires Params(t, chunkSize, overlap) && 0 <= start < |t| && fuel > 0
    requires 0 < overlap < |t| && overlap <= chunkSize && |t| + chunkSize <= MaxInt
    requires WindowEnd(t, start, chunkSize) == |t|
    ensures Run(t, chunkSize, overlap, start, fuel) == OutOfFuel
  {
    RunPass(t, chunkSize, overlap, start, fuel, |t|);
    EndWindowRepeats(t, chunkSize, overlap, fuel - 1);
  }

  /** With the default chunk size 1000 and overlap 200, every text whose
      normalised form has between 201 and 1000 chars sends chunkText into a
      loop that never exits; each pass adds a chunk until memory runs out. */
  lemma DefaultHangsOnMediumText(text: string)
    requires |text| <= MaxInt && !IsBlank(text)
    requires DefaultOverlap < |Normalize(text)| <= DefaultChunkSize
    ensures Chunked(Some(text), DefaultChunkSize, DefaultOverlap) == EndlessLoop
  {
    ShortWindowOverlapHangs(Normalize(text), DefaultChunkSize, DefaultOverlap);
  }

  /** When the first window already reaches the end of a text longer than
      the overlap, the loop runs for ever. */
  lemma ShortWindowOverlapHangs(t: string, chunkSize: int, overlap: int)
    requires Params(t, chunkSize, overlap) && 0 < overlap < |t| <= chunkSize
    requires |t| - overlap + chunkSize <= MaxInt
    ensures Slide(t, chunkSize, overlap) == EndlessLoop
  {
    var end := WindowEnd(t, 0, chunkSize);
    assert end == |t|;
    RunPass(t, chunkSize, overlap, 0, |t| + 1, end);
    EndWindowRepeats(t, chunkSize, overlap, |t|);
  }
}

// Why a bounded run of the chunk loop decides the real one: the loop's
// only control state between passes is start, a value in [0, len), so a
// loop still going after len + 1 passes has met some start twice and
// repeats for ever, while a loop that stopped earlier stops the same way
// whatever the bound.
module ChunkTermination {
  import opened Wrappers
  import opened Chunking

  /** Where the pass from start sends the loop: the next start, or None when
      the loop returns or throws in that pass. */
  function NextStart(t: string, chunkSize: int, overlap: int, start: int): (r: Option<int>)
    requires Params(t, chunkSize, overlap) && 0 <= start < |t|
    ensures r.Some? ==> 0 < r.value < |t|
  {
    match StepAt(t, chunkSize, overlap, start)
    case Again(_, next) => Some(next)
    case _ => None
  }

  /** The loop's transition on all ints (None outside [0, len)). */
  function Transition(t: string, chunkSize: int, overlap: int): int -> Option<int>
  {
    x => if Params(t, chunkSize, overlap) && 0 <= x < |t| then NextStart(t, chunkSize, overlap, x) else None
  }

  /** The state after n steps of next from start, or None when some step
      stopped before. */
  function Iter(next: int -> Option<int>, start: int, n: nat): (r: Option<int>)
    ensures n == 0 ==> r == Some(start)
    decreases n
  {
    if n == 0 then Some(start)
    else
      match next(start)
      case Some(s) => Iter(next, s, n - 1)
      case None => None
  }

  /** next keeps every state it produces inside [0, len). */
  ghost predicate StaysIn(next: int -> Option<int>, len: int) {
    forall x :: next(x).Some? ==> 0 <= next(x).value < len
  }

  lemma TransitionStaysIn(t: string, chunkSize: int, overlap: int)
    ensures StaysIn(Transition(t, chunkSize, overlap), |t|)
  {
  }

  lemma {:induction false} IterStaysIn(next: int -> Option<int>, len: int, start: int, n: nat)
    requires StaysIn(next, len) && 0 <= start < len
    ensures Iter(next, start, n).Some? ==> 0 <= Iter(next, start, n).value < len
    decreases n
  {
    if n > 0 && next(start).Some? {
      IterStaysIn(next, len, next(start).value, n - 1);
    }
  }

  /** A run runs out of passes exactly when the loop is still going after
      that many passes. */
  lemma {:induction false} OutOfFuelIffGoing(t: string, chunkSize: int, overlap: int, start: int, fuel: nat)
    requires Params(t, chunkSize, overlap) && 0 <= start < |t|
    ensures Run(t, chunkSize, overlap, start, fuel).OutOfFuel?
      <==> Iter(Transition(t, chunkSize, overlap), start, fuel).Some?
    decreases fuel
  {
    if fuel > 0 {
      assert Transition(t, chunkSize, overlap)(start) == NextStart(t, chunkSize, overlap, start);
      match StepAt(t, chunkSize, overlap, start)
      case Again(_, next) =>
        OutOfFuelIffGoing(t, chunkSize, overlap, next, fuel - 1);
      case _ =>
    }
  }

  /** m steps and then n more are m + n steps. */
  lemma {:induction false} IterAdd(next: int -> Option<int>, start: int, m: nat, n: nat)
    ensures Iter(next, start, m).None? ==> Iter(next, start, m + n).None?
    ensures Iter(next, start, m).Some? ==>
      Iter(next, start, m + n) == Iter(next, Iter(next, start, m).value, n)
    decreases m
  {
    if m > 0 && next(start).Some? {
      IterAdd(next, next(start).value, m - 1, n);
    }
  }

  /** Still going after n steps means still going after every m <= n. */
  lemma IterPrefix(next: int -> Option<int>, start: int, m: nat, n: nat)
    requires m <= n && Iter(next, start, n).Some?
    ensures Iter(next, start, m).Some?
  {
    IterAdd(next, start, m, n - m);
  }

  /** m + 1 values drawn from [0, m) contain a repeat. */
  lemma {:induction false} Pigeonhole(s: seq<int>, m: nat)
    requires |s| == m + 1
    requires forall k :: 0 <= k < |s| ==> 0 <= s[k] < m
    ensures exists i, j :: 0 <= i < j < |s| && s[i] == s[j]
    decreases m
  {
    var v := s[m];
    if exists i :: 0 <= i < m && s[i] == v {
      var i :| 0 <= i < m && s[i] == v;
      assert s[i] == s[m];
    } else {
      // the values of s[..m] avoid v: rename m - 1 to v and recurse
      var u := seq(m, k requires 0 <= k < m => if s[k] == m - 1 then v else s[k]);
      assert m > 0 by {
        assert 0 <= s[0] < m;
      }
      forall k | 0 <= k < |u|
        ensures 0 <= u[k] < m - 1
      {
        if s[k] == m - 1 {
          assert v != m - 1;
        }
      }
      Pigeonhole(u, m - 1);
      var i, j :| 0 <= i < j < |u| && u[i] == u[j];
      assert s[i] != v && s[j] != v;
      assert u[i] == (if s[i] == m - 1 then v else s[i]);
      assert u[j] == (if s[j] == m - 1 then v else s[j]);
    }
  }

  /** Once the state after i steps comes back after j > i steps, the steps
      never stop. */
  lemma {:induction false} RepeatIsForever(next: int -> Option<int>, start: int, i: nat, j: nat, n: nat)
    requires i < j && Iter(next, start, j).Some?
    requires Iter(next, start, i) == Iter(next, start, j)
    ensures Iter(next, start, n).Some?
    decreases n
  {
    if n <= j {
      IterPrefix(next, start, n, j);
    } else {
      var k := n - j;
      IterAdd(next, start, j, k);
      IterAdd(next, start, i, k);
      assert n == j + k;
      RepeatIsForever(next, start, i, j, i + k);
    }
  }

  /** Steps that keep to [0, len) and are still going after len + 1 steps
      go on for ever. */
  lemma StillGoingIsForever(next: int -> Option<int>, len: nat, start: int, n: nat)
    requires StaysIn(next, len) && 0 <= start < len
    requires Iter(next, start, len + 1).Some?
    ensures Iter(next, start, n).Some?
  {
    forall k | 0 <= k <= len
      ensures Iter(next, start, k).Some? && 0 <= Iter(next, start, k).value < len
    {
      IterPrefix(next, start, k, len + 1);
      IterStaysIn(next, len, start, k);
    }
    var s := seq(len + 1, k requires 0 <= k <= len => Iter(next, start, k).value);
    Pigeonhole(s, len);
    var i, j :| 0 <= i < j < |s| && s[i] == s[j];
    RepeatIsForever(next, start, i, j, n);
  }

  /** When the chunk outcome is EndlessLoop, no number of passes ends the
      loop: chunkText never returns a chunk list. */
  lemma EndlessLoopIsForever(t: string, chunkSize: int, overlap: int, fuel: nat)
    requires Params(t, chunkSize, overlap)
    requires Slide(t, chunkSize, overlap) == EndlessLoop
    ensures 0 < |t| && Run(t, chunkSize, overlap, 0, fuel) == OutOfFuel
  {
    OutOfFuelIffGoing(t, chunkSize, overlap, 0, |t| + 1);
    TransitionStaysIn(t, chunkSize, overlap);
    StillGoingIsForever(Transition(t, chunkSize, overlap), |t|, 0, fuel);
    OutOfFuelIffGoing(t, chunkSize, overlap, 0, fuel);
  }

  /** A run that stopped within fuel passes stops the same way with more. */
  lemma {:induction false} RunSettles(t: string, chunkSize: int, overlap: int, start: int, f: nat, g: nat)
    requires Params(t, chunkSize, overlap) && 0 <= start < |t|
    requires f <= g && !Run(t, chunkSize, overlap, start, f).OutOfFuel?
    ensures Run(t, chunkSize, overlap, start, g) == Run(t, chunkSize, overlap, start, f)
    decreases f
  {
    assert 0 < f <= g;
    match StepAt(t, chunkSize, overlap, start)
    case Again(w, next) =>
      RunSettles(t, chunkSize, overlap, next, f - 1, g - 1);
      assert Run(t, chunkSize, overlap, start, f) == Prepend([w], Run(t, chunkSize, overlap, next, f - 1));
      assert Run(t, chunkSize, overlap, start, g) == Prepend([w], Run(t, chunkSize, overlap, next, g - 1));
    case Last(w) =>
      assert Run(t, chunkSize, overlap, start, f) == Done([w]) == Run(t, chunkSize, overlap, start, g);
    case Throw =>
      assert Run(t, chunkSize, overlap, start, f) == Throws == Run(t, chunkSize, overlap, start, g);
  }

  /** Chunks and IndexOutOfBounds are what the loop does with any larger
      number of passes allowed. */
  lemma OtherOutcomesAreFinal(t: string, chunkSize: int, overlap: int, fuel: nat)
    requires Params(t, chunkSize, overlap) && 0 < |t| && fuel > |t|
    requires Slide(t, chunkSize, overlap) != EndlessLoop
    ensures Run(t, chunkSize, overlap, 0, fuel) == Run(t, chunkSize, overlap, 0, |t| + 1)
  {
    RunSettles(t, chunkSize, overlap, 0, |t| + 1, fuel);
  }
}

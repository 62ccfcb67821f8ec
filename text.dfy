// The parts of java.lang.String and java.lang.Character that the services
// rely on, stated over strings as sequences of Java chars.
module Text {

  /** String.trim() removes every char whose code is at most U+0020. */
  predicate IsTrimmable(c: char) {
    c as int <= 32
  }

  /** The regular-expression class \s: space, \t, \n, \u000B, \f and \r. */
  predicate IsRegexSpace(c: char) {
    c == ' ' || 9 <= c as int <= 13
  }

  /** Character.isWhitespace: the space, line and paragraph separators other
      than the no-break spaces, plus \t \n \u000B \f \r and U+001C..U+001F.
      String.isBlank() is true when every char satisfies it. */
  predicate IsJavaWhitespace(c: char) {
    var k := c as int;
    (9 <= k <= 13) || (28 <= k <= 32)
    || k == 0x1680 || (0x2000 <= k <= 0x200A && k != 0x2007)
    || k == 0x2028 || k == 0x2029 || k == 0x205F || k == 0x3000
  }

  predicate IsBlank(s: string) {
    forall k :: 0 <= k < |s| ==> IsJavaWhitespace(s[k])
  }

  predicate StartsWith(s: string, prefix: string) {
    |prefix| <= |s| && s[..|prefix|] == prefix
  }

  predicate EndsWith(s: string, suffix: string) {
    |suffix| <= |s| && s[|s| - |suffix|..] == suffix
  }

  /** The chars that neither trim() nor whitespace collapsing can remove. */
  function Visible(s: string): (r: string)
    ensures |r| <= |s|
  {
    if s == [] then []
    else (if IsTrimmable(s[0]) then [] else [s[0]]) + Visible(s[1..])
  }

  lemma {:induction false} VisibleConcat(a: string, b: string)
    ensures Visible(a + b) == Visible(a) + Visible(b)
    decreases |a|
  {
    if a != [] {
      assert (a + b)[0] == a[0];
      assert (a + b)[1..] == a[1..] + b;
      VisibleConcat(a[1..], b);
    } else {
      assert a + b == b;
    }
  }

  lemma {:induction false} VisibleOfTrimmable(s: string)
    requires forall k :: 0 <= k < |s| ==> IsTrimmable(s[k])
    ensures Visible(s) == []
    decreases |s|
  {
    if s != [] {
      VisibleOfTrimmable(s[1..]);
    }
  }

  /** Number of trimmable chars at the front of s (the first loop of trim()). */
  function LeadingTrimmable(s: string): (n: nat)
    ensures n <= |s|
    ensures n < |s| ==> !IsTrimmable(s[n])
    decreases |s|
  {
    if |s| == 0 || !IsTrimmable(s[0]) then 0 else 1 + LeadingTrimmable(s[1..])
  }

  lemma {:induction false} LeadingAllTrimmable(s: string)
    ensures forall k :: 0 <= k < LeadingTrimmable(s) ==> IsTrimmable(s[k])
    decreases |s|
  {
    if |s| > 0 && IsTrimmable(s[0]) {
      LeadingAllTrimmable(s[1..]);
      forall k | 0 < k < LeadingTrimmable(s)
        ensures IsTrimmable(s[k])
      {
        assert s[k] == s[1..][k - 1];
      }
    }
  }

  /** Where the trailing run of trimmable chars begins, never before lo
      (the second loop of trim()). */
  function TrailingStart(s: string, lo: nat): (n: nat)
    requires lo <= |s|
    ensures lo <= n <= |s|
    ensures n > lo ==> !IsTrimmable(s[n - 1])
    decreases |s|
  {
    if |s| == lo || !IsTrimmable(s[|s| - 1]) then |s|
    else TrailingStart(s[..|s| - 1], lo)
  }

  lemma {:induction false} TrailingAllTrimmable(s: string, lo: nat)
    requires lo <= |s|
    ensures forall k :: TrailingStart(s, lo) <= k < |s| ==> IsTrimmable(s[k])
    decreases |s|
  {
    if |s| > lo && IsTrimmable(s[|s| - 1]) {
      var u := s[..|s| - 1];
      TrailingAllTrimmable(u, lo);
      forall k | TrailingStart(s, lo) <= k < |s| - 1
        ensures IsTrimmable(s[k])
      {
        assert s[k] == u[k];
      }
    }
  }

  /** The string starts and ends with a char trim() keeps. */
  predicate IsTrimmed(c: string) {
    c == [] || (!IsTrimmable(c[0]) && !IsTrimmable(c[|c| - 1]))
  }

  /** String.trim(). */
  function Trim(s: string): (r: string)
    ensures |r| <= |s|
    ensures r == [] || (!IsTrimmable(r[0]) && !IsTrimmable(r[|r| - 1]))
  {
    var i := LeadingTrimmable(s);
    var j := TrailingStart(s, i);
    s[i..j]
  }

  /** What trim() returns is the part of s after its leading trimmable chars. */
  lemma TrimIsInfix(s: string)
    ensures LeadingTrimmable(s) + |Trim(s)| <= |s|
    ensures s[LeadingTrimmable(s)..LeadingTrimmable(s) + |Trim(s)|] == Trim(s)
  {
  }

  /** trim() removes only trimmable chars, and only at the ends. */
  lemma TrimKeepsVisible(s: string)
    ensures Visible(Trim(s)) == Visible(s)
  {
    var i := LeadingTrimmable(s);
    var j := TrailingStart(s, i);
    assert Trim(s) == s[i..j];
    LeadingAllTrimmable(s);
    TrailingAllTrimmable(s, i);
    VisibleBetween(s, i, j);
  }

  lemma ThreeParts<T>(s: seq<T>, i: nat, j: nat)
    requires i <= j <= |s|
    ensures s == s[..i] + s[i..j] + s[j..]
  {
  }

  /** Cutting trimmable chars off both ends keeps the visible chars. */
  lemma VisibleBetween(s: string, i: nat, j: nat)
    requires i <= j <= |s|
    requires forall k :: 0 <= k < i ==> IsTrimmable(s[k])
    requires forall k :: j <= k < |s| ==> IsTrimmable(s[k])
    ensures Visible(s[i..j]) == Visible(s)
  {
    var a, m, b := s[..i], s[i..j], s[j..];
    ThreeParts(s, i, j);
    forall k | 0 <= k < |a| ensures IsTrimmable(a[k]) { assert a[k] == s[k]; }
    forall k | 0 <= k < |b| ensures IsTrimmable(b[k]) { assert b[k] == s[j + k]; }
    VisibleInside(a, m, b);
  }

  lemma VisibleInside(a: string, m: string, b: string)
    requires forall k :: 0 <= k < |a| ==> IsTrimmable(a[k])
    requires forall k :: 0 <= k < |b| ==> IsTrimmable(b[k])
    ensures Visible(a + m + b) == Visible(m)
  {
    VisibleOfTrimmable(a);
    VisibleOfTrimmable(b);
    VisibleConcat(a + m, b);
    VisibleConcat(a, m);
    assert [] + Visible(m) + [] == Visible(m);
  }

  lemma TrimIdempotent(s: string)
    ensures Trim(Trim(s)) == Trim(s)
  {
    TrimOfTrimmed(Trim(s));
  }

  /** trim() leaves a string that starts and ends with non-trimmable chars
      unchanged. */
  lemma TrimOfTrimmed(s: string)
    requires s == [] || (!IsTrimmable(s[0]) && !IsTrimmable(s[|s| - 1]))
    ensures Trim(s) == s
  {
    assert LeadingTrimmable(s) == 0;
    assert TrailingStart(s, 0) == |s|;
    assert s[0..|s|] == s;
  }

  /** Length of the run of \s chars at the front of s. */
  function SpaceRun(s: string): (n: nat)
    ensures n <= |s|
    ensures n < |s| ==> !IsRegexSpace(s[n])
    ensures |s| > 0 && IsRegexSpace(s[0]) ==> n > 0
    decreases |s|
  {
    if |s| == 0 || !IsRegexSpace(s[0]) then 0 else 1 + SpaceRun(s[1..])
  }

  lemma {:induction false} SpaceRunAllSpace(s: string)
    ensures forall k :: 0 <= k < SpaceRun(s) ==> IsRegexSpace(s[k])
    decreases |s|
  {
    if |s| > 0 && IsRegexSpace(s[0]) {
      SpaceRunAllSpace(s[1..]);
      forall k | 0 < k < SpaceRun(s)
        ensures IsRegexSpace(s[k])
      {
        assert s[k] == s[1..][k - 1];
      }
    }
  }

  /** No two \s chars stand next to each other, and the only \s char left is
      the plain space. */
  ghost predicate SingleSpaced(s: string) {
    (forall k :: 0 <= k < |s| && IsRegexSpace(s[k]) ==> s[k] == ' ')
    && (forall k :: 0 <= k < |s| - 1 ==> !SpacePairAt(s, k))
  }

  /** Two \s chars stand at k and k + 1. */
  ghost predicate SpacePairAt(s: string, k: int)
    requires 0 <= k < |s| - 1
  {
    IsRegexSpace(s[k]) && IsRegexSpace(s[k + 1])
  }

  /** s.replaceAll("\\s+", " "): every maximal run of \s chars becomes one space. */
  function CollapseSpaces(s: string): (r: string)
    ensures SingleSpaced(r)
    ensures |s| > 0 ==> |r| > 0 && (IsRegexSpace(r[0]) <==> IsRegexSpace(s[0]))
    ensures |r| <= |s|
    decreases |s|
  {
    if s == [] then []
    else if IsRegexSpace(s[0]) then
      var n := SpaceRun(s);
      var rest := CollapseSpaces(s[n..]);
      ConsSingleSpaced(' ', rest);
      [' '] + rest
    else
      var rest := CollapseSpaces(s[1..]);
      ConsSingleSpaced(s[0], rest);
      [s[0]] + rest
  }

  /** Putting c in front of a single-spaced string keeps it single-spaced
      when c is not a \s char, or is a space followed by a non-\s char. */
  lemma ConsSingleSpaced(c: char, rest: string)
    requires SingleSpaced(rest)
    requires IsRegexSpace(c) ==> c == ' ' && (rest == [] || !IsRegexSpace(rest[0]))
    ensures SingleSpaced([c] + rest)
  {
    var r := [c] + rest;
    forall k | 0 <= k < |r| - 1
      ensures !SpacePairAt(r, k)
    {
      if k > 0 {
        assert r[k] == rest[k - 1] && r[k + 1] == rest[k];
        assert !SpacePairAt(rest, k - 1);
      }
    }
  }

  lemma {:induction false} CollapseKeepsVisible(s: string)
    ensures Visible(CollapseSpaces(s)) == Visible(s)
    decreases |s|
  {
    if s != [] {
      if IsRegexSpace(s[0]) {
        var n := SpaceRun(s);
        CollapseKeepsVisible(s[n..]);
        VisibleConcat([' '], CollapseSpaces(s[n..]));
        assert s == s[..n] + s[n..];
        VisibleConcat(s[..n], s[n..]);
        SpaceRunAllSpace(s);
        VisibleOfTrimmable(s[..n]);
      } else {
        CollapseKeepsVisible(s[1..]);
        VisibleConcat([s[0]], CollapseSpaces(s[1..]));
      }
    }
  }

  /** An infix of a single-spaced string is single-spaced. */
  lemma SingleSpacedInfix(s: string, i: nat, j: nat)
    requires i <= j <= |s| && SingleSpaced(s)
    ensures SingleSpaced(s[i..j])
  {
    var t := s[i..j];
    forall k | 0 <= k < |t| - 1
      ensures !SpacePairAt(t, k)
    {
      assert t[k] == s[i + k] && t[k + 1] == s[i + k + 1];
      assert !SpacePairAt(s, i + k);
    }
  }

  /** toLowerCase restricted to ASCII letters. */
  function LowerAscii(c: char): char {
    if 'A' <= c <= 'Z' then (c as int + 32) as char else c
  }

  /** String.equalsIgnoreCase, with case folded for ASCII letters. */
  predicate EqualsIgnoreCase(a: string, b: string) {
    |a| == |b| && forall k :: 0 <= k < |a| ==> LowerAscii(a[k]) == LowerAscii(b[k])
  }

  /** String.lastIndexOf(c, from): the largest index not above from holding c,
      or -1; a from past the end searches the whole string. */
  function LastIndexOf(s: string, c: char, from: int): (r: int)
    ensures -1 <= r < |s| && (r == -1 || r <= from)
    ensures r >= 0 ==> s[r] == c
    decreases if from < 0 then 0 else from + 1
  {
    if from < 0 then -1
    else if from >= |s| then LastIndexOf(s, c, |s| - 1)
    else if s[from] == c then from
    else LastIndexOf(s, c, from - 1)
  }

  /** No c lies between what lastIndexOf finds and from. */
  lemma {:induction false} LastIndexOfSpec(s: string, c: char, from: int)
    ensures var r := LastIndexOf(s, c, from);
      forall k :: r < k <= from && 0 <= k < |s| ==> s[k] != c
    decreases if from < 0 then 0 else from + 1
  {
    if from < 0 {
    } else if from >= |s| {
      LastIndexOfSpec(s, c, |s| - 1);
    } else if s[from] != c {
      LastIndexOfSpec(s, c, from - 1);
    }
  }

  function DigitChar(d: nat): (c: char)
    requires d < 10
    ensures '0' <= c <= '9'
  {
    ('0' as int + d) as char
  }

  predicate AllDigits(s: string) {
    forall k :: 0 <= k < |s| ==> '0' <= s[k] <= '9'
  }

  /** Decimal text of a non-negative number, most significant digit first. */
  function NatToString(n: nat): (r: string)
    ensures |r| >= 1 && AllDigits(r)
    ensures |r| > 1 ==> r[0] != '0'
  {
    if n < 10 then [DigitChar(n)] else NatToString(n / 10) + [DigitChar(n % 10)]
  }

  /** String.valueOf(int) / Integer.toString. */
  function IntToString(i: int): string {
    if i < 0 then "-" + NatToString(-i) else NatToString(i)
  }

  /** Value of a string of decimal digits. */
  function DecimalValue(s: string): nat
    requires AllDigits(s)
  {
    if s == [] then 0
    else DecimalValue(s[..|s| - 1]) * 10 + (s[|s| - 1] as int - '0' as int)
  }

  /** The decimal text of a number reads back as that number, so distinct
      numbers print differently. */
  lemma {:induction false} NatToStringRoundTrip(n: nat)
    ensures DecimalValue(NatToString(n)) == n
  {
    if n >= 10 {
      NatToStringRoundTrip(n / 10);
      var r := NatToString(n);
      assert r[..|r| - 1] == NatToString(n / 10);
    }
  }
}

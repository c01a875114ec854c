/**
 * The six fixed regular expressions of the scraper, each hand-coded as a
 * matcher at one position, and Python's `re.search` as the leftmost
 * position where the matcher succeeds. Each matcher returns the span of
 * the pattern's single capture group.
 *
 *   DollarCents   \$\s*([\d,]+\.\d{2})
 *   DollarWhole   \$\s*([\d,]+)
 *   RatedOut      Rated\s+([\d\.]+)\s+out      (re.IGNORECASE)
 *   RatingClass   rating-(\d)
 *   ParenCount    \(([\d,]+)\)
 *   OfPages       of\s+(\d+)
 *
 * None of these patterns can backtrack into a different match at the same
 * start: every quantified run is followed by a character outside the run's
 * class, so the greedy maximal run is the only candidate.
 */
module Patterns {
  import opened Wrappers
  import opened Text

  datatype Pattern = DollarCents | DollarWhole | RatedOut | RatingClass | ParenCount | OfPages

  /** A capture group's [start, end) in the searched text. */
  datatype Span = Span(start: nat, end: nat)

  /** A successful search: where the whole match starts, and its group. */
  datatype Match = Match(at: nat, group: Span)

  datatype CharClass = Space | Digit | DigitOrComma | DigitOrDot

  predicate InClass(c: char, k: CharClass) {
    match k
    case Space => IsSpace(c)
    case Digit => IsDigit(c)
    case DigitOrComma => IsDigit(c) || c == ','
    case DigitOrDot => IsDigit(c) || c == '.'
  }

  predicate AllInClass(s: string, k: CharClass) {
    forall i | 0 <= i < |s| :: InClass(s[i], k)
  }

  /** End of the longest run of class k starting at i (a greedy `[...]*`). */
  function RunEnd(s: string, i: nat, k: CharClass): (j: nat)
    requires i <= |s|
    ensures i <= j <= |s|
    ensures forall m | i <= m < j :: InClass(s[m], k)
    ensures j < |s| ==> !InClass(s[j], k)
    decreases |s| - i
  {
    if i < |s| && InClass(s[i], k) then RunEnd(s, i + 1, k) else i
  }

  function LowerChar(c: char): char {
    if 'A' <= c <= 'Z' then (c as int - 'A' as int + 'a' as int) as char else c
  }

  /** The lower-case literal `lit` occurs at i, ignoring case. */
  predicate FoldedAt(s: string, i: nat, lit: string) {
    i + |lit| <= |s| && forall m | 0 <= m < |lit| :: LowerChar(s[i + m]) == lit[m]
  }

  /** What every group a pattern captures looks like. */
  predicate GroupShape(p: Pattern, g: string) {
    match p
    case DollarCents =>
      |g| >= 4 && AllInClass(g[..|g| - 3], DigitOrComma) &&
      g[|g| - 3] == '.' && IsDigit(g[|g| - 2]) && IsDigit(g[|g| - 1])
    case DollarWhole => |g| >= 1 && AllInClass(g, DigitOrComma)
    case RatedOut => |g| >= 1 && AllInClass(g, DigitOrDot)
    case RatingClass => |g| == 1 && IsDigit(g[0])
    case ParenCount => |g| >= 1 && AllInClass(g, DigitOrComma)
    case OfPages => |g| >= 1 && AllDigits(g)
  }

  /** The pattern matched starting exactly at position i. */
  function MatchAt(p: Pattern, s: string, i: nat): (m: Option<Span>)
    ensures m.Some? ==> i < |s|
    ensures m.Some? ==> i <= m.value.start <= m.value.end <= |s|
    ensures m.Some? ==> GroupShape(p, s[m.value.start..m.value.end])
  {
    if i >= |s| then None
    else match p
      case DollarCents => DollarCentsAt(s, i)
      case DollarWhole => DollarWholeAt(s, i)
      case RatedOut => RatedOutAt(s, i)
      case RatingClass => RatingClassAt(s, i)
      case ParenCount => ParenCountAt(s, i)
      case OfPages => OfPagesAt(s, i)
  }

  function DollarCentsAt(s: string, i: nat): (m: Option<Span>)
    requires i < |s|
    ensures m.Some? ==> i <= m.value.start <= m.value.end <= |s|
    ensures m.Some? ==> GroupShape(DollarCents, s[m.value.start..m.value.end])
  {
    if s[i] != '$' then None
    else
      var j := RunEnd(s, i + 1, Space);
      var k := RunEnd(s, j, DigitOrComma);
      if k > j && k + 3 <= |s| && s[k] == '.' && IsDigit(s[k + 1]) && IsDigit(s[k + 2]) then
        assert s[j..k + 3][..k - j] == s[j..k];
        Some(Span(j, k + 3))
      else None
  }

  function DollarWholeAt(s: string, i: nat): (m: Option<Span>)
    requires i < |s|
    ensures m.Some? ==> i <= m.value.start <= m.value.end <= |s|
    ensures m.Some? ==> GroupShape(DollarWhole, s[m.value.start..m.value.end])
  {
    if s[i] != '$' then None
    else
      var j := RunEnd(s, i + 1, Space);
      var k := RunEnd(s, j, DigitOrComma);
      if k > j then Some(Span(j, k)) else None
  }

  function RatedOutAt(s: string, i: nat): (m: Option<Span>)
    requires i < |s|
    ensures m.Some? ==> i <= m.value.start <= m.value.end <= |s|
    ensures m.Some? ==> GroupShape(RatedOut, s[m.value.start..m.value.end])
  {
    if !FoldedAt(s, i, "rated") then None
    else
      var j := RunEnd(s, i + 5, Space);
      var k := RunEnd(s, j, DigitOrDot);
      var l := RunEnd(s, k, Space);
      if j > i + 5 && k > j && l > k && FoldedAt(s, l, "out") then Some(Span(j, k)) else None
  }

  function RatingClassAt(s: string, i: nat): (m: Option<Span>)
    requires i < |s|
    ensures m.Some? ==> i <= m.value.start <= m.value.end <= |s|
    ensures m.Some? ==> GroupShape(RatingClass, s[m.value.start..m.value.end])
  {
    if i + 8 <= |s| && s[i..i + 7] == "rating-" && IsDigit(s[i + 7]) then
      Some(Span(i + 7, i + 8))
    else None
  }

  function ParenCountAt(s: string, i: nat): (m: Option<Span>)
    requires i < |s|
    ensures m.Some? ==> i <= m.value.start <= m.value.end <= |s|
    ensures m.Some? ==> GroupShape(ParenCount, s[m.value.start..m.value.end])
  {
    if s[i] != '(' then None
    else
      var k := RunEnd(s, i + 1, DigitOrComma);
      if k > i + 1 && k < |s| && s[k] == ')' then Some(Span(i + 1, k)) else None
  }

  function OfPagesAt(s: string, i: nat): (m: Option<Span>)
    requires i < |s|
    ensures m.Some? ==> i <= m.value.start <= m.value.end <= |s|
    ensures m.Some? ==> GroupShape(OfPages, s[m.value.start..m.value.end])
  {
    if !(i + 2 <= |s| && s[i..i + 2] == "of") then None
    else
      var j := RunEnd(s, i + 2, Space);
      var k := RunEnd(s, j, Digit);
      if j > i + 2 && k > j then Some(Span(j, k)) else None
  }

  /** `re.search(p, s[from..])`: the leftmost position where p matches. */
  function SearchFrom(p: Pattern, s: string, from: nat): (r: Option<Match>)
    ensures r.Some? ==> from <= r.value.at && MatchAt(p, s, r.value.at) == Some(r.value.group)
    ensures r.Some? ==> forall i | from <= i < r.value.at :: MatchAt(p, s, i).None?
    ensures r.None? ==> forall i | from <= i :: MatchAt(p, s, i).None?
    decreases |s| - from
  {
    if from >= |s| then None
    else match MatchAt(p, s, from)
      case Some(g) => Some(Match(from, g))
      case None => SearchFrom(p, s, from + 1)
  }

  function Search(p: Pattern, s: string): (r: Option<Match>)
    ensures r.Some? ==> MatchAt(p, s, r.value.at) == Some(r.value.group)
    ensures r.Some? ==> forall i | 0 <= i < r.value.at :: MatchAt(p, s, i).None?
    ensures r.None? ==> forall i: nat :: MatchAt(p, s, i).None?
  {
    SearchFrom(p, s, 0)
  }

  /** A run of class k from i ends exactly at the first character outside k. */
  lemma {:induction false} RunEndStopsAt(s: string, i: nat, k: CharClass, j: nat)
    requires i <= j <= |s|
    requires forall m | i <= m < j :: InClass(s[m], k)
    requires j == |s| || !InClass(s[j], k)
    ensures RunEnd(s, i, k) == j
    decreases j - i
  {
    if i < j {
      RunEndStopsAt(s, i + 1, k, j);
    }
  }

  /** The search finds the first position at which the pattern matches. */
  lemma SearchFindsFirst(p: Pattern, s: string, from: nat, at: nat, g: Span)
    requires from <= at && MatchAt(p, s, at) == Some(g)
    requires forall i | from <= i < at :: MatchAt(p, s, i).None?
    ensures SearchFrom(p, s, from) == Some(Match(at, g))
  {
    var r := SearchFrom(p, s, from);
    assert r.Some?;
    assert !(r.value.at < at);
    assert r.value.at == at;
  }

  // ---------------------------------------------------------------------
  // Occurrences of the patterns, stated position by position
  // ---------------------------------------------------------------------

  /**
   * `\$\s*([\d,]+\.\d{2})` at i: '$', whitespace on [i + 1, j), digits and commas on
   * [j, k), then '.' and two digits. The group is [j, k + 3).
   */
  predicate DollarCentsOccurs(s: string, i: nat, j: nat, k: nat) {
    i < j < k && k + 3 <= |s| && s[i] == '$'
    && (forall m | i + 1 <= m < j :: IsSpace(s[m]))
    && (forall m | j <= m < k :: IsDigit(s[m]) || s[m] == ',')
    && s[k] == '.' && IsDigit(s[k + 1]) && IsDigit(s[k + 2])
  }

  lemma DollarCentsOccursMatch(s: string, i: nat, j: nat, k: nat)
    ensures DollarCentsOccurs(s, i, j, k) ==> MatchAt(DollarCents, s, i) == Some(Span(j, k + 3))
  {
    if DollarCentsOccurs(s, i, j, k) {
      RunEndStopsAt(s, i + 1, Space, j);
      RunEndStopsAt(s, j, DigitOrComma, k);
    }
  }

  lemma MatchDollarCentsOccurs(s: string, i: nat)
    ensures MatchAt(DollarCents, s, i).Some? ==>
      var g := MatchAt(DollarCents, s, i).value;
      g.end >= 3 && DollarCentsOccurs(s, i, g.start, g.end - 3)
  {
  }

  /**
   * `\$\s*([\d,]+)` at i: '$', whitespace on [i + 1, j), then the longest run of
   * digits and commas, [j, k), which is the group.
   */
  predicate DollarWholeOccurs(s: string, i: nat, j: nat, k: nat) {
    i < j < k <= |s| && s[i] == '$'
    && (forall m | i + 1 <= m < j :: IsSpace(s[m]))
    && (forall m | j <= m < k :: IsDigit(s[m]) || s[m] == ',')
    && (k == |s| || !(IsDigit(s[k]) || s[k] == ','))
  }

  lemma DollarWholeOccursMatch(s: string, i: nat, j: nat, k: nat)
    ensures DollarWholeOccurs(s, i, j, k) ==> MatchAt(DollarWhole, s, i) == Some(Span(j, k))
  {
    if DollarWholeOccurs(s, i, j, k) {
      RunEndStopsAt(s, i + 1, Space, j);
      RunEndStopsAt(s, j, DigitOrComma, k);
    }
  }

  lemma MatchDollarWholeOccurs(s: string, i: nat)
    ensures MatchAt(DollarWhole, s, i).Some? ==>
      var g := MatchAt(DollarWhole, s, i).value;
      DollarWholeOccurs(s, i, g.start, g.end)
  {
  }

  /** Every two-decimal amount starts with a whole-dollar amount. */
  lemma CentsOccursWhole(s: string, i: nat, j: nat, k: nat)
    ensures DollarCentsOccurs(s, i, j, k) ==> DollarWholeOccurs(s, i, j, k)
  {
  }

  /** `Rated\s+([\d.]+)\s+out`, any case, starting at a: its group is [j, k) and "out" is at l. */
  predicate RatedOccurs(s: string, a: nat, j: nat, k: nat, l: nat) {
    a + 5 < j < k < l && l + 3 <= |s| && FoldedAt(s, a, "rated") && FoldedAt(s, l, "out")
    && (forall m | a + 5 <= m < j :: IsSpace(s[m]))
    && (forall m | j <= m < k :: IsDigit(s[m]) || s[m] == '.')
    && (forall m | k <= m < l :: IsSpace(s[m]))
  }

  lemma RatedOccursMatch(s: string, a: nat, j: nat, k: nat, l: nat)
    requires RatedOccurs(s, a, j, k, l)
    ensures MatchAt(RatedOut, s, a) == Some(Span(j, k))
  {
    assert LowerChar(s[l + 0]) == "out"[0];
    assert !IsSpace(s[l]);
    RunEndStopsAt(s, a + 5, Space, j);
    RunEndStopsAt(s, j, DigitOrDot, k);
    RunEndStopsAt(s, k, Space, l);
  }

  lemma MatchRatedOccurs(s: string, a: nat)
    ensures MatchAt(RatedOut, s, a).Some? ==>
      exists j, k, l :: RatedOccurs(s, a, j, k, l) && MatchAt(RatedOut, s, a) == Some(Span(j, k))
  {
    if MatchAt(RatedOut, s, a).Some? {
      var j := RunEnd(s, a + 5, Space);
      var k := RunEnd(s, j, DigitOrDot);
      var l := RunEnd(s, k, Space);
      assert RatedOccurs(s, a, j, k, l);
    }
  }

  /** `rating-(\d)` at i. */
  predicate RatingOccurs(s: string, i: nat) {
    i + 8 <= |s| && s[i..i + 7] == "rating-" && IsDigit(s[i + 7])
  }

  lemma RatingOccursMatch(s: string, i: nat)
    ensures MatchAt(RatingClass, s, i) == if RatingOccurs(s, i) then Some(Span(i + 7, i + 8)) else None
  {
  }

  /** `\(([\d,]+)\)` at i: the group is [i + 1, k) and ')' is at k. */
  predicate ParenOccurs(s: string, i: nat, k: nat) {
    i + 1 < k < |s| && s[i] == '(' && s[k] == ')'
    && forall m | i < m < k :: IsDigit(s[m]) || s[m] == ','
  }

  lemma ParenOccursMatch(s: string, i: nat, k: nat)
    ensures ParenOccurs(s, i, k) ==> MatchAt(ParenCount, s, i) == Some(Span(i + 1, k))
  {
    if ParenOccurs(s, i, k) {
      RunEndStopsAt(s, i + 1, DigitOrComma, k);
    }
  }

  lemma MatchParenOccurs(s: string, i: nat)
    ensures MatchAt(ParenCount, s, i).Some? ==>
      var g := MatchAt(ParenCount, s, i).value;
      g.start == i + 1 && ParenOccurs(s, i, g.end)
  {
  }

  /** `of\s+(\d+)` at a: the group is the maximal digit run [j, k). */
  predicate OfOccurs(s: string, a: nat, j: nat, k: nat) {
    a + 2 < j < k <= |s| && s[a] == 'o' && s[a + 1] == 'f'
    && (forall m | a + 2 <= m < j :: IsSpace(s[m]))
    && (forall m | j <= m < k :: IsDigit(s[m]))
    && (k == |s| || !IsDigit(s[k]))
  }

  lemma OfOccursMatch(s: string, a: nat, j: nat, k: nat)
    ensures OfOccurs(s, a, j, k) ==> MatchAt(OfPages, s, a) == Some(Span(j, k))
  {
    if OfOccurs(s, a, j, k) {
      assert s[a..a + 2] == "of";
      RunEndStopsAt(s, a + 2, Space, j);
      RunEndStopsAt(s, j, Digit, k);
    }
  }

  lemma MatchOfOccurs(s: string, a: nat)
    ensures MatchAt(OfPages, s, a).Some? ==>
      var g := MatchAt(OfPages, s, a).value;
      OfOccurs(s, a, g.start, g.end)
  {
    if MatchAt(OfPages, s, a).Some? {
      assert s[a..a + 2][0] == s[a] && s[a..a + 2][1] == s[a + 1];
    }
  }

  /** The text of the group of a successful search. */
  function GroupText(s: string, m: Match): (g: string)
    requires m.group.start <= m.group.end <= |s|
  {
    s[m.group.start..m.group.end]
  }
}

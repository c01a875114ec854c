/**
 * Character classes and string conversions used by the scraper:
 * Python's `str.isspace`, ASCII digits, `int()`/`float()` on decimal
 * text, `str.split()[0]`, `" ".join`, `str.upper()`, `str.replace(",", "")`
 * and the `in` test on strings.
 */
module Text {
  import opened Wrappers

  // ---------------------------------------------------------------------
  // Characters
  // ---------------------------------------------------------------------

  /** The code points Python's `str.isspace` (and `\s` in a str pattern) accepts. */
  predicate IsSpace(c: char) {
    var n := c as int;
    (9 <= n <= 13) || (28 <= n <= 32) || n == 0x85 || n == 0xA0 || n == 0x1680 ||
    (0x2000 <= n <= 0x200A) || n == 0x2028 || n == 0x2029 || n == 0x202F ||
    n == 0x205F || n == 0x3000
  }

  predicate IsDigit(c: char) {
    '0' <= c <= '9'
  }

  predicate AllDigits(s: string) {
    forall i | 0 <= i < |s| :: IsDigit(s[i])
  }

  function DigitValue(c: char): (d: nat)
    requires IsDigit(c)
    ensures d < 10
  {
    c as int - '0' as int
  }

  function DigitChar(d: nat): (c: char)
    requires d < 10
    ensures IsDigit(c) && DigitValue(c) == d
  {
    ('0' as int + d) as char
  }

  // ---------------------------------------------------------------------
  // Decimal numerals
  // ---------------------------------------------------------------------

  function Pow10(n: nat): (r: nat)
    ensures r >= 1
  {
    if n == 0 then 1 else 10 * Pow10(n - 1)
  }

  /** The value of a string of decimal digits, most significant first (`int(s)` for s != ""). */
  function DigitsValue(s: string): nat
    requires AllDigits(s)
  {
    if s == [] then 0 else DigitsValue(s[..|s| - 1]) * 10 + DigitValue(s[|s| - 1])
  }

  /** Reading a concatenation: the left part is shifted by the width of the right part. */
  lemma {:induction false} DigitsValueAppend(a: string, b: string)
    requires AllDigits(a) && AllDigits(b)
    ensures AllDigits(a + b)
    ensures DigitsValue(a + b) == DigitsValue(a) * Pow10(|b|) + DigitsValue(b)
    decreases |b|
  {
    var ab := a + b;
    assert forall i | 0 <= i < |ab| :: ab[i] == if i < |a| then a[i] else b[i - |a|];
    if b == [] {
      assert ab == a;
    } else {
      var b' := b[..|b| - 1];
      var d := DigitValue(b[|b| - 1]);
      assert ab[..|ab| - 1] == a + b';
      assert ab[|ab| - 1] == b[|b| - 1];
      DigitsValueAppend(a, b');
      assert DigitsValue(ab) == DigitsValue(a + b') * 10 + d;
      assert DigitsValue(b) == DigitsValue(b') * 10 + d;
      assert Pow10(|b|) == 10 * Pow10(|b'|);
      ShiftDigit(DigitsValue(a), Pow10(|b'|), DigitsValue(b'), d);
    }
  }

  /** Appending one digit to the right part of a split numeral. */
  lemma ShiftDigit(x: nat, p: nat, y: nat, d: nat)
    ensures (x * p + y) * 10 + d == x * (10 * p) + (y * 10 + d)
  {
  }

  /** The decimal numeral of n, as `str(n)` writes it (no leading zeros). */
  function NatToString(n: nat): (s: string)
    ensures |s| >= 1 && AllDigits(s)
    ensures |s| > 1 ==> s[0] != '0'
  {
    if n < 10 then [DigitChar(n)] else NatToString(n / 10) + [DigitChar(n % 10)]
  }

  /** `int(str(n)) == n`. */
  lemma {:induction false} NatToStringRoundTrip(n: nat)
    ensures DigitsValue(NatToString(n)) == n
  {
    var s := NatToString(n);
    if n >= 10 {
      NatToStringRoundTrip(n / 10);
      assert s[..|s| - 1] == NatToString(n / 10);
    }
  }

  lemma NatToStringInjective(m: nat, n: nat)
    ensures NatToString(m) == NatToString(n) ==> m == n
  {
    NatToStringRoundTrip(m);
    NatToStringRoundTrip(n);
  }

  // ---------------------------------------------------------------------
  // Python's float() on the strings the scraper hands it
  // ---------------------------------------------------------------------

  /** Index of the first '.', or |s| when there is none. */
  function DotIndex(s: string): (k: nat)
    ensures k <= |s|
    ensures k < |s| ==> s[k] == '.'
    ensures forall i | 0 <= i < k :: s[i] != '.'
  {
    if s == [] then 0 else if s[0] == '.' then 0 else 1 + DotIndex(s[1..])
  }

  /** The value of the decimal numeral `whole.frac`. */
  function DecimalValue(whole: string, frac: string): (r: real)
    requires AllDigits(whole) && AllDigits(frac)
    ensures r >= DigitsValue(whole) as real
  {
    var w, f, d := DigitsValue(whole) as real, DigitsValue(frac) as real, Pow10(|frac|) as real;
    assert f / d >= 0.0 by { FractionNonNegative(f, d); }
    w + f / d
  }

  lemma FractionNonNegative(f: real, d: real)
    requires f >= 0.0 && d >= 1.0
    ensures f / d >= 0.0
  {
  }

  /**
   * `float(s)` for unsigned decimal text: digits, at most one '.', and at
   * least one digit ("5", "5.", ".5", "12.99"). Anything else is the
   * ValueError branch, None.
   */
  function ParseFloat(s: string): (r: Option<real>)
    ensures r.Some? ==> r.value >= 0.0
  {
    var k := DotIndex(s);
    var whole := s[..k];
    var frac := if k < |s| then s[k + 1..] else [];
    if AllDigits(whole) && AllDigits(frac) && |whole| + |frac| >= 1 then
      Some(DecimalValue(whole, frac))
    else
      None
  }

  /** float() of "W.F" with digit strings W and F reads exactly W + F/10^|F|. */
  lemma ParseFloatOfDecimal(whole: string, frac: string)
    requires AllDigits(whole) && AllDigits(frac) && |whole| + |frac| >= 1
    ensures ParseFloat(whole + "." + frac) == Some(DecimalValue(whole, frac))
  {
    var s := whole + "." + frac;
    assert s[|whole|] == '.';
    assert forall i | 0 <= i < |whole| :: s[i] == whole[i];
    assert DotIndex(s) == |whole|;
    assert s[..|whole|] == whole;
    assert s[|whole| + 1..] == frac;
  }

  /** float() of a plain digit string is its integer value. */
  lemma ParseFloatOfDigits(digits: string)
    requires AllDigits(digits) && |digits| >= 1
    ensures ParseFloat(digits) == Some(DigitsValue(digits) as real)
  {
    var k := DotIndex(digits);
    assert k == |digits|;
    assert digits[..k] == digits;
    var empty: string := [];
    assert DecimalValue(digits, empty) == DigitsValue(digits) as real by {
      assert DigitsValue(empty) == 0 && Pow10(|empty|) == 1;
    }
  }

  // ---------------------------------------------------------------------
  // str.replace(",", "")
  // ---------------------------------------------------------------------

  function StripCommas(s: string): (r: string)
    ensures |r| <= |s|
    ensures forall i | 0 <= i < |r| :: r[i] != ','
  {
    if s == [] then [] else (if s[0] == ',' then [] else [s[0]]) + StripCommas(s[1..])
  }

  lemma {:induction false} StripCommasAppend(a: string, b: string)
    ensures StripCommas(a + b) == StripCommas(a) + StripCommas(b)
    decreases |a|
  {
    if a == [] {
      assert a + b == b;
    } else {
      assert (a + b)[1..] == a[1..] + b;
      StripCommasAppend(a[1..], b);
    }
  }

  /** Removing the commas from digit-and-comma text leaves only digits. */
  lemma {:induction false} StripCommasDigits(s: string)
    requires forall i | 0 <= i < |s| :: IsDigit(s[i]) || s[i] == ','
    ensures AllDigits(StripCommas(s))
    ensures (exists i | 0 <= i < |s| :: IsDigit(s[i])) <==> StripCommas(s) != []
    decreases |s|
  {
    if s != [] {
      StripCommasDigits(s[1..]);
      if exists i | 0 <= i < |s[1..]| :: IsDigit(s[1..][i]) {
        var i :| 0 <= i < |s[1..]| && IsDigit(s[1..][i]);
        assert IsDigit(s[i + 1]);
      }
      if exists i | 0 <= i < |s| :: IsDigit(s[i]) {
        var i :| 0 <= i < |s| && IsDigit(s[i]);
        if i > 0 { assert IsDigit(s[1..][i - 1]); }
      }
    }
  }

  /** Text without commas is left as it is. */
  lemma {:induction false} StripCommasNoComma(s: string)
    requires forall i | 0 <= i < |s| :: s[i] != ','
    ensures StripCommas(s) == s
    decreases |s|
  {
    if s != [] {
      StripCommasNoComma(s[1..]);
      assert [s[0]] + s[1..] == s;
    }
  }

  /** A thousands separator between two comma-free parts disappears. */
  lemma StripCommasGrouped(a: string, b: string)
    requires forall i | 0 <= i < |a| :: a[i] != ','
    requires forall i | 0 <= i < |b| :: b[i] != ','
    ensures StripCommas(a + "," + b) == a + b
  {
    calc {
      StripCommas(a + "," + b);
      { AppendAssociative(a, ",", b); }
      StripCommas(a + ("," + b));
      { StripCommasAppend(a, "," + b); }
      StripCommas(a) + StripCommas("," + b);
      { StripCommasNoComma(a); LeadingCommaDropped(b); }
      a + StripCommas(b);
      { StripCommasNoComma(b); }
      a + b;
    }
  }

  lemma LeadingCommaDropped(b: string)
    ensures StripCommas("," + b) == StripCommas(b)
  {
    assert ("," + b)[0] == ',' && ("," + b)[1..] == b;
  }

  lemma AppendAssociative(a: string, b: string, c: string)
    ensures a + (b + c) == a + b + c
  {
  }

  /** The pieces of a five-part concatenation, recovered by slicing. */
  lemma ConcatParts5(a: string, b: string, c: string, d: string, e: string)
    ensures var s := a + b + c + d + e;
      var i1 := |a|; var i2 := i1 + |b|; var i3 := i2 + |c|; var i4 := i3 + |d|;
      |s| == i4 + |e| &&
      s[..i1] == a && s[i1..i2] == b && s[i2..i3] == c && s[i3..i4] == d && s[i4..] == e
  {
    var ab := a + b;
    var abc := ab + c;
    var abcd := abc + d;
    var s := abcd + e;
    assert s[..|abcd|] == abcd && s[|abcd|..] == e;
    assert abcd[..|abc|] == abc && abcd[|abc|..] == d;
    assert abc[..|ab|] == ab && abc[|ab|..] == c;
    assert ab[..|a|] == a && ab[|a|..] == b;
    assert s[|abc|..|abcd|] == abcd[|abc|..];
    assert s[|ab|..|abc|] == abc[|ab|..];
    assert s[|a|..|ab|] == ab[|a|..];
    assert s[..|a|] == ab[..|a|];
  }

  // ---------------------------------------------------------------------
  // str.split()[0], " ".join, str.upper(), `in`
  // ---------------------------------------------------------------------

  function SkipSpaces(s: string, i: nat): (j: nat)
    requires i <= |s|
    ensures i <= j <= |s|
    ensures forall k | i <= k < j :: IsSpace(s[k])
    ensures j < |s| ==> !IsSpace(s[j])
    decreases |s| - i
  {
    if i < |s| && IsSpace(s[i]) then SkipSpaces(s, i + 1) else i
  }

  function TokenEnd(s: string, i: nat): (j: nat)
    requires i <= |s|
    ensures i <= j <= |s|
    ensures forall k | i <= k < j :: !IsSpace(s[k])
    ensures j < |s| ==> IsSpace(s[j])
    decreases |s| - i
  {
    if i < |s| && !IsSpace(s[i]) then TokenEnd(s, i + 1) else i
  }

  /** `s.split()[0]`, or None where Python raises IndexError (s is empty or all whitespace). */
  function FirstToken(s: string): (r: Option<string>)
    ensures r.None? <==> forall k | 0 <= k < |s| :: IsSpace(s[k])
    ensures r.Some? ==> |r.value| >= 1 && forall k | 0 <= k < |r.value| :: !IsSpace(r.value[k])
    ensures r.Some? ==> exists i :: LeadingToken(s, r.value, i)
  {
    var i := SkipSpaces(s, 0);
    if i == |s| then None
    else
      var j := TokenEnd(s, i);
      assert s[i..j][0] == s[i];
      assert LeadingToken(s, s[i..j], i);
      Some(s[i..j])
  }

  /** The first token of a title that starts with a word is that word. */
  lemma FirstTokenOfWords(tok: string, rest: string)
    requires |tok| >= 1 && forall k | 0 <= k < |tok| :: !IsSpace(tok[k])
    requires rest == [] || IsSpace(rest[0])
    ensures FirstToken(tok + rest) == Some(tok)
  {
    var s := tok + rest;
    assert s[0] == tok[0];
    assert SkipSpaces(s, 0) == 0;
    assert forall k | 0 <= k < |tok| :: s[k] == tok[k];
    assert s[..|tok|] == tok;
  }

  /** `tok` starts at i after nothing but whitespace and ends at whitespace or the end of s. */
  predicate LeadingToken(s: string, tok: string, i: int) {
    0 <= i && i + |tok| <= |s| &&
    (forall k | 0 <= k < i :: IsSpace(s[k])) && s[i..i + |tok|] == tok &&
    (i + |tok| == |s| || IsSpace(s[i + |tok|]))
  }

  /** `sep.join(words)`. */
  function Join(words: seq<string>, sep: string): string {
    if words == [] then []
    else if |words| == 1 then words[0]
    else words[0] + sep + Join(words[1..], sep)
  }

  /** Every word followed by the separator: the part of a join before a later word. */
  function Terminated(words: seq<string>, sep: string): string {
    if words == [] then [] else words[0] + sep + Terminated(words[1..], sep)
  }

  /** Joining `pre + words` writes each word of pre with its separator, then joins words. */
  lemma {:induction false} JoinAfter(pre: seq<string>, words: seq<string>, sep: string)
    requires words != []
    ensures Join(pre + words, sep) == Terminated(pre, sep) + Join(words, sep)
  {
    if pre == [] {
      assert pre + words == words;
    } else {
      var all := pre + words;
      assert |all| >= 2 && all[0] == pre[0] && all[1..] == pre[1..] + words;
      JoinAfter(pre[1..], words, sep);
      calc {
        Join(all, sep);
        pre[0] + sep + Join(pre[1..] + words, sep);
        pre[0] + sep + (Terminated(pre[1..], sep) + Join(words, sep));
        { AppendAssociative(pre[0] + sep, Terminated(pre[1..], sep), Join(words, sep)); }
        Terminated(pre, sep) + Join(words, sep);
      }
    }
  }

  /** A character in neither the words nor the separator is not in their terminated form. */
  lemma {:induction false} TerminatedAvoids(words: seq<string>, sep: string, c: char)
    requires c !in sep && forall w | w in words :: c !in w
    ensures c !in Terminated(words, sep)
  {
    if words != [] {
      assert words[0] in words;
      TerminatedAvoids(words[1..], sep, c);
    }
  }

  function UpperChar(c: char): char {
    if 'a' <= c <= 'z' then (c as int - 'a' as int + 'A' as int) as char else c
  }

  /** `s.upper()` on ASCII letters. */
  function Upper(s: string): (u: string)
    ensures |u| == |s|
    ensures forall i | 0 <= i < |s| :: u[i] == UpperChar(s[i])
  {
    seq(|s|, i requires 0 <= i < |s| => UpperChar(s[i]))
  }

  lemma UpperIdempotent(s: string)
    ensures Upper(Upper(s)) == Upper(s)
  {
    assert forall i | 0 <= i < |s| :: UpperChar(UpperChar(s[i])) == UpperChar(s[i]);
  }

  predicate OccursAt(s: string, k: string, i: int) {
    0 <= i && i + |k| <= |s| && s[i..i + |k|] == k
  }

  /** Python's `k in s` for strings. */
  predicate Contains(s: string, k: string) {
    exists i | 0 <= i <= |s| - |k| :: OccursAt(s, k, i)
  }

  /** A string containing `outer` contains everything `outer` contains. */
  lemma ContainsTransitive(s: string, outer: string, inner: string)
    requires Contains(s, outer) && Contains(outer, inner)
    ensures Contains(s, inner)
  {
    var i :| 0 <= i <= |s| - |outer| && OccursAt(s, outer, i);
    var j :| 0 <= j <= |outer| - |inner| && OccursAt(outer, inner, j);
    forall m | 0 <= m < |inner|
      ensures s[i + j + m] == inner[m]
    {
      assert s[i..i + |outer|][j + m] == outer[j + m];
      assert outer[j..j + |inner|][m] == inner[m];
    }
    assert s[i + j..i + j + |inner|] == inner;
    assert OccursAt(s, inner, i + j);
  }
}

/** The JavaScript string primitives the site relies on, over `seq<char>`:
    decimal digits, `parseInt`/`toString` of non-negative integers,
    `padStart(2, '0')`, `indexOf`/`includes`/`replace` with a string
    pattern, `split` on one character, and ASCII `toLowerCase`. */
module Text {
  import opened Wrappers

  // ---------------------------------------------------------------------
  // Decimal digits
  // ---------------------------------------------------------------------

  /** The regular-expression class `\d`. */
  predicate IsDigit(c: char) {
    '0' <= c <= '9'
  }

  predicate AllDigits(s: string) {
    forall i | 0 <= i < |s| :: IsDigit(s[i])
  }

  function DigitValue(c: char): (d: nat)
    requires IsDigit(c)
    ensures d < 10
  {
    c as int - '0' as int
  }

  function DigitChar(d: nat): (c: char)
    requires d < 10
    ensures IsDigit(c) && DigitValue(c) == d
  {
    ('0' as int + d) as char
  }

  /** The end of the maximal run of digits starting at `p`. */
  function RunEnd(s: string, p: nat): (e: nat)
    requires p <= |s|
    ensures p <= e <= |s|
    ensures forall i | p <= i < e :: IsDigit(s[i])
    ensures e == |s| || !IsDigit(s[e])
    decreases |s| - p
  {
    if p < |s| && IsDigit(s[p]) then RunEnd(s, p + 1) else p
  }

  /** The maximal run is the only run of digits from `p` that ends at the
      end of the string or before a non-digit. */
  lemma RunEndUnique(s: string, p: nat, j: nat)
    requires p <= j <= |s| && AllDigits(s[p..j])
    requires j == |s| || !IsDigit(s[j])
    ensures RunEnd(s, p) == j
  {
    var e := RunEnd(s, p);
    assert forall i | p <= i < j :: IsDigit(s[i]) by {
      forall i | p <= i < j ensures IsDigit(s[i]) {
        assert s[i] == s[p..j][i - p];
      }
    }
  }

  /** `parseInt(s, 10)` of a string made only of digits. */
  function ParseDecimal(s: string): nat
    requires AllDigits(s)
    decreases |s|
  {
    if |s| == 0 then 0 else 10 * ParseDecimal(s[..|s| - 1]) + DigitValue(s[|s| - 1])
  }

  /** `n.toString()` for a non-negative integer: the canonical decimal
      numeral, which reads back as `n` and has no leading zero. */
  function NatToString(n: nat): (r: string)
    ensures |r| >= 1 && AllDigits(r)
    ensures ParseDecimal(r) == n
    ensures r[0] == '0' <==> n == 0
    ensures r[0] == '0' ==> r == "0"
    decreases n
  {
    if n < 10 then [DigitChar(n)]
    else
      var p := NatToString(n / 10);
      var r := p + [DigitChar(n % 10)];
      assert r[..|r| - 1] == p;
      r
  }

  /** A digit string without a leading zero is the `toString` of its value,
      so reading a numeral and printing it back gives the same text. */
  lemma {:induction false} CanonicalNumeral(s: string)
    requires |s| >= 1 && AllDigits(s)
    requires s[0] == '0' ==> s == "0"
    ensures NatToString(ParseDecimal(s)) == s
    decreases |s|
  {
    if |s| == 1 {
    } else {
      var p := s[..|s| - 1];
      assert p[0] == s[0];
      CanonicalNumeral(p);
      var n := ParseDecimal(s);
      assert n / 10 == ParseDecimal(p) && n % 10 == DigitValue(s[|s| - 1]);
      assert n >= 10 by {
        assert ParseDecimal(p) >= 1;
      }
      assert DigitChar(n % 10) == s[|s| - 1];
      assert s == p + [s[|s| - 1]];
    }
  }

  /** A leading zero does not change the value of a numeral. */
  lemma {:induction false} LeadingZero(s: string)
    requires AllDigits(s)
    ensures AllDigits("0" + s)
    ensures ParseDecimal("0" + s) == ParseDecimal(s)
    decreases |s|
  {
    if |s| > 0 {
      var p := s[..|s| - 1];
      assert ("0" + s)[..|s|] == "0" + p;
      LeadingZero(p);
    }
  }

  /** `s.padStart(2, '0')`: the numeral widened with zeros to at least two
      characters, keeping its value. */
  function PadTwo(s: string): (r: string)
    requires AllDigits(s)
    ensures |r| == if |s| < 2 then 2 else |s|
    ensures AllDigits(r) && ParseDecimal(r) == ParseDecimal(s)
    ensures r[|r| - |s|..] == s
    ensures forall i | 0 <= i < |r| - |s| :: r[i] == '0'
  {
    if |s| >= 2 then s
    else
      LeadingZero(s);
      if |s| == 1 then "0" + s
      else
        LeadingZero("0");
        "00"
  }

  // ---------------------------------------------------------------------
  // Substring search and replacement
  // ---------------------------------------------------------------------

  /** `pat` occurs in `s` starting at index `i`. */
  predicate OccursAt(s: string, pat: string, i: int) {
    0 <= i && i + |pat| <= |s| && s[i..i + |pat|] == pat
  }

  /** `s.indexOf(pat, k)`: the first occurrence of `pat` at or after `k`. */
  function IndexOfFrom(s: string, pat: string, k: nat): (r: Option<nat>)
    requires k <= |s|
    ensures r.Some? ==> k <= r.value && OccursAt(s, pat, r.value)
    ensures forall i | k <= i && (r.None? || i < r.value) :: !OccursAt(s, pat, i)
    decreases |s| - k
  {
    if OccursAt(s, pat, k) then Some(k)
    else if k == |s| then None
    else IndexOfFrom(s, pat, k + 1)
  }

  /** `s.indexOf(pat)`, with `None` for JavaScript's `-1`. */
  function IndexOf(s: string, pat: string): Option<nat> {
    IndexOfFrom(s, pat, 0)
  }

  /** `s.includes(pat)`. */
  predicate Contains(s: string, pat: string) {
    IndexOf(s, pat).Some?
  }

  /** `includes` holds exactly when the pattern occurs somewhere. */
  lemma ContainsIff(s: string, pat: string)
    ensures Contains(s, pat) <==> exists i :: OccursAt(s, pat, i)
  {
    if exists i :: OccursAt(s, pat, i) {
      var i :| OccursAt(s, pat, i);
      assert 0 <= i;
    }
  }

  /** `s.replace(pat, rep)` with a string pattern: only the first occurrence
      is replaced, and `s` is returned as is when there is none. The
      replacement is inserted literally (no `$` patterns occur at the call
      sites). */
  function ReplaceFirst(s: string, pat: string, rep: string): (r: string)
    ensures !Contains(s, pat) ==> r == s
    ensures Contains(s, pat) ==>
      var i := IndexOf(s, pat).value;
      OccursAt(s, pat, i) && r == s[..i] + rep + s[i + |pat|..]
  {
    match IndexOf(s, pat)
    case None => s
    case Some(i) => s[..i] + rep + s[i + |pat|..]
  }

  /** When the first character of `pat` does not occur in `pre`, the first
      occurrence of `pat` in `pre + pat + post` is the one right after
      `pre`, whatever `post` holds. */
  lemma FirstOccurrenceAfter(pre: string, pat: string, post: string)
    requires |pat| > 0 && pat[0] !in pre
    ensures IndexOf(pre + pat + post, pat) == Some(|pre|)
  {
    var s := pre + pat + post;
    assert OccursAt(s, pat, |pre|) by {
      assert s[|pre|..|pre| + |pat|] == pat;
    }
    forall i | 0 <= i < |pre|
      ensures !OccursAt(s, pat, i)
    {
      StartOfOccurrence(s, pat, i);
      assert s[i] == pre[i] != pat[0];
    }
  }

  /** Replacing the first occurrence in `pre + pat + post` when `pre` holds
      no start of the pattern: `pre` and `post` are kept as they are, even
      when `post` holds further occurrences. */
  lemma ReplaceFirstAfter(pre: string, pat: string, post: string, rep: string)
    requires |pat| > 0 && pat[0] !in pre
    ensures ReplaceFirst(pre + pat + post, pat, rep) == pre + rep + post
  {
    FirstOccurrenceAfter(pre, pat, post);
    var s := pre + pat + post;
    assert s[..|pre|] == pre;
    assert s[|pre| + |pat|..] == post;
  }

  /** When the pattern's first character does not recur inside it, an
      occurrence right after a prefix that does not contain the pattern is
      the first one, whatever the prefix and `post` hold otherwise. */
  lemma FirstOccurrenceAfterAbsent(pre: string, pat: string, post: string)
    requires |pat| > 0 && pat[0] !in pat[1..] && !Contains(pre, pat)
    ensures IndexOf(pre + pat + post, pat) == Some(|pre|)
  {
    var s := pre + pat + post;
    assert OccursAt(s, pat, |pre|) by {
      assert s[|pre|..|pre| + |pat|] == pat;
    }
    forall i | 0 <= i < |pre|
      ensures !OccursAt(s, pat, i)
    {
      if i + |pat| <= |pre| {
        assert pre[i..i + |pat|] == s[i..i + |pat|];
        assert !OccursAt(pre, pat, i);
      } else {
        var k := |pre| - i;
        assert pat[1..][k - 1] == pat[k];
        assert s[i..i + |pat|][k] == s[|pre|] == pat[0] != pat[k];
      }
    }
  }

  /** Replacing in `pre + pat + post` when `pre` does not contain a pattern
      whose first character does not recur in it: `pre` and `post` are
      kept. */
  lemma ReplaceFirstAfterAbsent(pre: string, pat: string, post: string, rep: string)
    requires |pat| > 0 && pat[0] !in pat[1..] && !Contains(pre, pat)
    ensures ReplaceFirst(pre + pat + post, pat, rep) == pre + rep + post
  {
    FirstOccurrenceAfterAbsent(pre, pat, post);
    var s := pre + pat + post;
    assert s[..|pre|] == pre;
    assert s[|pre| + |pat|..] == post;
  }

  /** A string without the pattern's first character does not contain it. */
  lemma AbsentStart(s: string, pat: string)
    requires |pat| > 0 && pat[0] !in s
    ensures !Contains(s, pat)
  {
    forall i | 0 <= i < |s|
      ensures !OccursAt(s, pat, i)
    {
      StartOfOccurrence(s, pat, i);
    }
  }

  /** An occurrence of a non-empty pattern starts with the pattern's first
      character; for a one-character pattern that is all it takes. */
  lemma StartOfOccurrence(s: string, pat: string, i: int)
    requires |pat| > 0
    ensures OccursAt(s, pat, i) ==> 0 <= i < |s| && s[i] == pat[0]
    ensures |pat| == 1 ==> (OccursAt(s, pat, i) <==> 0 <= i < |s| && s[i] == pat[0])
  {
    if 0 <= i && i + |pat| <= |s| {
      assert s[i..i + |pat|][0] == s[i];
      if |pat| == 1 {
        assert s[i..i + 1] == [s[i]];
      }
    }
  }

  // ---------------------------------------------------------------------
  // Splitting on a separator
  // ---------------------------------------------------------------------

  /** `s.split(sep)` for a one-character separator: the pieces between the
      separators, at least one. */
  function Split(s: string, sep: char): (r: seq<string>)
    ensures |r| >= 1
    ensures forall k | 0 <= k < |r| :: sep !in r[k]
    decreases |s|
  {
    match IndexOf(s, [sep])
    case None =>
      assert sep !in s by {
        forall j | 0 <= j < |s| ensures s[j] != sep {
          StartOfOccurrence(s, [sep], j);
        }
      }
      [s]
    case Some(i) =>
      assert sep !in s[..i] by {
        forall j | 0 <= j < i ensures s[j] != sep {
          StartOfOccurrence(s, [sep], j);
        }
      }
      [s[..i]] + Split(s[i + 1..], sep)
  }

  /** Splitting a separator-free piece followed by a separator. */
  lemma SplitCons(a: string, sep: char, b: string)
    requires sep !in a
    ensures Split(a + [sep] + b, sep) == [a] + Split(b, sep)
  {
    FirstOccurrenceAfter(a, [sep], b);
    var s := a + [sep] + b;
    assert s[..|a|] == a;
    assert s[|a| + 1..] == b;
  }

  /** A separator-free string is one piece. */
  lemma SplitNone(a: string, sep: char)
    requires sep !in a
    ensures Split(a, sep) == [a]
  {
    AbsentStart(a, [sep]);
  }

  /** Two numerals joined by `:` split back into them. */
  lemma TwoFields(a: string, b: string)
    requires AllDigits(a) && AllDigits(b)
    ensures Split(a + ":" + b, ':') == [a, b]
  {
    DigitsHaveNoColon(a);
    DigitsHaveNoColon(b);
    SplitNone(b, ':');
    SplitCons(a, ':', b);
  }

  /** Three numerals joined by `:` split back into them. */
  lemma ThreeFields(a: string, b: string, c: string)
    requires AllDigits(a) && AllDigits(b) && AllDigits(c)
    ensures Split(a + ":" + b + ":" + c, ':') == [a, b, c]
  {
    var tail := b + ":" + c;
    assert a + ":" + b + ":" + c == a + [':'] + tail;
    DigitsHaveNoColon(a);
    TwoFields(b, c);
    SplitCons(a, ':', tail);
  }

  lemma DigitsHaveNoColon(s: string)
    requires AllDigits(s)
    ensures ':' !in s
  {
  }

  // ---------------------------------------------------------------------
  // Case
  // ---------------------------------------------------------------------

  function LowerChar(c: char): char {
    if 'A' <= c <= 'Z' then (c as int - 'A' as int + 'a' as int) as char else c
  }

  predicate IsUpper(c: char) {
    'A' <= c <= 'Z'
  }

  /** `toLowerCase`, restricted to the ASCII letters: no capital is left,
      each capital becomes its small letter, and every other character is
      kept. */
  function Lower(s: string): (r: string)
    ensures |r| == |s|
    ensures forall i | 0 <= i < |r| :: !IsUpper(r[i])
    ensures forall i | 0 <= i < |s| && IsUpper(s[i]) :: r[i] as int == s[i] as int + 32
    ensures forall i | 0 <= i < |s| && !IsUpper(s[i]) :: r[i] == s[i]
  {
    seq(|s|, i requires 0 <= i < |s| => LowerChar(s[i]))
  }

  /** Lower-casing twice is lower-casing once, so a lower-cased query is
      its own lower-case form. */
  lemma LowerIdempotent(s: string)
    ensures Lower(Lower(s)) == Lower(s)
  {
    var r := Lower(s);
    assert forall i | 0 <= i < |r| :: Lower(r)[i] == r[i];
  }
}

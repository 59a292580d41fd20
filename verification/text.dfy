/** String operations the monitor relies on: ASCII case folding (`str.lower`,
    `str.title`), substring membership (Python's `needle in hay`), `any` over a
    list of needles, truncation with an ellipsis marker, and decimal
    formatting of a byte count or status code. */
module Text {

  /* ---------------------------------------------------------------------- */
  /* ASCII case                                                              */
  /* ---------------------------------------------------------------------- */

  predicate IsUpper(c: char) { 'A' <= c <= 'Z' }

  predicate IsLower(c: char) { 'a' <= c <= 'z' }

  predicate IsLetter(c: char) { IsUpper(c) || IsLower(c) }

  predicate IsDigit(c: char) { '0' <= c <= '9' }

  /** The lower-case form of an ASCII letter; every other character is kept. */
  function LowerChar(c: char): (d: char)
    ensures !IsUpper(d)
    ensures IsLetter(d) <==> IsLetter(c)
    ensures !IsUpper(c) ==> d == c
  {
    if IsUpper(c) then (c as int + 32) as char else c
  }

  /** The upper-case form of an ASCII letter; every other character is kept. */
  function UpperChar(c: char): (d: char)
    ensures !IsLower(d)
    ensures LowerChar(d) == LowerChar(c)
  {
    if IsLower(c) then (c as int - 32) as char else c
  }

  /** `str.lower()` restricted to ASCII letters. */
  function Lower(s: string): (r: string)
    ensures |r| == |s|
    ensures forall i :: 0 <= i < |r| ==> !IsUpper(r[i])
    ensures forall i :: 0 <= i < |s| && !IsUpper(s[i]) ==> r[i] == s[i]
    ensures forall i :: 0 <= i < |s| && IsUpper(s[i]) ==> r[i] as int == s[i] as int + 32
  {
    seq(|s|, i requires 0 <= i < |s| => LowerChar(s[i]))
  }

  /** Two characters that are equal, or the upper- and lower-case forms of
      one ASCII letter. Stated without `LowerChar`. */
  predicate SameLetterIgnoringCase(c: char, d: char)
  {
    || c == d
    || (IsUpper(c) && d as int == c as int + 32)
    || (IsUpper(d) && c as int == d as int + 32)
  }

  predicate SameIgnoringCase(a: string, b: string)
  {
    |a| == |b| && forall i :: 0 <= i < |a| ==> SameLetterIgnoringCase(a[i], b[i])
  }

  /** Strings that differ only in the case of ASCII letters fold to the same
      lower-case string. */
  lemma LowerIgnoresCase(a: string, b: string)
    requires SameIgnoringCase(a, b)
    ensures Lower(a) == Lower(b)
  {
    forall i | 0 <= i < |a|
      ensures Lower(a)[i] == Lower(b)[i]
    {
      assert SameLetterIgnoringCase(a[i], b[i]);
    }
  }

  /** Folding case distributes over concatenation. */
  lemma LowerConcat(a: string, b: string)
    ensures Lower(a + b) == Lower(a) + Lower(b)
  {
    assert forall i :: 0 <= i < |a + b| ==> Lower(a + b)[i] == (Lower(a) + Lower(b))[i];
  }

  /** Whether position `i` of `s` starts a word in the sense of `str.title()`:
      a letter not preceded by a letter. */
  predicate StartsWord(s: string, i: int)
    requires 0 <= i < |s|
  {
    IsLetter(s[i]) && (i == 0 || !IsLetter(s[i - 1]))
  }

  /** `str.title()` restricted to ASCII: the first letter of every run of
      letters is upper-cased and every other letter lower-cased. */
  function Title(s: string): (r: string)
    ensures |r| == |s|
    ensures Lower(r) == Lower(s)
    ensures forall i :: 0 <= i < |s| ==> (IsUpper(r[i]) <==> StartsWord(s, i))
  {
    seq(|s|, i requires 0 <= i < |s| => if StartsWord(s, i) then UpperChar(s[i]) else LowerChar(s[i]))
  }

  /* ---------------------------------------------------------------------- */
  /* Substrings                                                              */
  /* ---------------------------------------------------------------------- */

  predicate IsPrefix(p: string, s: string)
  {
    |p| <= |s| && s[..|p|] == p
  }

  /** Python's `needle in hay` for strings: `needle` is a prefix of some
      suffix of `hay`. The empty needle is in every string. */
  predicate Contains(hay: string, needle: string)
    decreases |hay|
  {
    IsPrefix(needle, hay) || (|hay| > 0 && Contains(hay[1..], needle))
  }

  /** `needle` occurs in `hay` starting at index `i`. */
  ghost predicate OccursAt(hay: string, needle: string, i: int)
  {
    0 <= i && i + |needle| <= |hay| && hay[i..i + |needle|] == needle
  }

  /** The scanning definition of `Contains` agrees with the positional one. */
  lemma {:induction false} ContainsIffOccurs(hay: string, needle: string)
    ensures Contains(hay, needle) <==> exists i :: OccursAt(hay, needle, i)
    decreases |hay|
  {
    if Contains(hay, needle) {
      if IsPrefix(needle, hay) {
        assert OccursAt(hay, needle, 0);
      } else {
        ContainsIffOccurs(hay[1..], needle);
        var i :| OccursAt(hay[1..], needle, i);
        assert hay[1..][i..i + |needle|] == hay[i + 1..i + 1 + |needle|];
        assert OccursAt(hay, needle, i + 1);
      }
    }
    if exists i :: OccursAt(hay, needle, i) {
      var i :| OccursAt(hay, needle, i);
      if i == 0 {
        assert IsPrefix(needle, hay);
      } else {
        assert hay[1..][i - 1..i - 1 + |needle|] == hay[i..i + |needle|];
        assert OccursAt(hay[1..], needle, i - 1);
        ContainsIffOccurs(hay[1..], needle);
      }
    }
  }

  /** A substring of `hay` is a substring of every string that has `hay` as
      a substring. */
  lemma ContainsInSuperstring(hay: string, needle: string, pre: string, post: string)
    requires Contains(hay, needle)
    ensures Contains(pre + hay + post, needle)
  {
    ContainsIffOccurs(hay, needle);
    var i :| OccursAt(hay, needle, i);
    var big := pre + hay + post;
    assert big[|pre| + i..|pre| + i + |needle|] == hay[i..i + |needle|];
    assert OccursAt(big, needle, |pre| + i);
    ContainsIffOccurs(big, needle);
  }

  /** `any(n in hay for n in needles)`, scanning the list front to back. */
  predicate AnyContains(hay: string, needles: seq<string>)
    decreases |needles|
  {
    |needles| > 0 && (Contains(hay, needles[0]) || AnyContains(hay, needles[1..]))
  }

  /** `AnyContains` holds exactly when some listed needle is in `hay`. */
  lemma {:induction false} AnyContainsIff(hay: string, needles: seq<string>)
    ensures AnyContains(hay, needles) <==> exists n :: n in needles && Contains(hay, n)
    decreases |needles|
  {
    if |needles| > 0 {
      AnyContainsIff(hay, needles[1..]);
      if AnyContains(hay, needles[1..]) {
        var n :| n in needles[1..] && Contains(hay, n);
        assert n in needles;
      }
      if exists n :: n in needles && Contains(hay, n) {
        var n :| n in needles && Contains(hay, n);
        assert n == needles[0] || n in needles[1..];
      }
    }
  }

  /** Lengthening the list of needles never turns a match into a miss. */
  lemma AnyContainsMonotone(hay: string, needles: seq<string>, more: seq<string>)
    requires forall n :: n in needles ==> n in more
    requires AnyContains(hay, needles)
    ensures AnyContains(hay, more)
  {
    AnyContainsIff(hay, needles);
    AnyContainsIff(hay, more);
  }

  /** A needle list that matches `hay` matches every string containing `hay`. */
  lemma AnyContainsInSuperstring(hay: string, needles: seq<string>, pre: string, post: string)
    requires AnyContains(hay, needles)
    ensures AnyContains(pre + hay + post, needles)
  {
    AnyContainsIff(hay, needles);
    var n :| n in needles && Contains(hay, n);
    ContainsInSuperstring(hay, n, pre, post);
    AnyContainsIff(pre + hay + post, needles);
  }

  /* ---------------------------------------------------------------------- */
  /* Truncation                                                              */
  /* ---------------------------------------------------------------------- */

  const Ellipsis: string := "..."

  function Min(a: int, b: int): int { if a <= b then a else b }

  /** `s[:n] + ('...' if len(s) > n else '')`: at most `n` characters of `s`,
      marked with an ellipsis when something was cut off. */
  function Ellipsize(s: string, n: nat): (r: string)
    ensures |r| <= n + |Ellipsis|
    ensures IsPrefix(s[..Min(n, |s|)], r)
    ensures |s| <= n ==> r == s
    ensures |s| > n ==> |r| == n + |Ellipsis| && r[n..] == Ellipsis
  {
    if |s| > n then s[..n] + Ellipsis else s
  }

  /* ---------------------------------------------------------------------- */
  /* Decimal formatting                                                      */
  /* ---------------------------------------------------------------------- */

  function DigitChar(d: nat): (c: char)
    requires d < 10
    ensures IsDigit(c)
    ensures c as int - '0' as int == d
  {
    ('0' as int + d) as char
  }

  /** `str(n)` for a non-negative integer: decimal digits, most significant
      first, without leading zeros. */
  function NatToDecimal(n: nat): (r: string)
    ensures 1 <= |r|
    ensures forall i :: 0 <= i < |r| ==> IsDigit(r[i])
    ensures r[0] == '0' ==> n == 0 && |r| == 1
    decreases n
  {
    if n < 10 then [DigitChar(n)] else NatToDecimal(n / 10) + [DigitChar(n % 10)]
  }

  predicate AllDigits(s: string)
  {
    forall i :: 0 <= i < |s| ==> IsDigit(s[i])
  }

  /** The number a string of decimal digits denotes. */
  function DecimalValue(s: string): nat
    requires AllDigits(s)
  {
    if |s| == 0 then 0 else DecimalValue(s[..|s| - 1]) * 10 + (s[|s| - 1] as int - '0' as int)
  }

  /** Reading back the formatted number gives the number. */
  lemma {:induction false} DecimalRoundTrip(n: nat)
    ensures DecimalValue(NatToDecimal(n)) == n
    decreases n
  {
    var r := NatToDecimal(n);
    if n >= 10 {
      DecimalRoundTrip(n / 10);
      assert r[..|r| - 1] == NatToDecimal(n / 10);
    }
  }
}

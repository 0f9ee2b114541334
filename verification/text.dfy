/** The string operations the source relies on: decimal rendering and parsing, `split('T')[0]`,
    `includes`, `toUpperCase` and the `<` order on strings. Strings are `seq<char>`. */
module Text {
  import opened Wrappers

  predicate IsDigit(c: char) { '0' <= c <= '9' }

  predicate IsUpperAscii(c: char) { 'A' <= c <= 'Z' }

  predicate IsLowerAscii(c: char) { 'a' <= c <= 'z' }

  predicate AllDigits(s: string) { forall i :: 0 <= i < |s| ==> IsDigit(s[i]) }

  function DigitChar(d: nat): (c: char)
    requires d < 10
    ensures IsDigit(c)
  {
    ('0' as int + d) as char
  }

  function DigitValue(c: char): (d: nat)
    requires IsDigit(c)
    ensures d < 10
  {
    (c as int - '0' as int) as nat
  }

  lemma DigitRoundTrip(d: nat)
    requires d < 10
    ensures DigitValue(DigitChar(d)) == d
  {
  }

  /** Decimal text of a natural number, without leading zeros (JavaScript's `String(n)`). */
  function NatText(n: nat): (s: string)
    decreases n
  {
    if n < 10 then [DigitChar(n)] else NatText(n / 10) + [DigitChar(n % 10)]
  }

  /** Decimal text of an integer, with a leading '-' when negative. */
  function IntText(n: int): string
  {
    if n < 0 then "-" + NatText(-n) else NatText(n)
  }

  /** The value of a string of decimal digits (the digits captured by `\d+`, read by `parseInt`). */
  function DigitsValue(s: string): nat
    requires AllDigits(s)
    decreases |s|
  {
    if s == [] then 0 else DigitsValue(s[..|s| - 1]) * 10 + DigitValue(s[|s| - 1])
  }

  /** `NatText` yields a non-empty run of digits that reads back as the number. */
  lemma {:induction false} NatTextRoundTrip(n: nat)
    ensures |NatText(n)| > 0 && AllDigits(NatText(n))
    ensures DigitsValue(NatText(n)) == n
    decreases n
  {
    if n < 10 {
      DigitRoundTrip(n);
    } else {
      NatTextRoundTrip(n / 10);
      var s := NatText(n);
      assert s[..|s| - 1] == NatText(n / 10);
      DigitRoundTrip(n % 10);
    }
  }

  /** First index at or after `i` that is not a digit (or the end): the end of the digit run at `i`. */
  function RunEnd(s: string, i: nat): (j: nat)
    requires i <= |s|
    ensures i <= j <= |s|
    ensures AllDigits(s[i..j])
    ensures j == |s| || !IsDigit(s[j])
    decreases |s| - i
  {
    if i == |s| || !IsDigit(s[i]) then i else RunEnd(s, i + 1)
  }

  lemma {:induction false} RunEndAt(s: string, i: nat, e: nat)
    requires i <= e <= |s|
    requires AllDigits(s[i..e])
    requires e == |s| || !IsDigit(s[e])
    ensures RunEnd(s, i) == e
    decreases e - i
  {
    if i < e {
      assert IsDigit(s[i..e][0]);
      assert s[i + 1..e] == s[i..e][1..];
      RunEndAt(s, i + 1, e);
    }
  }

  /** `s.split('T')[0]`: everything before the first 'T' (the date part of an ISO timestamp). */
  function DatePart(s: string): (r: string)
    ensures r <= s
    ensures 'T' !in r
    ensures r == s || s[|r|] == 'T'
  {
    if s == [] then []
    else if s[0] == 'T' then []
    else [s[0]] + DatePart(s[1..])
  }

  lemma {:induction false} DatePartOfPrefix(d: string, rest: string)
    requires 'T' !in d
    ensures DatePart(d + "T" + rest) == d
    decreases |d|
  {
    if d == [] {
      assert (d + "T" + rest)[0] == 'T';
    } else {
      assert (d + "T" + rest)[1..] == d[1..] + "T" + rest;
      DatePartOfPrefix(d[1..], rest);
    }
  }

  /** `needle` occurs in `hay` starting at index `i`. */
  predicate OccursAt(hay: string, needle: string, i: int)
  {
    0 <= i && i + |needle| <= |hay| && hay[i..i + |needle|] == needle
  }

  /** When `needle` is not a prefix of a non-empty `hay`, it occurs in `hay` iff it occurs in
      `hay` without its first character. */
  lemma OccursInTail(hay: string, needle: string)
    requires hay != [] && !(needle <= hay)
    ensures (exists i :: OccursAt(hay, needle, i)) <==> (exists i :: OccursAt(hay[1..], needle, i))
  {
    if exists i :: OccursAt(hay[1..], needle, i) {
      var i :| OccursAt(hay[1..], needle, i);
      assert hay[i + 1..i + 1 + |needle|] == hay[1..][i..i + |needle|];
      assert OccursAt(hay, needle, i + 1);
    }
    if exists i :: OccursAt(hay, needle, i) {
      var i :| OccursAt(hay, needle, i);
      assert i != 0;
      assert hay[1..][i - 1..i - 1 + |needle|] == hay[i..i + |needle|];
      assert OccursAt(hay[1..], needle, i - 1);
    }
  }

  /** `hay.includes(needle)`: `needle` occurs somewhere in `hay` as a contiguous substring. */
  function Includes(hay: string, needle: string): (b: bool)
    ensures b <==> exists i :: OccursAt(hay, needle, i)
    decreases |hay|
  {
    if needle <= hay then
      assert OccursAt(hay, needle, 0);
      true
    else if hay == [] then false
    else
      OccursInTail(hay, needle);
      Includes(hay[1..], needle)
  }

  /** ASCII part of `toUpperCase`. */
  function UpperChar(c: char): (u: char)
    ensures !IsLowerAscii(u)
    ensures IsLowerAscii(c) ==> IsUpperAscii(u)
    ensures !IsLowerAscii(c) ==> u == c
  {
    if IsLowerAscii(c) then (c as int - 'a' as int + 'A' as int) as char else c
  }

  function Upper(s: string): (u: string)
    ensures |u| == |s|
    ensures forall i :: 0 <= i < |s| ==> u[i] == UpperChar(s[i])
  {
    seq(|s|, i requires 0 <= i < |s| => UpperChar(s[i]))
  }

  lemma UpperIdempotent(s: string)
    ensures Upper(Upper(s)) == Upper(s)
  {
  }

  /** JavaScript's `a < b` on strings: lexicographic by character code, a proper prefix is smaller. */
  predicate LexLess(a: string, b: string)
    decreases |a|
  {
    if a == [] then b != []
    else if b == [] then false
    else if a[0] != b[0] then a[0] < b[0]
    else LexLess(a[1..], b[1..])
  }

  /** `a <= b` on strings. */
  predicate LexLessEq(a: string, b: string)
  {
    a == b || LexLess(a, b)
  }

  /** The string order is total: of two different strings one is smaller. */
  lemma {:induction false} LexTrichotomy(a: string, b: string)
    ensures LexLess(a, b) || a == b || LexLess(b, a)
    decreases |a|
  {
    if a != [] && b != [] && a[0] == b[0] {
      LexTrichotomy(a[1..], b[1..]);
      if a[1..] == b[1..] {
        assert a == [a[0]] + a[1..] && b == [b[0]] + b[1..];
      }
    }
  }

  /** ... and strict: no string is smaller than itself. */
  lemma {:induction false} LexIrreflexive(a: string)
    ensures !LexLess(a, a)
    decreases |a|
  {
    if a != [] {
      LexIrreflexive(a[1..]);
    }
  }

  /** Characters `parseInt` skips before the number (ECMAScript StrWhiteSpaceChar). */
  predicate IsJsWhiteSpace(c: char)
  {
    c == '\t' || c == '\n' || c == '\U{000B}' || c == '\U{000C}' || c == '\r' || c == ' '
    || c == '\U{00A0}' || c == '\U{1680}' || ('\U{2000}' <= c <= '\U{200A}') || c == '\U{2028}'
    || c == '\U{2029}' || c == '\U{202F}' || c == '\U{205F}' || c == '\U{3000}' || c == '\U{FEFF}'
  }

  function SkipWhiteSpace(s: string, i: nat): (j: nat)
    requires i <= |s|
    ensures i <= j <= |s|
    ensures j == |s| || !IsJsWhiteSpace(s[j])
    decreases |s| - i
  {
    if i < |s| && IsJsWhiteSpace(s[i]) then SkipWhiteSpace(s, i + 1) else i
  }

  /** `parseInt(s)` in base 10: optional white space and sign, then the longest run of digits;
      `None` (NaN) when there is no digit there. */
  function ParseInt(s: string): Option<int>
  {
    var i := SkipWhiteSpace(s, 0);
    var negative := i < |s| && s[i] == '-';
    var start := if i < |s| && (s[i] == '-' || s[i] == '+') then i + 1 else i;
    var e := RunEnd(s, start);
    if e == start then None
    else Some(if negative then -(DigitsValue(s[start..e]) as int) else DigitsValue(s[start..e]))
  }

  /** `parseInt(String(n)) == n`. */
  lemma ParseIntRoundTrip(n: int)
    ensures ParseInt(IntText(n)) == Some(n)
  {
    var s := IntText(n);
    if n < 0 {
      NatTextRoundTrip(-n);
      assert s[1..] == NatText(-n);
      assert SkipWhiteSpace(s, 0) == 0;
      RunEndAt(s, 1, |s|);
      assert s[1..|s|] == NatText(-n);
    } else {
      NatTextRoundTrip(n);
      assert IsDigit(s[0]);
      assert SkipWhiteSpace(s, 0) == 0;
      RunEndAt(s, 0, |s|);
      assert s[0..|s|] == s;
    }
  }

  /** The number captured by the regular expression `(\d+)c` at its leftmost match from index `i`
      on, or `None` when it does not match. A failed digit run is skipped whole: every match
      attempt starting inside it ends at the same non-digit. */
  function NumberBeforeFrom(s: string, c: char, i: nat): Option<nat>
    requires !IsDigit(c) && i <= |s|
    decreases |s| - i
  {
    if i == |s| then None
    else if !IsDigit(s[i]) then NumberBeforeFrom(s, c, i + 1)
    else
      var e := RunEnd(s, i);
      if e < |s| && s[e] == c then Some(DigitsValue(s[i..e])) else NumberBeforeFrom(s, c, e)
  }

  function NumberBefore(s: string, c: char): Option<nat>
    requires !IsDigit(c)
  {
    NumberBeforeFrom(s, c, 0)
  }

  /** Without an occurrence of `c` there is no match. */
  lemma {:induction false} NumberBeforeAbsent(s: string, c: char, i: nat)
    requires !IsDigit(c) && i <= |s|
    requires forall k :: i <= k < |s| ==> s[k] != c
    ensures NumberBeforeFrom(s, c, i) == None
    decreases |s| - i
  {
    if i < |s| {
      if !IsDigit(s[i]) {
        NumberBeforeAbsent(s, c, i + 1);
      } else {
        NumberBeforeAbsent(s, c, RunEnd(s, i));
      }
    }
  }

  /** A digit run starting at `i` and ending just before `c` is the match. */
  lemma NumberBeforeRun(s: string, c: char, i: nat, e: nat)
    requires !IsDigit(c) && i < e < |s|
    requires AllDigits(s[i..e]) && s[e] == c
    ensures NumberBeforeFrom(s, c, i) == Some(DigitsValue(s[i..e]))
  {
    assert IsDigit(s[i..e][0]);
    RunEndAt(s, i, e);
  }

  /** A digit run starting at `i` and ending at another non-digit is skipped. */
  lemma NumberBeforeSkipRun(s: string, c: char, i: nat, e: nat)
    requires !IsDigit(c) && i < e < |s|
    requires AllDigits(s[i..e]) && s[e] != c && !IsDigit(s[e])
    ensures NumberBeforeFrom(s, c, i) == NumberBeforeFrom(s, c, e + 1)
  {
    assert IsDigit(s[i..e][0]);
    RunEndAt(s, i, e);
  }
}

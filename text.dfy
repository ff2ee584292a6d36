/** The few string operations of Python's `str` that the record predicates and
    the matcher rely on: `in` (substring test), `upper()`, `strip()`,
    `split()` on whitespace and `split(sep)` on one character, and decimal
    digits. Upper-casing is ASCII only. */
module Text {
  import opened Wrappers

  /** Whitespace as `str.isspace`, `str.strip()` and `str.split()` see it:
      tab through carriage return, the four information separators
      U+001C-U+001F, space, U+0085, U+00A0, U+1680, U+2000-U+200A, U+2028,
      U+2029, U+202F, U+205F and the ideographic space U+3000. */
  predicate IsSpace(c: char) {
    || ('\t' <= c <= '\r')
    || ('\U{001C}' <= c <= ' ')
    || c == '\U{0085}' || c == '\U{00A0}' || c == '\U{1680}'
    || ('\U{2000}' <= c <= '\U{200A}')
    || c == '\U{2028}' || c == '\U{2029}' || c == '\U{202F}' || c == '\U{205F}' || c == '\U{3000}'
  }

  predicate IsDigit(c: char) {
    '0' <= c <= '9'
  }

  predicate AllDigits(s: string) {
    forall i :: 0 <= i < |s| ==> IsDigit(s[i])
  }

  /** Python's `pat in s`. */
  predicate Contains(s: string, pat: string) {
    pat <= s || (s != [] && Contains(s[1..], pat))
  }

  function UpperChar(c: char): (u: char)
    ensures 'a' <= c <= 'z' ==> u as int == c as int - 32
    ensures !('a' <= c <= 'z') ==> u == c
  {
    if 'a' <= c <= 'z' then (c as int - 32) as char else c
  }

  /** `s.upper()`, restricted to ASCII letters. */
  function AsciiUpper(s: string): (u: string)
    ensures |u| == |s|
    ensures forall i :: 0 <= i < |s| ==> u[i] == UpperChar(s[i])
  {
    seq(|s|, i requires 0 <= i < |s| => UpperChar(s[i]))
  }

  /** The first index from `i` on that does not hold whitespace, or `|s|`. */
  function SpacesFrom(s: string, i: nat): (n: nat)
    requires i <= |s|
    ensures i <= n <= |s|
    ensures forall k :: i <= k < n ==> IsSpace(s[k])
    ensures n < |s| ==> !IsSpace(s[n])
    decreases |s| - i
  {
    if i < |s| && IsSpace(s[i]) then SpacesFrom(s, i + 1) else i
  }

  /** The last index before `j` that does not hold whitespace, plus one, or 0. */
  function SpacesBefore(s: string, j: nat): (n: nat)
    requires j <= |s|
    ensures n <= j
    ensures forall k :: n <= k < j ==> IsSpace(s[k])
    ensures n > 0 ==> !IsSpace(s[n - 1])
  {
    if j > 0 && IsSpace(s[j - 1]) then SpacesBefore(s, j - 1) else j
  }

  /** The first index from `i` on that holds whitespace, or `|s|`. */
  function RunEnd(s: string, i: nat): (n: nat)
    requires i <= |s|
    ensures i <= n <= |s|
    ensures forall k :: i <= k < n ==> !IsSpace(s[k])
    ensures n < |s| ==> IsSpace(s[n])
    decreases |s| - i
  {
    if i < |s| && !IsSpace(s[i]) then RunEnd(s, i + 1) else i
  }

  /** The number of whitespace characters `s` starts with. */
  function LeadingSpaces(s: string): (n: nat)
    ensures n <= |s|
    ensures forall i :: 0 <= i < n ==> IsSpace(s[i])
    ensures n < |s| ==> !IsSpace(s[n])
  {
    SpacesFrom(s, 0)
  }

  /** The number of whitespace characters `s` ends with. */
  function TrailingSpaces(s: string): (n: nat)
    ensures n <= |s|
    ensures forall i :: |s| - n <= i < |s| ==> IsSpace(s[i])
    ensures n < |s| ==> !IsSpace(s[|s| - n - 1])
  {
    |s| - SpacesBefore(s, |s|)
  }

  /** `s.strip()`: `s` without the whitespace it starts and ends with; empty
      when `s` is whitespace only. */
  function Strip(s: string): (r: string)
    ensures LeadingSpaces(s) == |s| ==> r == []
    ensures LeadingSpaces(s) < |s| ==>
      LeadingSpaces(s) < |s| - TrailingSpaces(s) && r == s[LeadingSpaces(s)..|s| - TrailingSpaces(s)]
    ensures r == [] || (!IsSpace(r[0]) && !IsSpace(r[|r| - 1]))
  {
    var lead, trail := LeadingSpaces(s), TrailingSpaces(s);
    if lead == |s| then []
    else
      assert lead < |s| - trail by {
        assert !IsSpace(s[lead]);
      }
      s[lead..|s| - trail]
  }

  /** Whitespace in front of `s` does not change what `strip()` returns. */
  lemma StripLeadingSpace(c: char, s: string)
    requires IsSpace(c)
    ensures Strip([c] + s) == Strip(s)
  {
    var t := [c] + s;
    LeadingSpacesCons(c, s);
    if LeadingSpaces(s) < |s| {
      TrailingSpacesCons(c, s);
      assert t[LeadingSpaces(s) + 1..|t| - TrailingSpaces(s)] == s[LeadingSpaces(s)..|s| - TrailingSpaces(s)];
    }
  }

  lemma LeadingSpacesCons(c: char, s: string)
    requires IsSpace(c)
    ensures LeadingSpaces([c] + s) == LeadingSpaces(s) + 1
  {
    SpacesFromShift(c, s, 0);
  }

  lemma {:induction false} SpacesFromShift(c: char, s: string, i: nat)
    requires i <= |s|
    ensures SpacesFrom([c] + s, i + 1) == SpacesFrom(s, i) + 1
    decreases |s| - i
  {
    var t := [c] + s;
    if i < |s| {
      assert t[i + 1] == s[i];
      if IsSpace(s[i]) {
        SpacesFromShift(c, s, i + 1);
      }
    }
  }

  lemma TrailingSpacesCons(c: char, s: string)
    requires LeadingSpaces(s) < |s|
    ensures TrailingSpaces([c] + s) == TrailingSpaces(s)
  {
    assert SpacesBefore(s, |s|) > 0 by {
      assert !IsSpace(s[LeadingSpaces(s)]);
    }
    SpacesBeforeShift(c, s, |s|);
  }

  lemma {:induction false} SpacesBeforeShift(c: char, s: string, j: nat)
    requires j <= |s| && SpacesBefore(s, j) > 0
    ensures SpacesBefore([c] + s, j + 1) == SpacesBefore(s, j) + 1
  {
    var t := [c] + s;
    assert t[j] == s[j - 1];
    if IsSpace(s[j - 1]) {
      SpacesBeforeShift(c, s, j - 1);
    }
  }

  /** `s.split()[0]`: the first maximal run of non-whitespace characters of
      `s`, or None where Python raises IndexError because `s` holds nothing
      but whitespace. */
  function FirstWord(s: string): (r: Option<string>)
    ensures r.None? <==> LeadingSpaces(s) == |s|
    ensures r.Some? ==>
      var start := LeadingSpaces(s);
      && r.value != []
      && start + |r.value| <= |s| && r.value == s[start..start + |r.value|]
      && (forall i :: 0 <= i < |r.value| ==> !IsSpace(r.value[i]))
      && (start + |r.value| == |s| || IsSpace(s[start + |r.value|]))
  {
    var start := LeadingSpaces(s);
    if start == |s| then None else Some(s[start..RunEnd(s, start)])
  }

  /** The first word of `w` followed by a space is `w` itself. */
  lemma FirstWordOfSpaced(w: string, rest: string)
    requires w != [] && forall i :: 0 <= i < |w| ==> !IsSpace(w[i])
    ensures FirstWord(w + [' '] + rest) == Some(w)
  {
    var s := w + [' '] + rest;
    assert LeadingSpaces(s) == 0 by {
      assert s[0] == w[0];
    }
    assert RunEnd(s, 0) == |w| by {
      assert s[|w|] == ' ';
      assert forall k :: 0 <= k < |w| ==> s[k] == w[k];
    }
    assert s[..|w|] == w;
  }

  /** A string without whitespace at either end is its own `strip()`. */
  lemma StripUnpadded(s: string)
    requires s != [] && !IsSpace(s[0]) && !IsSpace(s[|s| - 1])
    ensures Strip(s) == s
  {
    assert LeadingSpaces(s) == 0;
    assert TrailingSpaces(s) == 0;
    assert s[0..|s|] == s;
  }

  /** Number of occurrences of `c` in `s`. */
  function Occurrences(s: string, c: char): nat {
    if s == [] then 0 else Occurrences(s[..|s| - 1], c) + (if s[|s| - 1] == c then 1 else 0)
  }

  lemma {:induction false} OccurrencesAppend(a: string, b: string, c: char)
    ensures Occurrences(a + b, c) == Occurrences(a, c) + Occurrences(b, c)
  {
    if b != [] {
      assert (a + b)[..|a + b| - 1] == a + b[..|b| - 1];
      OccurrencesAppend(a, b[..|b| - 1], c);
    } else {
      assert a + b == a;
    }
  }

  lemma {:induction false} OccurrencesAbsent(s: string, c: char)
    requires c !in s
    ensures Occurrences(s, c) == 0
  {
    if s != [] {
      OccurrencesAbsent(s[..|s| - 1], c);
    }
  }

  lemma {:induction false} OccurrencesAbsentConverse(s: string, c: char)
    requires Occurrences(s, c) == 0
    ensures c !in s
  {
    if s != [] {
      OccurrencesAbsentConverse(s[..|s| - 1], c);
      assert s == s[..|s| - 1] + [s[|s| - 1]];
    }
  }

  /** `s.split(sep)` for a one-character separator: the pieces between
      separators, in order; an empty string gives one empty piece. */
  function SplitOn(s: string, sep: char): (parts: seq<string>)
    ensures |parts| >= 1
    ensures forall k :: 0 <= k < |parts| ==> sep !in parts[k]
  {
    if s == [] then [[]]
    else
      var init := SplitOn(s[..|s| - 1], sep);
      if s[|s| - 1] == sep then init + [[]]
      else init[..|init| - 1] + [init[|init| - 1] + [s[|s| - 1]]]
  }

  lemma {:induction false} SplitOnCount(s: string, sep: char)
    ensures |SplitOn(s, sep)| == Occurrences(s, sep) + 1
  {
    if s != [] {
      SplitOnCount(s[..|s| - 1], sep);
    }
  }

  /** Splitting undoes joining: pieces that hold no separator come back as
      they were put in. */
  lemma {:induction false} SplitOnJoin(a: string, b: string, sep: char)
    requires sep !in b
    ensures SplitOn(a + [sep] + b, sep) == SplitOn(a, sep) + [b]
  {
    if b == [] {
      assert (a + [sep] + b)[..|a + [sep] + b| - 1] == a;
    } else {
      var b' := b[..|b| - 1];
      assert (a + [sep] + b)[..|a + [sep] + b| - 1] == a + [sep] + b';
      SplitOnJoin(a, b', sep);
      assert b' + [b[|b| - 1]] == b;
    }
  }

  lemma {:induction false} SplitOnNoSeparator(s: string, sep: char)
    requires sep !in s
    ensures SplitOn(s, sep) == [s]
  {
    if s != [] {
      SplitOnNoSeparator(s[..|s| - 1], sep);
      assert s[..|s| - 1] + [s[|s| - 1]] == s;
    }
  }

  function DigitValue(c: char): nat
    requires IsDigit(c)
  {
    c as int - '0' as int
  }

  function DigitChar(d: nat): (c: char)
    requires d < 10
    ensures IsDigit(c) && DigitValue(c) == d
  {
    (d + '0' as int) as char
  }

  /** The number a string of decimal digits denotes. */
  function DigitsValue(s: string): nat
    requires AllDigits(s)
  {
    if s == [] then 0 else DigitsValue(s[..|s| - 1]) * 10 + DigitValue(s[|s| - 1])
  }

  lemma {:induction false} DigitsValueBound(s: string)
    requires AllDigits(s)
    ensures DigitsValue(s) < Pow10(|s|)
  {
    if s != [] {
      DigitsValueBound(s[..|s| - 1]);
    }
  }

  function Pow10(n: nat): (p: nat)
    ensures p >= 1
  {
    if n == 0 then 1 else 10 * Pow10(n - 1)
  }

  /** `n` written with exactly `width` digits, zero-padded on the left
      (Python's `f"{n:0{width}d}"` for `n < 10^width`). */
  function PaddedDigits(n: nat, width: nat): (s: string)
    ensures |s| == width && AllDigits(s)
  {
    if width == 0 then [] else PaddedDigits(n / 10, width - 1) + [DigitChar(n % 10)]
  }

  lemma {:induction false} PaddedDigitsValue(n: nat, width: nat)
    requires n < Pow10(width)
    ensures DigitsValue(PaddedDigits(n, width)) == n
  {
    if width > 0 {
      PaddedDigitsValue(n / 10, width - 1);
      var s := PaddedDigits(n, width);
      assert s[..|s| - 1] == PaddedDigits(n / 10, width - 1);
    }
  }
}

/**
 * The Python string operations the converters use, written out over `string`
 * (a sequence of Unicode scalar values, which is what a Python `str` indexes).
 */
module Text {
  import opened Wrappers

  // ---------------------------------------------------------------------------
  // Prefixes and substrings
  // ---------------------------------------------------------------------------

  /** `s.startswith(p)` */
  predicate StartsWith(s: string, p: string) {
    |p| <= |s| && s[..|p|] == p
  }

  /** A string starts with a non-empty prefix only if their first characters agree. */
  lemma FirstCharOfPrefix(s: string, p: string)
    requires p != []
    ensures StartsWith(s, p) ==> s[0] == p[0]
  {
    if StartsWith(s, p) {
      assert s[..|p|][0] == p[0];
    }
  }

  /** `s.endswith(p)` */
  predicate EndsWith(s: string, p: string) {
    |p| <= |s| && s[|s| - |p|..] == p
  }

  /** `sub in s`, scanning s from the left. */
  predicate Contains(s: string, sub: string)
    decreases |s|
  {
    StartsWith(s, sub) || (s != [] && Contains(s[1..], sub))
  }

  /** sub occurs in s starting at position i. */
  predicate OccursAt(s: string, sub: string, i: int) {
    0 <= i <= |s| - |sub| && s[i..i + |sub|] == sub
  }

  /** The left-to-right scan finds sub exactly when sub occurs at some position of s. */
  lemma {:induction false} ContainsIffOccurs(s: string, sub: string)
    ensures Contains(s, sub) <==> exists i :: OccursAt(s, sub, i)
    decreases |s|
  {
    if s != [] {
      ContainsIffOccurs(s[1..], sub);
      if Contains(s[1..], sub) {
        var i :| OccursAt(s[1..], sub, i);
        assert s[1..][i..i + |sub|] == s[i + 1..i + 1 + |sub|];
        assert OccursAt(s, sub, i + 1);
      }
      if StartsWith(s, sub) {
        assert OccursAt(s, sub, 0);
      }
      if i :| OccursAt(s, sub, i) {
        if i > 0 {
          assert s[1..][i - 1..i - 1 + |sub|] == s[i..i + |sub|];
          assert OccursAt(s[1..], sub, i - 1);
        } else {
          assert StartsWith(s, sub);
        }
      }
    } else if sub == [] {
      assert OccursAt(s, sub, 0);
    }
  }

  /** A prefix that lacks the first character of sub cannot start or straddle an occurrence of it. */
  lemma {:induction false} ContainsAfterPrefix(pre: string, s: string, sub: string)
    requires sub != [] && sub[0] !in pre
    ensures Contains(pre + s, sub) <==> Contains(s, sub)
    decreases |pre|
  {
    if pre == [] {
      assert pre + s == s;
    } else {
      assert (pre + s)[0] == pre[0];
      assert (pre + s)[1..] == pre[1..] + s;
      ContainsAfterPrefix(pre[1..], s, sub);
    }
  }

  /** A string without the character c contains nothing that has c in it. */
  lemma MissingCharNotContained(s: string, sub: string, k: nat)
    requires k < |sub| && sub[k] !in s
    ensures !Contains(s, sub)
  {
    ContainsIffOccurs(s, sub);
  }

  // ---------------------------------------------------------------------------
  // Joining and splitting
  // ---------------------------------------------------------------------------

  /** `sep.join(parts)` */
  function Join(parts: seq<string>, sep: string): string
    decreases |parts|
  {
    if |parts| == 0 then ""
    else if |parts| == 1 then parts[0]
    else parts[0] + sep + Join(parts[1..], sep)
  }

  /** `s.split(c)` for a one-character separator: always at least one piece. */
  function Split(s: string, c: char): (pieces: seq<string>)
    ensures |pieces| >= 1
    decreases |s|
  {
    if s == [] then [""]
    else
      var rest := Split(s[1..], c);
      if s[0] == c then [""] + rest else [[s[0]] + rest[0]] + rest[1..]
  }

  lemma {:induction false} SplitNoSeparator(s: string, c: char)
    requires c !in s
    ensures Split(s, c) == [s]
    decreases |s|
  {
    if s != [] {
      SplitNoSeparator(s[1..], c);
      assert [s[0]] + s[1..] == s;
    }
  }

  lemma {:induction false} SplitAfterPiece(p: string, c: char, rest: string)
    requires c !in p
    ensures Split(p + [c] + rest, c) == [p] + Split(rest, c)
    decreases |p|
  {
    if p == [] {
      assert p + [c] + rest == [c] + rest;
      assert ([c] + rest)[1..] == rest;
    } else {
      SplitAfterPiece(p[1..], c, rest);
      assert (p + [c] + rest)[1..] == p[1..] + [c] + rest;
      assert [p[0]] + p[1..] == p;
    }
  }

  /** Splitting a `"\n".join(lines)` at the newlines gives the lines back, when no line holds a newline. */
  lemma {:induction false} SplitJoin(parts: seq<string>, c: char)
    requires |parts| >= 1
    requires forall i :: 0 <= i < |parts| ==> c !in parts[i]
    ensures Split(Join(parts, [c]), c) == parts
    decreases |parts|
  {
    if |parts| == 1 {
      SplitNoSeparator(parts[0], c);
    } else {
      SplitJoin(parts[1..], c);
      SplitAfterPiece(parts[0], c, Join(parts[1..], [c]));
      assert [parts[0]] + parts[1..] == parts;
    }
  }

  /** A join of at least two pieces whose last piece is empty ends with the separator. */
  lemma {:induction false} JoinEndsWithSeparator(parts: seq<string>, sep: string)
    requires |parts| >= 2 && parts[|parts| - 1] == ""
    ensures EndsWith(Join(parts, sep), sep)
    decreases |parts|
  {
    if |parts| == 2 {
      assert Join(parts, sep) == parts[0] + sep + "";
    } else {
      JoinEndsWithSeparator(parts[1..], sep);
      var tail := Join(parts[1..], sep);
      assert Join(parts, sep) == parts[0] + sep + tail;
      assert (parts[0] + sep + tail)[|parts[0] + sep + tail| - |sep|..] == tail[|tail| - |sep|..];
    }
  }

  // ---------------------------------------------------------------------------
  // Replacing one character
  // ---------------------------------------------------------------------------

  /** `s.replace(c, r)` for a one-character pattern: every occurrence of c becomes r. */
  function ReplaceChar(s: string, c: char, r: string): string
    decreases |s|
  {
    if s == [] then "" else (if s[0] == c then r else [s[0]]) + ReplaceChar(s[1..], c, r)
  }

  /** Replacing a character by itself changes nothing (`s.replace('h', 'h') == s`). */
  lemma {:induction false} ReplaceCharByItself(s: string, c: char)
    ensures ReplaceChar(s, c, [c]) == s
    decreases |s|
  {
    if s != [] {
      ReplaceCharByItself(s[1..], c);
      assert [s[0]] + s[1..] == s;
    }
  }

  lemma {:induction false} ReplaceCharAppend(a: string, b: string, c: char, r: string)
    ensures ReplaceChar(a + b, c, r) == ReplaceChar(a, c, r) + ReplaceChar(b, c, r)
    decreases |a|
  {
    if a == [] {
      assert a + b == b;
    } else {
      var ab := a + b;
      assert ab[0] == a[0] && ab[1..] == a[1..] + b;
      ReplaceCharAppend(a[1..], b, c, r);
    }
  }

  /** After the replacement, the replaced character is gone (when r does not reintroduce it). */
  lemma {:induction false} ReplaceCharRemoves(s: string, c: char, r: string)
    requires c !in r
    ensures c !in ReplaceChar(s, c, r)
    decreases |s|
  {
    if s != [] {
      ReplaceCharRemoves(s[1..], c, r);
    }
  }

  // ---------------------------------------------------------------------------
  // Stripping
  // ---------------------------------------------------------------------------

  /** Python's `str.isspace()` for one character. */
  predicate IsSpace(c: char) {
    var n := c as int;
    (9 <= n <= 13) || (28 <= n <= 32) || n == 0x85 || n == 0xA0 || n == 0x1680
    || (0x2000 <= n <= 0x200A) || n == 0x2028 || n == 0x2029 || n == 0x202F
    || n == 0x205F || n == 0x3000
  }

  /** Drops the leading characters that satisfy `drop`. */
  function TrimStart(s: string, drop: char -> bool): (r: string)
    ensures |r| <= |s| && r == s[|s| - |r|..]
    ensures r == [] || !drop(r[0])
    ensures forall i :: 0 <= i < |s| - |r| ==> drop(s[i])
    decreases |s|
  {
    if s != [] && drop(s[0]) then
      var t := s[1..];
      assert forall i :: 0 <= i < |t| ==> t[i] == s[i + 1];
      TrimStart(t, drop)
    else
      s
  }

  /** Drops the trailing characters that satisfy `drop`. */
  function TrimEnd(s: string, drop: char -> bool): (r: string)
    ensures |r| <= |s| && r == s[..|r|]
    ensures r == [] || !drop(r[|r| - 1])
    ensures forall i :: |r| <= i < |s| ==> drop(s[i])
    decreases |s|
  {
    if s != [] && drop(s[|s| - 1]) then TrimEnd(s[..|s| - 1], drop) else s
  }

  /** `s.strip()`: drops whitespace at both ends. */
  function Strip(s: string): string {
    TrimEnd(TrimStart(s, IsSpace), IsSpace)
  }

  predicate IsQuote(c: char) {
    c == '"' || c == '\''
  }

  /** `s.strip('"\'')`: drops double and single quotes at both ends. */
  function StripQuotes(s: string): string {
    TrimEnd(TrimStart(s, IsQuote), IsQuote)
  }

  /** A string without whitespace at either end is its own `strip()`. */
  lemma StripUnchanged(s: string)
    requires s != [] && !IsSpace(s[0]) && !IsSpace(s[|s| - 1])
    ensures Strip(s) == s
  {
  }

  /** Leading whitespace does not change what `strip()` returns. */
  lemma {:induction false} StripLeadingSpace(ws: string, s: string)
    requires forall i :: 0 <= i < |ws| ==> IsSpace(ws[i])
    ensures Strip(ws + s) == Strip(s)
    decreases |ws|
  {
    if ws != [] {
      assert (ws + s)[0] == ws[0];
      assert (ws + s)[1..] == ws[1..] + s;
      StripLeadingSpace(ws[1..], s);
    } else {
      assert ws + s == s;
    }
  }

  // ---------------------------------------------------------------------------
  // Case mapping
  // ---------------------------------------------------------------------------

  /**
   * `c.lower()` for ASCII letters and for the non-ASCII characters whose lower
   * case begins with an ASCII letter (U+0130 and U+212A); every other character
   * is left unchanged.
   */
  function LowerChar(c: char): string {
    if 'A' <= c <= 'Z' then [(c as int + 32) as char]
    else if c as int == 0x130 then ['i', 0x307 as char]
    else if c as int == 0x212A then ['k']
    else [c]
  }

  /**
   * `c.upper()` for ASCII letters and for the non-ASCII characters whose upper
   * case begins with one of the letters S, E, L, C, T or I; every other
   * character is left unchanged.
   */
  function UpperChar(c: char): string {
    if 'a' <= c <= 'z' then [(c as int - 32) as char]
    else if c as int == 0x17F then ['S']
    else if c as int == 0xDF then ['S', 'S']
    else if c as int == 0x131 then ['I']
    else if c as int == 0x1E97 then ['T', 0x308 as char]
    else if c as int == 0xFB05 || c as int == 0xFB06 then ['S', 'T']
    else [c]
  }

  /** `s.lower()` */
  function Lower(s: string): string
    decreases |s|
  {
    if s == [] then "" else LowerChar(s[0]) + Lower(s[1..])
  }

  /** `s.upper()` */
  function Upper(s: string): string
    decreases |s|
  {
    if s == [] then "" else UpperChar(s[0]) + Upper(s[1..])
  }

  /** The lower case of an ASCII letter; any other character is kept. */
  function AsciiLower(c: char): char {
    if 'A' <= c <= 'Z' then (c as int + 32) as char else c
  }

  /** `s` begins with the lower-case word `p` written in any mix of ASCII letter cases. */
  predicate StartsWithIgnoringCase(s: string, p: string) {
    |p| <= |s| && forall i :: 0 <= i < |p| ==> AsciiLower(s[i]) == p[i]
  }

  /** An ASCII character maps to exactly one character, so a string's ASCII prefix is case-mapped position by position. */
  lemma {:induction false} CaseMapAsciiPrefix(s: string, n: nat)
    requires n <= |s|
    requires forall i :: 0 <= i < n ==> s[i] as int < 128
    ensures |Lower(s)| >= n && |Upper(s)| >= n
    ensures forall i :: 0 <= i < n ==> Lower(s)[i] == LowerChar(s[i])[0] && Upper(s)[i] == UpperChar(s[i])[0]
    decreases n
  {
    if n > 0 {
      var t := s[1..];
      assert forall i :: 0 <= i < n - 1 ==> t[i] == s[i + 1];
      CaseMapAsciiPrefix(t, n - 1);
      assert |LowerChar(s[0])| == 1 && |UpperChar(s[0])| == 1;
    }
  }

  /**
   * A lower-cased string starts with a word of lower-case letters other than
   * 'i' and 'k' only if the string itself starts with that word in some mix of
   * ASCII cases: no other character lower-cases to such a letter.
   */
  lemma {:induction false} LowerStartsWithWord(s: string, p: string)
    requires forall j :: 0 <= j < |p| ==> 'a' <= p[j] <= 'z' && p[j] != 'i' && p[j] != 'k'
    ensures StartsWith(Lower(s), p) ==> StartsWithIgnoringCase(s, p)
    decreases |p|
  {
    if p != [] && StartsWith(Lower(s), p) {
      assert s != [];
      assert Lower(s) == LowerChar(s[0]) + Lower(s[1..]);
      assert LowerChar(s[0])[0] == Lower(s)[0] == p[0];
      assert LowerChar(s[0]) == [AsciiLower(s[0])];
      assert AsciiLower(s[0]) == p[0];
      var t, q := s[1..], p[1..];
      assert Lower(s) == [p[0]] + Lower(t);
      assert Lower(t)[..|q|] == Lower(s)[1..|p|];
      LowerStartsWithWord(t, q);
      assert forall i :: 1 <= i < |p| ==> s[i] == t[i - 1] && p[i] == q[i - 1];
    }
  }

  /**
   * On an ASCII start, an upper-cased string starts with a word p of capital
   * letters only if the string starts with w, p's lower case, in some mix of
   * ASCII cases.
   */
  lemma {:induction false} UpperStartsWithWord(s: string, p: string, w: string)
    requires |w| == |p|
    requires forall j :: 0 <= j < |p| ==> 'A' <= p[j] <= 'Z' && w[j] == (p[j] as int + 32) as char
    ensures (forall i :: 0 <= i < |s| && i < |p| ==> s[i] as int < 128) && StartsWith(Upper(s), p) ==>
      StartsWithIgnoringCase(s, w)
    decreases |p|
  {
    if p != [] && (forall i :: 0 <= i < |s| && i < |p| ==> s[i] as int < 128) && StartsWith(Upper(s), p) {
      assert s != [];
      assert Upper(s) == UpperChar(s[0]) + Upper(s[1..]);
      assert UpperChar(s[0])[0] == Upper(s)[0] == p[0];
      assert UpperChar(s[0]) == [p[0]];
      assert AsciiLower(s[0]) == w[0];
      var t, q, v := s[1..], p[1..], w[1..];
      assert Upper(t)[..|q|] == Upper(s)[1..|p|];
      assert forall i :: 0 <= i < |t| && i < |q| ==> t[i] == s[i + 1];
      UpperStartsWithWord(t, q, v);
      assert forall i :: 1 <= i < |p| ==> s[i] == t[i - 1] && w[i] == v[i - 1];
    }
  }

  // ---------------------------------------------------------------------------
  // Decimal integers
  // ---------------------------------------------------------------------------

  predicate IsDigit(c: char) {
    '0' <= c <= '9'
  }

  predicate AllDigits(s: string) {
    forall i :: 0 <= i < |s| ==> IsDigit(s[i])
  }

  function DigitChar(d: nat): (c: char)
    requires d < 10
    ensures IsDigit(c) && c as int - '0' as int == d
  {
    ('0' as int + d) as char
  }

  /** The decimal digits of n, most significant first, without leading zeros. */
  function NatToString(n: nat): (r: string)
    ensures |r| >= 1 && AllDigits(r)
    ensures |r| > 1 ==> r[0] != '0'
    decreases n
  {
    if n < 10 then [DigitChar(n)] else NatToString(n / 10) + [DigitChar(n % 10)]
  }

  /** `str(i)` for a Python int. */
  function IntToString(i: int): string {
    if i < 0 then "-" + NatToString(-i) else NatToString(i)
  }

  /** The value of a string of decimal digits (leading zeros allowed). */
  function DigitsValue(s: string): nat
    requires AllDigits(s)
    decreases |s|
  {
    if s == [] then 0 else DigitsValue(s[..|s| - 1]) * 10 + (s[|s| - 1] as int - '0' as int)
  }

  /** `int(s)` for strings made of an optional sign and ASCII digits; `None` for anything else. */
  function ParseInt(s: string): Option<int> {
    if |s| >= 2 && s[0] == '-' && AllDigits(s[1..]) then Some(-(DigitsValue(s[1..]) as int))
    else if |s| >= 2 && s[0] == '+' && AllDigits(s[1..]) then Some(DigitsValue(s[1..]))
    else if |s| >= 1 && AllDigits(s) then Some(DigitsValue(s))
    else None
  }

  lemma {:induction false} DigitsValueOfNatToString(n: nat)
    ensures DigitsValue(NatToString(n)) == n
    decreases n
  {
    var r := NatToString(n);
    if n >= 10 {
      DigitsValueOfNatToString(n / 10);
      assert r[..|r| - 1] == NatToString(n / 10);
    }
  }

  /** `int(str(i)) == i`: the decimal rendering of an integer reads back as that integer. */
  lemma IntToStringRoundTrip(i: int)
    ensures ParseInt(IntToString(i)) == Some(i)
  {
    var n: nat := if i < 0 then -i else i;
    var digits := NatToString(n);
    DigitsValueOfNatToString(n);
    ParseDigits(digits);
    assert IntToString(i) == if i < 0 then "-" + digits else digits;
  }

  lemma ParseDigits(digits: string)
    requires |digits| >= 1 && AllDigits(digits)
    ensures ParseInt(digits) == Some(DigitsValue(digits) as int)
    ensures ParseInt("-" + digits) == Some(-(DigitsValue(digits) as int))
  {
    assert IsDigit(digits[0]);
    var neg := "-" + digits;
    assert neg[0] == '-' && neg[1..] == digits;
  }

}

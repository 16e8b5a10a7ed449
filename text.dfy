/**
 * The string primitives the core relies on: `trimmingCharacters(in: .whitespacesAndNewlines)`,
 * `String.isBlank`, the decimal rendering of an `Int` (`String(n)`, `"\(n)"`), and
 * `replacingOccurrences(of:with:)`.
 */
module Text {

  /** A byte of a response body or of a digest. */
  newtype byte = b: int | 0 <= b < 256

  /**
   * The characters Foundation's `.whitespacesAndNewlines` set contains, restricted to ASCII
   * whitespace plus NEL, NO-BREAK SPACE, LINE SEPARATOR and PARAGRAPH SEPARATOR.
   */
  predicate IsWhitespace(c: char) {
    c == ' ' || c == '\t' || c == '\n' || c == '\r' || c == '\U{000B}' || c == '\U{000C}'
    || c == '\U{0085}' || c == '\U{00A0}' || c == '\U{2028}' || c == '\U{2029}'
  }

  predicate AllWhitespace(s: string) {
    forall i :: 0 <= i < |s| ==> IsWhitespace(s[i])
  }

  /** The index of the first non-whitespace character at or after `i`, or `|s|` if there is none. */
  function FirstNonBlank(s: string, i: nat): (n: nat)
    requires i <= |s|
    ensures i <= n <= |s|
    ensures forall k :: i <= k < n ==> IsWhitespace(s[k])
    ensures n < |s| ==> !IsWhitespace(s[n])
    decreases |s| - i
  {
    if i < |s| && IsWhitespace(s[i]) then FirstNonBlank(s, i + 1) else i
  }

  /** The end of `s[..j]` once its trailing whitespace is dropped. */
  function EndNonBlank(s: string, j: nat): (n: nat)
    requires j <= |s|
    ensures n <= j
    ensures forall k :: n <= k < j ==> IsWhitespace(s[k])
    ensures n > 0 ==> !IsWhitespace(s[n - 1])
  {
    if j > 0 && IsWhitespace(s[j - 1]) then EndNonBlank(s, j - 1) else j
  }

  /** Drops the leading whitespace. */
  function TrimStart(s: string): string {
    s[FirstNonBlank(s, 0)..]
  }

  /** Drops the trailing whitespace. */
  function TrimEnd(s: string): string {
    s[..EndNonBlank(s, |s|)]
  }

  /**
   * `trimmingCharacters(in: .whitespacesAndNewlines)`: the result has no whitespace at either
   * end, and it is empty exactly when `s` is whitespace only.
   */
  function Trim(s: string): (r: string)
    ensures |r| <= |s|
    ensures r != [] ==> !IsWhitespace(r[0]) && !IsWhitespace(r[|r| - 1])
    ensures r == [] <==> AllWhitespace(s)
  {
    var t := TrimStart(s);
    var r := TrimEnd(t);
    assert r == [] ==> AllWhitespace(s) by {
      if r == [] {
        forall k | 0 <= k < |s| ensures IsWhitespace(s[k]) {
          if k >= FirstNonBlank(s, 0) {
            assert s[k] == t[k - FirstNonBlank(s, 0)];
          }
        }
      }
    }
    r
  }

  /**
   * Trim removes exactly a whitespace-only prefix and suffix: whatever `t` is padded with,
   * provided `t` itself has no whitespace at its ends, trimming gives back `t`.
   */
  lemma {:induction false} TrimOfPadded(pre: string, t: string, post: string)
    requires AllWhitespace(pre) && AllWhitespace(post)
    requires t != [] ==> !IsWhitespace(t[0]) && !IsWhitespace(t[|t| - 1])
    ensures Trim(pre + t + post) == t
  {
    var s := pre + t + post;
    if t == [] {
      assert AllWhitespace(s) by {
        forall k | 0 <= k < |s| ensures IsWhitespace(s[k]) {
          if k < |pre| { assert s[k] == pre[k]; } else { assert s[k] == post[k - |pre|]; }
        }
      }
    } else {
      FirstNonBlankPadded(s, |pre|, 0);
      var u := s[|pre|..];
      assert u == t + post;
      EndNonBlankPadded(u, |t|, |u|);
      assert u[..|t|] == t;
    }
  }

  /** Where the whitespace of `s` runs from `i` up to `m` and `s[m]` is not blank, the scan stops at `m`. */
  lemma {:induction false} FirstNonBlankPadded(s: string, m: nat, i: nat)
    requires i <= m < |s| && !IsWhitespace(s[m])
    requires forall k :: i <= k < m ==> IsWhitespace(s[k])
    ensures FirstNonBlank(s, i) == m
    decreases m - i
  {
    if i < m {
      FirstNonBlankPadded(s, m, i + 1);
    }
  }

  /** Where `s[m - 1]` is not blank and `s[m..j]` is, the backward scan from `j` stops at `m`. */
  lemma {:induction false} EndNonBlankPadded(s: string, m: nat, j: nat)
    requires 0 < m <= j <= |s| && !IsWhitespace(s[m - 1])
    requires forall k :: m <= k < j ==> IsWhitespace(s[k])
    ensures EndNonBlank(s, j) == m
    decreases j
  {
    if m < j {
      EndNonBlankPadded(s, m, j - 1);
    }
  }

  /** `s` is `t` with the whitespace-only `pre` in front and the whitespace-only `post` behind. */
  predicate PaddedBy(s: string, pre: string, t: string, post: string) {
    AllWhitespace(pre) && AllWhitespace(post) && s == pre + t + post
  }

  /** Conversely, `s` is always its trimmed form padded with whitespace on both sides. */
  lemma {:induction false} TrimSplits(s: string)
    ensures exists pre, post :: PaddedBy(s, pre, Trim(s), post)
  {
    var n := FirstNonBlank(s, 0);
    var t := s[n..];
    var m := EndNonBlank(t, |t|);
    var pre, post := s[..n], t[m..];
    LeadingBlanks(s);
    TrailingBlanks(t);
    assert Trim(s) == t[..m];
    assert s == pre + t[..m] + post;
    assert PaddedBy(s, pre, Trim(s), post);
  }

  lemma LeadingBlanks(s: string)
    ensures AllWhitespace(s[..FirstNonBlank(s, 0)])
  {
    var n := FirstNonBlank(s, 0);
    forall k | 0 <= k < n ensures IsWhitespace(s[..n][k]) {
      assert s[..n][k] == s[k];
    }
  }

  lemma TrailingBlanks(t: string)
    ensures AllWhitespace(t[EndNonBlank(t, |t|)..])
  {
    var m := EndNonBlank(t, |t|);
    forall k | 0 <= k < |t| - m ensures IsWhitespace(t[m..][k]) {
      assert t[m..][k] == t[m + k];
    }
  }

  /** `String.isBlank`: the trimmed string is empty, that is, `s` holds only whitespace. */
  predicate IsBlank(s: string)
    ensures IsBlank(s) <==> AllWhitespace(s)
  {
    Trim(s) == []
  }

  // ---------------------------------------------------------------------------------------------
  // Decimal rendering of integers.

  predicate IsDigit(c: char) { '0' <= c <= '9' }

  predicate AllDigits(s: string) { forall i :: 0 <= i < |s| ==> IsDigit(s[i]) }

  function DigitChar(d: int): (c: char)
    requires 0 <= d < 10
    ensures IsDigit(c) && c as int - '0' as int == d
  {
    (d + '0' as int) as char
  }

  /** The digits of `n`, most significant first; only zero itself starts with `'0'`. */
  function NatDigits(n: nat): (r: string)
    ensures r != [] && AllDigits(r)
    ensures r[0] == '0' <==> n == 0
    ensures n == 0 ==> r == "0"
  {
    if n < 10 then [DigitChar(n)] else NatDigits(n / 10) + [DigitChar(n % 10)]
  }

  /** Reads back a string of decimal digits, most significant first. */
  function ParseNat(s: string): nat
    requires AllDigits(s)
  {
    if s == [] then 0 else ParseNat(s[..|s| - 1]) * 10 + (s[|s| - 1] as int - '0' as int)
  }

  /** A string of digits with no leading zero, except the single digit `"0"`. */
  predicate IsCanonicalDigits(d: string) {
    d != [] && AllDigits(d) && (d[0] != '0' || d == "0")
  }

  /**
   * The shape of Swift's `String(n)` for an `Int`: an optional minus sign, then digits without
   * a leading zero; zero is written `"0"`, never `"-0"`.
   */
  predicate IsDecimal(s: string) {
    if s != [] && s[0] == '-' then IsCanonicalDigits(s[1..]) && s[1..] != "0"
    else IsCanonicalDigits(s)
  }

  function ParseDecimal(s: string): int
    requires IsDecimal(s)
  {
    if s[0] == '-' then -(ParseNat(s[1..]) as int) else ParseNat(s)
  }

  lemma {:induction false} NatDigitsRoundTrip(n: nat)
    ensures ParseNat(NatDigits(n)) == n
  {
    if n >= 10 {
      var r := NatDigits(n);
      assert r[..|r| - 1] == NatDigits(n / 10);
      NatDigitsRoundTrip(n / 10);
    }
  }

  /**
   * Swift's `String(n)` and `"\(n)"` for an `Int`: a minus sign for negatives, then the digits.
   * Reading it back gives `n`, so distinct numbers render distinctly.
   */
  function Decimal(n: int): (r: string)
    ensures IsDecimal(r) && ParseDecimal(r) == n
    ensures r[0] == '-' <==> n < 0
  {
    if n < 0 then
      NatDigitsRoundTrip(-n);
      var d := NatDigits(-n);
      assert ("-" + d)[1..] == d;
      assert d[0] != '0';
      "-" + d
    else
      NatDigitsRoundTrip(n);
      NatDigits(n)
  }

  /** Canonical digits are exactly the rendering of the number they spell. */
  lemma {:induction false} CanonicalDigitsRendered(d: string)
    requires IsCanonicalDigits(d)
    ensures d == NatDigits(ParseNat(d))
    decreases |d|
  {
    if |d| > 1 {
      var f := d[..|d| - 1];
      assert f[0] == d[0] != '0';
      CanonicalDigitsRendered(f);
      var m := ParseNat(f);
      assert m != 0;
      var n := ParseNat(d);
      assert n / 10 == m && n % 10 == d[|d| - 1] as int - '0' as int;
      assert NatDigits(n) == f + [d[|d| - 1]];
    }
  }

  /**
   * The rendering is the only decimal text for its number: any text of the shape `IsDecimal`
   * that reads back as `n` is `Decimal(n)`, so no zero-padded or `"-0"` form is accepted.
   */
  lemma DecimalUnique(s: string)
    requires IsDecimal(s)
    ensures s == Decimal(ParseDecimal(s))
  {
    if s[0] == '-' {
      var d := s[1..];
      CanonicalDigitsRendered(d);
      assert ParseNat(d) != 0;
      assert s == "-" + d;
    } else {
      CanonicalDigitsRendered(s);
    }
  }

  // ---------------------------------------------------------------------------------------------
  // `replacingOccurrences(of:with:)`: a left-to-right scan replacing non-overlapping matches.

  predicate OccursAt(s: string, pat: string, i: int) {
    0 <= i && i + |pat| <= |s| && s[i..i + |pat|] == pat
  }

  /** `s` contains no occurrence of `pat`. */
  predicate Free(s: string, pat: string) {
    forall i :: 0 <= i <= |s| - |pat| ==> !OccursAt(s, pat, i)
  }

  /**
   * Every match found scanning left to right is replaced, and the scan resumes after it; text
   * between matches is kept. A same-length replacement keeps the length, and removing (an empty
   * replacement) never lengthens the text.
   */
  function ReplaceAll(s: string, pat: string, rep: string): (r: string)
    requires pat != []
    ensures |rep| == |pat| ==> |r| == |s|
    ensures |rep| <= |pat| ==> |r| <= |s|
    ensures |s| < |pat| ==> r == s
    decreases |s|
  {
    if |s| < |pat| then s
    else if s[..|pat|] == pat then rep + ReplaceAll(s[|pat|..], pat, rep)
    else [s[0]] + ReplaceAll(s[1..], pat, rep)
  }

  /** Replacing in a string that holds no occurrence changes nothing. */
  lemma {:induction false} ReplaceAllFree(s: string, pat: string, rep: string)
    requires pat != [] && Free(s, pat)
    ensures ReplaceAll(s, pat, rep) == s
    decreases |s|
  {
    if |s| >= |pat| {
      assert !OccursAt(s, pat, 0);
      assert Free(s[1..], pat) by {
        forall i | 0 <= i <= |s[1..]| - |pat| ensures !OccursAt(s[1..], pat, i) {
          if OccursAt(s[1..], pat, i) {
            assert s[1..][i..i + |pat|] == s[i + 1..i + 1 + |pat|];
            assert OccursAt(s, pat, i + 1);
          }
        }
      }
      ReplaceAllFree(s[1..], pat, rep);
    }
  }

  /** `s` with every `c` dropped and the other characters kept in order. */
  function Without(s: string, c: char): string
    decreases |s|
  {
    if s == [] then [] else (if s[0] == c then [] else [s[0]]) + Without(s[1..], c)
  }

  /** Replacing a one-character pattern by nothing drops exactly that character. */
  lemma {:induction false} RemoveCharIsWithout(s: string, c: char)
    ensures ReplaceAll(s, [c], []) == Without(s, c)
    decreases |s|
  {
    if s != [] {
      assert s[..1] == [s[0]];
      RemoveCharIsWithout(s[1..], c);
    }
  }

  /** Removing every `c` leaves no `c` behind. */
  lemma {:induction false} RemoveCharAbsent(s: string, c: char)
    ensures forall i :: 0 <= i < |ReplaceAll(s, [c], [])| ==> ReplaceAll(s, [c], [])[i] != c
    decreases |s|
  {
    if s != [] {
      RemoveCharAbsent(s[1..], c);
    }
  }

  /** Removing every `c` from a string made only of `c` leaves the empty string. */
  lemma {:induction false} RemoveCharAll(s: string, c: char)
    requires forall i :: 0 <= i < |s| ==> s[i] == c
    ensures ReplaceAll(s, [c], []) == []
    decreases |s|
  {
    if s != [] {
      assert s[..1] == [c];
      RemoveCharAll(s[1..], c);
    }
  }
}

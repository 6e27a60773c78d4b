/**
 * The few Python string built-ins the newsletter code relies on:
 * `str.strip()`, `str.lower()` and `str(n)` for a natural number.
 * Strings are sequences of Unicode code points, as in Python 3.
 */
module PyText {

  /** `c.isspace()` in Python 3: the ASCII controls 9-13 and 28-31, the space,
      and the Unicode white-space code points. */
  predicate IsSpace(c: char) {
    || ('\U{9}' <= c <= '\U{D}')
    || ('\U{1C}' <= c <= '\U{20}')
    || c == '\U{85}' || c == '\U{A0}' || c == '\U{1680}'
    || ('\U{2000}' <= c <= '\U{200A}')
    || c == '\U{2028}' || c == '\U{2029}' || c == '\U{202F}' || c == '\U{205F}' || c == '\U{3000}'
  }

  /** Leading white space removed. */
  function TrimLeft(s: string): (r: string)
    ensures |r| <= |s| && r == s[|s| - |r|..]
    ensures forall k :: 0 <= k < |s| - |r| ==> IsSpace(s[k])
    ensures r == [] || !IsSpace(r[0])
  {
    if s != [] && IsSpace(s[0]) then TrimLeft(s[1..]) else s
  }

  /** Trailing white space removed. */
  function TrimRight(s: string): (r: string)
    ensures |r| <= |s| && r == s[..|r|]
    ensures forall k :: |r| <= k < |s| ==> IsSpace(s[k])
    ensures r == [] || !IsSpace(r[|r| - 1])
  {
    if s != [] && IsSpace(s[|s| - 1]) then TrimRight(s[..|s| - 1]) else s
  }

  /** No white space at either end. */
  predicate IsStripped(s: string) {
    s == [] || (!IsSpace(s[0]) && !IsSpace(s[|s| - 1]))
  }

  /** `r` is the slice of `s` starting at `i`, and only white space of `s` lies outside it. */
  ghost predicate SliceBetweenSpaces(s: string, i: int, r: string) {
    && 0 <= i <= |s| - |r|
    && r == s[i..i + |r|]
    && (forall k :: 0 <= k < i ==> IsSpace(s[k]))
    && (forall k :: i + |r| <= k < |s| ==> IsSpace(s[k]))
  }

  /** The number of white-space characters `s` starts with. */
  function LeadingSpaces(s: string): (n: nat)
    ensures n <= |s|
    ensures forall k :: 0 <= k < n ==> IsSpace(s[k])
    ensures n < |s| ==> !IsSpace(s[n])
  {
    |s| - |TrimLeft(s)|
  }

  /** Python's `s.strip()`: the slice of `s` left after removing white space at both
      ends; it starts after the leading white space. */
  function Strip(s: string): (r: string)
    ensures IsStripped(r)
    ensures SliceBetweenSpaces(s, LeadingSpaces(s), r)
  {
    var l := TrimLeft(s);
    var r := TrimRight(l);
    TrimBoth(s, l, r);
    r
  }

  /** Trimming the left and then the right end leaves a slice between white space. */
  lemma TrimBoth(s: string, l: string, r: string)
    requires |l| <= |s| && l == s[|s| - |l|..] && forall k :: 0 <= k < |s| - |l| ==> IsSpace(s[k])
    requires |r| <= |l| && r == l[..|r|] && forall k :: |r| <= k < |l| ==> IsSpace(l[k])
    requires (l == [] || !IsSpace(l[0])) && (r == [] || !IsSpace(r[|r| - 1]))
    ensures SliceBetweenSpaces(s, |s| - |l|, r)
    ensures IsStripped(r)
  {
    assert r != [] ==> r[0] == l[0];
    var i := |s| - |l|;
    forall k | 0 <= k < |r| ensures r[k] == s[i..i + |r|][k] {
      assert r[k] == l[k] == s[i + k];
    }
    assert r == s[i..i + |r|];
    forall k | i + |r| <= k < |s| ensures IsSpace(s[k]) {
      assert s[k] == l[k - i];
    }
  }

  /** A string without white space at either end is its own `strip()`. */
  lemma StripStripped(s: string)
    requires IsStripped(s)
    ensures Strip(s) == s
  {
  }

  /** `c.lower()` for the characters whose lower case is a single character in the
      basic Latin range: A-Z, and the Kelvin sign, which Python lowers to 'k'. */
  function LowerChar(c: char): (d: char)
  {
    if 'A' <= c <= 'Z' then (c as int + 32) as char
    else if c == '\U{212A}' then 'k'
    else c
  }

  /** No character changes under `lower()`. */
  predicate IsLower(s: string) {
    forall k :: 0 <= k < |s| ==> LowerChar(s[k]) == s[k]
  }

  /** Python's `s.lower()`, character by character. */
  function Lower(s: string): (r: string)
    ensures |r| == |s| && forall k :: 0 <= k < |s| ==> r[k] == LowerChar(s[k])
    ensures IsLower(r)
  {
    seq(|s|, k requires 0 <= k < |s| => LowerChar(s[k]))
  }

  /** The normalisation applied to every e-mail address: `email.strip().lower()`. */
  function Normalize(email: string): (r: string)
    ensures |r| == |Strip(email)| && forall k :: 0 <= k < |r| ==> r[k] == LowerChar(Strip(email)[k])
    ensures IsStripped(r) && |r| <= |email|
    ensures IsLower(r)
  {
    var t := Strip(email);
    LowerPreservesSpace(t);
    Lower(t)
  }

  /** An address typed with a leading blank and capitals is stored in lower case
      without the blank. */
  lemma NormalizeExample()
    ensures Normalize(" Test1@Example.com") == "test1@example.com"
  {
    StripExample();
    LowerExample();
  }

  lemma StripExample()
    ensures Strip(" Test1@Example.com") == "Test1@Example.com"
  {
    TrimLeftExample();
    TrimRightExample();
  }

  lemma TrimLeftExample()
    ensures TrimLeft(" Test1@Example.com") == "Test1@Example.com"
  {
    var s, t := " Test1@Example.com", "Test1@Example.com";
    TrimLeftStartsWithText(t);
    assert IsSpace(s[0]) && s[1..] == t;
  }

  lemma TrimLeftStartsWithText(t: string)
    requires t != [] && !IsSpace(t[0])
    ensures TrimLeft(t) == t
  {
  }

  lemma TrimRightExample()
    ensures TrimRight("Test1@Example.com") == "Test1@Example.com"
  {
  }

  lemma LowerExample()
    ensures Lower("Test1@Example.com") == "test1@example.com"
  {
  }

  lemma LowerPreservesSpace(s: string)
    ensures IsStripped(s) ==> IsStripped(Lower(s))
  {
  }

  /** Normalising twice is normalising once, so a normalised address compares
      equal to any spelling of it that differs only in case or surrounding blanks. */
  lemma NormalizeIdempotent(email: string)
    ensures Normalize(Normalize(email)) == Normalize(email)
  {
    var n := Normalize(email);
    StripStripped(n);
    LowerLower(n);
    assert Normalize(n) == Lower(Strip(n));
  }

  lemma LowerLower(s: string)
    requires IsLower(s)
    ensures Lower(s) == s
  {
    assert forall k :: 0 <= k < |s| ==> Lower(s)[k] == s[k];
  }

  /** The decimal digit for 0 <= d < 10. */
  function DigitChar(d: nat): (c: char)
    requires d < 10
    ensures '0' <= c <= '9'
  {
    ('0' as int + d) as char
  }

  /** Python's `str(n)` for a natural number: its decimal digits, most significant first. */
  function NatToString(n: nat): (r: string)
    ensures |r| >= 1
    ensures forall k :: 0 <= k < |r| ==> '0' <= r[k] <= '9'
    ensures |r| > 1 ==> r[0] != '0'
  {
    if n < 10 then [DigitChar(n)] else NatToString(n / 10) + [DigitChar(n % 10)]
  }

  /** The value of a string of decimal digits. */
  function DecimalValue(s: string): nat
    requires forall k :: 0 <= k < |s| ==> '0' <= s[k] <= '9'
  {
    if s == [] then 0 else DecimalValue(s[..|s| - 1]) * 10 + (s[|s| - 1] as int - '0' as int)
  }

  /** Reading the decimal text of `n` gives `n` back, so distinct article numbers print differently. */
  lemma {:induction false} NatToStringRoundTrip(n: nat)
    ensures DecimalValue(NatToString(n)) == n
  {
    if n >= 10 {
      NatToStringRoundTrip(n / 10);
      var r := NatToString(n);
      assert r[..|r| - 1] == NatToString(n / 10);
    }
  }
}

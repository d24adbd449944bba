/**
 * The string primitives the page logic relies on: `String.prototype.trim`,
 * `toLowerCase`, `includes`, and the decimal digit runs read by `Number`,
 * `parseInt` and the `\d` regex class.
 */
module Text {

  /** JavaScript's WhiteSpace and LineTerminator characters, the set `trim` removes. */
  predicate IsWhitespace(c: char) {
    || c == ' ' || c == '\t' || c == '\n' || c == '\r'
    || c == '\U{000B}' || c == '\U{000C}' || c == '\U{00A0}' || c == '\U{1680}'
    || ('\U{2000}' <= c <= '\U{200A}')
    || c == '\U{2028}' || c == '\U{2029}' || c == '\U{202F}' || c == '\U{205F}'
    || c == '\U{3000}' || c == '\U{FEFF}'
  }

  /** `trimStart`: `s` without its leading whitespace. */
  function TrimStart(s: string): string {
    if s != [] && IsWhitespace(s[0]) then TrimStart(s[1..]) else s
  }

  /** `trimEnd`: `s` without its trailing whitespace. */
  function TrimEnd(s: string): string {
    if s != [] && IsWhitespace(s[|s| - 1]) then TrimEnd(s[..|s| - 1]) else s
  }

  /**
   * `trim`: whitespace removed from both ends. Nothing is left exactly when
   * the value is all whitespace, which is when the trimmed value is falsy.
   */
  function Trim(s: string): (r: string)
    ensures |r| <= |s|
    ensures r == [] <==> Blank(s)
  {
    TrimEmptyIffBlank(s);
    TrimEnd(TrimStart(s))
  }

  /** Every character of `s` is whitespace (the empty string included). */
  predicate Blank(s: string) {
    forall k :: 0 <= k < |s| ==> IsWhitespace(s[k])
  }

  /** Trimming both ends leaves nothing exactly when every character is whitespace. */
  lemma TrimEmptyIffBlank(s: string)
    ensures |TrimEnd(TrimStart(s))| <= |s|
    ensures TrimEnd(TrimStart(s)) == [] <==> Blank(s)
  {
    var u := TrimStart(s);
    TrimStartIsSuffix(s);
    TrimEndIsPrefix(u);
  }

  /** `trimStart` keeps the longest suffix that does not begin with whitespace. */
  lemma {:induction false} TrimStartIsSuffix(s: string)
    ensures var r := TrimStart(s);
      && |r| <= |s| && r == s[|s| - |r|..]
      && (forall k :: 0 <= k < |s| - |r| ==> IsWhitespace(s[k]))
      && (r == [] || !IsWhitespace(r[0]))
  {
    if s != [] && IsWhitespace(s[0]) {
      var r := TrimStart(s[1..]);
      TrimStartIsSuffix(s[1..]);
      assert s[1..][|s| - 1 - |r|..] == s[|s| - |r|..];
      forall k | 0 < k < |s| - |r| ensures IsWhitespace(s[k]) {
        assert s[k] == s[1..][k - 1];
      }
    }
  }

  /** `trimEnd` keeps the longest prefix that does not end with whitespace. */
  lemma {:induction false} TrimEndIsPrefix(s: string)
    ensures var r := TrimEnd(s);
      && |r| <= |s| && r == s[..|r|]
      && (forall k :: |r| <= k < |s| ==> IsWhitespace(s[k]))
      && (r == [] || !IsWhitespace(r[|r| - 1]))
  {
    if s != [] && IsWhitespace(s[|s| - 1]) {
      var r := TrimEnd(s[..|s| - 1]);
      TrimEndIsPrefix(s[..|s| - 1]);
      assert s[..|s| - 1][..|r|] == s[..|r|];
      forall k | |r| <= k < |s| - 1 ensures IsWhitespace(s[k]) {
        assert s[k] == s[..|s| - 1][k];
      }
    }
  }

  /** Trimming keeps a contiguous slice whose ends are not whitespace, and drops only whitespace. */
  lemma TrimIsInnerSlice(s: string)
    ensures var t, i := Trim(s), |s| - |TrimStart(s)|;
      && 0 <= i <= i + |t| <= |s| && t == s[i..i + |t|]
      && (forall k :: 0 <= k < i ==> IsWhitespace(s[k]))
      && (forall k :: i + |t| <= k < |s| ==> IsWhitespace(s[k]))
      && (t == [] || (!IsWhitespace(t[0]) && !IsWhitespace(t[|t| - 1])))
  {
    var u := TrimStart(s);
    var t := TrimEnd(u);
    var i := |s| - |u|;
    TrimStartIsSuffix(s);
    TrimEndIsPrefix(u);
    assert t == s[i..i + |t|] by {
      assert u == s[i..];
      assert t == u[..|t|];
      assert s[i..][..|t|] == s[i..i + |t|];
    }
    forall k | i + |t| <= k < |s| ensures IsWhitespace(s[k]) {
      assert s[k] == u[k - i];
    }
  }

  /** ASCII case mapping of one character (non-ASCII letters are left as they are). */
  function LowerChar(c: char): char {
    if 'A' <= c <= 'Z' then (c as int + 32) as char else c
  }

  /**
   * `toLowerCase`, character by character: each ASCII capital becomes its
   * small letter, and every other character is kept.
   */
  function ToLower(s: string): (r: string)
    ensures |r| == |s|
    ensures forall i :: 0 <= i < |r| ==> !('A' <= r[i] <= 'Z')
    ensures forall i :: 0 <= i < |s| && !('A' <= s[i] <= 'Z') ==> r[i] == s[i]
    ensures forall i :: 0 <= i < |s| && 'A' <= s[i] <= 'Z' ==> r[i] as int == s[i] as int + 32
  {
    seq(|s|, i requires 0 <= i < |s| => LowerChar(s[i]))
  }

  /** `c` and `d` are the same character, or the capital and small forms of one ASCII letter. */
  predicate SameLetterIgnoringCase(c: char, d: char) {
    || c == d
    || ('A' <= c <= 'Z' && d as int == c as int + 32)
    || ('A' <= d <= 'Z' && c as int == d as int + 32)
  }

  /** Strings that differ only in the case of ASCII letters lower-case to the same string. */
  lemma ToLowerIgnoresCase(s: string, t: string)
    requires |s| == |t|
    requires forall i :: 0 <= i < |s| ==> SameLetterIgnoringCase(s[i], t[i])
    ensures ToLower(s) == ToLower(t)
  {
    var a, b := ToLower(s), ToLower(t);
    forall i | 0 <= i < |s| ensures a[i] == b[i] {
      assert SameLetterIgnoringCase(s[i], t[i]);
    }
  }

  predicate OccursAt(s: string, sub: string, i: nat) {
    i + |sub| <= |s| && s[i..i + |sub|] == sub
  }

  /** `s.includes(sub)`: `sub` is a contiguous piece of `s` (the empty string is one of every string). */
  predicate Includes(s: string, sub: string)
    ensures sub == [] ==> Includes(s, sub)
    ensures Includes(s, sub) ==> |sub| <= |s|
  {
    assert sub == [] ==> OccursAt(s, sub, 0);
    exists i: nat | i <= |s| :: OccursAt(s, sub, i)
  }

  predicate IsDigit(c: char) {
    '0' <= c <= '9'
  }

  predicate AllDigits(s: string) {
    forall i :: 0 <= i < |s| ==> IsDigit(s[i])
  }

  /** Length of the run of ASCII digits at the front of `s`. */
  function DigitRun(s: string): (k: nat)
    ensures k <= |s| && AllDigits(s[..k])
    ensures k == |s| || !IsDigit(s[k])
  {
    if s != [] && IsDigit(s[0]) then 1 + DigitRun(s[1..]) else 0
  }

  /** The run is cut short inside `p` already, so whatever follows `p` is not read. */
  lemma {:induction false} DigitRunStopsInPrefix(p: string, q: string)
    requires DigitRun(p) < |p|
    ensures DigitRun(p + q) == DigitRun(p)
  {
    if IsDigit(p[0]) {
      assert (p + q)[1..] == p[1..] + q;
      DigitRunStopsInPrefix(p[1..], q);
    }
  }

  /** A string of digits followed by a non-digit (or by nothing) is a run of exactly its length. */
  lemma {:induction false} DigitRunOfDigits(p: string, q: string)
    requires AllDigits(p)
    requires q == [] || !IsDigit(q[0])
    ensures DigitRun(p + q) == |p|
  {
    if p != [] {
      assert (p + q)[1..] == p[1..] + q;
      DigitRunOfDigits(p[1..], q);
    }
  }

  function DigitValue(c: char): nat
    requires IsDigit(c)
  {
    c as int - '0' as int
  }

  function DigitChar(d: nat): (c: char)
    requires d < 10
    ensures IsDigit(c) && DigitValue(c) == d
  {
    ('0' as int + d) as char
  }

  /** The number a string of decimal digits denotes (0 for the empty string). */
  function DigitsValue(s: string): nat
    requires AllDigits(s)
  {
    if s == [] then 0 else DigitsValue(s[..|s| - 1]) * 10 + DigitValue(s[|s| - 1])
  }

  /** A digit string denotes at least 1 exactly when one of its digits is not `0`. */
  lemma {:induction false} DigitsValuePositive(s: string)
    requires AllDigits(s)
    ensures DigitsValue(s) >= 1 <==> exists i :: 0 <= i < |s| && s[i] != '0'
  {
    if s != [] {
      var init := s[..|s| - 1];
      DigitsValuePositive(init);
      if exists i :: 0 <= i < |init| && init[i] != '0' {
        var i :| 0 <= i < |init| && init[i] != '0';
        assert s[i] != '0';
      }
      if exists i :: 0 <= i < |s| && s[i] != '0' {
        var i :| 0 <= i < |s| && s[i] != '0';
        if i < |init| { assert init[i] != '0'; }
      }
    }
  }

  /** Decimal rendering of a natural number, without leading zeros. */
  function ShowNat(n: nat): (r: string)
    ensures r != [] && AllDigits(r)
    ensures DigitsValue(r) == n
  {
    if n < 10 then [DigitChar(n)]
    else
      var init := ShowNat(n / 10);
      var r := init + [DigitChar(n % 10)];
      assert r[..|r| - 1] == init;
      r
  }
}

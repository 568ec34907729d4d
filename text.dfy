/**
 * The string primitives the Ruby code relies on: `strip`, ASCII `downcase` and
 * `upcase`, `Array#join(" ")`, `Integer#to_s`, and the notion of a CSS class
 * name occurring in a space-separated class list.
 */
module Text {

  /** The characters Ruby's `String#strip` removes: NUL, tab, LF, VT, FF, CR and space. */
  predicate IsSpace(c: char) {
    c == ' ' || c == '\t' || c == '\n' || c == '\U{000B}' || c == '\U{000C}' || c == '\r' || c == '\0'
  }

  predicate AllSpace(s: string) {
    forall i :: 0 <= i < |s| ==> IsSpace(s[i])
  }

  /**
   * The characters ActiveSupport's `blank?` accepts (`[[:space:]]`, the Unicode
   * White_Space property): tab to CR, space, NEL, no-break space, the Ogham space,
   * the spaces U+2000 to U+200A, the line and paragraph separators, the narrow
   * no-break space, the medium mathematical space and the ideographic space.
   * Unlike `strip`, NUL is not one of them.
   */
  predicate IsBlankChar(c: char) {
    || ('\t' <= c <= '\r') || c == ' ' || c == '\U{0085}' || c == '\U{00A0}' || c == '\U{1680}'
    || ('\U{2000}' <= c <= '\U{200A}') || c == '\U{2028}' || c == '\U{2029}' || c == '\U{202F}'
    || c == '\U{205F}' || c == '\U{3000}'
  }

  /** ActiveSupport's `String#blank?`: empty, or made only of `[[:space:]]` characters. */
  predicate AllBlank(s: string) {
    forall i :: 0 <= i < |s| ==> IsBlankChar(s[i])
  }

  /** No whitespace at either end. */
  predicate Trimmed(s: string) {
    s == [] || (!IsSpace(s[0]) && !IsSpace(s[|s| - 1]))
  }

  /** Drops the leading whitespace: the result is a suffix of `s`, and only whitespace was dropped. */
  function StripLeft(s: string): (r: string)
    ensures |r| <= |s| && r == s[|s| - |r|..]
    ensures forall i :: 0 <= i < |s| - |r| ==> IsSpace(s[i])
    ensures r == [] || !IsSpace(r[0])
  {
    if s != [] && IsSpace(s[0]) then StripLeft(s[1..]) else s
  }

  /** Drops the trailing whitespace: the result is a prefix of `s`, and only whitespace was dropped. */
  function StripRight(s: string): (r: string)
    ensures |r| <= |s| && r == s[..|r|]
    ensures forall i :: |r| <= i < |s| ==> IsSpace(s[i])
    ensures r == [] || !IsSpace(r[|r| - 1])
  {
    if s != [] && IsSpace(s[|s| - 1]) then StripRight(s[..|s| - 1]) else s
  }

  /** Ruby's `String#strip`. */
  function Strip(s: string): (r: string)
    ensures Trimmed(r)
    ensures |r| <= |s|
    ensures r == [] <==> AllSpace(s)
    ensures Trimmed(s) ==> r == s
  {
    StripRight(StripLeft(s))
  }

  /** Trailing whitespace never reaches back into a prefix that ends in a non-space. */
  lemma {:induction false} StripRightAfter(p: string, q: string)
    requires p == [] || !IsSpace(p[|p| - 1])
    ensures StripRight(p + q) == p + StripRight(q)
    decreases |q|
  {
    if q == [] {
      assert p + q == p;
      if p != [] { assert StripRight(p) == p; }
    } else if IsSpace(q[|q| - 1]) {
      assert (p + q)[..|p + q| - 1] == p + q[..|q| - 1];
      StripRightAfter(p, q[..|q| - 1]);
    } else {
      assert StripRight(q) == q;
    }
  }

  /** Stripping the end keeps a leading space. */
  lemma StripRightKeepsFirst(s: string)
    ensures StripRight(s) == [] || StripRight(s)[0] == s[0]
  {
  }

  /** Stripping a string that starts with a non-space touches only its end. */
  lemma StripAfter(p: string, q: string)
    requires p != [] && !IsSpace(p[0]) && !IsSpace(p[|p| - 1])
    ensures Strip(p + q) == p + StripRight(q)
  {
    assert StripLeft(p + q) == p + q by { assert (p + q)[0] == p[0]; }
    StripRightAfter(p, q);
  }

  lemma AppendAssoc(a: string, b: string, c: string)
    ensures (a + b) + c == a + (b + c)
  {
  }

  /** ASCII `downcase` / `upcase` of one character. */
  function Lower(c: char): char {
    if 'A' <= c <= 'Z' then (c as int + 32) as char else c
  }

  function Upper(c: char): char {
    if 'a' <= c <= 'z' then (c as int - 32) as char else c
  }

  function Downcase(s: string): string {
    seq(|s|, i requires 0 <= i < |s| => Lower(s[i]))
  }

  function Upcase(s: string): string {
    seq(|s|, i requires 0 <= i < |s| => Upper(s[i]))
  }

  /** Lowercasing never creates or removes whitespace, so it keeps a string trimmed. */
  lemma DowncaseKeepsTrimmed(s: string)
    requires Trimmed(s)
    ensures Trimmed(Downcase(s))
  {
  }

  lemma DowncaseIdempotent(s: string)
    ensures Downcase(Downcase(s)) == Downcase(s)
  {
  }

  /** Every slice of a `blank?` string is `blank?`. */
  lemma BlankSlice(s: string, lo: nat, hi: nat)
    requires AllBlank(s) && lo <= hi <= |s|
    ensures AllBlank(s[lo..hi])
  {
    forall i | 0 <= i < hi - lo
      ensures IsBlankChar(s[lo..hi][i])
    {
      assert s[lo..hi][i] == s[lo + i];
    }
  }

  /** No `blank?` character is an ASCII capital. */
  lemma LowerBlank(c: char)
    requires IsBlankChar(c)
    ensures Lower(c) == c
  {
  }

  /** Stripping and lowercasing a `blank?` string leave it `blank?`. */
  lemma BlankStaysBlank(s: string)
    requires AllBlank(s)
    ensures AllBlank(Strip(s)) && AllBlank(Downcase(s))
  {
    var l := StripLeft(s);
    var r := StripRight(l);
    BlankSlice(s, |s| - |l|, |s|);
    BlankSlice(l, 0, |r|);
    forall i | 0 <= i < |s|
      ensures IsBlankChar(Downcase(s)[i])
    {
      LowerBlank(s[i]);
    }
  }

  /** `Array#join(" ")`: the parts with one space between neighbours. */
  function JoinSpace(parts: seq<string>): string
    decreases |parts|
  {
    if parts == [] then ""
    else if |parts| == 1 then parts[0]
    else parts[0] + " " + JoinSpace(parts[1..])
  }

  predicate IsDigit(c: char) {
    '0' <= c <= '9'
  }

  predicate AllDigits(s: string) {
    forall i :: 0 <= i < |s| ==> IsDigit(s[i])
  }

  function DigitChar(d: nat): (c: char)
    requires d < 10
    ensures IsDigit(c)
  {
    (d + '0' as int) as char
  }

  function DigitValue(c: char): (d: nat)
    requires IsDigit(c)
    ensures d < 10 && DigitChar(d) == c
  {
    c as int - '0' as int
  }

  /** `Integer#to_s` for a non-negative integer: decimal digits, no leading zero. */
  function NatToDecimal(n: nat): (r: string)
    ensures r != [] && AllDigits(r)
    ensures r[0] == '0' ==> n == 0 && r == "0"
    decreases n
  {
    if n < 10 then [DigitChar(n)] else NatToDecimal(n / 10) + [DigitChar(n % 10)]
  }

  /** The value of a string of decimal digits; the inverse of NatToDecimal. */
  function ParseDecimal(s: string): nat
    requires AllDigits(s)
    decreases |s|
  {
    if s == [] then 0 else ParseDecimal(s[..|s| - 1]) * 10 + DigitValue(s[|s| - 1])
  }

  lemma {:induction false} ParseNatToDecimal(n: nat)
    ensures ParseDecimal(NatToDecimal(n)) == n
    decreases n
  {
    var r := NatToDecimal(n);
    if n < 10 {
      assert r[..0] == [];
    } else {
      ParseNatToDecimal(n / 10);
      assert r[..|r| - 1] == NatToDecimal(n / 10);
    }
  }

  /** `Integer#to_s`. */
  function IntToDecimal(i: int): (r: string)
    ensures r != []
    ensures i < 0 <==> r[0] == '-'
  {
    if i < 0 then "-" + NatToDecimal(-i) else NatToDecimal(i)
  }

  lemma NatToDecimalInjective(m: nat, n: nat)
    requires NatToDecimal(m) == NatToDecimal(n)
    ensures m == n
  {
    ParseNatToDecimal(m);
    ParseNatToDecimal(n);
  }

  /** Distinct integers render differently. */
  lemma IntToDecimalInjective(i: int, j: int)
    requires IntToDecimal(i) == IntToDecimal(j)
    ensures i == j
  {
    var r := IntToDecimal(i);
    if i < 0 {
      assert j < 0;
      assert r == "-" + NatToDecimal(-i) == "-" + NatToDecimal(-j);
      assert NatToDecimal(-i) == r[1..] == NatToDecimal(-j);
      NatToDecimalInjective(-i, -j);
    } else {
      assert j >= 0;
      NatToDecimalInjective(i, j);
    }
  }

  /**
   * `c` occurs in the space-separated class list `s` starting at index `i`,
   * with a space or an end of `s` on either side. For a `c` without spaces
   * this is what a `.c` CSS selector matches; for a `c` with spaces it is a
   * run of whole classes, each of which is then present.
   */
  predicate ClassAt(s: string, c: string, i: nat) {
    c != [] && i + |c| <= |s| && s[i..i + |c|] == c
    && (i == 0 || s[i - 1] == ' ')
    && (i + |c| == |s| || s[i + |c|] == ' ')
  }

  ghost predicate HasClass(s: string, c: string) {
    exists i: nat :: ClassAt(s, c, i)
  }

  /** Non-empty, and neither starts nor ends with whitespace. */
  predicate Solid(s: string) {
    s != [] && !IsSpace(s[0]) && !IsSpace(s[|s| - 1])
  }

  /** A whole class stays whole when the list is extended by space-separated text on either side. */
  lemma ClassAtEmbed(p: string, s: string, q: string, c: string, i: nat)
    requires ClassAt(s, c, i)
    requires p == [] || p[|p| - 1] == ' '
    requires q == [] || q[0] == ' '
    ensures ClassAt(p + s + q, c, |p| + i)
  {
    var t := p + s + q;
    assert t[|p| + i..|p| + i + |c|] == s[i..i + |c|];
    if i > 0 { assert t[|p| + i - 1] == s[i - 1]; }
    if i + |c| < |s| { assert t[|p| + i + |c|] == s[i + |c|]; }
  }

  /** A class of `s` stays a class, at the same place, when text starting with a space follows. */
  lemma ClassAtExtend(s: string, q: string, c: string, i: nat)
    requires ClassAt(s, c, i)
    requires q == [] || q[0] == ' '
    ensures ClassAt(s + q, c, i)
  {
    var t := s + q;
    assert t[i..i + |c|] == s[i..i + |c|];
    if i > 0 { assert t[i - 1] == s[i - 1]; }
    if i + |c| < |s| { assert t[i + |c|] == s[i + |c|]; }
  }

  /** Equal strings with the same tail have the same head. */
  lemma CancelRight(a: string, b: string, q: string)
    requires a + q == b + q
    ensures a == b
  {
    assert |a| == |b|;
    assert a == (a + q)[..|a|];
    assert b == (b + q)[..|b|];
  }

  /** Equal strings with the same head have the same tail. */
  lemma CancelLeft(p: string, a: string, b: string)
    requires p + a == p + b
    ensures a == b
  {
    assert a == (p + a)[|p|..];
    assert b == (p + b)[|p|..];
  }

  /** A name set off by a space (or the ends) on each side is a whole class of the list. */
  lemma ClassBetween(p: string, c: string, q: string)
    requires c != []
    requires p == [] || p[|p| - 1] == ' '
    requires q == [] || q[0] == ' '
    ensures HasClass(p + c + q, c)
  {
    assert ClassAt(c, c, 0);
    ClassAtEmbed(p, c, q, c, 0);
  }
}

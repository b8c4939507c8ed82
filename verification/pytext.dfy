/**
 The three pieces of Python's string handling that the widget relies on:
 `str.strip()` (task text), `int(s)` (task-store keys) and `str(n)` (the key of
 today's list). Characters are Unicode scalar values; only the behaviour the
 widget can reach is modelled.
 */
module PyText {
  import opened Wrappers

  /**
   The two whitespace sets in play. `str.strip()` trims every character
   `str.isspace()` accepts. `int()` trims ASCII space and `\t\n\v\f\r`, and
   above U+007F the same characters as `str.isspace()`; it does not trim the
   separators U+001C..U+001F, which `str.isspace()` accepts.
   */
  datatype Spaces = StrSpaces | IntSpaces

  predicate IsSpace(c: char, w: Spaces) {
    var n := c as int;
    n == 0x20 || (0x09 <= n <= 0x0D) || (w == StrSpaces && 0x1C <= n <= 0x1F)
    || n == 0x85 || n == 0xA0 || n == 0x1680 || (0x2000 <= n <= 0x200A)
    || n == 0x2028 || n == 0x2029 || n == 0x202F || n == 0x205F || n == 0x3000
  }

  predicate AllSpace(s: string, w: Spaces) {
    forall i :: 0 <= i < |s| ==> IsSpace(s[i], w)
  }

  /** The first index at or after `i` whose character is not whitespace, or `|s|` if there is none. */
  function SpaceEnd(s: string, w: Spaces, i: nat): (n: nat)
    requires i <= |s|
    ensures i <= n <= |s|
    ensures forall j :: i <= j < n ==> IsSpace(s[j], w)
    ensures n < |s| ==> !IsSpace(s[n], w)
    decreases |s| - i
  {
    if i < |s| && IsSpace(s[i], w) then SpaceEnd(s, w, i + 1) else i
  }

  /** The index just past the last non-whitespace character in `s[lo..k]`, or `lo` if there is none. */
  function SpaceStart(s: string, w: Spaces, lo: nat, k: nat): (n: nat)
    requires lo <= k <= |s|
    ensures lo <= n <= k
    ensures forall j :: n <= j < k ==> IsSpace(s[j], w)
    ensures n > lo ==> !IsSpace(s[n - 1], w)
    decreases k - lo
  {
    if k > lo && IsSpace(s[k - 1], w) then SpaceStart(s, w, lo, k - 1) else k
  }

  /**
   Trimming the whitespace set `w` from both ends. The result is the slice of
   `s` after a whitespace prefix and before a whitespace suffix; it neither
   starts nor ends with whitespace, is empty exactly when `s` is whitespace
   only, and is `s` itself when the ends of `s` are not whitespace.
   */
  function Trim(s: string, w: Spaces): (r: string)
    ensures var i := SpaceEnd(s, w, 0);
      && i + |r| <= |s| && r == s[i..i + |r|]
      && (forall j :: 0 <= j < i ==> IsSpace(s[j], w))
      && (forall j :: i + |r| <= j < |s| ==> IsSpace(s[j], w))
    ensures r == [] <==> AllSpace(s, w)
    ensures r != [] ==> !IsSpace(r[0], w) && !IsSpace(r[|r| - 1], w)
    ensures (s == [] || (!IsSpace(s[0], w) && !IsSpace(s[|s| - 1], w))) ==> r == s
  {
    var i := SpaceEnd(s, w, 0);
    s[i..SpaceStart(s, w, i, |s|)]
  }

  /** `s.strip()`. */
  function Strip(s: string): string {
    Trim(s, StrSpaces)
  }

  predicate IsDigit(c: char) {
    '0' <= c <= '9'
  }

  function DigitValue(c: char): nat
    requires IsDigit(c)
  {
    c as int - '0' as int
  }

  /**
   The digit part `int()` accepts in base 10: ASCII digits, where single
   underscores may separate two digits. Leading zeros are allowed.
   */
  predicate IsDigitBody(b: string) {
    && |b| > 0
    && IsDigit(b[0])
    && IsDigit(b[|b| - 1])
    && (forall i :: 0 <= i < |b| ==> IsDigit(b[i]) || b[i] == '_')
    && (forall i :: 0 <= i < |b| - 1 ==> !(b[i] == '_' && b[i + 1] == '_'))
  }

  /** Decimal value of a digit body; underscores contribute nothing. */
  function BodyValue(b: string): nat
    requires forall i :: 0 <= i < |b| ==> IsDigit(b[i]) || b[i] == '_'
    decreases |b|
  {
    if b == [] then 0
    else if b[|b| - 1] == '_' then BodyValue(b[..|b| - 1])
    else BodyValue(b[..|b| - 1]) * 10 + DigitValue(b[|b| - 1])
  }

  /** A first character outside the set `w` survives trimming in its place. */
  lemma TrimKeepsFirst(s: string, w: Spaces)
    requires |s| > 0 && !IsSpace(s[0], w)
    ensures Trim(s, w) != [] && Trim(s, w)[0] == s[0]
  {
    var r := Trim(s, w);
    var i := SpaceEnd(s, w, 0);
    assert i == 0;
    assert r[0] == s[i..i + |r|][0];
  }

  /** A last character outside the set `w` survives trimming in its place. */
  lemma TrimKeepsLast(s: string, w: Spaces)
    requires |s| > 0 && !IsSpace(s[|s| - 1], w)
    ensures Trim(s, w) != [] && Trim(s, w)[|Trim(s, w)| - 1] == s[|s| - 1]
  {
    var r := Trim(s, w);
    var i := SpaceEnd(s, w, 0);
    assert i + |r| == |s|;
    assert r[|r| - 1] == s[i..i + |r|][|r| - 1];
  }

  /**
   Python's `int(s)` on a string, in base 10: whitespace of the `int()` set at
   either end, then an optional `+` or `-`, then a digit body. `None` is the
   `ValueError` case; blank text is one.
   */
  function ParseInt(s: string): (r: Option<int>)
    ensures AllSpace(s, IntSpaces) ==> r.None?
  {
    var t := Trim(s, IntSpaces);
    var negative := |t| > 0 && t[0] == '-';
    var body := if |t| > 0 && (t[0] == '-' || t[0] == '+') then t[1..] else t;
    if IsDigitBody(body) then
      var v: int := BodyValue(body);
      Some(if negative then -v else v)
    else
      None
  }

  /**
   What `int()` accepts: once trimmed, text that starts with a digit or a sign
   and ends in a digit; a negative result comes from a leading minus sign. A
   lone sign and text ending in anything but a digit raise `ValueError`.
   */
  lemma ParseIntShape(s: string)
    ensures ParseInt(s).Some? ==> var t := Trim(s, IntSpaces);
      |t| > 0 && IsDigit(t[|t| - 1]) && (IsDigit(t[0]) || t[0] == '-' || t[0] == '+')
    ensures ParseInt(s).Some? && ParseInt(s).value < 0 ==> Trim(s, IntSpaces)[0] == '-'
  {
  }

  /** The information separators U+001C..U+001F: whitespace to `str.strip()`, not to `int()`. */
  predicate IsSeparator(c: char) {
    0x1C <= c as int <= 0x1F
  }

  /** Text that starts or ends with an information separator is not an integer to `int()`. */
  lemma SeparatorsRefused(s: string)
    requires |s| > 0 && (IsSeparator(s[0]) || IsSeparator(s[|s| - 1]))
    ensures ParseInt(s) == None
  {
    var t := Trim(s, IntSpaces);
    if IsSeparator(s[0]) {
      TrimKeepsFirst(s, IntSpaces);
      assert !IsDigit(t[0]) && t[0] != '-' && t[0] != '+';
    } else {
      TrimKeepsLast(s, IntSpaces);
      assert !IsDigit(t[|t| - 1]);
    }
    ParseIntShape(s);
  }

  /** Python's `str(n)` for a non-negative integer: decimal, no leading zeros. */
  function NatToString(n: nat): (r: string)
    ensures |r| > 0
    ensures forall i :: 0 <= i < |r| ==> IsDigit(r[i])
    ensures |r| > 1 ==> r[0] != '0'
    decreases n
  {
    var d := ['0' + (n % 10) as char];
    if n < 10 then d else NatToString(n / 10) + d
  }

  lemma {:induction false} BodyValueOfNatToString(n: nat)
    ensures BodyValue(NatToString(n)) == n
    decreases n
  {
    var s := NatToString(n);
    if n >= 10 {
      BodyValueOfNatToString(n / 10);
      assert s[..|s| - 1] == NatToString(n / 10);
    }
  }

  /** Text whose first and last characters are not whitespace has nothing to trim. */
  lemma TrimUnchanged(s: string, w: Spaces)
    requires |s| > 0 && !IsSpace(s[0], w) && !IsSpace(s[|s| - 1], w)
    ensures Trim(s, w) == s
  {
  }

  /** The digits `str(n)` writes form a body `int()` accepts, with nothing to strip or sign. */
  lemma NatToStringShape(n: nat)
    ensures var s := NatToString(n);
      && Trim(s, IntSpaces) == s
      && s[0] != '-' && s[0] != '+'
      && IsDigitBody(s)
  {
    var s := NatToString(n);
    var first, last := s[0], s[|s| - 1];
    assert IsDigit(first) && IsDigit(last);
    assert !IsSpace(first, IntSpaces) && !IsSpace(last, IntSpaces);
    TrimUnchanged(s, IntSpaces);
  }

  /** `int(str(n)) == n`: the key written for a day parses back to that day. */
  lemma {:induction false} ParseNatToString(n: nat)
    ensures ParseInt(NatToString(n)) == Some(n)
  {
    var s := NatToString(n);
    NatToStringShape(n);
    BodyValueOfNatToString(n);
    var t := Trim(s, IntSpaces);
    assert t == s;
    assert !(t[0] == '-' || t[0] == '+');
  }

  /** A sign and a digit body have nothing to strip. */
  lemma SignedStripped(t: string)
    requires |t| > 1 && (t[0] == '-' || t[0] == '+')
    requires IsDigitBody(t[1..])
    ensures Trim(t, IntSpaces) == t
  {
    var body := t[1..];
    assert t[|t| - 1] == body[|body| - 1];
    assert !IsSpace(t[0], IntSpaces) && !IsSpace(t[|t| - 1], IntSpaces);
  }

  /** A minus sign followed by a digit body parses to the body's value negated. */
  lemma MinusParse(t: string)
    requires |t| > 1 && t[0] == '-'
    requires IsDigitBody(t[1..])
    ensures ParseInt(t) == Some(-(BodyValue(t[1..]) as int))
  {
    SignedStripped(t);
  }

  /** A plus sign followed by a digit body parses to the body's value. */
  lemma PlusParse(t: string)
    requires |t| > 1 && t[0] == '+'
    requires IsDigitBody(t[1..])
    ensures ParseInt(t) == Some(BodyValue(t[1..]))
  {
    SignedStripped(t);
  }

  /** The digits `str(n)` writes form a digit body worth `n`. */
  lemma NatDigits(n: nat)
    ensures IsDigitBody(NatToString(n)) && BodyValue(NatToString(n)) == n
  {
    NatToStringShape(n);
    BodyValueOfNatToString(n);
  }

  /** `int("+" + str(n)) == n`. */
  lemma {:induction false} ParsePlus(n: nat)
    ensures ParseInt("+" + NatToString(n)) == Some(n)
  {
    var t := "+" + NatToString(n);
    NatDigits(n);
    assert t[0] == '+' && t[1..] == NatToString(n);
    PlusParse(t);
  }
}

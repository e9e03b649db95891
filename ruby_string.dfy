/** The Ruby String methods the request handlers apply to parameter values:
    `strip` on each dNSName entry, and `to_i` on the revocation reason and on
    the unrevoke serial. `Integer#to_s` is modelled as the partner of `to_i`. */
module RubyString {

  /** Ruby's ASCII whitespace: space, tab, line feed, vertical tab, form feed,
      carriage return. `to_i` skips these before the number. */
  predicate IsSpace(c: char) {
    c == ' ' || c == '\t' || c == '\n' || c == '\U{B}' || c == '\U{C}' || c == '\r'
  }

  /** The characters `strip` removes from either end: whitespace and NUL. */
  predicate IsStripped(c: char) {
    c == '\0' || IsSpace(c)
  }

  /** `lstrip`: drops the leading run of stripped characters. */
  function LStrip(s: string): (r: string)
    ensures |r| <= |s| && r == s[|s| - |r|..]
    ensures forall k :: 0 <= k < |s| - |r| ==> IsStripped(s[k])
    ensures r == [] || !IsStripped(r[0])
  {
    if |s| > 0 && IsStripped(s[0]) then LStrip(s[1..]) else s
  }

  /** `rstrip`: drops the trailing run of stripped characters. */
  function RStrip(s: string): (r: string)
    ensures |r| <= |s| && r == s[..|r|]
    ensures forall k :: |r| <= k < |s| ==> IsStripped(s[k])
    ensures r == [] || !IsStripped(r[|r| - 1])
  {
    if |s| > 0 && IsStripped(s[|s| - 1]) then RStrip(s[..|s| - 1]) else s
  }

  /** `strip`: the part of `s` left between its leading and trailing runs. */
  function Strip(s: string): (r: string)
    ensures |r| <= |s|
    ensures r == [] || (!IsStripped(r[0]) && !IsStripped(r[|r| - 1]))
  {
    RStrip(LStrip(s))
  }

  /** `strip` returns an infix of its input and removes only stripped
      characters, on both sides of that infix. */
  lemma {:induction false} StripIsTrimmedInfix(s: string)
    ensures var i := |s| - |LStrip(s)|;
      && i + |Strip(s)| <= |s|
      && Strip(s) == s[i..i + |Strip(s)|]
      && (forall k :: 0 <= k < i ==> IsStripped(s[k]))
      && (forall k :: i + |Strip(s)| <= k < |s| ==> IsStripped(s[k]))
  {
    var l := LStrip(s);
    var i := |s| - |l|;
    var r := RStrip(l);
    assert Strip(s) == r;
    assert r == s[i..i + |r|] by {
      assert l == s[i..];
      assert r == l[..|r|];
    }
    forall k | i + |r| <= k < |s|
      ensures IsStripped(s[k])
    {
      assert s[k] == l[k - i];
    }
  }

  /** A string with nothing to strip at either end is left unchanged. */
  lemma {:induction false} StripKeepsTrimmed(s: string)
    requires s == [] || (!IsStripped(s[0]) && !IsStripped(s[|s| - 1]))
    ensures Strip(s) == s
  {
    assert LStrip(s) == s;
  }

  /** One space on each side of a trimmed string is stripped away. */
  lemma {:induction false} StripPadded(s: string)
    requires s != [] && !IsStripped(s[0]) && !IsStripped(s[|s| - 1])
    ensures Strip(" " + s + " ") == s
  {
    var p := " " + s + " ";
    assert p[1..] == s + " ";
    assert LStrip(p) == LStrip(s + " ");
    assert LStrip(s + " ") == s + " ";
    assert (s + " ")[..|s|] == s;
    assert RStrip(s + " ") == RStrip(s);
    assert RStrip(s) == s;
  }

  /** `strip` is idempotent. */
  lemma {:induction false} StripIdempotent(s: string)
    ensures Strip(Strip(s)) == Strip(s)
  {
    StripKeepsTrimmed(Strip(s));
  }

  /** A string made only of stripped characters strips to the empty string. */
  lemma {:induction false} StripAllStripped(s: string)
    requires forall k :: 0 <= k < |s| ==> IsStripped(s[k])
    ensures Strip(s) == ""
  {
  }

  predicate IsDigit(c: char) {
    '0' <= c <= '9'
  }

  predicate AllDigits(s: string) {
    forall k :: 0 <= k < |s| ==> IsDigit(s[k])
  }

  function DigitValue(c: char): (d: nat)
    requires IsDigit(c)
    ensures d < 10
  {
    c as int - '0' as int
  }

  function DigitChar(d: nat): (c: char)
    requires d < 10
    ensures IsDigit(c) && DigitValue(c) == d
  {
    ('0' as int + d) as char
  }

  /** The digits of the number `to_i` reads at the start of `s`: a run of
      decimal digits in which two digits may be separated by one underscore.
      The underscores are dropped; a second underscore in a row, or one not
      followed by a digit, ends the run. */
  function DigitRun(s: string): (r: string)
    ensures AllDigits(r) && |r| <= |s|
  {
    if |s| > 0 && IsDigit(s[0]) then [s[0]] + DigitRun(s[1..])
    else if |s| > 1 && s[0] == '_' && IsDigit(s[1]) then [s[1]] + DigitRun(s[2..])
    else []
  }

  /** The value of a string of decimal digits, most significant first. */
  function Value(ds: string): nat
    requires AllDigits(ds)
  {
    if ds == [] then 0 else 10 * Value(ds[..|ds| - 1]) + DigitValue(ds[|ds| - 1])
  }

  function SkipSpace(s: string): (r: string)
    ensures r == [] || !IsSpace(r[0])
  {
    if |s| > 0 && IsSpace(s[0]) then SkipSpace(s[1..]) else s
  }

  /** The unsigned part of `to_i` in base 10: an optional "0d" prefix, then
      the digit run; anything that does not start with a digit reads as 0. */
  function Unsigned(t: string): nat {
    var u := if |t| > 1 && t[0] == '0' && (t[1] == 'd' || t[1] == 'D') then t[2..] else t;
    if |u| > 0 && IsDigit(u[0]) then Value(DigitRun(u)) else 0
  }

  /** `String#to_i`: leading whitespace, an optional sign, then the unsigned
      part; it never fails, and text with no number in front reads as 0. */
  function ToI(s: string): (r: int)
    ensures var t := SkipSpace(s);
      r < 0 ==> |t| > 1 && t[0] == '-' && IsDigit(t[1])
    ensures var t := SkipSpace(s);
      (t == [] || (!IsDigit(t[0]) && t[0] != '-' && t[0] != '+')) ==> r == 0
  {
    var t := SkipSpace(s);
    if |t| > 0 && t[0] == '-' then 0 - Unsigned(t[1..])
    else if |t| > 0 && t[0] == '+' then Unsigned(t[1..])
    else Unsigned(t)
  }

  /** `Integer#to_s` on a natural number: decimal digits, no leading zero. */
  function NatToS(n: nat): (r: string)
    ensures |r| > 0 && AllDigits(r)
    ensures r[0] == '0' ==> n == 0 && r == "0"
  {
    if n < 10 then [DigitChar(n)] else NatToS(n / 10) + [DigitChar(n % 10)]
  }

  /** `Integer#to_s`: a minus sign before the digits of a negative number. */
  function IntToS(n: int): string {
    if n < 0 then "-" + NatToS(-n) else NatToS(n)
  }

  /** True when `t` would extend a digit run it is appended to. */
  predicate ContinuesDigits(t: string) {
    (|t| > 0 && IsDigit(t[0])) || (|t| > 1 && t[0] == '_' && IsDigit(t[1]))
  }

  /** True when `t` ends the number it is appended to: it does not continue
      the digits, and it does not start with the "d" that after a lone "0"
      would read as the decimal radix prefix "0d". */
  predicate EndsNumber(t: string) {
    !ContinuesDigits(t) && !(|t| > 0 && (t[0] == 'd' || t[0] == 'D'))
  }

  lemma {:induction false} DigitRunStopsAfterDigits(ds: string, t: string)
    requires AllDigits(ds) && !ContinuesDigits(t)
    ensures DigitRun(ds + t) == ds
  {
    if ds != [] {
      assert (ds + t)[1..] == ds[1..] + t;
      DigitRunStopsAfterDigits(ds[1..], t);
    } else {
      assert ds + t == t;
    }
  }

  lemma {:induction false} ValueOfNatToS(n: nat)
    ensures Value(NatToS(n)) == n
  {
    var r := NatToS(n);
    if n >= 10 {
      assert r[..|r| - 1] == NatToS(n / 10);
      ValueOfNatToS(n / 10);
    } else {
      assert r[..|r| - 1] == [];
    }
  }

  lemma {:induction false} UnsignedReadsNatToS(n: nat, t: string)
    requires EndsNumber(t)
    ensures Unsigned(NatToS(n) + t) == n
  {
    var d := NatToS(n);
    var u := d + t;
    assert u[0] == d[0];
    if |u| > 1 && u[0] == '0' {
      assert d == "0";
      assert u[1] == t[0];
    }
    DigitRunStopsAfterDigits(d, t);
    ValueOfNatToS(n);
  }

  /** `to_i` reads back the integer `to_s` wrote, whatever follows it that
      does not continue the digits ("99 red balloons" reads as 99). */
  lemma {:induction false} ToIReadsLeadingInteger(n: int, t: string)
    requires EndsNumber(t)
    ensures ToI(IntToS(n) + t) == n
  {
    if n < 0 {
      var d := NatToS(-n) + t;
      ToIReadsDigits(-n, t);
      assert IntToS(n) + t == "-" + d;
    } else {
      ToIReadsDigits(n, t);
      assert IntToS(n) + t == NatToS(n) + t;
    }
  }

  /** The digits of a natural number followed by text that ends them read as
      that number, and as its negation after a minus sign. */
  lemma {:induction false} ToIReadsDigits(m: nat, t: string)
    requires EndsNumber(t)
    ensures ToI(NatToS(m) + t) == m
    ensures ToI("-" + (NatToS(m) + t)) == 0 - m
  {
    var d := NatToS(m) + t;
    UnsignedReadsNatToS(m, t);
    assert d[0] == NatToS(m)[0];
    ToISigned(d);
  }

  /** Text that starts with a digit is read by the unsigned part of `to_i`,
      and with a minus sign in front as the negated value. */
  lemma ToISigned(d: string)
    requires |d| > 0 && IsDigit(d[0])
    ensures ToI(d) == Unsigned(d)
    ensures ToI("-" + d) == 0 - Unsigned(d)
  {
    var s := "-" + d;
    assert s[0] == '-' && s[1..] == d;
    assert SkipSpace(s) == s;
    assert SkipSpace(d) == d;
  }

  /** `to_i` is a left inverse of `to_s`. */
  lemma ToIInvertsToS(n: int)
    ensures ToI(IntToS(n)) == n
  {
    ToIReadsLeadingInteger(n, "");
    assert IntToS(n) + "" == IntToS(n);
  }

  /** Leading whitespace does not change what `to_i` reads. */
  lemma {:induction false} ToISkipsLeadingSpace(w: string, s: string)
    requires forall k :: 0 <= k < |w| ==> IsSpace(w[k])
    ensures ToI(w + s) == ToI(s)
  {
    if w != [] {
      assert (w + s)[1..] == w[1..] + s;
      ToISkipsLeadingSpace(w[1..], s);
    } else {
      assert w + s == s;
    }
  }
}

/** Decimal notation as the Python formatter writes it: `str(n)` and `f"{n:010d}"`. */
module Decimals {

  predicate IsDigit(c: char) {
    '0' <= c <= '9'
  }

  predicate AllDigits(s: string) {
    forall i :: 0 <= i < |s| ==> IsDigit(s[i])
  }

  function Digit(d: nat): (c: char)
    requires d < 10
    ensures IsDigit(c) && c as int - '0' as int == d
  {
    (d + '0' as int) as char
  }

  /** The number a string of digits denotes, most significant digit first. */
  function Value(s: string): nat
    requires AllDigits(s)
  {
    if s == [] then 0 else 10 * Value(s[..|s| - 1]) + (s[|s| - 1] as int - '0' as int)
  }

  function Render(n: nat): (s: string)
    ensures s != [] && AllDigits(s) && Value(s) == n
  {
    if n < 10 then
      var s := [Digit(n)];
      assert s[..0] == [];
      s
    else
      var high := Render(n / 10);
      var s := high + [Digit(n % 10)];
      assert s[..|s| - 1] == high;
      s
  }

  /** Zero-padded on the left to at least `width` characters. */
  function Padded(n: nat, width: nat): (s: string)
    ensures AllDigits(s) && Value(s) == n
    ensures |s| == if |Render(n)| <= width then width else |Render(n)|
  {
    PadLeft(Render(n), width)
  }

  function PadLeft(digits: string, width: nat): (s: string)
    requires AllDigits(digits)
    ensures AllDigits(s) && Value(s) == Value(digits)
    ensures |s| == if |digits| <= width then width else |digits|
    decreases width
  {
    if width <= |digits| then digits
    else
      var rest := PadLeft(digits, width - 1);
      LeadingZero(rest);
      "0" + rest
  }

  lemma {:induction false} LeadingZero(s: string)
    requires AllDigits(s)
    ensures AllDigits("0" + s) && Value("0" + s) == Value(s)
  {
    var t := "0" + s;
    if s == [] {
      assert t[..0] == [];
    } else {
      LeadingZero(s[..|s| - 1]);
      assert t[..|t| - 1] == "0" + s[..|s| - 1];
    }
  }

  function Pow10(k: nat): nat {
    if k == 0 then 1 else 10 * Pow10(k - 1)
  }

  /** A number below 10^width needs at most `width` digits. */
  lemma {:induction false} RenderWidth(n: nat, width: nat)
    requires width >= 1 && n < Pow10(width)
    ensures |Render(n)| <= width
  {
    if n >= 10 {
      RenderWidth(n / 10, width - 1);
    }
  }

  /** Two numbers with the same decimal notation are equal. */
  lemma RenderInjective(a: nat, b: nat)
    requires Render(a) == Render(b)
    ensures a == b
  {
    assert a == Value(Render(a));
  }

  /** Length of the longest run of digits that starts `s`. */
  function LeadingDigits(s: string): (n: nat)
    ensures n <= |s| && AllDigits(s[..n])
  {
    if s == [] || !IsDigit(s[0]) then 0
    else
      var n := 1 + LeadingDigits(s[1..]);
      assert s[..n] == [s[0]] + s[1..][..n - 1];
      n
  }

  lemma {:induction false} LeadingDigitsAre(digits: string, rest: string)
    requires AllDigits(digits) && (rest == [] || !IsDigit(rest[0]))
    ensures LeadingDigits(digits + rest) == |digits|
  {
    if digits == [] {
      assert digits + rest == rest;
    } else {
      assert (digits + rest)[1..] == digits[1..] + rest;
      LeadingDigitsAre(digits[1..], rest);
    }
  }
}

/**
 * Decimal numerals: the %d verb of fmt for the device numbers and volumes the
 * programs print, and strconv.ParseUint(s, 10, 0) for the device number that
 * spotifycnct.go reads from its first argument.
 */
module Decimal {
  import opened Wrappers

  /** The largest value of a uint on a 64-bit platform, the bit size ParseUint uses when given 0. */
  const MaxUint64: nat := 0xFFFF_FFFF_FFFF_FFFF

  predicate IsDigit(c: char)
  {
    '0' <= c <= '9'
  }

  predicate AllDigits(s: string)
  {
    forall i :: 0 <= i < |s| ==> IsDigit(s[i])
  }

  function DigitChar(d: nat): (c: char)
    requires d < 10
    ensures IsDigit(c)
  {
    ('0' as int + d) as char
  }

  function DigitValue(c: char): nat
    requires IsDigit(c)
  {
    c as int - '0' as int
  }

  /** The number a string of decimal digits denotes, most significant digit first. */
  function FromDigits(s: string): nat
    requires AllDigits(s)
  {
    if s == [] then 0 else FromDigits(s[..|s| - 1]) * 10 + DigitValue(s[|s| - 1])
  }

  /** fmt's %d of a non-negative number: the shortest digit string that denotes n. */
  function NatToDecimal(n: nat): (s: string)
    ensures s != [] && AllDigits(s)
    ensures FromDigits(s) == n
    ensures s[0] == '0' ==> s == "0"
    decreases n
  {
    if n < 10 then [DigitChar(n)]
    else
      var s := NatToDecimal(n / 10) + [DigitChar(n % 10)];
      assert s[..|s| - 1] == NatToDecimal(n / 10);
      s
  }

  /** fmt's %d, and fmt.Println's rendering, of an int: a minus sign in front of a negative number. */
  function IntToDecimal(i: int): (s: string)
    ensures s != [] && (s[0] == '-' <==> i < 0)
    // after the sign come the digits of |i|, without a leading zero
    ensures var digits := if i < 0 then s[1..] else s;
      && digits != [] && AllDigits(digits)
      && FromDigits(digits) == (if i < 0 then -i else i)
      && (digits[0] == '0' ==> digits == "0")
  {
    if i < 0 then "-" + NatToDecimal(-i) else NatToDecimal(i)
  }

  /** strconv.ParseUint(s, 10, 0): digits only (no sign, no underscore), at least one, and no more than MaxUint64. */
  function ParseUint(s: string): (r: Option<nat>)
    ensures r.Some? ==> s != [] && AllDigits(s) && FromDigits(s) == r.value && r.value <= MaxUint64
    ensures r.None? <==> s == [] || !AllDigits(s) || FromDigits(s) > MaxUint64
  {
    if s != [] && AllDigits(s) && FromDigits(s) <= MaxUint64 then Some(FromDigits(s)) else None
  }

  /** Parsing what %d printed gives the number back. */
  lemma ParseFormatted(n: nat)
    requires n <= MaxUint64
    ensures ParseUint(NatToDecimal(n)) == Some(n)
  {
  }

  lemma {:induction false} ZeroDigits(s: string)
    requires AllDigits(s) && FromDigits(s) == 0
    ensures forall i :: 0 <= i < |s| ==> s[i] == '0'
  {
    if s != [] {
      var p := s[..|s| - 1];
      assert AllDigits(p) by {
        forall i | 0 <= i < |p| ensures IsDigit(p[i]) { assert p[i] == s[i]; }
      }
      ZeroDigits(p);
      forall i | 0 <= i < |s| ensures s[i] == '0' {
        if i < |p| { assert s[i] == p[i]; }
      }
    }
  }

  /** A digit string without leading zero is exactly what %d prints for its value. */
  lemma {:induction false} FormatCanonical(s: string)
    requires s != [] && AllDigits(s)
    requires s[0] == '0' ==> s == "0"
    ensures NatToDecimal(FromDigits(s)) == s
    decreases |s|
  {
    var n := FromDigits(s);
    var p := s[..|s| - 1];
    var d := DigitValue(s[|s| - 1]);
    assert AllDigits(p) by {
      forall i | 0 <= i < |p| ensures IsDigit(p[i]) { assert p[i] == s[i]; }
    }
    assert n == FromDigits(p) * 10 + d;
    if p == [] {
      assert n == d && s == [s[0]];
      assert DigitChar(d) == s[0];
    } else {
      assert p[0] == s[0] && |s| > 1;
      if FromDigits(p) == 0 {
        ZeroDigits(p);
        assert false;
      }
      FormatCanonical(p);
      assert n / 10 == FromDigits(p) && n % 10 == d;
      assert DigitChar(d) == s[|s| - 1];
      assert s == p + [s[|s| - 1]];
    }
  }

  /** A numeral ParseUint accepts and that has no leading zero is what %d prints for the parsed value. */
  lemma ParseCanonical(s: string)
    requires ParseUint(s).Some?
    requires s[0] == '0' ==> s == "0"
    ensures NatToDecimal(ParseUint(s).value) == s
  {
    FormatCanonical(s);
  }
}

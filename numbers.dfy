/**
 * Unsigned 16-bit values: Rust's `u16` `FromStr` (used on chat arguments)
 * and the decimal `Display` of a `u16` (used in the volume reply).
 */
module Numbers {
  import opened Wrappers
  import opened Ascii

  const U16_MAX: nat := 65535

  type u16 = x: int | 0 <= x <= 65535

  /** Value of a string of decimal digits, most significant first. */
  function DigitsValue(d: string): nat
    requires AllDigits(d)
  {
    if d == [] then 0 else DigitsValue(d[..|d| - 1]) * 10 + DigitValue(d[|d| - 1])
  }

  /** The decimal rendering of `n` with no leading zeros (`{}` on an unsigned integer). */
  function Decimal(n: nat): (r: string)
    ensures |r| > 0 && AllDigits(r)
    ensures |r| > 1 ==> r[0] != '0'
    decreases n
  {
    if n < 10 then [DigitChar(n)] else Decimal(n / 10) + [DigitChar(n % 10)]
  }

  /**
   * `str::parse::<u16>`: an optional leading '+', then one or more ASCII
   * digits; anything else (an empty string, a lone '+', a '-', a letter) is
   * an error, and so is a value above 65535 (Rust's checked accumulation
   * overflows exactly when the final value does, since each step only grows it).
   */
  function ParseU16(t: string): (r: Option<u16>)
    ensures r.Some? ==> |t| > 0 && t != "+"
  {
    var digits := if |t| > 0 && t[0] == '+' then t[1..] else t;
    if digits == [] || !AllDigits(digits) then None
    else if DigitsValue(digits) > U16_MAX then None
    else Some(DigitsValue(digits))
  }

  lemma {:induction false} DecimalValue(n: nat)
    ensures DigitsValue(Decimal(n)) == n
    decreases n
  {
    if n >= 10 {
      var r := Decimal(n);
      assert r[..|r| - 1] == Decimal(n / 10);
      DecimalValue(n / 10);
    }
  }

  /** Printing a number and parsing it back gives the number, or an error when it does not fit in 16 bits. */
  lemma ParseDecimal(n: nat)
    ensures ParseU16(Decimal(n)) == if n <= U16_MAX then Some(n) else None
    ensures ParseU16("+" + Decimal(n)) == if n <= U16_MAX then Some(n) else None
  {
    DecimalValue(n);
    assert ("+" + Decimal(n))[1..] == Decimal(n);
  }

  /**
   * A parsed value was written with digits only, after an optional '+', and
   * its value is the value of those digits.
   */
  lemma ParseU16Shape(t: string)
    requires ParseU16(t).Some?
    ensures |t| > 0 && (t[0] == '+' || IsDigit(t[0]))
    ensures forall i :: 1 <= i < |t| ==> IsDigit(t[i])
    ensures t[0] == '+' ==> |t| > 1 && AllDigits(t[1..]) && ParseU16(t).value == DigitsValue(t[1..])
    ensures t[0] != '+' ==> AllDigits(t) && ParseU16(t).value == DigitsValue(t)
  {
    if t[0] == '+' {
      assert forall i :: 1 <= i < |t| ==> t[i] == t[1..][i - 1];
    }
  }

  /**
   * The converse of `ParseU16Shape`: any non-empty run of digits, leading
   * zeros included ("007", "+0"), with or without a '+', parses to its value
   * when that is at most 65535, and is an error otherwise.
   */
  lemma ParseDigits(d: string)
    requires |d| > 0 && AllDigits(d)
    ensures ParseU16(d) == if DigitsValue(d) <= U16_MAX then Some(DigitsValue(d)) else None
    ensures ParseU16("+" + d) == if DigitsValue(d) <= U16_MAX then Some(DigitsValue(d)) else None
  {
    assert IsDigit(d[0]);
    assert ("+" + d)[1..] == d;
  }

  /** Appending a digit multiplies the value by ten and adds the digit. */
  lemma DigitsSnoc(d: string, c: char)
    requires AllDigits(d) && IsDigit(c)
    ensures AllDigits(d + [c]) && DigitsValue(d + [c]) == DigitsValue(d) * 10 + DigitValue(c)
  {
    assert (d + [c])[..|d|] == d;
  }

  /** Worked values: leading zeros are accepted, an empty string and a lone sign are not. */
  lemma ParseU16Examples()
    ensures ParseU16("007") == Some(7)
    ensures ParseU16("+0") == Some(0)
    ensures ParseU16("+") == None && ParseU16("") == None
  {
    ParseDigits("007");
    ParseDigits("0");
    assert "+0" == "+" + "0";
  }

  /** The first value past 16 bits is rejected. */
  lemma ParseOverflowExample()
    ensures ParseU16("65536") == None
  {
    var d1 := ['6'];
    var d2 := d1 + ['5'];
    var d3 := d2 + ['5'];
    var d4 := d3 + ['3'];
    var d5 := d4 + ['6'];
    assert d1[..0] == [];
    DigitsSnoc(d1, '5');
    DigitsSnoc(d2, '5');
    DigitsSnoc(d3, '3');
    DigitsSnoc(d4, '6');
    assert d5 == "65536";
    ParseDigits(d5);
  }

  /** A '-' sign is never accepted for an unsigned type, not even "-0". */
  lemma ParseRejectsMinus(t: string)
    ensures ParseU16("-" + t) == None
  {
    var s := "-" + t;
    assert s[0] == '-' && !IsDigit(s[0]);
  }
}

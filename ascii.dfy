/** ASCII character classes used by the bot: digits, whitespace, letter case. */
module Ascii {

  predicate IsDigit(c: char) {
    '0' <= c <= '9'
  }

  function DigitValue(c: char): (d: nat)
    requires IsDigit(c)
    ensures d < 10
  {
    (c as int) - ('0' as int)
  }

  function DigitChar(d: nat): (c: char)
    requires d < 10
    ensures IsDigit(c) && DigitValue(c) == d
  {
    (('0' as int) + d) as char
  }

  lemma DigitCharOfValue(c: char)
    requires IsDigit(c)
    ensures DigitChar(DigitValue(c)) == c
  {
  }

  predicate AllDigits(s: string) {
    forall i :: 0 <= i < |s| ==> IsDigit(s[i])
  }

  /** The characters Rust's `split_ascii_whitespace` splits on: space, tab, LF, FF and CR. */
  predicate IsAsciiWhitespace(c: char) {
    c == ' ' || c == '\t' || c == '\n' || c as int == 0x0C || c == '\r'
  }

  predicate IsAsciiUpper(c: char) {
    'A' <= c <= 'Z'
  }

  /** `to_ascii_lowercase` on one character: only 'A'..'Z' change. */
  function ToAsciiLower(c: char): (r: char)
    ensures !IsAsciiUpper(r)
    ensures IsAsciiUpper(c) ==> r as int == c as int + 32
    ensures !IsAsciiUpper(c) ==> r == c
  {
    if IsAsciiUpper(c) then (c as int + 32) as char else c
  }

  /**
   * `str::to_ascii_lowercase`: the result has no ASCII capital, a string
   * without one is returned unchanged, and the only characters that change
   * are capitals, each moved to its lower-case letter.
   */
  function Lower(s: string): (r: string)
    ensures |r| == |s| && IsLowered(r)
    ensures IsLowered(s) ==> r == s
    ensures forall i :: 0 <= i < |s| && r[i] != s[i] ==> IsAsciiUpper(s[i]) && r[i] as int == s[i] as int + 32
  {
    seq(|s|, i requires 0 <= i < |s| => ToAsciiLower(s[i]))
  }

  predicate IsLowered(s: string) {
    forall i :: 0 <= i < |s| ==> !IsAsciiUpper(s[i])
  }

  /** Lower-casing is idempotent. */
  lemma LowerIsLowered(s: string)
    ensures Lower(Lower(s)) == Lower(s)
  {
  }
}

/**
 * `format_time`: a second count rendered as "MM:SS", or "HH:MM:SS" when the
 * hour field is not zero. The hour field is taken modulo 60, as written, so
 * the clock wraps every 60 hours (216000 seconds).
 */
module Clock {
  import opened Wrappers
  import opened Ascii

  type u64 = x: int | 0 <= x < 0x1_0000_0000_0000_0000

  /** Length of one wrap of the clock: 60 hours. */
  const WRAP: nat := 216000

  function Hours(s: u64): nat { ((s / 60) / 60) % 60 }
  function Minutes(s: u64): nat { (s / 60) % 60 }
  function Seconds(s: u64): nat { s % 60 }

  /** `{:02}` on a value below 100: exactly two digits, zero-padded. */
  function Pad2(n: nat): (r: string)
    requires n < 100
    ensures |r| == 2 && IsDigit(r[0]) && IsDigit(r[1])
    ensures DigitValue(r[0]) * 10 + DigitValue(r[1]) == n
  {
    [DigitChar(n / 10), DigitChar(n % 10)]
  }

  function FormatTime(s: u64): (r: string)
    ensures |r| == (if Hours(s) == 0 then 5 else 8)
  {
    if Hours(s) > 0 then Pad2(Hours(s)) + ":" + Pad2(Minutes(s)) + ":" + Pad2(Seconds(s))
    else Pad2(Minutes(s)) + ":" + Pad2(Seconds(s))
  }

  /** Reads a two-digit field below 60 at position `i`. */
  function Field(t: string, i: nat): Option<nat>
    requires i + 2 <= |t|
  {
    if IsDigit(t[i]) && IsDigit(t[i + 1]) && DigitValue(t[i]) * 10 + DigitValue(t[i + 1]) < 60
    then Some(DigitValue(t[i]) * 10 + DigitValue(t[i + 1]))
    else None
  }

  /**
   * An independent reader of the clock format: "MM:SS", or "HH:MM:SS" with a
   * non-zero hour, every field two digits below 60. Yields the second count.
   */
  function ParseClock(t: string): Option<nat>
  {
    if |t| == 5 && t[2] == ':' && Field(t, 0).Some? && Field(t, 3).Some? then
      Some(Field(t, 0).value * 60 + Field(t, 3).value)
    else if |t| == 8 && t[2] == ':' && t[5] == ':'
         && Field(t, 0).Some? && Field(t, 3).Some? && Field(t, 6).Some? && Field(t, 0).value > 0 then
      Some(Field(t, 0).value * 3600 + Field(t, 3).value * 60 + Field(t, 6).value)
    else None
  }

  /** The three fields recombine to the second count modulo one wrap. */
  lemma Decompose(s: u64)
    ensures Hours(s) * 3600 + Minutes(s) * 60 + Seconds(s) == s % WRAP
  {
    var q, p := s / 60, (s / 60) / 60;
    assert s == q * 60 + Seconds(s);
    assert q == p * 60 + Minutes(s);
    assert p == (p / 60) * 60 + Hours(s);
    assert s == (p / 60) * WRAP + (Hours(s) * 3600 + Minutes(s) * 60 + Seconds(s));
  }

  /** Fields below 60 are recovered from the second count they make up. */
  lemma Compose(h: nat, m: nat, sec: nat)
    requires h < 60 && m < 60 && sec < 60
    ensures var v := h * 3600 + m * 60 + sec;
      v < WRAP && Hours(v) == h && Minutes(v) == m && Seconds(v) == sec
  {
    var v := h * 3600 + m * 60 + sec;
    assert v == (h * 60 + m) * 60 + sec;
    assert v / 60 == h * 60 + m;
    assert (v / 60) / 60 == h;
  }

  /**
   * The output has the clock shape: five characters exactly when the hour
   * field is zero, eight otherwise, and reading it back gives the input
   * modulo 60 hours.
   */
  lemma FormatTimeReadsBack(s: u64)
    ensures |FormatTime(s)| == (if Hours(s) == 0 then 5 else 8)
    ensures ParseClock(FormatTime(s)) == Some(s % WRAP)
  {
    Decompose(s);
    var t := FormatTime(s);
    if Hours(s) == 0 {
      assert t[0..2] == Pad2(Minutes(s)) && t[3..5] == Pad2(Seconds(s));
      assert Field(t, 0) == Some(Minutes(s));
      assert Field(t, 3) == Some(Seconds(s));
    } else {
      assert Field(t, 0) == Some(Hours(s));
      assert Field(t, 3) == Some(Minutes(s));
      assert Field(t, 6) == Some(Seconds(s));
    }
  }

  lemma Pad2OfField(t: string, i: nat)
    requires i + 2 <= |t| && Field(t, i).Some?
    ensures Pad2(Field(t, i).value) == t[i..i + 2]
  {
    var n := Field(t, i).value;
    assert n / 10 == DigitValue(t[i]) && n % 10 == DigitValue(t[i + 1]);
    DigitCharOfValue(t[i]);
    DigitCharOfValue(t[i + 1]);
  }

  /** Every string the reader accepts is exactly what `FormatTime` prints for its value. */
  lemma ParseClockFormats(t: string)
    requires ParseClock(t).Some?
    ensures ParseClock(t).value < WRAP
    ensures FormatTime(ParseClock(t).value) == t
  {
    if |t| == 5 {
      var m, sec := Field(t, 0).value, Field(t, 3).value;
      Compose(0, m, sec);
      Pad2OfField(t, 0);
      Pad2OfField(t, 3);
      assert t == t[0..2] + ":" + t[3..5];
    } else {
      var h, m, sec := Field(t, 0).value, Field(t, 3).value, Field(t, 6).value;
      Compose(h, m, sec);
      Pad2OfField(t, 0);
      Pad2OfField(t, 3);
      Pad2OfField(t, 6);
      assert t == t[0..2] + ":" + t[3..5] + ":" + t[6..8];
    }
  }

  /** Worked values: one minute five, one hour one minute one, zero, and the 60-hour wrap. */
  lemma FormatTimeExamples()
    ensures FormatTime(65) == "01:05"
    ensures FormatTime(3661) == "01:01:01"
    ensures FormatTime(0) == "00:00"
    ensures FormatTime(216000) == "00:00"
  {
    assert Pad2(0) == "00" && Pad2(1) == "01" && Pad2(5) == "05";
    assert Hours(65) == 0 && Minutes(65) == 1 && Seconds(65) == 5;
    assert Hours(3661) == 1 && Minutes(3661) == 1 && Seconds(3661) == 1;
    assert Hours(0) == 0 && Minutes(0) == 0 && Seconds(0) == 0;
    assert Hours(216000) == 0 && Minutes(216000) == 0 && Seconds(216000) == 0;
  }
}

/**
 * `formatTime`, shared by the Pomodoro screen and the timer component: a number
 * of seconds shown as minutes ":" seconds, each part padded with one leading
 * '0' when below 10. The timer only ever holds non-negative whole seconds, so
 * the input is a `nat`.
 */
module Clock {

  predicate IsDigit(c: char) {
    '0' <= c <= '9'
  }

  function DigitChar(d: nat): (c: char)
    requires d < 10
    ensures IsDigit(c) && DigitValue(c) == d
  {
    "0123456789"[d]
  }

  function DigitValue(c: char): nat {
    if IsDigit(c) then (c as int - '0' as int) as nat else 0
  }

  /** `${n}` for a non-negative integer: its decimal digits, without leading zeros. */
  function DecimalString(n: nat): (r: string)
    ensures 1 <= |r|
    ensures n < 10 <==> |r| == 1
    ensures 10 <= n < 100 ==> |r| == 2
    ensures forall i :: 0 <= i < |r| ==> IsDigit(r[i])
    ensures 10 <= n ==> r[0] != '0'
    decreases n
  {
    if n < 10 then [DigitChar(n)] else DecimalString(n / 10) + [DigitChar(n % 10)]
  }

  /** The number a string of decimal digits denotes. */
  function DecimalValue(s: string): nat {
    if s == [] then 0 else DecimalValue(s[..|s| - 1]) * 10 + DigitValue(s[|s| - 1])
  }

  /** `${v < 10 ? '0' : ''}${v}`. */
  function Pad(v: nat): string {
    (if v < 10 then "0" else "") + DecimalString(v)
  }

  /** `formatTime(seconds)`: `Math.floor(seconds / 60)` and `seconds % 60`, each padded. */
  function FormatTime(seconds: nat): string {
    Pad(seconds / 60) + ":" + Pad(seconds % 60)
  }

  /** Reads a formatted time back: the minutes before the last ':' and the two second digits after it. */
  function ParseTime(r: string): nat
    requires 3 <= |r|
  {
    DecimalValue(r[..|r| - 3]) * 60 + DecimalValue(r[|r| - 2..])
  }

  /** Decimal digits read back as the number they were written from. */
  lemma {:induction false} DecimalRoundTrip(n: nat)
    ensures DecimalValue(DecimalString(n)) == n
    decreases n
  {
    if n >= 10 {
      DecimalRoundTrip(n / 10);
      var s := DecimalString(n);
      assert s[..|s| - 1] == DecimalString(n / 10);
    }
  }

  /** A leading '0' does not change the value of a digit string. */
  lemma {:induction false} LeadingZero(s: string)
    ensures DecimalValue("0" + s) == DecimalValue(s)
  {
    if s != [] {
      assert ("0" + s)[..|"0" + s| - 1] == "0" + s[..|s| - 1];
      LeadingZero(s[..|s| - 1]);
    }
  }

  /**
   * A part gets exactly one leading '0' when it is below 10, so such a part is two
   * characters; from 10 on it is written as is and does not start with '0'.
   */
  lemma PadShape(v: nat)
    ensures v < 10 ==> Pad(v) == ['0', DigitChar(v)]
    ensures 10 <= v ==> Pad(v) == DecimalString(v) && Pad(v)[0] != '0'
    ensures 2 <= |Pad(v)| && (v < 100 ==> |Pad(v)| == 2)
    ensures DecimalValue(Pad(v)) == v
  {
    DecimalRoundTrip(v);
    if v < 10 {
      LeadingZero(DecimalString(v));
    } else if v < 100 {
      var s := DecimalString(v);
      assert s == DecimalString(v / 10) + [DigitChar(v % 10)];
    }
  }

  /** Where the pieces of `p + ":" + q` sit when `q` has two characters. */
  lemma SplitAtColon(p: string, q: string)
    requires |q| == 2
    ensures var r := p + ":" + q;
      && |r| == |p| + 3
      && r[|r| - 3] == ':'
      && r[..|r| - 3] == p
      && r[|r| - 2..] == q
  {
    var r := p + ":" + q;
    assert r[..|r| - 3] == p;
    assert r[|r| - 2..] == q;
  }

  /** The shape of a joined "minutes:seconds" text for given parts, with no division in sight. */
  lemma JoinedParts(m: nat, sec: nat)
    requires sec < 60
    ensures var r := Pad(m) + ":" + Pad(sec);
      && 5 <= |r|
      && r[|r| - 3] == ':'
      && r[..|r| - 3] == Pad(m)
      && r[|r| - 2..] == Pad(sec)
      && DecimalValue(r[..|r| - 3]) == m
      && DecimalValue(r[|r| - 2..]) == sec
  {
    PadShape(m);
    PadShape(sec);
    SplitAtColon(Pad(m), Pad(sec));
  }

  /**
   * The seconds part is always the last two characters, preceded by ':', and holds
   * a value in 0..59; everything before the ':' is the padded minutes.
   */
  lemma FormatTimeParts(seconds: nat)
    ensures var r := FormatTime(seconds);
      && 5 <= |r|
      && r[|r| - 3] == ':'
      && r[..|r| - 3] == Pad(seconds / 60)
      && r[|r| - 2..] == Pad(seconds % 60)
      && 0 <= DecimalValue(r[|r| - 2..]) < 60
  {
    JoinedParts(seconds / 60, seconds % 60);
  }

  lemma ShortParts(m: nat, sec: nat)
    requires m < 100 && sec < 60
    ensures Pad(m) + ":" + Pad(sec) == [DigitChar(m / 10), DigitChar(m % 10), ':', DigitChar(sec / 10), DigitChar(sec % 10)]
  {
    PadShape(m);
    PadShape(sec);
    if 10 <= m {
      assert DecimalString(m) == DecimalString(m / 10) + [DigitChar(m % 10)];
    }
    if 10 <= sec {
      assert DecimalString(sec) == DecimalString(sec / 10) + [DigitChar(sec % 10)];
    }
  }

  /** Below 100 minutes the result is exactly "MM:SS": five characters with ':' at index 2. */
  lemma FormatTimeShort(seconds: nat)
    requires seconds < 6000
    ensures var m := seconds / 60; var s := seconds % 60;
      FormatTime(seconds) == [DigitChar(m / 10), DigitChar(m % 10), ':', DigitChar(s / 10), DigitChar(s % 10)]
    ensures |FormatTime(seconds)| == 5 && FormatTime(seconds)[2] == ':'
  {
    ShortParts(seconds / 60, seconds % 60);
  }

  /** Reading the formatted time back gives the number of seconds it was made from, for every input. */
  lemma FormatTimeRoundTrip(seconds: nat)
    ensures ParseTime(FormatTime(seconds)) == seconds
  {
    var m, sec := seconds / 60, seconds % 60;
    JoinedParts(m, sec);
    assert ParseTime(FormatTime(seconds)) == m * 60 + sec;
  }
}

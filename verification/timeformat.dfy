/** The player's `formatTime` helper (script.js): a number of seconds shown as `M:SS`. */
module TimeFormat {
  import opened Wrappers
  import opened Decimal

  /** JavaScript's `Math.floor` on a finite number. */
  function JsFloor(x: real): (n: int)
    ensures n as real <= x < n as real + 1.0
  {
    x.Floor
  }

  /** Rounding toward zero, the quotient JavaScript's `%` operator is defined with. */
  function JsTrunc(x: real): (q: int)
    ensures x >= 0.0 ==> q == x.Floor
    ensures x < 0.0 ==> q <= 0 && x <= q as real < x + 1.0
  {
    if x >= 0.0 then x.Floor else -((-x).Floor)
  }

  /** JavaScript's `n % d` on finite numbers: the remainder carries the sign of the dividend. */
  function JsRemainder(n: real, d: real): (r: real)
    requires d != 0.0
    ensures d == 60.0 && n >= 0.0 ==> 0.0 <= r < 60.0
    ensures d == 60.0 && n < 0.0 ==> -60.0 < r <= 0.0
    ensures d == 60.0 ==> ((n - r) / 60.0).Floor as real == (n - r) / 60.0
  {
    n - d * JsTrunc(n / d) as real
  }

  /** `formatTime(seconds)`; `None` stands for NaN, which renders as `0:00`.
      Minutes are unpadded; seconds are padded with zeros to two characters. */
  function FormatTime(seconds: Option<real>): (r: string)
    ensures |r| >= 4
    ensures seconds.None? ==> r == "0:00"
    ensures seconds.Some? && seconds.value >= 0.0 ==>
              r == ClockFace(seconds.value.Floor)
    ensures seconds.Some? && seconds.value < 0.0 ==> r[0] == '-'
  {
    match seconds
    case None => "0:00"
    case Some(s) =>
      var mins := JsFloor(s / 60.0);
      var secs := JsFloor(JsRemainder(s, 60.0));
      FloorSplit(s);
      IntToString(mins) + ":" + PadStart(IntToString(secs), 2, '0')
  }

  /** For non-negative `s`, whole minutes and leftover whole seconds computed on reals
      agree with integer division of the whole number of seconds. */
  lemma FloorSplit(s: real)
    ensures s >= 0.0 ==> JsFloor(s / 60.0) == s.Floor / 60
    ensures s >= 0.0 ==> JsFloor(JsRemainder(s, 60.0)) == s.Floor % 60
    ensures s < 0.0 ==> JsFloor(s / 60.0) < 0
  {
    if s >= 0.0 {
      var f := s.Floor;
      var q := f / 60;
      assert 60 * q <= f < 60 * q + 60;
      assert q as real <= s / 60.0 < q as real + 1.0;
      assert JsTrunc(s / 60.0) == q;
      var rem := s - 60.0 * q as real;
      assert (f - 60 * q) as real <= rem < (f - 60 * q) as real + 1.0;
    }
  }

  /** Reads an `M:SS` clock face back into whole seconds, or `None` if the text is not one. */
  function ParseClock(t: string): (total: Option<nat>) {
    if |t| >= 4 && t[|t| - 3] == ':' && AllDigits(t[..|t| - 3]) && AllDigits(t[|t| - 2..])
       && ParseNat(t[|t| - 2..]) < 60
    then Some(ParseNat(t[..|t| - 3]) * 60 + ParseNat(t[|t| - 2..]))
    else None
  }

  /** Two zero-padded digits denote the same value as the unpadded ones. */
  lemma TwoDigitSeconds(x: nat)
    requires x < 60
    ensures |PadStart(NatToString(x), 2, '0')| == 2
    ensures AllDigits(PadStart(NatToString(x), 2, '0'))
    ensures ParseNat(PadStart(NatToString(x), 2, '0')) == x
  {
    var d := NatToString(x);
    if x < 10 {
      assert PadStart(d, 2, '0') == "0" + d;
      LeadingZeroNeutral(d);
    }
  }

  /** The `M:SS` text for a whole number of seconds: minutes unpadded, seconds as two digits. */
  function ClockFace(total: nat): (face: string) {
    NatToString(total / 60) + ":" + PadStart(NatToString(total % 60), 2, '0')
  }

  /** `r` reads as minutes, a colon, then exactly two digits whose value is below 60, with
      minutes * 60 + seconds equal to `total`. */
  predicate ShowsClock(r: string, total: nat) {
    && |r| >= 4 && r[|r| - 3] == ':'
    && AllDigits(r[..|r| - 3]) && AllDigits(r[|r| - 2..])
    && ParseNat(r[|r| - 2..]) < 60
    && ParseNat(r[..|r| - 3]) * 60 + ParseNat(r[|r| - 2..]) == total
  }

  /** A clock face shows the number of seconds it was made from. */
  lemma ClockFaceFields(total: nat)
    ensures ShowsClock(ClockFace(total), total)
  {
    var r := ClockFace(total);
    var m := NatToString(total / 60);
    var ss := PadStart(NatToString(total % 60), 2, '0');
    TwoDigitSeconds(total % 60);
    assert r[..|r| - 3] == m;
    assert r[|r| - 2..] == ss;
  }

  /** For a non-negative time the text is minutes, a colon, then exactly two digits whose
      value is below 60, and minutes * 60 + seconds is the whole number of seconds. */
  lemma FormatTimeFields(s: real)
    requires s >= 0.0
    ensures ShowsClock(FormatTime(Some(s)), s.Floor)
  {
    var total: nat := s.Floor;
    var r := FormatTime(Some(s));
    assert r == ClockFace(total);
    ClockFaceFields(total);
  }

  /** Reading a clock face back yields the number of seconds it was made from. */
  lemma ClockFaceParse(total: nat)
    ensures ParseClock(ClockFace(total)) == Some(total)
  {
    ClockFaceFields(total);
  }

  /** Formatting a non-negative time and reading the clock face back yields its whole seconds. */
  lemma FormatThenParse(s: real)
    requires s >= 0.0
    ensures ParseClock(FormatTime(Some(s))) == Some(s.Floor)
  {
    var total: nat := s.Floor;
    ClockFaceParse(total);
  }
}

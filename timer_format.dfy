/**
 * `Timer.format` of the Prova speed test: an elapsed time in milliseconds printed as
 * `HH:MM:SS.mmm` with Java's truncating long division and `String.format` zero padding.
 */
module TimerFormat {
  import opened Text

  /** Java's `/` on long for a positive divisor: the quotient is truncated toward zero. */
  function JavaDiv(a: int, b: int): int
    requires b > 0
  {
    if a >= 0 then a / b else -((-a) / b)
  }

  /** Java's `%` on long for a positive divisor: the remainder takes the sign of the dividend. */
  function JavaRem(a: int, b: int): int
    requires b > 0
  {
    a - JavaDiv(a, b) * b
  }

  /** The remainder lies strictly between minus and plus the divisor, with the dividend's sign. */
  lemma RemBounds(a: int, b: int)
    requires b > 0
    ensures a >= 0 ==> JavaDiv(a, b) == a / b && 0 <= JavaRem(a, b) < b
    ensures a < 0 ==> JavaDiv(a, b) <= 0 && -b < JavaRem(a, b) <= 0
  {
    if a < 0 {
      assert (-a) == ((-a) / b) * b + (-a) % b;
    }
  }

  /** The four numbers the format prints. */
  datatype Fields = Fields(hours: int, minutes: int, seconds: int, millis: int)

  /** The fields as the Java code computes them: the milliseconds from the elapsed time, then the
      elapsed time is reassigned to whole seconds and the rest computed from that. */
  function FieldsOf(elapsed: int): Fields
  {
    var secs := JavaDiv(elapsed, 1000);
    Fields(JavaDiv(secs, 3600), JavaDiv(JavaRem(secs, 3600), 60), JavaRem(secs, 60), JavaRem(elapsed, 1000))
  }

  /** `Timer.format(elapsedTime)`. Only division and remainder by positive constants occur, so
      no long overflow can happen and an unbounded integer is exact. */
  function Format(elapsed: int): string
  {
    var f := FieldsOf(elapsed);
    ZeroPadded(f.hours, 2) + ":" + ZeroPadded(f.minutes, 2) + ":" + ZeroPadded(f.seconds, 2)
    + "." + ZeroPadded(f.millis, 3)
  }

  /** The fields always recombine to the elapsed time, negative or not. */
  lemma FieldsRecombine(elapsed: int)
    ensures Milliseconds(FieldsOf(elapsed)) == elapsed
  {
    var secs := JavaDiv(elapsed, 1000);
    var ms := JavaRem(elapsed, 1000);
    assert elapsed == secs * 1000 + ms;
    var h := JavaDiv(secs, 3600);
    var r := JavaRem(secs, 3600);
    assert secs == h * 3600 + r;
    var m := JavaDiv(r, 60);
    var sr := JavaRem(r, 60);
    assert r == m * 60 + sr;
    RemBounds(secs, 3600);
    SameRemainder(secs, h, r);
    assert elapsed == h * 3600000 + m * 60000 + sr * 1000 + ms;
  }

  /** For a non-negative time minutes and seconds are below 60, milliseconds below 1000, and the
      hours are the whole hours, not capped. */
  lemma FieldsBoundsNonNegative(elapsed: nat)
    ensures var f := FieldsOf(elapsed);
      f.hours == elapsed / 3600000 && 0 <= f.minutes < 60 && 0 <= f.seconds < 60 && 0 <= f.millis < 1000
  {
    var secs := JavaDiv(elapsed, 1000);
    RemBounds(elapsed, 1000);
    RemBounds(secs, 3600);
    var r := JavaRem(secs, 3600);
    RemBounds(r, 60);
    RemBounds(secs, 60);
    assert JavaDiv(r, 60) == r / 60;
    HoursOfMillis(elapsed);
  }

  /** For a negative time every field is zero or negative, each above minus its unit. */
  lemma FieldsBoundsNegative(elapsed: int)
    requires elapsed < 0
    ensures var f := FieldsOf(elapsed);
      f.hours <= 0 && -60 < f.minutes <= 0 && -60 < f.seconds <= 0 && -1000 < f.millis <= 0
  {
    var secs := JavaDiv(elapsed, 1000);
    RemBounds(elapsed, 1000);
    var r := JavaRem(secs, 3600);
    RemBounds(secs, 3600);
    RemBounds(secs, 60);
    if secs < 0 {
      RemBounds(r, 60);
      if r < 0 {
        assert -3600 < r;
        assert -60 < JavaDiv(r, 60);
      }
    } else {
      assert secs == 0;
    }
  }

  /** Whole hours of whole seconds are whole hours of the milliseconds. */
  lemma HoursOfMillis(e: nat)
    ensures e / 1000 / 3600 == e / 3600000
  {
    var q := e / 3600000;
    var rest := e % 3600000;
    assert e == q * 3600000 + rest;
    assert e / 1000 == q * 3600 + rest / 1000;
    assert rest / 1000 < 3600;
  }

  /** Seconds and their remainder modulo an hour leave the same remainder modulo a minute. */
  lemma SameRemainder(secs: int, h: int, r: int)
    requires secs == h * 3600 + r
    requires secs >= 0 ==> 0 <= r < 3600
    requires secs < 0 ==> -3600 < r <= 0
    ensures JavaRem(secs, 60) == JavaRem(r, 60)
  {
    RemBounds(secs, 60);
    RemBounds(r, 60);
    var a := JavaRem(secs, 60);
    var b := JavaRem(r, 60);
    var qa := JavaDiv(secs, 60);
    var qb := JavaDiv(r, 60);
    assert secs == qa * 60 + a;
    assert r == qb * 60 + b;
    assert (qa - h * 60 - qb) * 60 == b - a;
    assert -60 < b - a < 60;
  }

  /** The elapsed time the fields stand for. */
  function Milliseconds(f: Fields): int
  {
    f.hours * 3600000 + f.minutes * 60000 + f.seconds * 1000 + f.millis
  }

  /** The text has the layout `H:MM:SS.mmm`: digit groups of at least two, exactly two, exactly
      two and exactly three digits. */
  predicate Layout(s: string, h: string, m: string, sec: string, ms: string)
  {
    && s == h + ":" + m + ":" + sec + "." + ms
    && IsDigits(h) && IsDigits(m) && IsDigits(sec) && IsDigits(ms)
    && |h| >= 2 && |m| == 2 && |sec| == 2 && |ms| == 3
  }

  /** The printed layout loses nothing: a non-negative elapsed time is printed as `H:MM:SS.mmm`,
      and the four digit groups read back as the fields, which recombine to the elapsed time. */
  lemma FormatRoundTrip(elapsed: nat)
    ensures exists h, m, sec, ms :: (Layout(Format(elapsed), h, m, sec, ms)
      && Fields(ParseNat(h), ParseNat(m), ParseNat(sec), ParseNat(ms)) == FieldsOf(elapsed)
      && Milliseconds(Fields(ParseNat(h), ParseNat(m), ParseNat(sec), ParseNat(ms))) == elapsed)
  {
    var f := FieldsOf(elapsed);
    FieldsBoundsNonNegative(elapsed);
    ZeroPaddedNonNegative(f.hours, 2);
    ZeroPaddedNonNegative(f.minutes, 2);
    ZeroPaddedNonNegative(f.seconds, 2);
    ZeroPaddedNonNegative(f.millis, 3);
    NatToStringLength(f.minutes, 2);
    NatToStringLength(f.seconds, 2);
    NatToStringLength(f.millis, 3);
    FieldsRecombine(elapsed);
    var h, m, sec, ms := ZeroPadded(f.hours, 2), ZeroPadded(f.minutes, 2), ZeroPadded(f.seconds, 2), ZeroPadded(f.millis, 3);
    assert Layout(Format(elapsed), h, m, sec, ms);
    assert Fields(ParseNat(h), ParseNat(m), ParseNat(sec), ParseNat(ms)) == f;
  }
}

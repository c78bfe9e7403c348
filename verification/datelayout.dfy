/**
 * The timestamp half of a subscription record's sort key: a UTC time rendered
 * with the Go layout "20060102150405" (db/db.go:80, 85), that is a zero-padded
 * four-digit year (a minus sign in front for years before 0) followed by
 * two-digit month, day, hour, minute and second. `Parse` reads such a string
 * back, so that the sort key can be taken apart again.
 */
module DateLayout {
  import opened Wrappers

  /** The broken-down fields of a UTC time. */
  datatype Civil = Civil(year: int, month: int, day: int, hour: int, minute: int, second: int)

  ghost predicate InRange(c: Civil)
  {
    1 <= c.month <= 12 && 1 <= c.day <= 31 && 0 <= c.hour < 24 && 0 <= c.minute < 60 && 0 <= c.second < 60
  }

  /** A normalised time, as Go's time.Time always yields. */
  type DateTime = c: Civil | InRange(c) witness Civil(1, 1, 1, 0, 0, 0)

  /** The layout string of db/db.go:80: Go's reference time written in the layout itself. */
  const Layout: string := "20060102150405"

  predicate IsDigit(ch: char)
  {
    '0' <= ch <= '9'
  }

  predicate AllDigits(s: string)
  {
    forall i :: 0 <= i < |s| ==> IsDigit(s[i])
  }

  function DigitChar(d: nat): (ch: char)
    requires d < 10
    ensures IsDigit(ch) && ch as int - '0' as int == d
  {
    (d + '0' as int) as char
  }

  /** Decimal digits of n with no leading zero ("0" for zero). */
  function Digits(n: nat): (s: string)
    ensures 1 <= |s| && AllDigits(s)
    decreases n
  {
    if n < 10 then [DigitChar(n)] else Digits(n / 10) + [DigitChar(n % 10)]
  }

  function Zeros(k: nat): (s: string)
    ensures |s| == k && AllDigits(s)
  {
    if k == 0 then [] else Zeros(k - 1) + ['0']
  }

  /** n in decimal, left-padded with zeros to at least `width` characters. */
  function Pad(n: nat, width: nat): (s: string)
    ensures AllDigits(s) && |s| >= width
  {
    var d := Digits(n);
    if |d| < width then AllDigitsConcat(Zeros(width - |d|), d); Zeros(width - |d|) + d else d
  }

  lemma AllDigitsConcat(a: string, b: string)
    requires AllDigits(a) && AllDigits(b)
    ensures AllDigits(a + b)
  {
    forall i | 0 <= i < |a + b| ensures IsDigit((a + b)[i]) {
      if i < |a| { assert (a + b)[i] == a[i]; } else { assert (a + b)[i] == b[i - |a|]; }
    }
  }

  /** The number a string of decimal digits denotes. */
  function Value(s: string): nat
    requires AllDigits(s)
  {
    if s == [] then 0 else Value(s[..|s| - 1]) * 10 + (s[|s| - 1] as int - '0' as int)
  }

  function Abs(x: int): nat
  {
    if x < 0 then -x else x
  }

  /**
   * time.Format(dateLayout): at least fourteen characters, a minus sign in
   * front exactly for years before 0, and decimal digits everywhere else.
   */
  function Format(c: DateTime): (s: string)
    ensures |s| >= 14
    ensures s[0] == '-' <==> c.year < 0
    ensures c.year >= 0 ==> AllDigits(s)
    ensures c.year < 0 ==> AllDigits(s[1..])
  {
    var fields := Fields(c);
    FieldsAreDigits(c);
    if c.year < 0 then assert ("-" + fields)[1..] == fields; "-" + fields else fields
  }

  /** The six zero-padded fields of the layout side by side, the year without its sign. */
  function Fields(c: DateTime): string
  {
    Pad(Abs(c.year), 4) + Pad(c.month, 2) + Pad(c.day, 2) + Pad(c.hour, 2) + Pad(c.minute, 2) + Pad(c.second, 2)
  }

  lemma FieldsAreDigits(c: DateTime)
    ensures |Fields(c)| >= 14 && AllDigits(Fields(c))
  {
    var y, mo, d := Pad(Abs(c.year), 4), Pad(c.month, 2), Pad(c.day, 2);
    var h, mi, sec := Pad(c.hour, 2), Pad(c.minute, 2), Pad(c.second, 2);
    AllDigitsConcat(y, mo);
    AllDigitsConcat(y + mo, d);
    AllDigitsConcat(y + mo + d, h);
    AllDigitsConcat(y + mo + d + h, mi);
    AllDigitsConcat(y + mo + d + h + mi, sec);
  }

  /** Reads a fourteen-digit timestamp back into its fields. */
  function Parse(s: string): (r: Option<Civil>)
    ensures r.Some? <==> |s| == 14 && AllDigits(s)
  {
    if |s| == 14 && AllDigits(s) then
      Some(Civil(Value(s[..4]), Value(s[4..6]), Value(s[6..8]), Value(s[8..10]), Value(s[10..12]), Value(s[12..])))
    else None
  }

  lemma {:induction false} ValueOfDigits(n: nat)
    ensures Value(Digits(n)) == n
    decreases n
  {
    if n >= 10 {
      var s := Digits(n);
      ValueOfDigits(n / 10);
      assert s[..|s| - 1] == Digits(n / 10);
    }
  }

  lemma {:induction false} ValueIgnoresLeadingZeros(k: nat, s: string)
    requires AllDigits(s)
    ensures AllDigits(Zeros(k) + s) && Value(Zeros(k) + s) == Value(s)
    decreases |s|
  {
    AllDigitsConcat(Zeros(k), s);
    if s == [] {
      assert Zeros(k) + s == Zeros(k);
      ZerosValue(k);
    } else {
      var z := Zeros(k) + s;
      assert z[..|z| - 1] == Zeros(k) + s[..|s| - 1];
      ValueIgnoresLeadingZeros(k, s[..|s| - 1]);
    }
  }

  lemma {:induction false} ZerosValue(k: nat)
    ensures Value(Zeros(k)) == 0
  {
    if k > 0 {
      assert Zeros(k)[..k - 1] == Zeros(k - 1);
      ZerosValue(k - 1);
    }
  }

  function Pow10(w: nat): (p: nat)
    ensures p >= 1
  {
    if w == 0 then 1 else 10 * Pow10(w - 1)
  }

  lemma {:induction false} DigitsLength(n: nat, w: nat)
    requires 1 <= w && n < Pow10(w)
    ensures |Digits(n)| <= w
    decreases n
  {
    if n >= 10 {
      assert w >= 2;
      DigitsLength(n / 10, w - 1);
    }
  }

  /** A number below 10^width pads to exactly `width` digits, and those digits read back as the number. */
  lemma PadRoundTrip(n: nat, width: nat)
    requires 1 <= width && n < Pow10(width)
    ensures |Pad(n, width)| == width && Value(Pad(n, width)) == n
  {
    var d := Digits(n);
    DigitsLength(n, width);
    ValueOfDigits(n);
    if |d| < width {
      var z := Zeros(width - |d|);
      ValueIgnoresLeadingZeros(width - |d|, d);
      assert Pad(n, width) == z + d;
    } else {
      assert Pad(n, width) == d;
    }
  }

  /** For years 0..9999 the timestamp is fourteen digits and parses back to the same fields. */
  lemma ParseFormat(c: DateTime)
    requires 0 <= c.year <= 9999
    ensures |Format(c)| == 14 && AllDigits(Format(c))
    ensures Parse(Format(c)) == Some(c)
  {
    assert Pow10(2) == 100 && Pow10(4) == 10000;
    PadRoundTrip(c.year, 4);
    PadRoundTrip(c.month, 2);
    PadRoundTrip(c.day, 2);
    PadRoundTrip(c.hour, 2);
    PadRoundTrip(c.minute, 2);
    PadRoundTrip(c.second, 2);
    FormatFields(c);
    ParseSix(Pad(c.year, 4), Pad(c.month, 2), Pad(c.day, 2), Pad(c.hour, 2), Pad(c.minute, 2), Pad(c.second, 2));
  }

  /** Without a sign, the timestamp is the six padded fields side by side. */
  lemma FormatFields(c: DateTime)
    requires 0 <= c.year
    ensures Format(c) == Pad(c.year, 4) + Pad(c.month, 2) + Pad(c.day, 2) + Pad(c.hour, 2) + Pad(c.minute, 2) + Pad(c.second, 2)
  {
    assert Abs(c.year) == c.year;
  }

  /** Six digit fields of widths 4, 2, 2, 2, 2, 2 side by side parse back to their values. */
  lemma ParseSix(y: string, mo: string, d: string, h: string, mi: string, s: string)
    requires |y| == 4 && |mo| == 2 && |d| == 2 && |h| == 2 && |mi| == 2 && |s| == 2
    requires AllDigits(y) && AllDigits(mo) && AllDigits(d) && AllDigits(h) && AllDigits(mi) && AllDigits(s)
    ensures |y + mo + d + h + mi + s| == 14 && AllDigits(y + mo + d + h + mi + s)
    ensures Parse(y + mo + d + h + mi + s) == Some(Civil(Value(y), Value(mo), Value(d), Value(h), Value(mi), Value(s)))
  {
    SixFields(y, mo, d, h, mi, s);
  }

  lemma SixFields(y: string, mo: string, d: string, h: string, mi: string, s: string)
    requires |y| == 4 && |mo| == 2 && |d| == 2 && |h| == 2 && |mi| == 2 && |s| == 2
    requires AllDigits(y) && AllDigits(mo) && AllDigits(d) && AllDigits(h) && AllDigits(mi) && AllDigits(s)
    ensures var f := y + mo + d + h + mi + s;
      && |f| == 14 && AllDigits(f)
      && f[..4] == y && f[4..6] == mo && f[6..8] == d && f[8..10] == h && f[10..12] == mi && f[12..] == s
  {
    AllDigitsConcat(y, mo);
    AllDigitsConcat(y + mo, d);
    AllDigitsConcat(y + mo + d, h);
    AllDigitsConcat(y + mo + d + h, mi);
    AllDigitsConcat(y + mo + d + h + mi, s);
  }

  /** Formatting Go's reference time (2006-01-02 15:04:05) yields the layout string itself. */
  lemma FormatReferenceTime()
    ensures Format(Civil(2006, 1, 2, 15, 4, 5)) == Layout
  {
    var c := Civil(2006, 1, 2, 15, 4, 5);
    ReferenceFields();
    assert Format(c) == Fields(c) == "2006" + "01" + "02" + "15" + "04" + "05";
  }

  /** The padded fields of the reference time. */
  lemma ReferenceFields()
    ensures Pad(2006, 4) == "2006" && Pad(1, 2) == "01" && Pad(2, 2) == "02"
    ensures Pad(15, 2) == "15" && Pad(4, 2) == "04" && Pad(5, 2) == "05"
  {
    assert Digits(2006) == "2006" by {
      assert Digits(2) == "2";
      assert Digits(20) == "20";
      assert Digits(200) == "200";
    }
    assert Digits(15) == "15";
  }


}

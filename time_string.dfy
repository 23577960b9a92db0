/** Timestamp formatting of the helper module (`get_time_string`).
    The current instant is a parameter: the wall clock and the day offset
    are applied by the caller. */
module TimeString {

  import opened Wrappers

  /** The calendar fields that `datetime` exposes. */
  datatype Instant = Instant(year: nat, month: nat, day: nat, hour: nat, minute: nat, second: nat)

  /** The ranges `datetime` guarantees for its fields (MINYEAR = 1, MAXYEAR = 9999). */
  ghost predicate ValidInstant(t: Instant) {
    1 <= t.year <= 9999 && 1 <= t.month <= 12 && 1 <= t.day <= 31 &&
    t.hour < 24 && t.minute < 60 && t.second < 60
  }

  predicate IsDigit(c: char) { '0' <= c <= '9' }

  predicate AllDigits(s: string) { forall i :: 0 <= i < |s| ==> IsDigit(s[i]) }

  function DigitChar(d: nat): (c: char)
    requires d < 10
    ensures IsDigit(c) && (c as int) - ('0' as int) == d
  {
    ('0' as int + d) as char
  }

  /** Python's `str(n)` for a non-negative integer: decimal digits, no leading zero. */
  function DecimalString(n: nat): (s: string)
    ensures 1 <= |s| && AllDigits(s)
    ensures s[0] == '0' <==> n == 0
    ensures |s| == 1 <==> n < 10
  {
    if n < 10 then [DigitChar(n)] else DecimalString(n / 10) + [DigitChar(n % 10)]
  }

  /** The value of a string of decimal digits, read most significant digit first. */
  function ParseDecimal(s: string): nat
    requires AllDigits(s)
  {
    if s == [] then 0 else ParseDecimal(s[..|s| - 1]) * 10 + ((s[|s| - 1] as int) - ('0' as int))
  }

  function Pow10(k: nat): (r: nat)
    ensures r >= 1
  {
    if k == 0 then 1 else 10 * Pow10(k - 1)
  }

  /** The padding step applied to each of month, day, hour, minute and second:
      a one-character string gets a leading "0". */
  function Pad2(s: string): (r: string)
    ensures |s| == 1 ==> |r| == 2 && r[0] == '0' && r[1] == s[0]
    ensures |s| != 1 ==> r == s
  {
    if |s| == 1 then "0" + s else s
  }

  /** The text of one two-digit field: at least two digits, whatever the value. */
  function Field2(n: nat): (r: string)
    ensures 2 <= |r| && AllDigits(r)
  {
    Pad2(DecimalString(n))
  }

  /** `get_time_string(mode)` for the instant `t`, the mode "complete" by default;
      `None` for an unknown mode. */
  function TimeString(t: Instant, mode: string := "complete"): (r: Option<string>)
    ensures r.Some? <==> mode == "complete" || mode == "normal" || mode == "file"
  {
    var yr := DecimalString(t.year);
    var mt := Field2(t.month);
    var dy := Field2(t.day);
    var m := Field2(t.minute);
    var h := Field2(t.hour);
    var s := Field2(t.second);
    if mode == "complete" then Some(dy + "-" + mt + "-" + yr + " " + h + ":" + m + ":" + s)
    else if mode == "normal" then Some(dy + "-" + mt + "-" + yr)
    else if mode == "file" then Some(yr + mt + dy)
    else None
  }

  /** Reading back what `DecimalString` writes gives the number. */
  lemma {:induction false} DecimalRoundTrip(n: nat)
    ensures ParseDecimal(DecimalString(n)) == n
  {
    if n >= 10 {
      var s := DecimalString(n);
      assert s[..|s| - 1] == DecimalString(n / 10);
      DecimalRoundTrip(n / 10);
    }
  }

  /** Reading a concatenation of digit strings shifts the left part by the length of the right part. */
  lemma {:induction false} ParseConcat(a: string, b: string)
    requires AllDigits(a) && AllDigits(b)
    ensures AllDigits(a + b)
    ensures ParseDecimal(a + b) == ParseDecimal(a) * Pow10(|b|) + ParseDecimal(b)
  {
    assert AllDigits(a + b) by {
      forall i | 0 <= i < |a + b| ensures IsDigit((a + b)[i]) {
        if i < |a| { assert (a + b)[i] == a[i]; } else { assert (a + b)[i] == b[i - |a|]; }
      }
    }
    if b == [] {
      assert a + b == a;
    } else {
      var b' := b[..|b| - 1];
      assert (a + b)[..|a + b| - 1] == a + b';
      assert AllDigits(b');
      ParseConcat(a, b');
      var d := (b[|b| - 1] as int) - ('0' as int);
      assert ParseDecimal(a + b) == ParseDecimal(a + b') * 10 + d;
      ShiftStep(ParseDecimal(a), Pow10(|b'|), ParseDecimal(b'), d);
    }
  }

  lemma ShiftStep(x: int, p: int, y: int, d: int)
    ensures (x * p + y) * 10 + d == x * (10 * p) + (y * 10 + d)
  {
  }

  /** Every padded field of a value below 100 is exactly two digits that read back as the
      value, and it starts with "0" exactly when the value has one digit. */
  lemma TwoDigitField(n: nat)
    requires n < 100
    ensures |Field2(n)| == 2 && AllDigits(Field2(n))
    ensures ParseDecimal(Field2(n)) == n
    ensures Field2(n)[0] == '0' <==> n < 10
  {
    var s := DecimalString(n);
    DecimalRoundTrip(n);
    if n < 10 {
      assert Field2(n) == "0" + s;
      ParseConcat("0", s);
    } else {
      assert s == DecimalString(n / 10) + [DigitChar(n % 10)];
      assert |DecimalString(n / 10)| == 1;
    }
  }

  /** The date part `dd-mm-yyyy` and the clock part `hh:mm:ss` of the layouts. */
  function DatePart(t: Instant): string {
    Field2(t.day) + "-" + Field2(t.month) + "-" + DecimalString(t.year)
  }

  function ClockPart(t: Instant): string {
    Field2(t.hour) + ":" + Field2(t.minute) + ":" + Field2(t.second)
  }

  lemma SliceLeft(a: string, b: string, i: nat, j: nat)
    requires i <= j <= |a|
    ensures (a + b)[i..j] == a[i..j]
  {
  }

  lemma SliceRight(a: string, b: string, i: nat, j: nat)
    requires i <= j <= |b|
    ensures (a + b)[|a| + i..|a| + j] == b[i..j]
  {
  }

  /** "normal" is `DD-MM-YYYY`: two-digit day and month, then the year in full. */
  lemma NormalLayout(t: Instant)
    requires ValidInstant(t)
    ensures TimeString(t, "normal") == Some(DatePart(t))
    ensures var s := DatePart(t);
            var y := |DecimalString(t.year)|;
            |s| == 6 + y && s[2] == '-' && s[5] == '-' &&
            AllDigits(s[0..2]) && ParseDecimal(s[0..2]) == t.day &&
            AllDigits(s[3..5]) && ParseDecimal(s[3..5]) == t.month &&
            AllDigits(s[6..]) && ParseDecimal(s[6..]) == t.year
  {
    var yr, mt, dy := DecimalString(t.year), Field2(t.month), Field2(t.day);
    TwoDigitField(t.month); TwoDigitField(t.day);
    DecimalRoundTrip(t.year);
    var s := dy + "-" + mt + "-" + yr;
    assert s == DatePart(t);
    assert s[0..2] == dy;
    assert s[3..5] == mt;
    assert s[6..] == yr;
  }

  /** The clock part is `HH:MM:SS`, each field reading back as its component. */
  lemma ClockLayout(t: Instant)
    requires ValidInstant(t)
    ensures var s := ClockPart(t);
            |s| == 8 && s[2] == ':' && s[5] == ':' &&
            AllDigits(s[0..2]) && ParseDecimal(s[0..2]) == t.hour &&
            AllDigits(s[3..5]) && ParseDecimal(s[3..5]) == t.minute &&
            AllDigits(s[6..8]) && ParseDecimal(s[6..8]) == t.second
  {
    var h, m, sc := Field2(t.hour), Field2(t.minute), Field2(t.second);
    TwoDigitField(t.hour); TwoDigitField(t.minute); TwoDigitField(t.second);
    var s := h + ":" + m + ":" + sc;
    assert s == ClockPart(t);
    assert s[0..2] == h;
    assert s[3..5] == m;
    assert s[6..8] == sc;
  }

  /** "normal" is the date part of "complete": a prefix of it, followed there by a blank
      and the clock part. */
  lemma NormalIsDatePartOfComplete(t: Instant)
    ensures TimeString(t, "normal").Some? && TimeString(t, "complete").Some?
    ensures var n, c := TimeString(t, "normal").value, TimeString(t, "complete").value;
            n < c && c[|n|] == ' '
  {
    var c := TimeString(t, "complete").value;
    assert c == DatePart(t) + " " + ClockPart(t);
  }

  /** "complete" is `DD-MM-YYYY HH:MM:SS`: two-digit day, month, hour, minute and second,
      the year in full, and the separators at fixed places after the year. */
  lemma CompleteLayout(t: Instant)
    requires ValidInstant(t)
    ensures TimeString(t, "complete").Some?
    ensures var s := TimeString(t, "complete").value;
            var y := |DecimalString(t.year)|;
            |s| == 15 + y &&
            s[2] == '-' && s[5] == '-' && s[6 + y] == ' ' && s[9 + y] == ':' && s[12 + y] == ':' &&
            AllDigits(s[0..2]) && ParseDecimal(s[0..2]) == t.day &&
            AllDigits(s[3..5]) && ParseDecimal(s[3..5]) == t.month &&
            AllDigits(s[6..6 + y]) && ParseDecimal(s[6..6 + y]) == t.year &&
            AllDigits(s[7 + y..9 + y]) && ParseDecimal(s[7 + y..9 + y]) == t.hour &&
            AllDigits(s[10 + y..12 + y]) && ParseDecimal(s[10 + y..12 + y]) == t.minute &&
            AllDigits(s[13 + y..15 + y]) && ParseDecimal(s[13 + y..15 + y]) == t.second
  {
    var d, k := DatePart(t), ClockPart(t);
    NormalLayout(t);
    ClockLayout(t);
    var y := |DecimalString(t.year)|;
    var s := TimeString(t, "complete").value;
    var left := d + " ";
    assert s == left + k;
    assert |left| == 7 + y;
    SliceLeft(d, " ", 0, 2); SliceLeft(left, k, 0, 2);
    SliceLeft(d, " ", 3, 5); SliceLeft(left, k, 3, 5);
    SliceLeft(d, " ", 6, 6 + y); SliceLeft(left, k, 6, 6 + y);
    SliceRight(left, k, 0, 2);
    SliceRight(left, k, 3, 5);
    SliceRight(left, k, 6, 8);
  }

  /** "file" is `YYYYMMDD`: digits only, reading as year * 10000 + month * 100 + day. */
  lemma FileLayout(t: Instant)
    requires ValidInstant(t)
    ensures TimeString(t, "file").Some?
    ensures var s := TimeString(t, "file").value;
            |s| == 4 + |DecimalString(t.year)| && AllDigits(s) &&
            ParseDecimal(s) == t.year * 10000 + t.month * 100 + t.day
  {
    var yr, mt, dy := DecimalString(t.year), Field2(t.month), Field2(t.day);
    TwoDigitField(t.month); TwoDigitField(t.day);
    DecimalRoundTrip(t.year);
    ParseConcat(yr, mt);
    ParseConcat(yr + mt, dy);
    assert Pow10(2) == 100;
    assert yr + mt + dy == TimeString(t, "file").value;
  }

  /** A four-digit year makes the layouts the fixed widths 19, 10 and 8. */
  lemma FourDigitYearWidths(t: Instant)
    requires ValidInstant(t) && t.year >= 1000
    ensures |TimeString(t, "complete").value| == 19
    ensures |TimeString(t, "normal").value| == 10
    ensures |TimeString(t, "file").value| == 8
  {
    CompleteLayout(t);
    NormalLayout(t);
    FileLayout(t);
    FourDigits(t.year);
  }

  lemma FourDigits(n: nat)
    requires 1000 <= n <= 9999
    ensures |DecimalString(n)| == 4
  {
    assert |DecimalString(n)| == |DecimalString(n / 10)| + 1;
    assert |DecimalString(n / 10)| == |DecimalString(n / 100)| + 1;
    assert |DecimalString(n / 100)| == |DecimalString(n / 1000)| + 1;
  }

  /** Exactly the three named modes produce a string; with no mode given, "complete" is used. */
  lemma ModeSelectsLayout(mode: string, t: Instant)
    ensures TimeString(t, mode).Some? <==> mode == "complete" || mode == "normal" || mode == "file"
    ensures TimeString(t) == TimeString(t, "complete")
  {
  }
}

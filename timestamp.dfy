/** The API's YYYYMMDDHHMMSS timestamps: `TimestampGenerator::generate`, which
    formats a UTC broken-down time, and `TimestampGenerator::isValid`, which
    checks a string field by field. */
module Timestamp {
  import opened CppStd

  /** A broken-down UTC time as `gmtime_r` fills it in, with the month counted
      from 1 and the year written out in full. */
  datatype UtcTime = UtcTime(year: int, month: int, day: int, hour: int, minute: int, second: int)

  predicate IsLeapYear(y: int)
  {
    y % 4 == 0 && (y % 100 != 0 || y % 400 == 0)
  }

  function DaysInMonth(y: int, m: int): int
    requires 1 <= m <= 12
  {
    if m == 2 then (if IsLeapYear(y) then 29 else 28)
    else if m == 4 || m == 6 || m == 9 || m == 11 then 30
    else 31
  }

  /** A real calendar instant whose year has four digits: what `gmtime_r`
      yields for the clock's range of dates. */
  predicate IsCalendarTime(t: UtcTime)
  {
    && 1000 <= t.year <= 9999
    && 1 <= t.month <= 12
    && 1 <= t.day <= DaysInMonth(t.year, t.month)
    && 0 <= t.hour <= 23
    && 0 <= t.minute <= 59
    && 0 <= t.second <= 59
  }

  /** `n` in exactly `width` decimal digits, zero padded on the left
      (the `%m`, `%d`, `%H`, `%M`, `%S` conversions use width 2). */
  function Pad(n: nat, width: nat): (s: string)
    ensures |s| == width && AllDigits(s)
  {
    if width == 0 then [] else Pad(n / 10, width - 1) + [DigitChar(n % 10)]
  }

  /** A number below 10^width reads back from its padded form unchanged. */
  lemma {:induction false} PadValue(n: nat, width: nat)
    requires n < Pow10(width)
    ensures DigitsValue(Pad(n, width)) == n
  {
    if width > 0 {
      var s := Pad(n, width);
      assert s[..|s| - 1] == Pad(n / 10, width - 1);
      PadValue(n / 10, width - 1);
    }
  }

  /** Fields that "%Y%m%d%H%M%S" writes in exactly fourteen digits. */
  predicate FitsFormat(f: UtcTime)
  {
    && 0 <= f.year <= 9999
    && 0 <= f.month <= 99 && 0 <= f.day <= 99
    && 0 <= f.hour <= 99 && 0 <= f.minute <= 99 && 0 <= f.second <= 99
  }

  /** strftime with "%Y%m%d%H%M%S": the six fields, zero padded, back to back. */
  function Format(f: UtcTime): (ts: string)
    requires FitsFormat(f)
    ensures |ts| == 14 && AllDigits(ts)
  {
    Pad(f.year, 4) + Pad(f.month, 2) + Pad(f.day, 2) + Pad(f.hour, 2) + Pad(f.minute, 2) + Pad(f.second, 2)
  }

  /** `generate()`: the current UTC time formatted into a 15-byte buffer. */
  function Generate(t: UtcTime): (ts: string)
    requires IsCalendarTime(t)
    ensures |ts| == 14 && AllDigits(ts)
  {
    Format(t)
  }

  /** The six `std::stoi` calls of `isValid`, in order; the first one that
      throws ends the check. */
  function ReadFields(ts: string): Outcome<UtcTime>
    requires |ts| == 14
  {
    var year :- Stoi(ts[0..4]);
    var month :- Stoi(ts[4..6]);
    var day :- Stoi(ts[6..8]);
    var hour :- Stoi(ts[8..10]);
    var minute :- Stoi(ts[10..12]);
    var second :- Stoi(ts[12..14]);
    Returns(UtcTime(year, month, day, hour, minute, second))
  }

  /** The range checks of `isValid`: each field on its own, the year unchecked. */
  predicate FieldsInRange(f: UtcTime)
  {
    && 1 <= f.month <= 12
    && 1 <= f.day <= 31
    && 0 <= f.hour <= 23
    && 0 <= f.minute <= 59
    && 0 <= f.second <= 59
  }

  /** `isValid(timestamp)`: fourteen characters, all digits, fields in range;
      an exception from a conversion counts as invalid. */
  predicate IsValid(ts: string)
  {
    if |ts| != 14 then false
    else if !AllDigits(ts) then false
    else
      match ReadFields(ts)
      case Throws(_) => false
      case Returns(f) => FieldsInRange(f)
  }

  /** The fields a fourteen-digit string spells, read positionally. */
  function FieldsOf(ts: string): UtcTime
    requires |ts| == 14 && AllDigits(ts)
  {
    UtcTime(DigitsValue(ts[0..4]), DigitsValue(ts[4..6]), DigitsValue(ts[6..8]),
            DigitsValue(ts[8..10]), DigitsValue(ts[10..12]), DigitsValue(ts[12..14]))
  }

  /** Four digits or fewer always fit an int. */
  lemma ShortDigitsFit(s: string)
    requires |s| <= 4 && AllDigits(s)
    ensures DigitsValue(s) <= INT_MAX
  {
    DigitsValueBound(s);
    if |s| <= 1 {
      assert Pow10(1) == 10;
    } else if |s| == 2 {
      assert Pow10(2) == 100;
    } else if |s| == 3 {
      assert Pow10(3) == 1000;
    } else {
      assert Pow10(4) == 10000;
    }
  }

  /** A short run of digits always converts, to its own value. */
  lemma StoiOfShortDigits(s: string)
    requires 1 <= |s| <= 4 && AllDigits(s)
    ensures Stoi(s) == Returns(DigitsValue(s))
  {
    ShortDigitsFit(s);
    StoiOfDigits(s);
  }

  /** A short slice of a digit string converts to the slice's value. */
  lemma StoiOfDigitSlice(ts: string, i: nat, j: nat)
    requires i < j <= |ts| && j - i <= 4 && AllDigits(ts)
    ensures AllDigits(ts[i..j]) && Stoi(ts[i..j]) == Returns(DigitsValue(ts[i..j]))
  {
    StoiOfShortDigits(ts[i..j]);
  }

  /** When every conversion returns, the fields are the values returned. */
  lemma ReadFieldsReturns(ts: string, f: UtcTime)
    requires |ts| == 14
    requires Stoi(ts[0..4]) == Returns(f.year) && Stoi(ts[4..6]) == Returns(f.month)
    requires Stoi(ts[6..8]) == Returns(f.day) && Stoi(ts[8..10]) == Returns(f.hour)
    requires Stoi(ts[10..12]) == Returns(f.minute) && Stoi(ts[12..14]) == Returns(f.second)
    ensures ReadFields(ts) == Returns(f)
  {
  }

  /** Once the digit check has passed no conversion can throw, so the
      exception handler of `isValid` is never reached. */
  lemma ReadFieldsOfDigits(ts: string)
    requires |ts| == 14 && AllDigits(ts)
    ensures ReadFields(ts) == Returns(FieldsOf(ts))
  {
    StoiOfDigitSlice(ts, 0, 4);
    StoiOfDigitSlice(ts, 4, 6);
    StoiOfDigitSlice(ts, 6, 8);
    StoiOfDigitSlice(ts, 8, 10);
    StoiOfDigitSlice(ts, 10, 12);
    StoiOfDigitSlice(ts, 12, 14);
    ReadFieldsReturns(ts, FieldsOf(ts));
  }

  /** `isValid` accepts exactly the fourteen-digit strings whose month, day,
      hour, minute and second are each within their range. */
  lemma IsValidIff(ts: string)
    ensures IsValid(ts) <==> |ts| == 14 && AllDigits(ts) && FieldsInRange(FieldsOf(ts))
  {
    if |ts| == 14 && AllDigits(ts) {
      ReadFieldsOfDigits(ts);
    }
  }

  /** Formatted fields read back unchanged, and `isValid` accepts the result
      exactly when the fields are within their ranges. */
  lemma FormatRoundTrip(f: UtcTime)
    requires FitsFormat(f)
    ensures FieldsOf(Format(f)) == f
    ensures IsValid(Format(f)) <==> FieldsInRange(f)
  {
    var ts := Format(f);
    var p1 := Pad(f.year, 4);
    var p2 := p1 + Pad(f.month, 2);
    var p3 := p2 + Pad(f.day, 2);
    var p4 := p3 + Pad(f.hour, 2);
    var p5 := p4 + Pad(f.minute, 2);
    assert ts == p5 + Pad(f.second, 2);
    assert ts[12..14] == Pad(f.second, 2);
    assert ts[..12] == p5;
    assert ts[10..12] == p5[10..12] == Pad(f.minute, 2);
    assert ts[..10] == p4;
    assert ts[8..10] == p4[8..10] == Pad(f.hour, 2);
    assert ts[..8] == p3;
    assert ts[6..8] == p3[6..8] == Pad(f.day, 2);
    assert ts[..6] == p2;
    assert ts[4..6] == p2[4..6] == Pad(f.month, 2);
    assert ts[0..4] == p1;
    assert Pow10(2) == 100 && Pow10(4) == 10000;
    PadValue(f.year, 4);
    PadValue(f.month, 2);
    PadValue(f.day, 2);
    PadValue(f.hour, 2);
    PadValue(f.minute, 2);
    PadValue(f.second, 2);
    IsValidIff(ts);
  }

  /** What `generate` writes, `isValid` accepts, and its fields read back as
      the time that was formatted. */
  lemma GenerateRoundTrip(t: UtcTime)
    requires IsCalendarTime(t)
    ensures IsValid(Generate(t))
    ensures FieldsOf(Generate(t)) == t
  {
    FormatRoundTrip(t);
  }

  /** Distinct instants give distinct timestamps. */
  lemma GenerateInjective(t: UtcTime, u: UtcTime)
    requires IsCalendarTime(t) && IsCalendarTime(u)
    requires Generate(t) == Generate(u)
    ensures t == u
  {
    GenerateRoundTrip(t);
    GenerateRoundTrip(u);
  }

  /** The value of two digits. */
  lemma TwoDigitsValue(s: string)
    requires |s| == 2 && AllDigits(s)
    ensures DigitsValue(s) == 10 * DigitValue(s[0]) + DigitValue(s[1])
  {
    var first := s[..1];
    assert first[..0] == [] && first[0] == s[0];
    assert DigitsValue(first) == DigitValue(s[0]);
  }

  /** `isValid` on fourteen digits, with each two-digit field spelled out. */
  lemma IsValidByDigits(ts: string)
    requires |ts| == 14 && AllDigits(ts)
    ensures IsValid(ts) <==>
      && 1 <= 10 * DigitValue(ts[4]) + DigitValue(ts[5]) <= 12
      && 1 <= 10 * DigitValue(ts[6]) + DigitValue(ts[7]) <= 31
      && 10 * DigitValue(ts[8]) + DigitValue(ts[9]) <= 23
      && 10 * DigitValue(ts[10]) + DigitValue(ts[11]) <= 59
      && 10 * DigitValue(ts[12]) + DigitValue(ts[13]) <= 59
  {
    IsValidIff(ts);
    TwoDigitsValue(ts[4..6]);
    TwoDigitsValue(ts[6..8]);
    TwoDigitsValue(ts[8..10]);
    TwoDigitsValue(ts[10..12]);
    TwoDigitsValue(ts[12..14]);
  }

  /** The checks are per field: a day that does not exist in its month
      (31 February) passes. */
  lemma IsValidIgnoresCalendar()
    ensures !IsCalendarTime(UtcTime(2024, 2, 31, 12, 0, 0)) && IsValid(Format(UtcTime(2024, 2, 31, 12, 0, 0)))
  {
    FormatRoundTrip(UtcTime(2024, 2, 31, 12, 0, 0));
  }

  /** The year is not checked: year 0000 passes. */
  lemma IsValidIgnoresYear()
    ensures !IsCalendarTime(UtcTime(0, 1, 1, 0, 0, 0)) && IsValid(Format(UtcTime(0, 1, 1, 0, 0, 0)))
  {
    FormatRoundTrip(UtcTime(0, 1, 1, 0, 0, 0));
  }

  /** A month of 13 is refused. */
  lemma IsValidRejectsMonth13()
    ensures !IsValid("20241301000000")
  {
    var ts := "20241301000000";
    assert AllDigits(ts);
    IsValidByDigits(ts);
  }
}

/**
 * The time-of-day string that checkTasks compares every task against:
 * the clock's hour and minute, each written in base 10 and left-padded
 * with '0' to two characters, joined by ':'.
 *
 * ParseTime is the reader for that format; it is the partner against which
 * FormatTime is proved (round trip in both directions).
 */
module Clock {

  datatype Option<T> = None | Some(value: T)

  /** A minute of the day, as the clock reports it. */
  datatype TimeOfDay = At(hour: nat, minute: nat)
  {
    predicate InRange() { hour < 24 && minute < 60 }
  }

  predicate IsDigit(c: char) { '0' <= c <= '9' }

  function DigitChar(d: nat): (c: char)
    requires d < 10
    ensures IsDigit(c) && c as int - '0' as int == d
  {
    ('0' as int + d) as char
  }

  function DigitValue(c: char): (d: nat)
    requires IsDigit(c)
    ensures d < 10 && DigitChar(d) == c
  {
    c as int - '0' as int
  }

  predicate AllDigits(s: string) { forall i :: 0 <= i < |s| ==> IsDigit(s[i]) }

  /** Number.prototype.toString() on a non-negative integer: base 10, no leading zero. */
  function Decimal(n: nat): (s: string)
    ensures 1 <= |s| && AllDigits(s)
    ensures |s| == 1 <==> n < 10
    ensures n >= 10 ==> s[0] != '0'
  {
    if n < 10 then [DigitChar(n)] else Decimal(n / 10) + [DigitChar(n % 10)]
  }

  /** The number a string of decimal digits denotes (most significant first). */
  function DigitsValue(s: string): nat
    requires AllDigits(s)
  {
    if s == [] then 0 else DigitsValue(s[..|s| - 1]) * 10 + DigitValue(s[|s| - 1])
  }

  /** Decimal writes n so that it reads back as n. */
  lemma {:induction false} DecimalReadsBack(n: nat)
    ensures DigitsValue(Decimal(n)) == n
  {
    var s := Decimal(n);
    if n < 10 {
      assert s[..0] == [];
    } else {
      DecimalReadsBack(n / 10);
      assert s[..|s| - 1] == Decimal(n / 10);
    }
  }

  /** String.prototype.padStart(width, fill) with a one-character fill string. */
  function PadStart(s: string, width: nat, fill: char): (r: string)
    ensures |r| == if |s| < width then width else |s|
    ensures r[|r| - |s|..] == s
    ensures forall i :: 0 <= i < |r| - |s| ==> r[i] == fill
  {
    if |s| < width then seq(width - |s|, _ => fill) + s else s
  }

  /** One field of the clock string: `n.toString().padStart(2, '0')`. */
  function TwoDigits(n: nat): string
  {
    PadStart(Decimal(n), 2, '0')
  }

  /** Below 100 the padded field is exactly the tens digit and the units digit. */
  lemma TwoDigitsBelowHundred(n: nat)
    requires n < 100
    ensures TwoDigits(n) == [DigitChar(n / 10), DigitChar(n % 10)]
  {
    if n >= 10 {
      assert Decimal(n) == Decimal(n / 10) + [DigitChar(n % 10)];
    }
  }

  /** The string checkTasks builds from the current hour and minute. */
  function FormatTime(hour: nat, minute: nat): string
  {
    TwoDigits(hour) + ":" + TwoDigits(minute)
  }

  /** The `HH:MM` shape: two digits, a colon, two digits. */
  predicate IsClockString(s: string)
  {
    |s| == 5 && IsDigit(s[0]) && IsDigit(s[1]) && s[2] == ':' && IsDigit(s[3]) && IsDigit(s[4])
  }

  /**
   * Reads an `HH:MM` string back into the minute of the day it names;
   * None for any other shape and for hours past 23 or minutes past 59.
   */
  function ParseTime(s: string): (r: Option<TimeOfDay>)
    ensures r.Some? ==> IsClockString(s) && r.value.InRange()
  {
    if !IsClockString(s) then None
    else
      var hour := DigitValue(s[0]) * 10 + DigitValue(s[1]);
      var minute := DigitValue(s[3]) * 10 + DigitValue(s[4]);
      if hour < 24 && minute < 60 then Some(At(hour, minute)) else None
  }

  /** Any hour and minute below 100 are written as exactly five characters `HH:MM`. */
  lemma FormatShape(hour: nat, minute: nat)
    requires hour < 100 && minute < 100
    ensures FormatTime(hour, minute) == [DigitChar(hour / 10), DigitChar(hour % 10), ':', DigitChar(minute / 10), DigitChar(minute % 10)]
    ensures IsClockString(FormatTime(hour, minute))
  {
    TwoDigitsBelowHundred(hour);
    TwoDigitsBelowHundred(minute);
  }

  /** A two-digit number splits back into the digits it was built from. */
  lemma SplitTwoDigits(tens: nat, units: nat)
    requires tens < 10 && units < 10
    ensures (tens * 10 + units) / 10 == tens && (tens * 10 + units) % 10 == units
  {
  }

  /** Reading back the two digits DigitChar writes for n gives n. */
  lemma ReadTwoDigits(n: nat)
    requires n < 100
    ensures DigitValue(DigitChar(n / 10)) * 10 + DigitValue(DigitChar(n % 10)) == n
  {
  }

  /** ParseTime reads a clock string's in-range hour and minute off its digits. */
  lemma ParseOfDigits(s: string, hour: nat, minute: nat)
    requires IsClockString(s) && At(hour, minute).InRange()
    requires hour == DigitValue(s[0]) * 10 + DigitValue(s[1])
    requires minute == DigitValue(s[3]) * 10 + DigitValue(s[4])
    ensures ParseTime(s) == Some(At(hour, minute))
  {
  }

  /** The five characters written for an in-range reading parse back as that reading. */
  lemma ParseWritten(hour: nat, minute: nat, s: string)
    requires At(hour, minute).InRange()
    requires s == [DigitChar(hour / 10), DigitChar(hour % 10), ':', DigitChar(minute / 10), DigitChar(minute % 10)]
    ensures ParseTime(s) == Some(At(hour, minute))
  {
    ReadTwoDigits(hour);
    ReadTwoDigits(minute);
    ParseOfDigits(s, hour, minute);
  }

  /** Every clock reading formats to a string that reads back as the same hour and minute. */
  lemma FormatThenParse(hour: nat, minute: nat)
    requires At(hour, minute).InRange()
    ensures ParseTime(FormatTime(hour, minute)) == Some(At(hour, minute))
  {
    FormatShape(hour, minute);
    ParseWritten(hour, minute, FormatTime(hour, minute));
  }

  /** Two digit characters are what TwoDigits writes for the number they denote. */
  lemma WriteTwoDigits(n: nat, tens: char, units: char)
    requires IsDigit(tens) && IsDigit(units)
    requires n == DigitValue(tens) * 10 + DigitValue(units)
    ensures TwoDigits(n) == [tens, units]
  {
    SplitTwoDigits(DigitValue(tens), DigitValue(units));
    TwoDigitsBelowHundred(n);
  }

  /** A clock string is its two fields joined by ':'. */
  lemma JoinFields(s: string, hh: string, mm: string)
    requires IsClockString(s)
    requires hh == [s[0], s[1]] && mm == [s[3], s[4]]
    ensures hh + ":" + mm == s
  {
  }

  /** A clock string is what FormatTime writes for the hour and minute its digits denote. */
  lemma FormatOfDigits(s: string, hour: nat, minute: nat)
    requires IsClockString(s)
    requires hour == DigitValue(s[0]) * 10 + DigitValue(s[1])
    requires minute == DigitValue(s[3]) * 10 + DigitValue(s[4])
    ensures FormatTime(hour, minute) == s
  {
    WriteTwoDigits(hour, s[0], s[1]);
    WriteTwoDigits(minute, s[3], s[4]);
    JoinFields(s, TwoDigits(hour), TwoDigits(minute));
  }

  /** Every string ParseTime accepts is exactly what the clock formats at that minute. */
  lemma ParseThenFormat(s: string, t: TimeOfDay)
    requires ParseTime(s) == Some(t)
    ensures FormatTime(t.hour, t.minute) == s
  {
    FormatOfDigits(s, t.hour, t.minute);
  }

  /** Two minutes of the day share a clock string only if they are the same minute. */
  lemma FormatInjective(a: TimeOfDay, b: TimeOfDay)
    requires a.InRange() && b.InRange()
    ensures FormatTime(a.hour, a.minute) == FormatTime(b.hour, b.minute) <==> a == b
  {
    FormatThenParse(a.hour, a.minute);
    FormatThenParse(b.hour, b.minute);
  }
}

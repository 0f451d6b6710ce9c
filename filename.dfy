/** The name the exported document is saved under: `worship_songs_YYYY-MM-DD.pdf`
    from the local date at export time, month and day zero-padded to two digits. */
module FileName {
  import opened Wrappers
  import opened Text

  /** The local calendar date as `Date` reports it: the full year, the month
      index 0..11 (`getMonth`) and the day of the month 1..31 (`getDate`). */
  datatype LocalDate = LocalDate(year: int, monthIndex: nat, day: nat)

  predicate ValidDate(d: LocalDate)
  {
    d.monthIndex < 12 && 1 <= d.day <= 31
  }

  const Prefix: string := "worship_songs_"
  const Extension: string := ".pdf"

  function TwoDigits(n: nat): string
  {
    PadStart(NatToString(n), 2, '0')
  }

  /** `${year}-${month}-${day}` with month and day padded to two digits. */
  function DateStamp(d: LocalDate): string
  {
    IntToString(d.year) + "-" + TwoDigits(d.monthIndex + 1) + "-" + TwoDigits(d.day)
  }

  function SaveName(d: LocalDate): string
  {
    Prefix + DateStamp(d) + Extension
  }

  /** Reads a year written as by `IntToString`: optional minus sign, then digits. */
  function ParseYear(s: string): Option<int>
  {
    if |s| > 0 && s[0] == '-' then
      (if |s| > 1 && AllDigits(s[1..]) then Some(-(DigitsValue(s[1..]) as int)) else None)
    else if |s| > 0 && AllDigits(s) then Some(DigitsValue(s) as int)
    else None
  }

  /** Reads a date stamp back, right to left: two-digit day, dash, two-digit
      month, dash, year. */
  function ParseDateStamp(s: string): Option<LocalDate>
  {
    if |s| < 7 then None
    else
      var n := |s|;
      ParseFields(s[..n - 6], s[n - 6], s[n - 5..n - 3], s[n - 3], s[n - 2..])
  }

  function ParseFields(ys: string, dash1: char, mm: string, dash2: char, dd: string): Option<LocalDate>
  {
    if dash1 != '-' || dash2 != '-' || !AllDigits(mm) || !AllDigits(dd) then None
    else if DigitsValue(mm) == 0 then None
    else match ParseYear(ys)
      case None => None
      case Some(y) => Some(LocalDate(y, DigitsValue(mm) - 1, DigitsValue(dd)))
  }

  /** Reads a saved file name back into the date it was made on. */
  function ParseSaveName(name: string): Option<LocalDate>
  {
    if |name| < |Prefix| + |Extension| || name[..|Prefix|] != Prefix
       || name[|name| - |Extension|..] != Extension
    then None
    else ParseDateStamp(name[|Prefix|..|name| - |Extension|])
  }

  lemma YearRoundTrip(y: int)
    ensures ParseYear(IntToString(y)) == Some(y)
  {
    var s := IntToString(y);
    if y < 0 {
      var digits := NatToString(-y);
      NatToStringRoundTrip(-y);
      assert s == "-" + digits;
      assert s[0] == '-' && |s| > 1 && s[1..] == digits;
    } else {
      NatToStringRoundTrip(y);
      assert IsDigit(s[0]);
    }
  }

  /** A two-digit field reads back as the number it was made from. */
  lemma TwoDigitsRoundTrip(n: nat)
    requires n < 100
    ensures |TwoDigits(n)| == 2 && AllDigits(TwoDigits(n)) && DigitsValue(TwoDigits(n)) == n
  {
    NatToStringRoundTrip(n);
    PadStartRoundTrip(n, 2);
  }

  /** The parser finds the three fields of a stamp where they were put. */
  lemma StampSlices(ys: string, mm: string, dd: string)
    requires |mm| == 2 && |dd| == 2
    ensures ParseDateStamp(ys + "-" + mm + "-" + dd) == ParseFields(ys, '-', mm, '-', dd)
  {
    var tail := "-" + mm + "-" + dd;
    var s := ys + "-" + mm + "-" + dd;
    assert s == ys + tail;
    var n := |s|;
    assert n == |ys| + 6;
    assert s[..n - 6] == ys;
    assert s[n - 6] == '-' by { assert s[n - 6] == tail[0]; }
    assert s[n - 5..n - 3] == mm by { assert s[n - 5..n - 3] == tail[1..3]; }
    assert s[n - 3] == '-' by { assert s[n - 3] == tail[3]; }
    assert s[n - 2..] == dd by { assert s[n - 2..] == tail[4..]; }
  }

  /** The date stamp of a valid date determines that date. */
  lemma DateStampRoundTrip(d: LocalDate)
    requires ValidDate(d)
    ensures ParseDateStamp(DateStamp(d)) == Some(d)
  {
    TwoDigitsRoundTrip(d.monthIndex + 1);
    TwoDigitsRoundTrip(d.day);
    YearRoundTrip(d.year);
    StampSlices(IntToString(d.year), TwoDigits(d.monthIndex + 1), TwoDigits(d.day));
  }

  /** The saved file name of a valid date determines that date, so two exports
      on different days never get the same name. */
  lemma SaveNameRoundTrip(d: LocalDate)
    requires ValidDate(d)
    ensures ParseSaveName(SaveName(d)) == Some(d)
    ensures forall e :: ValidDate(e) && SaveName(e) == SaveName(d) ==> e == d
  {
    var name := SaveName(d);
    assert name[..|Prefix|] == Prefix;
    assert name[|name| - |Extension|..] == Extension;
    assert name[|Prefix|..|name| - |Extension|] == DateStamp(d);
    DateStampRoundTrip(d);
    forall e | ValidDate(e) && SaveName(e) == SaveName(d)
      ensures e == d
    {
      var ename := SaveName(e);
      assert ename[|Prefix|..|ename| - |Extension|] == DateStamp(e);
      DateStampRoundTrip(e);
    }
  }

  /** For four-digit years the name has a fixed length of 28 characters. */
  lemma SaveNameLength(d: LocalDate)
    requires ValidDate(d) && 1000 <= d.year <= 9999
    ensures |SaveName(d)| == 28
  {
    TwoDigitsRoundTrip(d.monthIndex + 1);
    TwoDigitsRoundTrip(d.day);
    FourDigitYear(d.year);
    var ys := IntToString(d.year);
    assert ys == NatToString(d.year) && |ys| == 4;
    assert |DateStamp(d)| == |ys| + 1 + |TwoDigits(d.monthIndex + 1)| + 1 + |TwoDigits(d.day)|;
    assert |SaveName(d)| == |Prefix| + |DateStamp(d)| + |Extension|;
  }

  lemma FourDigitYear(y: nat)
    requires 1000 <= y <= 9999
    ensures |NatToString(y)| == 4
  {
    var a := y / 10;
    var b := a / 10;
    var c := b / 10;
    assert 100 <= a <= 999 && 10 <= b <= 99 && 1 <= c <= 9;
    assert |NatToString(b)| == |NatToString(c)| + 1;
    assert |NatToString(a)| == |NatToString(b)| + 1;
    assert |NatToString(y)| == |NatToString(a)| + 1;
  }
}

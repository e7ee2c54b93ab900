/** Timestamps and run stamps as text: what is generated, what is accepted, and how it sorts. */
module Timestamps {
  import opened Calendar
  import opened Lexical
  import opened Text

  // ---------------------------------------------------------------- numbers as text

  function Digit(n: nat): char
    requires n < 10
  {
    '0' + n as char
  }

  function Decimal(n: nat): (s: string)
    ensures s != []
  {
    if n < 10 then [Digit(n)] else Decimal(n / 10) + [Digit(n % 10)]
  }

  /** A number padded with zeros to a width, the sign counted in. */
  function Padded(n: int, width: nat): string
    decreases n < 0
  {
    if n < 0 then "-" + Padded(-n, if width == 0 then 0 else width - 1)
    else
      var s := Decimal(n);
      if |s| < width then seq(width - |s|, _ => '0') + s else s
  }

  /** The last digits of a number, width of them. */
  function Fixed(n: nat, width: nat): (s: string)
    ensures |s| == width
  {
    if width == 0 then [] else Fixed(n / 10, width - 1) + [Digit(n % 10)]
  }

  function Pow10(k: nat): (p: nat)
    ensures p >= 1
  {
    if k == 0 then 1 else 10 * Pow10(k - 1)
  }

  lemma {:induction false} ZerosFixed(width: nat)
    ensures Fixed(0, width) == seq(width, _ => '0')
  {
    if width > 0 {
      ZerosFixed(width - 1);
    }
  }

  /** Padding to a width the number fits gives exactly its last digits. */
  lemma {:induction false} PaddedFits(n: nat, width: nat)
    requires n < Pow10(width)
    ensures width > 0 ==> |Decimal(n)| <= width && Padded(n, width) == Fixed(n, width)
  {
    if width > 1 {
      if n >= 10 {
        PaddedFits(n / 10, width - 1);
      } else {
        ZerosFixed(width - 1);
      }
    }
  }

  /** A number too large for the width is written with more digits. */
  lemma {:induction false} PaddedOverflows(n: nat, width: nat)
    requires n >= Pow10(width)
    ensures |Padded(n, width)| > width
  {
    DecimalLong(n, width);
  }

  lemma {:induction false} DecimalLong(n: nat, width: nat)
    requires n >= Pow10(width)
    ensures |Decimal(n)| > width
  {
    if width > 0 {
      DecimalLong(n / 10, width - 1);
    }
  }

  // ---------------------------------------------------------------- order of fixed-width text

  lemma {:induction false} BelowExtends(x: string, y: string, u: string, v: string)
    requires |x| == |y| && (Below(x, y) || (x == y && Below(u, v)))
    ensures Below(x + u, y + v)
  {
    if x == [] {
      assert x + u == u && y + v == v;
    } else {
      assert (x + u)[1..] == x[1..] + u && (y + v)[1..] == y[1..] + v;
      if x[0] == y[0] {
        BelowExtends(x[1..], y[1..], u, v);
      }
    }
  }

  lemma {:induction false} FixedOrders(a: nat, b: nat, width: nat)
    requires a < b < Pow10(width)
    ensures Below(Fixed(a, width), Fixed(b, width))
  {
    if a / 10 < b / 10 {
      FixedOrders(a / 10, b / 10, width - 1);
    }
    BelowExtends(Fixed(a / 10, width - 1), Fixed(b / 10, width - 1), [Digit(a % 10)], [Digit(b % 10)]);
  }

  // ---------------------------------------------------------------- the run stamp

  const SECONDS_TO_YEAR_10000 := 253402300800

  function DateStamp(d: Date): string {
    Padded(d.year, 4) + Padded(d.month, 2) + Padded(d.day, 2)
  }

  function TimeStamp(secondOfDay: nat): string {
    Padded(secondOfDay / 3600, 2) + Padded((secondOfDay % 3600) / 60, 2) + Padded(secondOfDay % 60, 2)
  }

  function UtcRunStamp(seconds: nat): string {
    DateStamp(CivilFromSeconds(seconds)) + "-" + TimeStamp(seconds % 86400)
  }

  /** Seconds since the epoch up to the end of year 9999 fall in a year of four digits. */
  lemma FourDigitYear(seconds: nat)
    ensures var d := CivilFromSeconds(seconds);
            && ValidDate(d) && d.year >= 1970
            && (seconds < SECONDS_TO_YEAR_10000 <==> d.year < 10000)
  {
    var d := CivilFromSeconds(seconds);
    StampAgrees(seconds);
    ConversionExact(seconds / 86400);
    FirstDayOf10000();
    assert DayNumber(Date(1970, 1, 1)) == 0;
    DayNumberOrders(d, Date(1970, 1, 1));
    DayNumberOrders(d, Date(10000, 1, 1));
  }

  lemma DateStampFixed(d: Date)
    requires ValidDate(d) && 0 <= d.year < 10000
    ensures DateStamp(d) == Fixed(d.year, 4) + Fixed(d.month, 2) + Fixed(d.day, 2)
  {
    assert Pow10(4) == 10000 && Pow10(2) == 100;
    PaddedFits(d.year, 4);
    PaddedFits(d.month, 2);
    PaddedFits(d.day, 2);
  }

  lemma DateStampsSort(c: Date, d: Date)
    requires ValidDate(c) && ValidDate(d) && Earlier(c, d) && 0 <= c.year <= d.year < 10000
    ensures |DateStamp(c)| == |DateStamp(d)| && Below(DateStamp(c), DateStamp(d))
  {
    DateStampFixed(c);
    DateStampFixed(d);
    assert Pow10(4) == 10000 && Pow10(2) == 100;
    FieldOrders(c.year, d.year, 4);
    FieldOrders(c.month, d.month, 2);
    FieldOrders(c.day, d.day, 2);
    TripleOrders(c.year, c.month, c.day, d.year, d.month, d.day,
                 Fixed(c.year, 4), Fixed(c.month, 2), Fixed(c.day, 2), Fixed(d.year, 4), Fixed(d.month, 2), Fixed(d.day, 2));
  }

  /** Three pieces of matching lengths compare piece by piece. */
  lemma TripleExtends(a: string, b: string, c: string, x: string, y: string, z: string)
    requires |a| == |x| && |b| == |y|
    requires Below(a, x) || (a == x && (Below(b, y) || (b == y && Below(c, z))))
    ensures Below(a + b + c, x + y + z)
  {
    if Below(a, x) || Below(b, y) {
      BelowExtends(a, x, b, y);
    }
    BelowExtends(a + b, x + y, c, z);
  }

  /** Text s of a and text t of x stand in the order of the numbers. */
  ghost predicate InOrder(a: nat, x: nat, s: string, t: string) {
    |s| == |t| && (a < x ==> Below(s, t)) && (a == x ==> s == t)
  }

  lemma FieldOrders(a: nat, x: nat, width: nat)
    requires a < Pow10(width) && x < Pow10(width)
    ensures InOrder(a, x, Fixed(a, width), Fixed(x, width))
  {
    if a < x {
      FixedOrders(a, x, width);
    }
  }

  lemma TripleOrders(a: nat, b: nat, c: nat, x: nat, y: nat, z: nat, s: string, t: string, u: string, p: string, q: string, r: string)
    requires InOrder(a, x, s, p) && InOrder(b, y, t, q) && InOrder(c, z, u, r)
    requires a < x || (a == x && (b < y || (b == y && c < z)))
    ensures Below(s + t + u, p + q + r)
  {
    TripleExtends(s, t, u, p, q, r);
  }

  lemma TimeStampFixed(s: nat)
    requires s < 86400
    ensures TimeStamp(s) == Fixed(s / 3600, 2) + Fixed((s % 3600) / 60, 2) + Fixed(s % 60, 2)
  {
    assert Pow10(2) == 100;
    PaddedFits(s / 3600, 2);
    PaddedFits((s % 3600) / 60, 2);
    PaddedFits(s % 60, 2);
  }

  lemma ClockOrders(s: nat, t: nat)
    requires s < t
    ensures s / 3600 < t / 3600
         || (s / 3600 == t / 3600 && ((s % 3600) / 60 < (t % 3600) / 60 || ((s % 3600) / 60 == (t % 3600) / 60 && s % 60 < t % 60)))
  {
    assert s == 3600 * (s / 3600) + s % 3600 && t == 3600 * (t / 3600) + t % 3600;
    MinuteSecond(s);
    MinuteSecond(t);
  }

  lemma MinuteSecond(s: nat)
    ensures s % 3600 == 60 * ((s % 3600) / 60) + s % 60
  {
    assert s == 60 * (60 * (s / 3600) + (s % 3600) / 60) + (s % 3600) % 60;
  }

  lemma TimeStampsSort(s: nat, t: nat)
    requires s < t < 86400
    ensures Below(TimeStamp(s), TimeStamp(t))
  {
    TimeStampFixed(s);
    TimeStampFixed(t);
    ClockOrders(s, t);
    assert Pow10(2) == 100;
    var h, m, n, i, j, k := s / 3600, (s % 3600) / 60, s % 60, t / 3600, (t % 3600) / 60, t % 60;
    FieldOrders(h, i, 2);
    FieldOrders(m, j, 2);
    FieldOrders(n, k, 2);
    TripleOrders(h, m, n, i, j, k, Fixed(h, 2), Fixed(m, 2), Fixed(n, 2), Fixed(i, 2), Fixed(j, 2), Fixed(k, 2));
  }

  lemma DatesSort(a: nat, b: nat)
    requires a <= b
    ensures var c, d := CivilFromSeconds(a), CivilFromSeconds(b);
            if a / 86400 < b / 86400 then Earlier(c, d) else c == d
  {
    StampAgrees(a);
    StampAgrees(b);
    if a / 86400 < b / 86400 {
      LaterDaysLaterDates(a / 86400, b / 86400);
    } else {
      assert a / 86400 == b / 86400;
    }
  }

  lemma DatesInStampsSort(a: nat, b: nat)
    requires a <= b < SECONDS_TO_YEAR_10000
    ensures var c, d := DateStamp(CivilFromSeconds(a)), DateStamp(CivilFromSeconds(b));
            |c| == |d| && if a / 86400 < b / 86400 then Below(c, d) else c == d
  {
    DatesSort(a, b);
    FourDigitYear(a);
    FourDigitYear(b);
    if a / 86400 < b / 86400 {
      DateStampsSort(CivilFromSeconds(a), CivilFromSeconds(b));
    }
  }

  /** Run directories named by stamp sort by time: a later second has a later stamp, through the year 9999. */
  lemma StampsSort(a: nat, b: nat)
    requires a < b < SECONDS_TO_YEAR_10000
    ensures Below(UtcRunStamp(a), UtcRunStamp(b))
  {
    var s, t := a % 86400, b % 86400;
    assert a / 86400 == b / 86400 ==> s < t;
    if s < t {
      TimeStampsSort(s, t);
    }
    DatesInStampsSort(a, b);
    TripleExtends(DateStamp(CivilFromSeconds(a)), "-", TimeStamp(s), DateStamp(CivilFromSeconds(b)), "-", TimeStamp(t));
  }

  lemma DecimalHead(n: nat)
    requires n >= 10
    ensures Decimal(n)[0] == Decimal(n / 10)[0]
  {
  }

  lemma StampHead(seconds: nat)
    requires CivilFromSeconds(seconds).year >= 1000
    ensures UtcRunStamp(seconds) != [] && UtcRunStamp(seconds)[0] == Decimal(CivilFromSeconds(seconds).year)[0]
  {
    DecimalLong(CivilFromSeconds(seconds).year, 3);
  }

  lemma DateAtSecond(seconds: nat, d: Date)
    requires ValidDate(d) && DayNumber(d) == seconds / 86400
    ensures CivilFromSeconds(seconds) == d
  {
    StampAgrees(seconds);
    ConversionRoundTrip(d);
  }

  lemma FirstDayOf10000()
    ensures DayNumber(Date(10000, 1, 1)) == 2932897
  {
  }

  lemma YearTurns()
    ensures CivilFromSeconds(SECONDS_TO_YEAR_10000) == Date(10000, 1, 1)
    ensures CivilFromSeconds(SECONDS_TO_YEAR_10000 - 1) == Date(9999, 12, 31)
  {
    FirstDayOf10000();
    DayNumberCounts(Date(9999, 12, 31));
    DateAtSecond(SECONDS_TO_YEAR_10000, Date(10000, 1, 1));
    DateAtSecond(SECONDS_TO_YEAR_10000 - 1, Date(9999, 12, 31));
  }

  /** One second after that the year needs a fifth digit and the order breaks. */
  lemma StampsStopSorting()
    ensures !Below(UtcRunStamp(SECONDS_TO_YEAR_10000 - 1), UtcRunStamp(SECONDS_TO_YEAR_10000))
  {
    YearTurns();
    StampHead(SECONDS_TO_YEAR_10000 - 1);
    StampHead(SECONDS_TO_YEAR_10000);
    YearHeads();
  }

  lemma YearHeads()
    ensures Decimal(9999)[0] == '9' && Decimal(10000)[0] == '1'
  {
    DecimalHead(9999);
    DecimalHead(999);
    DecimalHead(99);
    DecimalHead(10000);
    DecimalHead(1000);
    DecimalHead(100);
    DecimalHead(10);
  }

  // ---------------------------------------------------------------- RFC 3339 text

  /** The registry's clock rendering, from whole seconds since the epoch. */
  function Rfc3339(seconds: int): string {
    var d, s := CivilFromDaysTruncating(seconds / 86400), seconds % 86400;
    Padded(d.year, 4) + "-" + Padded(d.month, 2) + "-" + Padded(d.day, 2) + "T" + Padded(s / 3600, 2) + ":"
    + Padded((s % 3600) / 60, 2) + ":" + Padded(s % 60, 2) + "Z"
  }

  predicate IsDigit(c: char) {
    '0' <= c <= '9'
  }

  predicate AllDigits(s: string) {
    forall i :: 0 <= i < |s| ==> IsDigit(s[i])
  }

  /** Parsing as an unsigned number: an optional plus sign, then one digit or more. */
  function ParseUnsigned(s: string): Option<nat> {
    var digits := if s != [] && s[0] == '+' then s[1..] else s;
    if digits != [] && AllDigits(digits) then Some(Value(digits)) else None
  }

  function Value(digits: string): nat
    requires AllDigits(digits)
  {
    if digits == [] then 0
    else
      var last := digits[|digits| - 1];
      assert IsDigit(last);
      10 * Value(digits[..|digits| - 1]) + (last as int - '0' as int)
  }

  /** What the envelope validator admits as a timestamp. At most four digits are parsed, so no 32-bit overflow arises. */
  predicate IsRfc3339Utc(value: string) {
    && |value| == 20 && value[19] == 'Z' && value[4] == '-' && value[7] == '-' && value[10] == 'T'
    && value[13] == ':' && value[16] == ':'
    && FieldsAdmitted(value[0..4], value[5..7], value[8..10], value[11..13], value[14..16], value[17..19])
  }

  predicate FieldsAdmitted(y: string, m: string, d: string, h: string, n: string, s: string) {
    var year, month, day := ParseUnsigned(y), ParseUnsigned(m), ParseUnsigned(d);
    var hour, minute, second := ParseUnsigned(h), ParseUnsigned(n), ParseUnsigned(s);
    && year.Some? && month.Some? && day.Some? && hour.Some? && minute.Some? && second.Some?
    && !(year.value == 0 || !(1 <= month.value <= 12) || hour.value > 23 || minute.value > 59 || second.value > 59)
    && 1 <= day.value <= DaysInMonth(year.value, month.value)
  }

  lemma {:induction false} FixedParses(n: nat, width: nat)
    requires n < Pow10(width)
    ensures AllDigits(Fixed(n, width)) && Value(Fixed(n, width)) == n
  {
    if width > 0 {
      FixedParses(n / 10, width - 1);
      assert Fixed(n, width)[..width - 1] == Fixed(n / 10, width - 1);
    }
  }

  lemma PaddedParses(n: nat, width: nat)
    requires 0 < width && n < Pow10(width)
    ensures |Padded(n, width)| == width && ParseUnsigned(Padded(n, width)) == Some(n)
  {
    PaddedFits(n, width);
    FixedParses(n, width);
  }

  lemma TimestampFields(y: string, m: string, d: string, h: string, n: string, s: string)
    requires |m| == 2 && |d| == 2 && |h| == 2 && |n| == 2 && |s| == 2
    ensures var value := y + "-" + m + "-" + d + "T" + h + ":" + n + ":" + s + "Z";
            IsRfc3339Utc(value) <==> |y| == 4 && FieldsAdmitted(y, m, d, h, n, s)
  {
    hide FieldsAdmitted;
    var value := y + "-" + m + "-" + d + "T" + h + ":" + n + ":" + s + "Z";
    if |y| == 4 {
      assert value[0..4] == y && value[5..7] == m && value[8..10] == d;
      assert value[11..13] == h && value[14..16] == n && value[17..19] == s;
    }
  }

  lemma TwoDigits(n: nat)
    requires n < 100
    ensures |Padded(n, 2)| == 2 && ParseUnsigned(Padded(n, 2)) == Some(n)
  {
    assert Pow10(2) == 100;
    PaddedParses(n, 2);
  }

  lemma ClockFields(h: nat, m: nat, s: nat)
    requires h < 24 && m < 60 && s < 60
    ensures |Padded(h, 2)| == 2 && |Padded(m, 2)| == 2 && |Padded(s, 2)| == 2
    ensures ParseUnsigned(Padded(h, 2)) == Some(h) && ParseUnsigned(Padded(m, 2)) == Some(m) && ParseUnsigned(Padded(s, 2)) == Some(s)
  {
    TwoDigits(h);
    TwoDigits(m);
    TwoDigits(s);
  }

  lemma MinusUnparsed(s: string)
    requires s != [] && s[0] == '-'
    ensures ParseUnsigned(s) == None
  {
    assert !IsDigit(s[0]);
    assert !AllDigits(s);
  }

  /** The years whose padded text is four characters long. */
  lemma YearText(year: int)
    ensures |Padded(year, 4)| == 4 <==> -1000 < year < 10000
    ensures 0 <= year < 10000 ==> ParseUnsigned(Padded(year, 4)) == Some(year)
    ensures -1000 < year < 0 ==> ParseUnsigned(Padded(year, 4)) == None
  {
    assert Pow10(4) == 10000 && Pow10(3) == 1000;
    if year >= 10000 {
      PaddedOverflows(year, 4);
    } else if year >= 0 {
      PaddedParses(year, 4);
    } else {
      if -year >= 1000 {
        PaddedOverflows(-year, 3);
      } else {
        PaddedParses(-year, 3);
      }
      assert Padded(year, 4) == "-" + Padded(-year, 3);
      MinusUnparsed(Padded(year, 4));
    }
  }

  /** Fields of a date and a time of day are admitted exactly when the year is positive and has four digits. */
  lemma FieldsOf(d: Date, h: nat, m: nat, s: nat)
    requires ValidDate(d) && h < 24 && m < 60 && s < 60
    ensures |Padded(d.month, 2)| == 2 && |Padded(d.day, 2)| == 2 && |Padded(h, 2)| == 2 && |Padded(m, 2)| == 2 && |Padded(s, 2)| == 2
    ensures |Padded(d.year, 4)| == 4 ==>
              (FieldsAdmitted(Padded(d.year, 4), Padded(d.month, 2), Padded(d.day, 2), Padded(h, 2), Padded(m, 2), Padded(s, 2))
               <==> 1 <= d.year)
  {
    TwoDigits(d.month);
    TwoDigits(d.day);
    ClockFields(h, m, s);
    YearText(d.year);
  }

  /** Generated timestamps pass the validator exactly in the years 1 to 9999. */
  lemma GeneratedTimestampAccepted(seconds: int)
    ensures IsRfc3339Utc(Rfc3339(seconds)) <==> 1 <= CivilFromDaysTruncating(seconds / 86400).year <= 9999
  {
    var d, s := CivilFromDaysTruncating(seconds / 86400), seconds % 86400;
    ConversionExact(seconds / 86400);
    var h, m, n := s / 3600, (s % 3600) / 60, s % 60;
    FieldsOf(d, h, m, n);
    YearText(d.year);
    TimestampFields(Padded(d.year, 4), Padded(d.month, 2), Padded(d.day, 2), Padded(h, 2), Padded(m, 2), Padded(n, 2));
  }

  /** Read field by field, with the calendar's own day count, the text names this second. */
  ghost predicate ReadsAs(y: string, m: string, d: string, h: string, n: string, s: string, seconds: int) {
    var year, month, day := ParseUnsigned(y), ParseUnsigned(m), ParseUnsigned(d);
    var hour, minute, second := ParseUnsigned(h), ParseUnsigned(n), ParseUnsigned(s);
    && year.Some? && month.Some? && day.Some? && hour.Some? && minute.Some? && second.Some?
    && hour.value < 24 && minute.value < 60 && second.value < 60 && ValidDate(Date(year.value, month.value, day.value))
    && DayNumber(Date(year.value, month.value, day.value)) * 86400 + hour.value * 3600 + minute.value * 60 + second.value == seconds
  }

  lemma FieldsRead(d: Date, h: nat, n: nat, s: nat)
    requires ValidDate(d) && 0 <= d.year < 10000 && h < 24 && n < 60 && s < 60
    ensures ReadsAs(Padded(d.year, 4), Padded(d.month, 2), Padded(d.day, 2), Padded(h, 2), Padded(n, 2), Padded(s, 2),
                    DayNumber(d) * 86400 + h * 3600 + n * 60 + s)
    ensures |Padded(d.year, 4)| == 4 && |Padded(d.month, 2)| == 2 && |Padded(d.day, 2)| == 2
    ensures |Padded(h, 2)| == 2 && |Padded(n, 2)| == 2 && |Padded(s, 2)| == 2
  {
    TwoDigits(d.month);
    TwoDigits(d.day);
    ClockFields(h, n, s);
    YearText(d.year);
    hide Padded, ParseUnsigned, ValidDate, DayNumber;
    assert Date(d.year, d.month, d.day) == d;
  }

  lemma ClockParts(second: nat)
    ensures second / 3600 * 3600 + (second % 3600) / 60 * 60 + second % 60 == second
  {
    assert second == second / 3600 * 3600 + second % 3600;
    assert (second % 3600) % 60 == second % 60;
  }

  lemma FieldsStand(y: string, m: string, d: string, h: string, n: string, s: string)
    requires |y| == 4 && |m| == 2 && |d| == 2 && |h| == 2 && |n| == 2 && |s| == 2
    ensures var t := y + "-" + m + "-" + d + "T" + h + ":" + n + ":" + s + "Z";
            |t| == 20 && t[0..4] == y && t[5..7] == m && t[8..10] == d && t[11..13] == h && t[14..16] == n && t[17..19] == s
    ensures var t := y + m + d + "-" + (h + n + s);
            |t| == 15 && t[0..4] == y && t[4..6] == m && t[6..8] == d && t[9..11] == h && t[11..13] == n && t[13..15] == s
  {
  }

  /** A timestamp in a year of four digits reads back as the second it was made from. */
  lemma TimestampReadsBack(seconds: int)
    requires 0 <= CivilFromDaysTruncating(seconds / 86400).year < 10000
    ensures var t := Rfc3339(seconds);
            |t| == 20 && ReadsAs(t[0..4], t[5..7], t[8..10], t[11..13], t[14..16], t[17..19], seconds)
  {
    var days, second := seconds / 86400, seconds % 86400;
    var d := CivilFromDaysTruncating(days);
    ConversionExact(days);
    ClockParts(second);
    FieldsRead(d, second / 3600, (second % 3600) / 60, second % 60);
    hide Padded, ReadsAs, CivilFromDaysTruncating, DayNumber;
    FieldsStand(Padded(d.year, 4), Padded(d.month, 2), Padded(d.day, 2),
                Padded(second / 3600, 2), Padded((second % 3600) / 60, 2), Padded(second % 60, 2));
    assert days * 86400 + second == seconds;
  }

  /** A run stamp through the year 9999 reads back as the second it was made from. */
  lemma StampReadsBack(seconds: nat)
    requires seconds < SECONDS_TO_YEAR_10000
    ensures var t := UtcRunStamp(seconds);
            |t| == 15 && ReadsAs(t[0..4], t[4..6], t[6..8], t[9..11], t[11..13], t[13..15], seconds)
  {
    var days, second := seconds / 86400, seconds % 86400;
    var d := CivilFromSeconds(seconds);
    FourDigitYear(seconds);
    StampAgrees(seconds);
    ConversionExact(days);
    ClockParts(second);
    FieldsRead(d, second / 3600, (second % 3600) / 60, second % 60);
    hide Padded, ReadsAs, CivilFromSeconds, DayNumber, CivilFromDaysFlooring;
    FieldsStand(Padded(d.year, 4), Padded(d.month, 2), Padded(d.day, 2),
                Padded(second / 3600, 2), Padded((second % 3600) / 60, 2), Padded(second % 60, 2));
    assert days * 86400 + second == seconds;
  }

  /** The evidence writer's rendering, with milliseconds. */
  function IsoFromUnixParts(seconds: int, millis: int): string {
    var d, s := CivilFromDaysFlooring(seconds / 86400), seconds % 86400;
    Padded(d.year, 4) + "-" + Padded(d.month, 2) + "-" + Padded(d.day, 2) + "T" + Padded(s / 3600, 2) + ":"
    + Padded((s % 3600) / 60, 2) + ":" + Padded(s % 60, 2) + "." + Padded(millis, 3) + "Z"
  }

  /** The two renderings name the same second, digit for digit, for every second before and after the epoch. */
  lemma RenderingsAgree(seconds: int, millis: int)
    ensures var t := Rfc3339(seconds);
            t != [] && IsoFromUnixParts(seconds, millis) == t[..|t| - 1] + "." + Padded(millis, 3) + "Z"
  {
    ConversionsAgree(seconds / 86400);
  }
}

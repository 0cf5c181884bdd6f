/**
  The text form of a moment (cli/support.rs) and its order as text, on which the order of
  workflow plans relies (session_repository/load.rs).
*/
module Timestamps {
  import opened CivilDate

  // ----- text order ---------------------------------------------------------------

  /** Byte-wise order of text, as in SQLite's default collation. */
  predicate TextBefore(a: string, b: string) {
    if b == "" then false
    else if a == "" then true
    else a[0] < b[0] || (a[0] == b[0] && TextBefore(a[1..], b[1..]))
  }

  /** Fields of equal width: the first one that differs decides. */
  lemma {:induction false} EarlierFieldDecides(a: string, b: string, s: string, t: string)
    requires |a| == |b| && TextBefore(a, b)
    ensures TextBefore(a + s, b + t)
  {
    assert (a + s)[0] == a[0] && (b + t)[0] == b[0];
    if a[0] == b[0] {
      EarlierFieldDecides(a[1..], b[1..], s, t);
      assert (a + s)[1..] == a[1..] + s && (b + t)[1..] == b[1..] + t;
    }
  }

  lemma {:induction false} LaterFieldDecides(a: string, s: string, t: string)
    requires TextBefore(s, t)
    ensures TextBefore(a + s, a + t)
  {
    if a == "" {
      assert a + s == s && a + t == t;
    } else {
      LaterFieldDecides(a[1..], s, t);
      assert (a + s)[1..] == a[1..] + s && (a + t)[1..] == a[1..] + t;
    }
  }

  // ----- padded numbers -------------------------------------------------------------

  function Digit(d: int): char
    requires 0 <= d <= 9
  {
    '0' + d as char
  }

  function Digits(n: nat): string {
    if n < 10 then [Digit(n)] else Digits(n / 10) + [Digit(n % 10)]
  }

  /** Rust's `{:0width}`, where a sign counts towards the width. */
  function Padded(n: int, width: nat): string {
    if n < 0 then "-" + ZeroFilled(-n, if width > 0 then width - 1 else 0) else ZeroFilled(n, width)
  }

  function ZeroFilled(n: nat, width: nat): string {
    var digits := Digits(n);
    seq(if |digits| < width then width - |digits| else 0, _ => '0') + digits
  }

  function PowerOfTen(width: nat): nat {
    if width == 0 then 1 else 10 * PowerOfTen(width - 1)
  }

  lemma {:induction false} PaddedByParts(n: nat, width: nat)
    requires n < PowerOfTen(width) && width >= 1
    ensures |Padded(n, width)| == width
    ensures width >= 2 ==> Padded(n, width) == Padded(n / 10, width - 1) + [Digit(n % 10)]
  {
    if width >= 2 {
      PaddedByParts(n / 10, width - 1);
      if n < 10 {
        assert Digits(n / 10) == [Digit(0)];
      }
    }
  }

  /** Padding makes the order of text the order of numbers. */
  lemma {:induction false} PaddedIsOrdered(n: nat, m: nat, width: nat)
    requires n < m < PowerOfTen(width)
    ensures TextBefore(Padded(n, width), Padded(m, width))
  {
    PaddedByParts(n, width);
    PaddedByParts(m, width);
    if width >= 2 {
      PaddedByParts(n / 10, width - 1);
      PaddedByParts(m / 10, width - 1);
      if n / 10 < m / 10 {
        PaddedIsOrdered(n / 10, m / 10, width - 1);
        EarlierFieldDecides(Padded(n / 10, width - 1), Padded(m / 10, width - 1), [Digit(n % 10)], [Digit(m % 10)]);
      } else {
        LaterFieldDecides(Padded(n / 10, width - 1), [Digit(n % 10)], [Digit(m % 10)]);
      }
    }
  }

  // ----- moments -----------------------------------------------------------------------

  datatype Moment = Moment(year: int, month: int, day: int, hour: int, minute: int, second: int)

  /** `time_from_unix`; the divisions are Euclidean in the code as well. */
  function TimeFromUnix(seconds: int): Moment {
    var date := CivilFromDays(seconds / 86400);
    var rest := seconds % 86400;
    Moment(date.year, date.month, date.day, rest / 3600, rest % 3600 / 60, rest % 60)
  }

  /** `as i64`. */
  function AsI64(n: int): int {
    (n + 0x8000_0000_0000_0000) % 0x1_0000_0000_0000_0000 - 0x8000_0000_0000_0000
  }

  /** A number printed with a minimum width, and the character after it. */
  datatype Field = Field(value: int, width: nat, after: char)

  /** What `timestamp` prints. */
  function Fields(millis: nat): seq<Field> {
    var m := TimeFromUnix(AsI64(millis / 1000));
    [Field(m.year, 4, '-'), Field(m.month, 2, '-'), Field(m.day, 2, 'T'),
     Field(m.hour, 2, ':'), Field(m.minute, 2, ':'), Field(m.second, 2, '.'), Field(millis % 1000, 3, 'Z')]
  }

  function Print(fields: seq<Field>): string {
    if fields == [] then ""
    else Padded(fields[0].value, fields[0].width) + ([fields[0].after] + Print(fields[1..]))
  }

  /** `timestamp` at `millis` milliseconds after the epoch. */
  function Timestamp(millis: nat): string {
    Print(Fields(millis))
  }

  /** 9999-12-31T23:59:59.999Z. */
  const LAST_MILLI: nat := 253402300799999

  lemma LastDays()
    ensures Civil(2932896) == Date(9999, 12, 31) && Civil(2932897) == Date(10000, 1, 1)
  {
    CivilOfParts(2932896, 24, 146036, 3, 24, 3, 305);
    CivilOfParts(2932897, 24, 146037, 3, 24, 3, 306);
  }

  lemma YearsUpTo10000(days: nat)
    requires days <= 2932897
    ensures 1970 <= Civil(days).year <= (if days <= 2932896 then 9999 else 10000)
    ensures 1 <= Civil(days).month <= 12 && 1 <= Civil(days).day <= 31
    ensures CivilFromDays(days) == Civil(days)
  {
    CivilIsValid(days);
    LastDays();
    EpochIsDayZero();
    hide Civil;
    if 0 < days {
      LaterDaysAreLaterDates(0, days);
    }
    if days < 2932896 {
      LaterDaysAreLaterDates(days, 2932896);
    }
  }

  lemma SecondsFit(millis: nat)
    requires millis <= LAST_MILLI + 1
    ensures AsI64(millis / 1000) == millis / 1000 && millis / 1000 / 86400 == millis / 86400000
    ensures millis / 86400000 <= (if millis <= LAST_MILLI then 2932896 else 2932897)
  {
  }

  predicate FitTheirWidth(fields: seq<Field>) {
    forall i :: 0 <= i < |fields| ==> 0 <= fields[i].value < PowerOfTen(fields[i].width)
  }

  lemma FieldsFit(millis: nat)
    requires millis <= LAST_MILLI
    ensures FitTheirWidth(Fields(millis))
  {
    hide CivilFromDays, AsI64;
    SecondsFit(millis);
    YearsUpTo10000(millis / 86400000);
    hide Civil;
    assert PowerOfTen(2) == 100 && PowerOfTen(3) == 1000 && PowerOfTen(4) == 10000;
  }

  // ----- the order -------------------------------------------------------------------------

  /** The first `k` fields agree, and field `k` of `f` is smaller. */
  predicate DifferFirstAt(f: seq<Field>, g: seq<Field>, k: nat) {
    && k < |f| == |g|
    && (forall i :: 0 <= i < k ==> f[i] == g[i])
    && (forall i :: 0 <= i < |f| ==> f[i].width == g[i].width)
    && f[k].value < g[k].value
  }

  lemma {:induction false} PrintingKeepsTheOrder(f: seq<Field>, g: seq<Field>, k: nat)
    requires FitTheirWidth(f) && FitTheirWidth(g) && DifferFirstAt(f, g, k)
    requires forall i :: 0 <= i < |f| ==> f[i].width >= 1
    ensures TextBefore(Print(f), Print(g))
  {
    if k == 0 {
      PaddedByParts(f[0].value, f[0].width);
      PaddedByParts(g[0].value, g[0].width);
      PaddedIsOrdered(f[0].value, g[0].value, f[0].width);
      EarlierFieldDecides(Padded(f[0].value, f[0].width), Padded(g[0].value, g[0].width),
                          [f[0].after] + Print(f[1..]), [g[0].after] + Print(g[1..]));
    } else {
      PrintingKeepsTheOrder(f[1..], g[1..], k - 1);
      LaterFieldDecides([f[0].after], Print(f[1..]), Print(g[1..]));
      LaterFieldDecides(Padded(f[0].value, f[0].width), [f[0].after] + Print(f[1..]), [g[0].after] + Print(g[1..]));
    }
  }

  lemma LaterSecond(r: nat, s: nat) returns (k: nat)
    requires r < s < 86400
    ensures 3 <= k <= 5
    ensures k == 3 ==> r / 3600 < s / 3600
    ensures k == 4 ==> r / 3600 == s / 3600 && r % 3600 / 60 < s % 3600 / 60
    ensures k == 5 ==> r / 3600 == s / 3600 && r % 3600 / 60 == s % 3600 / 60 && r % 60 < s % 60
  {
    var (h, i) := (r / 3600, s / 3600);
    var (p, q) := (r % 3600, s % 3600);
    assert r == 3600 * h + p && s == 3600 * i + q;
    k := if h < i then 3 else if p / 60 < q / 60 then 4 else 5;
    assert p % 60 == r % 60 && q % 60 == s % 60;
  }

  lemma SecondOfDay(a: nat)
    ensures a / 1000 == 86400 * (a / 86400000) + a / 1000 % 86400
  {
    assert a / 1000 / 86400 == a / 86400000;
  }

  /** The fields of a moment up to year 9999, without casts. */
  lemma FieldsOf(millis: nat)
    requires millis <= LAST_MILLI
    ensures var date := Civil(millis / 86400000);
            var rest := millis / 1000 % 86400;
            Fields(millis) ==
              [Field(date.year, 4, '-'), Field(date.month, 2, '-'), Field(date.day, 2, 'T'), Field(rest / 3600, 2, ':'),
               Field(rest % 3600 / 60, 2, ':'), Field(rest % 60, 2, '.'), Field(millis % 1000, 3, 'Z')]
  {
    SecondsFit(millis);
    YearsUpTo10000(millis / 86400000);
    hide Civil, CivilFromDays, AsI64;
  }

  lemma SameDayDiffers(a: nat, b: nat) returns (k: nat)
    requires a < b <= LAST_MILLI && a / 86400000 == b / 86400000
    ensures DifferFirstAt(Fields(a), Fields(b), k)
  {
    hide Civil, Fields;
    FieldsOf(a);
    FieldsOf(b);
    SecondOfDay(a);
    SecondOfDay(b);
    assert a / 1000 <= b / 1000;
    if a / 1000 == b / 1000 {
      k := 6;
    } else {
      k := LaterSecond(a / 1000 % 86400, b / 1000 % 86400);
    }
  }

  lemma LaterDayDiffers(a: nat, b: nat) returns (k: nat)
    requires a < b <= LAST_MILLI && a / 86400000 < b / 86400000
    ensures DifferFirstAt(Fields(a), Fields(b), k)
  {
    hide Civil, Fields;
    FieldsOf(a);
    FieldsOf(b);
    LaterDaysAreLaterDates(a / 86400000, b / 86400000);
    var d, e := Civil(a / 86400000), Civil(b / 86400000);
    k := if d.year < e.year then 0 else if d.month < e.month then 1 else 2;
  }

  lemma FieldsDiffer(a: nat, b: nat) returns (k: nat)
    requires a < b <= LAST_MILLI
    ensures DifferFirstAt(Fields(a), Fields(b), k)
  {
    hide Fields, DifferFirstAt;
    if a / 86400000 == b / 86400000 {
      k := SameDayDiffers(a, b);
    } else {
      k := LaterDayDiffers(a, b);
    }
  }

  /** Later moments have later texts, to the end of year 9999. */
  lemma TimestampsAreOrdered(a: nat, b: nat)
    requires a < b <= LAST_MILLI
    ensures TextBefore(Timestamp(a), Timestamp(b))
  {
    hide TimeFromUnix, AsI64;
    var k := FieldsDiffer(a, b);
    FieldsFit(a);
    FieldsFit(b);
    PrintingKeepsTheOrder(Fields(a), Fields(b), k);
  }

  /** One millisecond later the order breaks: 10000 has five digits. */
  lemma FiveDigitYearsSortFirst()
    ensures TextBefore(Timestamp(LAST_MILLI + 1), Timestamp(LAST_MILLI))
  {
    hide Fields, Print, TextBefore, Civil;
    LastDays();
    YearField(LAST_MILLI);
    YearField(LAST_MILLI + 1);
    FiveDigitsSortFirst(Fields(LAST_MILLI + 1), Fields(LAST_MILLI));
  }

  lemma FiveDigitsSortFirst(f: seq<Field>, g: seq<Field>)
    requires f != [] && g != [] && f[0].width == g[0].width == 4
    requires f[0].value == 10000 && g[0].value == 9999
    ensures TextBefore(Print(f), Print(g))
  {
    FirstDigits();
    hide Padded;
    PrintStartsWithTheYear(f);
    PrintStartsWithTheYear(g);
  }

  lemma YearField(millis: nat)
    requires millis <= LAST_MILLI + 1
    ensures Fields(millis) != [] && Fields(millis)[0] == Field(Civil(millis / 86400000).year, 4, '-')
  {
    SecondsFit(millis);
    YearsUpTo10000(millis / 86400000);
    hide AsI64, CivilFromDays, Civil;
  }

  lemma PrintStartsWithTheYear(f: seq<Field>)
    requires f != [] && Padded(f[0].value, f[0].width) != ""
    ensures Print(f) != "" && Print(f)[0] == Padded(f[0].value, f[0].width)[0]
  {
  }

  lemma FirstDigits()
    ensures Padded(10000, 4) != "" && Padded(9999, 4) != ""
    ensures Padded(10000, 4)[0] == '1' && Padded(9999, 4)[0] == '9'
  {
    assert Digits(1000) == Digits(100) + ['0'];
    assert Digits(100) == Digits(10) + ['0'];
    assert Digits(10) == ['1', '0'];
    assert Digits(9999) == Digits(999) + ['9'];
    assert Digits(999) == Digits(99) + ['9'];
    assert Digits(99) == ['9', '9'];
  }

  /** Text order is time order exactly as long as no moment lies beyond year 9999. */
  lemma OrderHoldsIff(last: nat)
    ensures (forall a: nat, b: nat | a < b <= last :: TextBefore(Timestamp(a), Timestamp(b))) <==> last <= LAST_MILLI
  {
    if last <= LAST_MILLI {
      forall a: nat, b: nat | a < b <= last ensures TextBefore(Timestamp(a), Timestamp(b)) {
        TimestampsAreOrdered(a, b);
      }
    } else {
      FiveDigitYearsSortFirst();
      OrderIsOneWay(Timestamp(LAST_MILLI), Timestamp(LAST_MILLI + 1));
    }
  }

  lemma {:induction false} OrderIsOneWay(a: string, b: string)
    requires TextBefore(b, a)
    ensures !TextBefore(a, b)
  {
    if a != "" && b != "" && a[0] == b[0] {
      OrderIsOneWay(a[1..], b[1..]);
    }
  }

  // ----- reading a timestamp back ----------------------------------------------------------

  predicate AllDigits(text: string) {
    forall i :: 0 <= i < |text| ==> '0' <= text[i] <= '9'
  }

  /** The number that decimal digits stand for. */
  function Decimal(text: string): int {
    if text == "" then 0 else 10 * Decimal(text[..|text| - 1]) + (text[|text| - 1] as int - 48)
  }

  lemma {:induction false} PaddedReadsBack(n: nat, width: nat)
    requires n < PowerOfTen(width) && width >= 1
    ensures |Padded(n, width)| == width && AllDigits(Padded(n, width)) && Decimal(Padded(n, width)) == n
  {
    PaddedByParts(n, width);
    if width >= 2 {
      PaddedReadsBack(n / 10, width - 1);
      DigitReadsBack(Padded(n / 10, width - 1), n % 10);
      hide Padded, Decimal;
      assert n == 10 * (n / 10) + n % 10;
    } else {
      assert Padded(n, width) == "" + [Digit(n)];
      DigitReadsBack("", n);
    }
  }

  lemma DigitReadsBack(front: string, d: int)
    requires 0 <= d <= 9 && AllDigits(front)
    ensures AllDigits(front + [Digit(d)]) && Decimal(front + [Digit(d)]) == 10 * Decimal(front) + d
  {
    assert (front + [Digit(d)])[..|front|] == front;
  }

  /** YYYY-MM-DDTHH:MM:SS.mmmZ. */
  predicate Layout(t: string) {
    && |t| == 24
    && t[4] == '-' && t[7] == '-' && t[10] == 'T' && t[13] == ':' && t[16] == ':' && t[19] == '.' && t[23] == 'Z'
    && AllDigits(t[..4]) && AllDigits(t[5..7]) && AllDigits(t[8..10])
    && AllDigits(t[11..13]) && AllDigits(t[14..16]) && AllDigits(t[17..19]) && AllDigits(t[20..23])
  }

  /** The milliseconds since the epoch that such a text stands for. */
  function ReadBack(t: string): int
    requires Layout(t)
  {
    86400000 * DayNumber(Date(Decimal(t[..4]), Decimal(t[5..7]), Decimal(t[8..10])))
    + 3600000 * Decimal(t[11..13]) + 60000 * Decimal(t[14..16]) + 1000 * Decimal(t[17..19]) + Decimal(t[20..23])
  }

  lemma PrintedField(field: Field, rest: seq<Field>, t: string)
    requires FitTheirWidth([field]) && field.width >= 1 && t == Print([field] + rest)
    ensures |t| >= field.width + 1 && t[field.width] == field.after && t[field.width + 1..] == Print(rest)
    ensures AllDigits(t[..field.width]) && Decimal(t[..field.width]) == field.value
  {
    assert field == [field][0];
    PaddedReadsBack(field.value, field.width);
    hide Padded, Decimal;
    assert ([field] + rest)[1..] == rest;
    assert t == Padded(field.value, field.width) + ([field.after] + Print(rest));
    assert t[..field.width] == Padded(field.value, field.width);
  }

  /** The printed fields, cut out of the text at their places. */
  lemma PrintedMoment(f: seq<Field>, t: string)
    requires |f| == 7 && FitTheirWidth(f) && t == Print(f)
    requires f[0].width == 4 && f[6].width == 3 && forall i :: 1 <= i < 6 ==> f[i].width == 2
    requires f[0].after == f[1].after == '-' && f[2].after == 'T' && f[3].after == f[4].after == ':'
    requires f[5].after == '.' && f[6].after == 'Z'
    ensures Layout(t)
    ensures Decimal(t[..4]) == f[0].value && Decimal(t[5..7]) == f[1].value && Decimal(t[8..10]) == f[2].value
    ensures Decimal(t[11..13]) == f[3].value && Decimal(t[14..16]) == f[4].value && Decimal(t[17..19]) == f[5].value
    ensures Decimal(t[20..23]) == f[6].value
  {
    hide Print, Decimal, AllDigits;
    CutField(f, 0, t, 0, 4);
    CutField(f, 1, t, 5, 2);
    CutField(f, 2, t, 8, 2);
    CutField(f, 3, t, 11, 2);
    CutField(f, 4, t, 14, 2);
    CutField(f, 5, t, 17, 2);
    CutField(f, 6, t, 20, 3);
    NothingIsNothing(f, t[24..]);
  }

  lemma NothingIsNothing(f: seq<Field>, t: string)
    requires t == Print(f[|f|..])
    ensures t == ""
  {
  }

  /** Field `i` is printed at position `at`. */
  lemma CutField(f: seq<Field>, i: nat, t: string, at: nat, width: nat)
    requires i < |f| && f[i].width == width >= 1 && 0 <= f[i].value < PowerOfTen(width)
    requires at <= |t| && t[at..] == Print(f[i..])
    ensures |t| >= at + width + 1 && t[at + width] == f[i].after && t[at + width + 1..] == Print(f[i + 1..])
    ensures AllDigits(t[at..at + width]) && Decimal(t[at..at + width]) == f[i].value
  {
    assert f[i..] == [f[i]] + f[i + 1..];
    PrintedField(f[i], f[i + 1..], t[at..]);
    assert t[at..][..width] == t[at..at + width];
    assert t[at..][width + 1..] == t[at + width + 1..];
  }

  /** Up to year 9999 a timestamp has the layout of RFC 3339 with three digits of a second in UTC, and reading it back by the
      calendar gives the millisecond that it stands for. */
  lemma TimestampReadsBack(millis: nat)
    requires millis <= LAST_MILLI
    ensures Layout(Timestamp(millis)) && ReadBack(Timestamp(millis)) == millis
  {
    hide Print, Decimal, AllDigits, DayNumber, Civil, PowerOfTen;
    FieldsFit(millis);
    FieldsOf(millis);
    PrintedMoment(Fields(millis), Timestamp(millis));
    hide Fields, Layout;
    CountingUndoesCivil(millis / 86400000);
    SecondsAddUp(millis);
  }

  lemma SecondsAddUp(millis: nat)
    ensures var rest := millis / 1000 % 86400;
            86400000 * (millis / 86400000)
            + 3600000 * (rest / 3600) + 60000 * (rest % 3600 / 60) + 1000 * (rest % 60) + millis % 1000 == millis
  {
    SecondOfDay(millis);
    var rest := millis / 1000 % 86400;
    assert rest % 60 == rest % 3600 % 60;
  }
}

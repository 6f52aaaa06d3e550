/**
 The relay's log timestamp: day numbers to proleptic Gregorian dates by a closed form, and its
 RFC 3339 text. The reference is plain day counting.
 */
module Calendar {

  datatype Date = Date(year: int, month: nat, day: nat)

  // ---- the calendar (RFC 3339 section 5.7 and Appendix C) ----

  predicate IsLeap(year: int) {
    year % 4 == 0 && (year % 100 != 0 || year % 400 == 0)
  }

  function DaysInMonth(year: int, month: nat): nat {
    if month == 2 then if IsLeap(year) then 29 else 28
    else if month == 4 || month == 6 || month == 9 || month == 11 then 30
    else 31
  }

  predicate IsDate(d: Date) {
    1 <= d.month <= 12 && 1 <= d.day <= DaysInMonth(d.year, d.month)
  }

  function NextDay(d: Date): Date {
    if d.day < DaysInMonth(d.year, d.month) then d.(day := d.day + 1)
    else if d.month < 12 then Date(d.year, d.month + 1, 1)
    else Date(d.year + 1, 1, 1)
  }

  function PreviousDay(d: Date): Date {
    if d.day > 1 then Date(d.year, d.month, d.day - 1)
    else if d.month > 1 then Date(d.year, d.month - 1, DaysInMonth(d.year, d.month - 1))
    else Date(d.year - 1, 12, 31)
  }

  // Counting days one by one from 1970-01-01.
  function Counted(z: int): Date
    decreases if z < 0 then -z else z
  {
    if z == 0 then Date(1970, 1, 1)
    else if z > 0 then NextDay(Counted(z - 1))
    else PreviousDay(Counted(z + 1))
  }

  // ---- the closed form ----

  // The unsigned steps: every subtraction is on natural numbers.
  function YearOfEra(doe: nat): nat
    requires doe < 146_097
  {
    var a: nat := doe - doe / 1460;
    var b: nat := a + doe / 36_524;
    var c: nat := b - doe / 146_096;
    c / 365
  }

  // The days of an era before its year `yoe`; years begin in March.
  function YearStart(yoe: nat): nat {
    365 * yoe + yoe / 4 - yoe / 100
  }

  lemma YearStartOf(c: nat, q: nat, t: nat)
    requires q < 25 && t < 4
    ensures YearStart(100 * c + 4 * q + t) == 36_524 * c + 1461 * q + 365 * t
  {
    var y := 100 * c + 4 * q + t;
    assert y / 4 == 25 * c + q;
    assert y / 100 == c;
  }

  // How many of the groups of 1,460 days the day is past; `carry` is one in the last days of a century.
  lemma GroupsOf(doe: nat, c: nat, q: nat, s: nat) returns (carry: nat)
    requires doe == 36_524 * c + 1461 * q + s && c < 4 && 1461 * q + s < 36_524 && s <= 1460 && q < 25
    ensures carry <= 1 && (carry == 1 <==> 24 * c + q + s >= 1460)
    ensures doe / 1460 == 25 * c + q + carry && doe / 36_524 == c
  {
    carry := if 24 * c + q + s >= 1460 then 1 else 0;
    assert doe == 1460 * (25 * c + q + carry) + (24 * c + q + s - 1460 * carry);
  }

  // A day of an era, split into centuries of 36,524 days, four-year groups of 1,461 and years of 365.
  lemma SplitDay(doe: nat, c: nat, q: nat, t: nat, u: nat)
    requires doe == 36_524 * c + 1461 * q + 365 * t + u && doe < 146_096
    requires c < 4 && q < 25 && t < 4 && u <= 365 && (u == 365 ==> t == 3)
    requires 1461 * q + 365 * t + u < 36_524
    ensures YearOfEra(doe) == 100 * c + 4 * q + t
    ensures YearStart(100 * c + 4 * q + t) == doe - u
  {
    var carry := GroupsOf(doe, c, q, 365 * t + u);
    YearStartOf(c, q, t);
    assert doe / 146_096 == 0;
    assert doe - doe / 1460 + doe / 36_524 == 365 * (100 * c + 4 * q + t) + (u - carry);
    assert 0 <= u - carry < 365;
  }

  // The year of the era is the one whose days contain `doe`: the closed form inverts the count of
  // days before each year. The era's own leap day is day 365 of its last year.
  lemma YearOfEraIsRight(doe: nat)
    requires doe < 146_097
    ensures var yoe := YearOfEra(doe);
            0 <= yoe < 400 && YearStart(yoe) <= doe
            && (doe < YearStart(yoe + 1) || (yoe == 399 && doe == 146_096))
  {
    if doe < 146_096 {
      var c := doe / 36_524;
      var r := doe % 36_524;
      var q := r / 1461;
      var s := r % 1461;
      var t: nat := if s == 1460 then 3 else s / 365;
      SplitDay(doe, c, q, t, s - 365 * t);
      var yoe := 100 * c + 4 * q + t;
      assert (yoe + 1) / 4 == 25 * c + q + (if t == 3 then 1 else 0);
      assert (yoe + 1) / 100 == c + (if q == 24 && t == 3 then 1 else 0);
    }
  }

  // Days of the year that starts on 1 March of `y`: its February is in year y + 1.
  function MarchYearLength(y: int): nat {
    if IsLeap(y + 1) then 366 else 365
  }

  // Day `doy` of that year as a date; the month arithmetic of the closed form.
  function FromMarch(y: int, doy: nat): Date
    requires doy <= 365
  {
    var mp := (5 * doy + 2) / 153;
    var d: nat := doy - (153 * mp + 2) / 5 + 1;
    var m: nat := if mp < 10 then mp + 3 else mp - 9;
    Date(if m <= 2 then y + 1 else y, m, d)
  }

  // The March year of day `z` and the day within it: the first half of the closed form. Inside,
  // YearOfEraIsRight is why no unsigned subtraction underflows.
  function MarchDay(z: int): (r: (int, nat))
    ensures Position(z, r.0, r.1)
  {
    var shifted := z + 719_468;
    var era := shifted / 146_097;
    var doe: nat := shifted % 146_097;
    YearOfEraIsRight(doe);
    var yoe: nat := YearOfEra(doe);
    var y := yoe + era * 400;
    var doy: nat := doe - YearStart(yoe);
    PositionInEra(z, era, doe, yoe);
    (y, doy)
  }

  function CivilFromDays(z: int): Date {
    var (y, doy) := MarchDay(z);
    FromMarch(y, doy)
  }

  // ---- why it counts days ----

  // The months from March on, without the division.
  function ByMonth(y: int, doy: nat): Date {
    if doy < 31 then Date(y, 3, doy + 1)
    else if doy < 61 then Date(y, 4, doy - 30)
    else if doy < 92 then Date(y, 5, doy - 60)
    else if doy < 122 then Date(y, 6, doy - 91)
    else if doy < 153 then Date(y, 7, doy - 121)
    else if doy < 184 then Date(y, 8, doy - 152)
    else if doy < 214 then Date(y, 9, doy - 183)
    else if doy < 245 then Date(y, 10, doy - 213)
    else if doy < 275 then Date(y, 11, doy - 244)
    else if doy < 306 then Date(y, 12, doy - 274)
    else if doy < 337 then Date(y + 1, 1, doy - 305)
    else Date(y + 1, 2, doy - 336)
  }

  lemma MonthArithmetic(y: int, doy: nat)
    requires doy <= 365
    ensures FromMarch(y, doy) == ByMonth(y, doy)
  {
    var mp := (5 * doy + 2) / 153;
    assert mp ==
      if doy < 31 then 0
      else if doy < 61 then 1
      else if doy < 92 then 2
      else if doy < 122 then 3
      else if doy < 153 then 4
      else if doy < 184 then 5
      else if doy < 214 then 6
      else if doy < 245 then 7
      else if doy < 275 then 8
      else if doy < 306 then 9
      else if doy < 337 then 10
      else 11;
  }

  lemma MonthsFollow(y: int, doy: nat)
    requires doy < MarchYearLength(y)
    ensures IsDate(ByMonth(y, doy))
    ensures NextDay(ByMonth(y, doy)) ==
            if doy + 1 < MarchYearLength(y) then ByMonth(y, doy + 1) else ByMonth(y + 1, 0)
  {
  }

  // Days from 1 March of year 0 to 1 March of year `y`.
  function DaysBefore(y: int): int {
    365 * y + y / 4 - y / 100 + y / 400
  }

  lemma NextYear(y: int)
    ensures DaysBefore(y + 1) == DaysBefore(y) + MarchYearLength(y)
  {
    NextQuotients(y);
    CenturiesAreFours(y + 1);
  }

  lemma NextQuotients(y: int)
    ensures (y + 1) / 4 == y / 4 + if (y + 1) % 4 == 0 then 1 else 0
    ensures (y + 1) / 100 == y / 100 + if (y + 1) % 100 == 0 then 1 else 0
    ensures (y + 1) / 400 == y / 400 + if (y + 1) % 400 == 0 then 1 else 0
  {
  }

  lemma CenturiesAreFours(y: int)
    ensures y % 100 == 0 ==> y % 4 == 0
    ensures y % 400 == 0 ==> y % 100 == 0
  {
    if y % 100 == 0 {
      assert y == 4 * (25 * (y / 100));
    }
    if y % 400 == 0 {
      assert y == 100 * (4 * (y / 400));
    }
  }

  lemma {:induction false} YearsAdvance(y: int, x: int)
    requires y <= x
    ensures DaysBefore(y) <= DaysBefore(x)
    decreases x - y
  {
    if y < x {
      YearsAdvance(y, x - 1);
      NextYear(x - 1);
    }
  }

  // Day `z` is day `doy` of the March year `y`.
  predicate Position(z: int, y: int, doy: nat) {
    z + 719_468 == DaysBefore(y) + doy && doy < MarchYearLength(y)
  }

  lemma OnePosition(z: int, y: int, doy: nat, y': int, doy': nat)
    requires Position(z, y, doy) && Position(z, y', doy')
    ensures y == y' && doy == doy'
  {
    NextYear(y);
    NextYear(y');
    if y < y' {
      YearsAdvance(y + 1, y');
    } else if y' < y {
      YearsAdvance(y' + 1, y);
    }
  }

  lemma EraYear(yoe: nat, era: int)
    requires yoe < 400
    ensures DaysBefore(yoe + era * 400) == YearStart(yoe) + era * 146_097
  {
    assert (yoe + era * 400) / 4 == yoe / 4 + era * 100;
    assert (yoe + era * 400) / 100 == yoe / 100 + era * 4;
    assert (yoe + era * 400) / 400 == era;
  }

  lemma LeapEvery400(x: int, k: int)
    requires x == 400 * k
    ensures IsLeap(x)
  {
    assert x == 4 * (100 * k);
    assert x % 4 == 0;
    assert x % 400 == 0;
  }

  lemma LastDayOfEra(era: int)
    ensures MarchYearLength(399 + era * 400) == 366
  {
    LeapEvery400(399 + era * 400 + 1, era + 1);
  }

  lemma ClosedFormPosition(z: int) returns (y: int, doy: nat)
    ensures Position(z, y, doy) && CivilFromDays(z) == ByMonth(y, doy)
  {
    y, doy := MarchDay(z).0, MarchDay(z).1;
    MonthArithmetic(y, doy);
  }

  lemma PositionInEra(z: int, era: int, doe: nat, yoe: nat)
    requires z + 719_468 == era * 146_097 + doe && doe < 146_097 && yoe < 400
    requires YearStart(yoe) <= doe && (doe < YearStart(yoe + 1) || (yoe == 399 && doe == 146_096))
    ensures Position(z, yoe + era * 400, doe - YearStart(yoe))
  {
    EraYear(yoe, era);
    NextYear(yoe + era * 400);
    if yoe == 399 {
      LastDayOfEra(era);
    } else {
      EraYear(yoe + 1, era);
    }
  }

  lemma NextPosition(z: int, y: int, doy: nat) returns (y': int, doy': nat)
    requires Position(z, y, doy)
    ensures Position(z + 1, y', doy') && NextDay(ByMonth(y, doy)) == ByMonth(y', doy')
    ensures IsDate(ByMonth(y, doy))
  {
    MonthsFollow(y, doy);
    NextYear(y);
    y', doy' := if doy + 1 < MarchYearLength(y) then y else y + 1, if doy + 1 < MarchYearLength(y) then doy + 1 else 0;
  }

  // One step of the closed form is one day of the calendar.
  lemma ClosedFormSteps(z: int)
    ensures IsDate(CivilFromDays(z)) && CivilFromDays(z + 1) == NextDay(CivilFromDays(z))
  {
    var y, doy := ClosedFormPosition(z);
    var y1, doy1 := ClosedFormPosition(z + 1);
    var y2, doy2 := NextPosition(z, y, doy);
    OnePosition(z + 1, y1, doy1, y2, doy2);
  }

  lemma BackAndForth(d: Date)
    requires IsDate(d)
    ensures IsDate(NextDay(d)) && PreviousDay(NextDay(d)) == d
  {
  }

  ghost predicate StepsAt(f: int -> Date, z: int) {
    IsDate(f(z)) && f(z + 1) == NextDay(f(z))
  }

  // Day counting has only one solution.
  lemma {:induction false} CountingIsUnique(f: int -> Date, z: int)
    requires f(0) == Date(1970, 1, 1) && forall k :: StepsAt(f, k)
    ensures f(z) == Counted(z)
    decreases if z < 0 then -z else z
  {
    if z > 0 {
      CountingIsUnique(f, z - 1);
      assert StepsAt(f, z - 1);
    } else if z < 0 {
      CountingIsUnique(f, z + 1);
      assert StepsAt(f, z);
      BackAndForth(f(z));
    }
  }

  lemma Epoch()
    ensures CivilFromDays(0) == Date(1970, 1, 1)
  {
    var y, doy := ClosedFormPosition(0);
    OnePosition(0, y, doy, 1969, 306);
  }

  lemma ClosedFormIsASolution(f: int -> Date)
    requires forall k :: f(k) == CivilFromDays(k)
    ensures f(0) == Date(1970, 1, 1) && forall k :: StepsAt(f, k)
  {
    Epoch();
    forall k ensures StepsAt(f, k) {
      ClosedFormSteps(k);
      assert f(k) == CivilFromDays(k) && f(k + 1) == CivilFromDays(k + 1);
    }
  }

  // For every day number the closed form is a valid Gregorian date, and it is the date reached by
  // counting days one by one from 1970-01-01, forwards or backwards.
  lemma ClosedFormCounts(z: int)
    ensures IsDate(CivilFromDays(z)) && CivilFromDays(z) == Counted(z)
  {
    ClosedFormSteps(z);
    var f := (k: int) => CivilFromDays(k);
    ClosedFormIsASolution(f);
    CountingIsUnique(f, z);
  }

  // ---- the text ----

  // The cast of an unsigned 128-bit count to a signed 64-bit one.
  function AsSigned64(n: nat): int {
    var low := n % 0x1_0000_0000_0000_0000;
    if low < 0x8000_0000_0000_0000 then low else low - 0x1_0000_0000_0000_0000
  }

  function Digit(d: nat): char
    requires d < 10
  {
    (d + '0' as int) as char
  }

  function Decimal(n: nat): (s: string)
    ensures |s| >= 1
  {
    if n < 10 then [Digit(n)] else Decimal(n / 10) + [Digit(n % 10)]
  }

  function Zeros(n: nat): (s: string)
    ensures |s| == n
  {
    if n == 0 then "" else "0" + Zeros(n - 1)
  }

  // A natural number in at least `width` digits.
  function Padded(n: nat, width: nat): string {
    var s := Decimal(n);
    if |s| < width then Zeros(width - |s|) + s else s
  }

  function YearText(y: int): string {
    if y >= 0 then Padded(y, 4) else "-" + Padded(-y, 3)
  }

  // An instant in fields.
  datatype Stamp = Stamp(date: Date, hour: nat, minute: nat, second: nat, milli: nat)

  function StampOf(millis: int): Stamp {
    var secs := millis / 1000;
    var days, secsOfDay: nat := secs / 86_400, secs % 86_400;
    Stamp(CivilFromDays(days), secsOfDay / 3600, (secsOfDay / 60) % 60, secsOfDay % 60, millis % 1000)
  }

  function StampText(s: Stamp): string {
    YearText(s.date.year) + "-" + Padded(s.date.month, 2) + "-" + Padded(s.date.day, 2) + "T"
    + Padded(s.hour, 2) + ":" + Padded(s.minute, 2) + ":" + Padded(s.second, 2) + "." + Padded(s.milli, 3) + "Z"
  }

  function FormatIso8601(millisSinceEpoch: nat): string {
    StampText(StampOf(AsSigned64(millisSinceEpoch)))
  }

  // ---- reading the text back ----

  function NumberOf(s: string): int {
    if s == "" then 0 else 10 * NumberOf(s[..|s| - 1]) + (s[|s| - 1] as int - '0' as int)
  }

  // Days before the first of each month in a year that starts on 1 March.
  function MonthOffset(month: nat): int {
    if month == 3 then 0 else if month == 4 then 31 else if month == 5 then 61 else if month == 6 then 92
    else if month == 7 then 122 else if month == 8 then 153 else if month == 9 then 184 else if month == 10 then 214
    else if month == 11 then 245 else if month == 12 then 275 else if month == 1 then 306 else 337
  }

  function DayNumber(d: Date): int {
    DaysBefore(if d.month <= 2 then d.year - 1 else d.year) + MonthOffset(d.month) + d.day - 1 - 719_468
  }

  function NaturalOf(s: string): nat {
    if NumberOf(s) < 0 then 0 else NumberOf(s)
  }

  // Field by field, at the fixed positions of RFC 3339 with a four-digit year.
  function ReadStamp(t: string): Stamp
    requires |t| == 24
  {
    Stamp(Date(NumberOf(t[..4]), NaturalOf(t[5..7]), NaturalOf(t[8..10])),
          NaturalOf(t[11..13]), NaturalOf(t[14..16]), NaturalOf(t[17..19]), NaturalOf(t[20..23]))
  }

  function MillisOf(s: Stamp): int {
    86_400_000 * DayNumber(s.date) + 3_600_000 * s.hour + 60_000 * s.minute + 1000 * s.second + s.milli
  }

  // The ranges of RFC 3339 section 5.6, with the day of the month of section 5.7.
  predicate InRange(s: Stamp) {
    0 <= s.date.year <= 9999 && IsDate(s.date) && s.hour < 24 && s.minute < 60 && s.second < 60 && s.milli < 1000
  }

  lemma DayNumberByMonth(y: int, doy: nat)
    requires doy <= 365
    ensures DayNumber(ByMonth(y, doy)) == DaysBefore(y) + doy - 719_468
  {
  }

  lemma DayNumberInverts(z: int)
    ensures DayNumber(CivilFromDays(z)) == z
  {
    var y, doy := ClosedFormPosition(z);
    DayNumberByMonth(y, doy);
  }

  lemma {:induction false} DecimalReads(n: nat)
    ensures NumberOf(Decimal(n)) == n
  {
    if n >= 10 {
      DecimalReads(n / 10);
      assert Decimal(n)[..|Decimal(n)| - 1] == Decimal(n / 10);
    } else {
      assert Decimal(n)[..0] == "";
    }
  }

  lemma {:induction false} DecimalFits(n: nat, k: nat)
    requires 1 <= k && n < Power10(k)
    ensures |Decimal(n)| <= k
  {
    if n >= 10 {
      assert Power10(k) == 10 * Power10(k - 1);
      assert k > 1 && n / 10 < Power10(k - 1);
      DecimalFits(n / 10, k - 1);
    }
  }

  function Power10(k: nat): nat {
    if k == 0 then 1 else 10 * Power10(k - 1)
  }

  lemma {:induction false} ZerosRead(n: nat, s: string)
    ensures NumberOf(Zeros(n) + s) == NumberOf(s)
    decreases n, |s|
  {
    if s != "" {
      ZerosRead(n, s[..|s| - 1]);
      assert (Zeros(n) + s)[..n + |s| - 1] == Zeros(n) + s[..|s| - 1];
    } else {
      assert Zeros(n) + s == Zeros(n);
      if n > 0 {
        ZerosRead(n - 1, "");
        AllZeros(n);
        assert Zeros(n)[..n - 1] == Zeros(n - 1) == Zeros(n - 1) + "";
      }
    }
  }

  lemma AllZeros(n: nat)
    ensures forall i :: 0 <= i < n ==> Zeros(n)[i] == '0'
    ensures n > 0 ==> Zeros(n)[..n - 1] == Zeros(n - 1)
  {
    if n > 0 {
      AllZeros(n - 1);
    }
  }

  lemma PaddedReads(n: nat, width: nat)
    requires 1 <= width && n < Power10(width)
    ensures |Padded(n, width)| == width && NumberOf(Padded(n, width)) == n
  {
    DecimalReads(n);
    DecimalFits(n, width);
    if |Decimal(n)| < width {
      ZerosRead(width - |Decimal(n)|, Decimal(n));
    }
  }

  // Any year, before the common era too, is written with its sign in at least four characters.
  lemma YearTextReads(y: int)
    ensures |YearText(y)| >= 4
    ensures y >= 0 ==> NumberOf(YearText(y)) == y && (y < 10_000 ==> |YearText(y)| == 4)
    ensures y < 0 ==> YearText(y)[0] == '-' && NumberOf(YearText(y)[1..]) == -y && (y > -1000 ==> |YearText(y)| == 4)
  {
    assert Power10(1) == 10 && Power10(2) == 100 && Power10(3) == 1000 && Power10(4) == 10_000;
    if y >= 0 {
      PaddedIsTheNumber(y, 4);
      if y < 10_000 {
        PaddedReads(y, 4);
      }
    } else {
      PaddedIsTheNumber(-y, 3);
      assert YearText(y)[1..] == Padded(-y, 3);
      if y > -1000 {
        PaddedReads(-y, 3);
      }
    }
  }

  lemma PaddedIsTheNumber(n: nat, width: nat)
    ensures |Padded(n, width)| >= width && NumberOf(Padded(n, width)) == n
  {
    DecimalReads(n);
    var s := Decimal(n);
    if |s| < width {
      ZerosRead(width - |s|, s);
      assert Padded(n, width) == Zeros(width - |s|) + s;
    } else {
      assert Padded(n, width) == s;
    }
  }

  lemma StampTextReads(s: Stamp)
    requires InRange(s)
    ensures |StampText(s)| == 24 && ReadStamp(StampText(s)) == s
  {
    assert Power10(1) == 10 && Power10(2) == 100 && Power10(3) == 1000 && Power10(4) == 10_000;
    PaddedReads(s.date.year, 4);
    PaddedReads(s.date.month, 2);
    PaddedReads(s.date.day, 2);
    PaddedReads(s.hour, 2);
    PaddedReads(s.minute, 2);
    PaddedReads(s.second, 2);
    PaddedReads(s.milli, 3);
    FieldsOf(YearText(s.date.year), Padded(s.date.month, 2), Padded(s.date.day, 2),
             Padded(s.hour, 2), Padded(s.minute, 2), Padded(s.second, 2), Padded(s.milli, 3));
  }

  lemma StampInRange(millis: nat)
    requires millis < 253_402_300_800_000
    ensures InRange(StampOf(millis))
  {
    ClosedFormSteps(millis / 1000 / 86_400);
    YearBound(millis / 1000 / 86_400);
  }

  lemma StampCounts(millis: int)
    ensures MillisOf(StampOf(millis)) == millis
  {
    DayNumberInverts(millis / 1000 / 86_400);
    SecondsSplit((millis / 1000) % 86_400);
  }

  lemma SecondsSplit(t: nat)
    ensures t == 3600 * (t / 3600) + 60 * ((t / 60) % 60) + t % 60
  {
    assert t / 60 == 60 * (t / 3600) + (t / 60) % 60;
  }

  // Every instant before the year 10000 is written in 24 characters with every field in range, and
  // reading the fields back and counting days gives the instant: the text loses nothing.
  lemma TimestampRoundTrip(millis: nat)
    requires millis < 253_402_300_800_000
    ensures var t := FormatIso8601(millis);
            |t| == 24 && IsShaped(t) && InRange(ReadStamp(t)) && MillisOf(ReadStamp(t)) == millis
  {
    var s := StampWritten(millis);
    TextOfStamp(s, millis, FormatIso8601(millis));
    StampIsShaped(s);
  }

  predicate IsDigits(s: string) {
    forall k :: 0 <= k < |s| ==> '0' <= s[k] <= '9'
  }

  // The separators of RFC 3339 at their places, and digits everywhere else.
  predicate IsShaped(t: string)
    requires |t| == 24
  {
    && t[4] == '-' && t[7] == '-' && t[10] == 'T' && t[13] == ':' && t[16] == ':' && t[19] == '.' && t[23] == 'Z'
    && IsDigits(t[..4]) && IsDigits(t[5..7]) && IsDigits(t[8..10]) && IsDigits(t[11..13]) && IsDigits(t[14..16])
    && IsDigits(t[17..19]) && IsDigits(t[20..23])
  }

  lemma {:induction false} DecimalIsDigits(n: nat)
    ensures IsDigits(Decimal(n))
  {
    if n >= 10 {
      DecimalIsDigits(n / 10);
    }
  }

  lemma {:induction false} ZerosAreDigits(n: nat)
    ensures IsDigits(Zeros(n))
  {
    AllZeros(n);
  }

  lemma PaddedIsDigits(n: nat, width: nat)
    ensures IsDigits(Padded(n, width))
  {
    DecimalIsDigits(n);
    if |Decimal(n)| < width {
      ZerosAreDigits(width - |Decimal(n)|);
    }
  }

  lemma StampIsShaped(s: Stamp)
    requires InRange(s)
    ensures |StampText(s)| == 24 && IsShaped(StampText(s))
  {
    assert Power10(1) == 10 && Power10(2) == 100 && Power10(3) == 1000 && Power10(4) == 10_000;
    FieldIsDigits(s.date.year, 4);
    FieldIsDigits(s.date.month, 2);
    FieldIsDigits(s.date.day, 2);
    FieldIsDigits(s.hour, 2);
    FieldIsDigits(s.minute, 2);
    FieldIsDigits(s.second, 2);
    FieldIsDigits(s.milli, 3);
    FieldsOf(YearText(s.date.year), Padded(s.date.month, 2), Padded(s.date.day, 2),
             Padded(s.hour, 2), Padded(s.minute, 2), Padded(s.second, 2), Padded(s.milli, 3));
  }

  lemma FieldIsDigits(n: nat, width: nat)
    requires 1 <= width && n < Power10(width)
    ensures |Padded(n, width)| == width && IsDigits(Padded(n, width))
  {
    PaddedReads(n, width);
    PaddedIsDigits(n, width);
  }

  // The cast keeps the value modulo two to the 64, inside the signed range.
  lemma CastIs(n: nat)
    ensures -0x8000_0000_0000_0000 <= AsSigned64(n) < 0x8000_0000_0000_0000
    ensures (n - AsSigned64(n)) % 0x1_0000_0000_0000_0000 == 0
  {
    var base := 0x1_0000_0000_0000_0000;
    var low := n % base;
    assert n - low == base * (n / base);
    assert n - (low - base) == base * (n / base + 1);
  }

  lemma SmallIsSigned(millis: nat)
    requires millis < 253_402_300_800_000
    ensures AsSigned64(millis) == millis
  {
  }

  lemma StampWritten(millis: nat) returns (s: Stamp)
    requires millis < 253_402_300_800_000
    ensures InRange(s) && MillisOf(s) == millis && FormatIso8601(millis) == StampText(s)
  {
    s := StampOf(millis);
    SmallIsSigned(millis);
    StampInRange(millis);
    StampCounts(millis);
  }

  lemma TextOfStamp(s: Stamp, millis: int, t: string)
    requires InRange(s) && MillisOf(s) == millis && t == StampText(s)
    ensures |t| == 24 && InRange(ReadStamp(t)) && MillisOf(ReadStamp(t)) == millis
  {
    StampTextReads(s);
  }

  lemma YearBound(z: nat)
    requires z < 2_932_897
    ensures 1970 <= CivilFromDays(z).year < 10_000
  {
    var y, doy := ClosedFormPosition(z);
    PositionYear(z, y, doy);
  }

  lemma PositionYear(z: nat, y: int, doy: nat)
    requires z < 2_932_897 && Position(z, y, doy)
    ensures 1969 <= y <= 9999 && (y == 1969 ==> doy >= 306) && (y == 9999 ==> doy < 306)
  {
    NextYear(y);
    if y > 9999 {
      YearsAdvance(10_000, y);
    }
    if y < 1969 {
      YearsAdvance(y + 1, 1969);
    }
  }

  lemma FieldsOf(year: string, month: string, day: string, h: string, mi: string, s: string, ms: string)
    requires |year| == 4 && |month| == |day| == |h| == |mi| == |s| == 2 && |ms| == 3
    ensures var t := year + "-" + month + "-" + day + "T" + h + ":" + mi + ":" + s + "." + ms + "Z";
            |t| == 24 && t[..4] == year && t[5..7] == month && t[8..10] == day && t[11..13] == h
            && t[14..16] == mi && t[17..19] == s && t[20..23] == ms
            && t[4] == t[7] == '-' && t[10] == 'T' && t[13] == t[16] == ':' && t[19] == '.' && t[23] == 'Z'
  {
  }
}

/** The time stamp of a decision: a subset of RFC 3339 section 5.6, twenty characters, UTC, no leap seconds. */
module RecordedAt {
  import opened JsonText

  /** The fields of an aware UTC datetime. */
  datatype Utc = Utc(year: int, month: int, day: int, hour: int, minute: int, second: int)

  /** Days before the first of January, counting from year 1 in the proleptic Gregorian calendar. */
  function DaysBefore(year: int): int {
    (year - 1) * 365 + (year - 1) / 4 - (year - 1) / 100 + (year - 1) / 400
  }

  const MONTH_DAYS := [31, 28, 31, 30, 31, 30, 31, 31, 30, 31, 30, 31]

  function DaysIn(year: int, month: int): int
    requires 1 <= month <= 12
  {
    MONTH_DAYS[month - 1] + if month == 2 then DaysBefore(year + 1) - DaysBefore(year) - 365 else 0
  }

  /** What every datetime object satisfies. */
  predicate Real(u: Utc) {
    && 1 <= u.year <= 9999 && 1 <= u.month <= 12 && 1 <= u.day <= DaysIn(u.year, u.month)
    && 0 <= u.hour <= 23 && 0 <= u.minute <= 59 && 0 <= u.second <= 59
  }

  function Digit(n: int): Code
    requires 0 <= n <= 9
  {
    0x30 + n
  }

  const DASH: Code := 0x2D
  const COLON: Code := 0x3A
  const TEE: Code := 0x54
  const ZULU: Code := 0x5A

  /** _recorded_at. */
  function Print(u: Utc): (r: Str)
    requires Real(u)
    ensures |r| == 20
  {
    assert u.day <= 99 by { DaysInBound(u.year, u.month); }
    [ Digit(u.year / 10 / 10 / 10), Digit(u.year / 10 / 10 % 10), Digit(u.year / 10 % 10), Digit(u.year % 10), DASH,
      Digit(u.month / 10), Digit(u.month % 10), DASH, Digit(u.day / 10), Digit(u.day % 10), TEE,
      Digit(u.hour / 10), Digit(u.hour % 10), COLON, Digit(u.minute / 10), Digit(u.minute % 10), COLON,
      Digit(u.second / 10), Digit(u.second % 10), ZULU ]
  }

  lemma DaysInBound(year: int, month: int)
    requires 1 <= month <= 12
    ensures 28 <= DaysIn(year, month) <= 31
  {
    LeapRule(year);
  }

  /** The leap year rule of the validator is the length of the year. */
  lemma LeapRule(year: int)
    ensures DaysBefore(year + 1) - DaysBefore(year) == if year % 4 == 0
        && (year % 100 != 0 || year % 400 == 0) then 366 else 365
  {
    Carry(year, 4);
    Carry(year, 100);
    Carry(year, 400);
  }

  lemma Carry(y: int, k: int)
    requires k in {4, 100, 400}
    ensures y / k - (y - 1) / k == if y % k == 0 then 1 else 0
  {
  }

  predicate IsDigit(c: int) {
    0x30 <= c <= 0x39
  }

  function Value(c: int): int {
    c - 0x30
  }

  function Number(v: Str, start: nat, end: nat): int
    requires start <= end <= |v|
    decreases end
  {
    if start == end then 0 else Number(v, start, end - 1) * 10 + Value(v[end - 1])
  }

  function MaxDay(year: int, month: int): int {
    if month in {1, 3, 5, 7, 8, 10, 12} then 31
    else if month in {4, 6, 9, 11} then 30
    else if year % 4 == 0 && (year % 100 != 0 || year % 400 == 0) then 29
    else 28
  }

  const DIGIT_PLACES := {0, 1, 2, 3, 5, 6, 8, 9, 11, 12, 14, 15, 17, 18}

  /** validate_recorded_at accepts. */
  predicate Accepted(v: Str) {
    && |v| == 20
    && v[4] == DASH && v[7] == DASH && v[10] == TEE && v[13] == COLON && v[16] == COLON && v[19] == ZULU
    && (forall i :: i in DIGIT_PLACES ==> IsDigit(v[i]))
    && var u := Fields(v);
       && u.year >= 1 && 1 <= u.month <= 12 && 1 <= u.day <= MaxDay(u.year, u.month)
       && u.hour <= 23 && u.minute <= 59 && u.second <= 59
  }

  function Fields(v: Str): Utc
    requires |v| == 20
  {
    Utc(Number(v, 0, 4), Number(v, 5, 7), Number(v, 8, 10), Number(v, 11, 13), Number(v, 14, 16), Number(v, 17, 19))
  }

  lemma NumberTwo(v: Str, k: nat)
    requires k + 2 <= |v|
    ensures Number(v, k, k + 2) == Value(v[k]) * 10 + Value(v[k + 1])
  {
    assert Number(v, k, k) == 0;
    assert Number(v, k, k + 1) == Value(v[k]);
  }

  lemma NumberFour(v: Str, k: nat)
    requires k + 4 <= |v|
    ensures Number(v, k, k + 4) == Value(v[k]) * 1000 + Value(v[k + 1]) * 100 + Value(v[k + 2]) * 10 + Value(v[k + 3])
  {
    NumberTwo(v, k);
    assert Number(v, k, k + 3) == Number(v, k, k + 2) * 10 + Value(v[k + 2]);
  }

  lemma MaxDayIs(year: int, month: int)
    requires 1 <= month <= 12
    ensures MaxDay(year, month) == DaysIn(year, month)
  {
    LeapRule(year);
  }

  lemma DigitsBack(n: int)
    requires 0 <= n <= 9999
    ensures n / 10 / 10 / 10 <= 9
    ensures n / 10 / 10 / 10 * 1000 + n / 10 / 10 % 10 * 100 + n / 10 % 10 * 10 + n % 10 == n
  {
    LastDigit(n);
    LastDigit(n / 10);
    LastDigit(n / 10 / 10);
  }

  lemma LastDigit(n: int)
    requires n >= 0
    ensures n == 10 * (n / 10) + n % 10 && 0 <= n % 10 <= 9
  {
  }

  lemma Push(m: int, d: int)
    requires m >= 0 && 0 <= d <= 9
    ensures (m * 10 + d) / 10 == m && (m * 10 + d) % 10 == d
  {
  }

  /** Two printed digits are read back. */
  lemma PairBack(v: Str, k: nat, n: int)
    requires k + 2 <= |v| && 0 <= n <= 99 && v[k] == Digit(n / 10) && v[k + 1] == Digit(n % 10)
    ensures Number(v, k, k + 2) == n && IsDigit(v[k]) && IsDigit(v[k + 1])
  {
    NumberTwo(v, k);
    hide Number;
    LastDigit(n);
  }

  lemma YearBack(v: Str, n: int)
    requires 4 <= |v| && 0 <= n <= 9999
    requires v[0] == Digit(n / 10 / 10 / 10) && v[1] == Digit(n / 10 / 10 % 10)
    requires v[2] == Digit(n / 10 % 10) && v[3] == Digit(n % 10)
    ensures Number(v, 0, 4) == n && forall i :: 0 <= i < 4 ==> IsDigit(v[i])
  {
    NumberFour(v, 0);
    hide Number;
    DigitsBack(n);
  }

  /** Every printed datetime is accepted, with the same fields. */
  lemma PrintedIsAccepted(u: Utc)
    requires Real(u)
    ensures Accepted(Print(u)) && Fields(Print(u)) == u
  {
    var v := Print(u);
    PrintedPlaces(u);
    MaxDayIs(u.year, u.month);
    hide Print; hide Number; hide Digit; hide DaysIn; hide MaxDay; hide IsDigit;
    YearBack(v, u.year);
    PairBack(v, 5, u.month);
    PairBack(v, 8, u.day);
    PairBack(v, 11, u.hour);
    PairBack(v, 14, u.minute);
    PairBack(v, 17, u.second);
  }

  lemma FieldsAre(v: Str)
    requires |v| == 20
    ensures Fields(v) == Utc(
      Value(v[0]) * 1000 + Value(v[1]) * 100 + Value(v[2]) * 10 + Value(v[3]),
      Value(v[5]) * 10 + Value(v[6]), Value(v[8]) * 10 + Value(v[9]), Value(v[11]) * 10 + Value(v[12]),
      Value(v[14]) * 10 + Value(v[15]), Value(v[17]) * 10 + Value(v[18]))
  {
    hide Number;
    NumberFour(v, 0);
    NumberTwo(v, 5);
    NumberTwo(v, 8);
    NumberTwo(v, 11);
    NumberTwo(v, 14);
    NumberTwo(v, 17);
  }

  lemma PrintedPlaces(u: Utc)
    requires Real(u)
    ensures var v := Print(u);
      && v[4] == DASH && v[7] == DASH && v[10] == TEE && v[13] == COLON && v[16] == COLON && v[19] == ZULU
      && v[0] == Digit(u.year / 10 / 10 / 10) && v[1] == Digit(u.year / 10 / 10 % 10)
      && v[2] == Digit(u.year / 10 % 10) && v[3] == Digit(u.year % 10)
      && u.day <= 31
      && v[5] == Digit(u.month / 10) && v[6] == Digit(u.month % 10) && v[8] == Digit(u.day / 10)
         && v[9] == Digit(u.day % 10)
      && v[11] == Digit(u.hour / 10) && v[12] == Digit(u.hour % 10)
      && v[14] == Digit(u.minute / 10) && v[15] == Digit(u.minute % 10)
      && v[17] == Digit(u.second / 10) && v[18] == Digit(u.second % 10)
  {
    DaysInBound(u.year, u.month);
    hide DaysIn;
  }

  lemma TwoDigits(a: int, b: int)
    requires IsDigit(a) && IsDigit(b)
    ensures var n := Value(a) * 10 + Value(b); 0 <= n <= 99 && Digit(n / 10) == a && Digit(n % 10) == b
  {
  }

  lemma FourDigits(a: int, b: int, c: int, d: int)
    requires IsDigit(a) && IsDigit(b) && IsDigit(c) && IsDigit(d)
    ensures var n := Value(a) * 1000 + Value(b) * 100 + Value(c) * 10 + Value(d);
      && 0 <= n <= 9999 && Digit(n / 10 / 10 / 10) == a && Digit(n / 10 / 10 % 10) == b && Digit(n / 10 % 10) == c
         && Digit(n % 10) == d
  {
    var x, y, z, w := Value(a), Value(b), Value(c), Value(d);
    var n := x * 1000 + y * 100 + z * 10 + w;
    Push(x * 100 + y * 10 + z, w);
    assert n / 10 == x * 100 + y * 10 + z && n % 10 == w;
    Push(x * 10 + y, z);
    assert n / 10 / 10 == x * 10 + y && n / 10 % 10 == z;
    Push(x, y);
  }

  /** Whatever is accepted is the printed form of exactly the datetime with these fields. */
  lemma AcceptedIsPrinted(v: Str)
    requires Accepted(v)
    ensures Real(Fields(v)) && Print(Fields(v)) == v
  {
    var u := Fields(v);
    MaxDayIs(u.year, u.month);
    hide DaysIn; hide MaxDay; hide Number; hide Print;
    FieldsAre(v);
    FourDigits(v[0], v[1], v[2], v[3]);
    TwoDigits(v[5], v[6]);
    TwoDigits(v[8], v[9]);
    TwoDigits(v[11], v[12]);
    TwoDigits(v[14], v[15]);
    TwoDigits(v[17], v[18]);
    hide Fields; hide Value; hide Digit;
    PrintedPlaces(u);
    SamePlaces(Print(u), v);
  }

  lemma SamePlaces(a: Str, b: Str)
    requires |a| == |b| == 20
    requires a[0] == b[0] && a[1] == b[1] && a[2] == b[2] && a[3] == b[3] && a[4] == b[4]
    requires a[5] == b[5] && a[6] == b[6] && a[7] == b[7] && a[8] == b[8] && a[9] == b[9] && a[10] == b[10]
    requires a[11] == b[11] && a[12] == b[12] && a[13] == b[13] && a[14] == b[14] && a[15] == b[15]
    requires a[16] == b[16] && a[17] == b[17] && a[18] == b[18] && a[19] == b[19]
    ensures a == b
  {
  }

  // ----- the stamp as text -----

  const DIGITS := "0123456789"

  function Two(n: int): string
    requires 0 <= n <= 99
  {
    [DIGITS[n / 10], DIGITS[n % 10]]
  }

  lemma DigitIs(n: int)
    requires 0 <= n <= 9
    ensures Digit(n) == DIGITS[n] as int
  {
  }

  /** The fields of a datetime are those of the calendar. */
  lemma RealIff(u: Utc)
    ensures Real(u) <==>
            && 1 <= u.year <= 9999 && 1 <= u.month <= 12 && 1 <= u.day
            && u.day <= (if u.month in {4, 6, 9, 11} then 30
                         else if u.month != 2 then 31
                         else if u.year % 4 == 0 && (u.year % 100 != 0 || u.year % 400 == 0) then 29
                         else 28)
            && 0 <= u.hour <= 23 && 0 <= u.minute <= 59 && 0 <= u.second <= 59
  {
    LeapRule(u.year);
    hide DaysBefore;
  }

  function Stamp(century: string, year: string, month: string, day: string, hour: string, minute: string,
                 second: string): string {
    century + year + "-" + month + "-" + day + "T" + hour + ":" + minute + ":" + second + "Z"
  }

  lemma StampPlaces(c: string, y: string, m: string, d: string, h: string, i: string, s: string)
    requires |c| == |y| == |m| == |d| == |h| == |i| == |s| == 2
    ensures var t := Stamp(c, y, m, d, h, i, s);
            && |t| == 20 && t[0] == c[0] && t[1] == c[1] && t[2] == y[0] && t[3] == y[1] && t[4] == '-'
            && t[5] == m[0] && t[6] == m[1] && t[7] == '-' && t[8] == d[0] && t[9] == d[1] && t[10] == 'T'
            && t[11] == h[0] && t[12] == h[1] && t[13] == ':' && t[14] == i[0] && t[15] == i[1] && t[16] == ':'
            && t[17] == s[0] && t[18] == s[1] && t[19] == 'Z'
  {
    var date := c + y + "-" + m + "-" + d + "T";
    assert |date| == 11;
    assert Stamp(c, y, m, d, h, i, s) == date + (h + ":" + i + ":" + s + "Z");
  }

  lemma PairIs(n: int)
    requires 0 <= n <= 99
    ensures |Two(n)| == 2 && Two(n)[0] as int == Digit(n / 10) && Two(n)[1] as int == Digit(n % 10)
  {
    DigitIs(n / 10);
    DigitIs(n % 10);
  }

  /** Year, month, day, `T`, hour, minute, second, `Z`. */
  lemma PrintIs(u: Utc)
    requires Real(u)
    ensures u.day <= 31
    ensures Print(u) == Codes(Stamp(Two(u.year / 100), Two(u.year % 100), Two(u.month), Two(u.day), Two(u.hour),
                                    Two(u.minute), Two(u.second)))
  {
    PrintedPlaces(u);
    YearPairs(u.year);
    hide Print; hide Digit; hide DIGITS; hide DaysIn; hide Two; hide Stamp;
    PairIs(u.year / 100);
    PairIs(u.year % 100);
    PairIs(u.month);
    PairIs(u.day);
    PairIs(u.hour);
    PairIs(u.minute);
    PairIs(u.second);
    var text := Stamp(Two(u.year / 100), Two(u.year % 100), Two(u.month), Two(u.day), Two(u.hour), Two(u.minute),
    Two(u.second));
    StampPlaces(Two(u.year / 100), Two(u.year % 100), Two(u.month), Two(u.day), Two(u.hour), Two(u.minute),
        Two(u.second));
    SamePlaces(Print(u), Codes(text));
  }

  lemma YearPairs(n: int)
    requires 0 <= n <= 9999
    ensures n / 10 / 10 / 10 == n / 100 / 10 && n / 10 / 10 % 10 == n / 100 % 10
    ensures n / 10 % 10 == n % 100 / 10 && n % 10 == n % 100 % 10 && n / 100 <= 99
  {
    LastDigit(n);
    LastDigit(n / 10);
    assert n / 10 / 10 == n / 100;
  }
}

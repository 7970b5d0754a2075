/** Dates to and from text (libpqxx/src/time.cxx).  The C++ calendar has a year
    zero and PostgreSQL's has not: year 0 is 1 BC, year -1 is 2 BC, and so on. */
module Dates {
  import opened Options
  import opened Strconv

  const YEAR_MIN := -32767
  const YEAR_MAX := 32767
  const BC := " BC"

  datatype Date = Date(year: int, month: nat, day: nat)

  predicate Leap(y: int) { y % 4 == 0 && (y % 100 != 0 || y % 400 == 0) }

  function MonthDays(y: int, m: nat): (n: nat)
    ensures 28 <= n <= 31
  {
    if m == 2 then (if Leap(y) then 29 else 28)
    else if m == 4 || m == 6 || m == 9 || m == 11 then 30
    else 31
  }

  /** A day of the Gregorian calendar whose year `std::chrono::year` can hold. */
  predicate DateOk(d: Date) {
    && YEAR_MIN <= d.year <= YEAR_MAX && 1 <= d.month <= 12
    && 1 <= d.day <= MonthDays(d.year, d.month)
  }

  // The text of a date

  /** The year as PostgreSQL counts it. */
  function Era(year: int): (n: nat)
    ensures n > 0
  {
    if year > 0 then year else 1 - year
  }

  function Zeros(n: nat): string { seq(n, _ => '0') }

  /** A numeral of at least four digits. */
  function Pad4(n: nat): string {
    Zeros(if |Decimal(n)| < 4 then 4 - |Decimal(n)| else 0) + Decimal(n)
  }

  function Tens(n: nat): (c: char)
    requires n < 100
    ensures IsDigit(c)
  {
    NumberToDigit(n / 10)
  }

  function Ones(n: nat): (c: char)
    ensures IsDigit(c)
  {
    NumberToDigit(n % 10)
  }

  /** What stands after the year. */
  function Tail(m: nat, d: nat, bc: bool): string
    requires m < 100 && d < 100
  {
    ['-', Tens(m), Ones(m), '-', Tens(d), Ones(d)] + if bc then BC else ""
  }

  /** The first digit of a month as it is written: it is never more than 1. */
  function MonthTens(m: nat): char { if m >= 10 then '1' else '0' }

  function PrintTail(m: nat, d: nat, bc: bool): string
    requires d < 100
  {
    ['-', MonthTens(m), Ones(m), '-', Tens(d), Ones(d)] + if bc then BC else ""
  }

  /** The text of a date, valid or not. */
  function Print(d: Date): string
    requires d.day < 100
  {
    Pad4(Era(d.year)) + PrintTail(d.month, d.day, d.year <= 0)
  }

  /** The text of a date, in characters: the year of the era, dashes, two digits each for
      month and day, and the era last. */
  lemma PrintedText(d: Date)
    requires d.month < 20 && d.day < 100
    ensures var year := Decimal(if d.year > 0 then d.year else 1 - d.year);
      Print(d) == seq(if |year| < 4 then 4 - |year| else 0, _ => '0') + year
        + ['-', "01"[d.month / 10], "0123456789"[d.month % 10], '-', "0123456789"[d.day / 10], "0123456789"[d.day % 10]]
        + if d.year <= 0 then " BC" else ""
  {
    hide Decimal;
    DigitCodes('0');
    var year := Decimal(Era(d.year));
    var zeros := if |year| < 4 then 4 - |year| else 0;
    assert Zeros(zeros) == seq(zeros, _ => '0');
    assert MonthTens(d.month) == "01"[d.month / 10];
  }

  /** Year 0 is 1 BC. */
  lemma KnownDates()
    ensures Print(Date(0, 2, 29)) == "0001-02-29 BC" && Print(Date(-1, 10, 4)) == "0002-10-04 BC"
    ensures Print(Date(-32767, 12, 31)) == "32768-12-31 BC" && Print(Date(12, 9, 5)) == "0012-09-05"
  {
    hide Decimal, Print;
    KnownNumerals();
    OneDigit(1);
    OneDigit(2);
    PrintedText(Date(0, 2, 29));
    PrintedText(Date(-1, 10, 4));
    PrintedText(Date(-32767, 12, 31));
    PrintedText(Date(12, 9, 5));
  }

  /** The days there are at the limits of years, months and centuries. */
  lemma KnownDays()
    ensures DateOk(Date(2000, 2, 29)) && DateOk(Date(2024, 2, 29)) && DateOk(Date(0, 2, 29)) && DateOk(Date(-4, 2, 29))
    ensures !DateOk(Date(1900, 2, 29)) && !DateOk(Date(2023, 2, 29)) && !DateOk(Date(2000, 2, 30)) && DateOk(Date(1900, 2, 28))
    ensures forall m :: m in {1, 3, 5, 7, 8, 10, 12} ==> DateOk(Date(2023, m, 31)) && !DateOk(Date(2023, m, 32))
    ensures forall m :: m in {4, 6, 9, 11} ==> DateOk(Date(2023, m, 30)) && !DateOk(Date(2023, m, 31))
    ensures !DateOk(Date(2023, 0, 1)) && !DateOk(Date(2023, 13, 1)) && !DateOk(Date(2023, 1, 0))
    ensures DateOk(Date(-32767, 1, 1)) && !DateOk(Date(-32768, 1, 1)) && DateOk(Date(32767, 12, 31)) && !DateOk(Date(32768, 1, 1))
  {
  }

  lemma PrintTailValid(m: nat, d: nat, bc: bool)
    requires m < 20 && d < 100
    ensures PrintTail(m, d, bc) == Tail(m, d, bc)
  {
    if m < 10 {
      assert Tens(m) == '0';
    } else {
      assert m / 10 == 1 && Tens(m) == '1';
    }
  }

  /** A month beyond 19 is printed as the month from 10 to 19 with the same last digit. */
  lemma MonthPrints(d: Date)
    requires d.month >= 20 && d.day < 100
    ensures Print(d) == Print(d.(month := 10 + d.month % 10))
  {
    assert (10 + d.month % 10) % 10 == d.month % 10;
  }

  // Writing

  /** The digits of the year, without its era; 15 characters are room enough. */
  method YearIntoBuf(buf: array<char>, year: int) returns (here: nat)
    requires YEAR_MIN <= year <= YEAR_MAX && buf.Length >= 15
    modifies buf
    ensures here == |Pad4(Era(year))| <= 5 && buf[..here] == Pad4(Era(year))
    ensures forall i :: 15 <= i < buf.Length ==> buf[i] == old(buf[i])
  {
    hide Decimal, NumberToDigit;
    YearLength(Era(year));
    if year == YEAR_MIN {
      buf[0], buf[1], buf[2], buf[3], buf[4] := '3', '2', '7', '6', '8';
      OldestYear();
      assert buf[..5] == "32768";
      return 5;
    }
    var absy := Strconv.Stored(Short, (if year < 0 then -year else year) + if year <= 0 then 1 else 0);
    assert absy == Era(year);
    here := ZerosIntoBuf(buf, absy);
    var n := IntoBuf(buf, here, here + SizeBuffer(Int), Short, absy);
    Joined(buf[..], here, here + n.value, Zeros(here), Decimal(absy));
    here := here + n.value;
  }

  /** The zeros that a short year needs in front. */
  method ZerosIntoBuf(buf: array<char>, absy: int) returns (here: nat)
    requires 0 < absy && buf.Length >= 3
    modifies buf
    ensures here == if absy < 10 then 3 else if absy < 100 then 2 else if absy < 1000 then 1 else 0
    ensures forall i :: 0 <= i < here ==> buf[i] == '0'
    ensures forall i :: here <= i < buf.Length ==> buf[i] == old(buf[i])
  {
    here := 0;
    if absy < 1000 {
      buf[here] := '0';
      here := here + 1;
      if absy < 100 {
        buf[here] := '0';
        here := here + 1;
      }
      if absy < 10 {
        buf[here] := '0';
        here := here + 1;
      }
    }
  }

  /** How many digits a year has. */
  lemma YearLength(n: nat)
    requires 0 < n <= 32768
    ensures |Decimal(n)| == if n < 10 then 1 else if n < 100 then 2 else if n < 1000 then 3 else if n < 10000 then 4 else 5
  {
    assert Pow10(1) == 10;
    assert Pow10(2) == 100;
    assert Pow10(3) == 1000;
    assert Pow10(4) == 10000;
    assert Pow10(5) == 100000;
    DecimalLength(n, 1);
    DecimalLength(n, 2);
    DecimalLength(n, 3);
    DecimalLength(n, 4);
    DecimalLength(n, 5);
  }

  lemma OldestYear()
    ensures Pad4(32768) == "32768"
  {
    hide Decimal;
    KnownNumerals();
    assert Zeros(0) + "32768" == "32768";
  }

  /** The month, as two digits. */
  method MonthIntoBuf(buf: array<char>, here: nat, month: nat) returns (next: nat)
    requires here + 2 <= buf.Length
    modifies buf
    ensures next == here + 2 && buf[here] == MonthTens(month) && buf[here + 1] == Ones(month)
    ensures forall i :: 0 <= i < here || next <= i < buf.Length ==> buf[i] == old(buf[i])
  {
    if month >= 10 {
      buf[here] := '1';
    } else {
      buf[here] := '0';
    }
    next := here + 1;
    buf[next] := NumberToDigit(month % 10);
    next := next + 1;
  }

  /** The day, as two digits. */
  method DayIntoBuf(buf: array<char>, here: nat, day: nat) returns (next: nat)
    requires day < 100 && here + 2 <= buf.Length
    modifies buf
    ensures next == here + 2 && buf[here] == Tens(day) && buf[here + 1] == Ones(day)
    ensures forall i :: 0 <= i < here || next <= i < buf.Length ==> buf[i] == old(buf[i])
  {
    buf[here] := NumberToDigit(day / 10);
    next := here + 1;
    buf[next] := NumberToDigit(day % 10);
    next := next + 1;
  }

  /** Write a date; none if the buffer is smaller than 15 characters. */
  method ToBuf(buf: array<char>, d: Date) returns (r: Option<nat>)
    requires YEAR_MIN <= d.year <= YEAR_MAX && d.day < 100
    modifies buf
    ensures r.None? <==> buf.Length < 15
    ensures r.Some? ==> r.value <= 14 && buf[..r.value] == Print(d)
    ensures forall i :: 15 <= i < buf.Length ==> buf[i] == old(buf[i])
  {
    hide Pad4, Tens, Ones, MonthTens;
    if buf.Length < 15 {
      return None;
    }
    var here := YearIntoBuf(buf, d.year);
    ghost var year := buf[..here];
    buf[here] := '-';
    var next := MonthIntoBuf(buf, here + 1, d.month);
    buf[next] := '-';
    next := DayIntoBuf(buf, next + 1, d.day);
    if d.year <= 0 {
      buf[next], buf[next + 1], buf[next + 2] := BC[0], BC[1], BC[2];
      next := next + 3;
    }
    Joined(buf[..], here, next, year, PrintTail(d.month, d.day, d.year <= 0));
    return Some(next);
  }

  lemma Joined(s: string, mid: nat, end: nat, left: string, right: string)
    requires mid == |left| && end == mid + |right| && end <= |s|
    requires forall i :: 0 <= i < mid ==> s[i] == left[i]
    requires forall i :: mid <= i < end ==> s[i] == right[i - mid]
    ensures s[..end] == left + right
  {
  }

  // Reading

  /** `text` is a date as the parser takes it: a positive year of at least four
      characters, two-digit month and day, and perhaps the BC mark.  What
      `std::chrono::year` holds when given a year out of range is up to `wild`. */
  ghost predicate Reads(wild: int -> int, text: string, d: Date) {
    exists year: string, n: int, bc: bool :: ReadsAs(wild, text, d, year, n, bc)
  }

  predicate ReadsAs(wild: int -> int, text: string, d: Date, year: string, n: int, bc: bool) {
    && |year| >= 4 && n > 0 && Spells(Int, year, n)
    && d.year == ChronoYear(wild, if bc then 1 - n else n)
    && DateOk(d)
    && text == year + Tail(d.month, d.day, bc)
  }

  function ChronoYear(wild: int -> int, y: int): int {
    if YEAR_MIN <= y <= YEAR_MAX then y else wild(y)
  }

  /** The first dash, or the end of the text. */
  method FindYearMonthSeparator(text: string) returns (here: nat)
    ensures DashAt(text, here)
  {
    here := 0;
    while here < |text| && text[here] != '-'
      invariant here <= |text| && forall i :: 0 <= i < here ==> text[i] != '-'
    {
      here := here + 1;
    }
  }

  method YearFromBuf(text: string) returns (r: Option<int>)
    ensures r.Some? ==> |text| >= 4 && r.value > 0 && Spells(Int, text, r.value)
    ensures forall n :: |text| >= 4 && n > 0 && Spells(Int, text, n) ==> r == Some(n)
  {
    if |text| < 4 {
      return None;
    }
    var p := Strconv.FromString(Int, text);
    forall n | Spells(Int, text, n)
      ensures p == Number(n)
    {
      SpellsOnce(Int, text, n, p.value);
    }
    return if p.Number? && p.value > 0 then Some(p.value) else None;
  }

  /** Two digits, as a number. */
  function TwoDigits(a: char, b: char): (r: Option<nat>)
    ensures r.Some? ==> r.value < 100 && a == Tens(r.value) && b == Ones(r.value)
    ensures forall n: nat :: n < 100 && a == Tens(n) && b == Ones(n) ==> r == Some(n)
  {
    if IsDigit(a) && IsDigit(b) then Some(10 * DigitToNumber(a) + DigitToNumber(b)) else None
  }

  /** The first dash of `body` is at `sep`, or there is none. */
  predicate DashAt(body: string, sep: nat) {
    sep <= |body| && (sep < |body| ==> body[sep] == '-') && forall i :: 0 <= i < sep ==> body[i] != '-'
  }

  /** The text without its BC mark. */
  function Body(text: string, bc: bool): string
    requires bc ==> |text| >= 3
  {
    if bc then text[..|text| - 3] else text
  }

  predicate EndsWithBC(text: string) { |text| >= 3 && text[|text| - 3..] == BC }

  /** The pieces that the parser cuts a text into. */
  predicate Cut(text: string, d: Date, year: string, bc: bool) {
    && d.month < 100 && d.day < 100 && |text| >= 9
    && bc == EndsWithBC(text)
    && var body := Body(text, bc);
       && |body| == |year| + 6 && body[..|year|] == year
       && DashAt(body, |year|) && body[|year| + 3] == '-'
       && body[|year| + 1] == Tens(d.month) && body[|year| + 2] == Ones(d.month)
       && body[|year| + 4] == Tens(d.day) && body[|year| + 5] == Ones(d.day)
  }

  lemma ReadsCut(wild: int -> int, text: string, d: Date, year: string, n: int, bc: bool)
    requires ReadsAs(wild, text, d, year, n, bc)
    ensures Cut(text, d, year, bc)
  {
    hide Tens, Ones, Spells;
    NoDash(year, n);
    assert IsDigit(Tens(d.month)) && IsDigit(Ones(d.day));
    if bc {
      assert text[|text| - 3..] == BC;
      assert text[..|text| - 3][..|year|] == year;
    } else {
      assert text[|text| - 3..][2] == Ones(d.day);
      assert text[..|year|] == year;
    }
  }

  /** A text that spells a positive number holds no dash. */
  lemma NoDash(s: string, n: int)
    requires n > 0 && Spells(Int, s, n)
    ensures forall i :: 0 <= i < |s| ==> s[i] != '-'
  {
    TrimCuts(s);
  }

  lemma TooShort(wild: int -> int, text: string)
    requires |text| < 9
    ensures !exists d :: Reads(wild, text, d)
  {
    hide Spells, Tens, Ones, ChronoYear, MonthDays;
    forall d, year, n, bc | ReadsAs(wild, text, d, year, n, bc)
      ensures false
    {
      ReadsCut(wild, text, d, year, n, bc);
    }
  }

  /** The pieces around the first dash of a text without its BC mark. */
  predicate Pieces(body: string, sep: nat, year: string, d: Date) {
    && |body| == sep + 6 && year == body[..sep] && body[sep] == '-' && body[sep + 3] == '-'
    && TwoDigits(body[sep + 1], body[sep + 2]) == Some(d.month)
    && TwoDigits(body[sep + 4], body[sep + 5]) == Some(d.day)
  }

  lemma CutPieces(text: string, sep: nat, d: Date, year: string, bc: bool)
    requires Cut(text, d, year, bc)
    requires DashAt(Body(text, bc), sep)
    ensures Pieces(Body(text, bc), sep, year, d)
  {
    hide Tens, Ones;
    var body := Body(text, bc);
    assert |year| == sep by {
      assert DashAt(body, |year|) && DashAt(body, sep);
      assert body[|year|] == '-';
    }
  }

  lemma RebuildText(text: string, sep: nat, d: Date, bc: bool)
    requires |text| >= 9 && bc == EndsWithBC(text) && d.month < 100 && d.day < 100
    requires var body := Body(text, bc);
      |body| == sep + 6 && body[sep] == '-' && Pieces(body, sep, body[..sep], d)
    ensures text == text[..sep] + Tail(d.month, d.day, bc)
    ensures text[..sep] == Body(text, bc)[..sep]
  {
    hide Tens, Ones;
    if bc {
      assert text == text[..|text| - 3] + BC;
    }
  }

  /** Read a date; none if it is malformed. */
  method FromString(wild: int -> int, text: string) returns (r: Option<Date>)
    ensures r.Some? ==> Reads(wild, text, r.value)
    ensures r.None? ==> !exists d :: Reads(wild, text, d)
  {
    hide Spells, Tens, Ones, ChronoYear, MonthDays, TwoDigits;
    if |text| < 9 {
      TooShort(wild, text);
      return None;
    }
    var bc := EndsWithBC(text);
    var body := Body(text, bc);
    var sep := FindYearMonthSeparator(body);
    forall d, year, n, b | ReadsAs(wild, text, d, year, n, b)
      ensures b == bc && Pieces(body, sep, year, d)
    {
      ReadsCut(wild, text, d, year, n, b);
      CutPieces(text, sep, d, year, b);
    }
    if |body| - sep != 6 {
      return None;
    }
    var year := body[..sep];
    var n := YearFromBuf(year);
    if n.None? {
      return None;
    }
    if n.value == 0 {
      assert false;  // "Year zero conversion."
    }
    var y := ChronoYear(wild, if bc then 1 - n.value else n.value);
    var m := TwoDigits(body[sep + 1], body[sep + 2]);
    if m.None? || body[sep + 3] != '-' {
      return None;
    }
    var d := TwoDigits(body[sep + 4], body[sep + 5]);
    if d.None? || !(1 <= d.value <= 31) {
      return None;
    }
    var date := Date(y, m.value, d.value);
    if !DateOk(date) {
      return None;
    }
    RebuildText(text, sep, date, bc);
    assert ReadsAs(wild, text, date, year, n.value, bc);
    return Some(date);
  }

  /** A text reads as at most one date. */
  lemma ReadsOnce(wild: int -> int, text: string, d: Date, e: Date)
    requires Reads(wild, text, d) && Reads(wild, text, e)
    ensures d == e
  {
    hide Spells, Tens, Ones, ChronoYear, MonthDays;
    var year, n, bc :| ReadsAs(wild, text, d, year, n, bc);
    var year', n', bc' :| ReadsAs(wild, text, e, year', n', bc');
    ReadsCut(wild, text, d, year, n, bc);
    ReadsCut(wild, text, e, year', n', bc');
    var body := Body(text, bc);
    CutPieces(text, |year|, d, year, bc);
    CutPieces(text, |year|, e, year', bc');
    SpellsOnce(Int, year, n, n');
  }

  /** The printed text of a valid date reads as that date. */
  lemma PrintReads(wild: int -> int, d: Date)
    requires DateOk(d)
    ensures Reads(wild, Print(d), d)
    ensures ReadsAs(wild, Print(d), d, Pad4(Era(d.year)), Era(d.year), d.year <= 0)
  {
    PrintTailValid(d.month, d.day, d.year <= 0);
    hide Tens, Ones, Spells, MonthDays, PrintTail, Tail, Pad4;
    PadSpells(Era(d.year));
    assert ReadsAs(wild, Print(d), d, Pad4(Era(d.year)), Era(d.year), d.year <= 0);
  }

  lemma PadSpells(n: nat)
    requires 0 < n <= 32768
    ensures |Pad4(n)| >= 4 && Spells(Int, Pad4(n), n)
  {
    hide Decimal, Value;
    ValueOfDecimal(n);
    ZerosValue(if |Decimal(n)| < 4 then 4 - |Decimal(n)| else 0, Decimal(n));
    assert Digits(Pad4(n));
  }

  lemma {:induction false} ZerosValue(k: nat, s: string)
    requires Digits(s)
    ensures Value(Zeros(k) + s) == Value(s)
  {
    if k == 0 {
      assert Zeros(0) + s == s;
    } else {
      ZerosValue(k - 1, s);
      LeadingZero(Zeros(k - 1) + s);
      assert Zeros(k) + s == "0" + (Zeros(k - 1) + s);
    }
  }

  /** The accepted texts of the printed form are the printed ones: the text of a year
      without blanks and with no leading zero beyond the fourth digit. */
  lemma ReadsPrinted(wild: int -> int, text: string, d: Date, year: string, n: nat, bc: bool)
    requires ReadsAs(wild, text, d, year, n, bc) && year == Pad4(n)
    ensures text == Print(d) <==> YEAR_MIN <= (if bc then 1 - n else n) <= YEAR_MAX
  {
    PrintTailValid(d.month, d.day, d.year <= 0);
    hide Tens, Ones, Spells, MonthDays, Pad4, PrintTail;
    if text == Print(d) {
      PrintReads(wild, d);
      ReadsCut(wild, text, d, year, n, bc);
      ReadsCut(wild, text, d, Pad4(Era(d.year)), Era(d.year), d.year <= 0);
      SpellsOnce(Int, year, n, Era(d.year));
    }
  }

  /** A date written to a buffer and read back. */
  method WriteAndRead(wild: int -> int, d: Date, space: nat) returns (r: Option<Date>)
    requires DateOk(d)
    ensures r == if space < 15 then None else Some(d)
  {
    hide Reads, Print, MonthDays;
    var buf := new char[space](_ => ' ');
    var end := ToBuf(buf, d);
    if end.None? {
      return None;
    }
    PrintReads(wild, d);
    r := FromString(wild, buf[..end.value]);
    ReadsOnce(wild, Print(d), d, r.value);
  }

  /** A year that C++ cannot hold is not refused: the text may read as another date. */
  lemma YearOutOfRange(wild: int -> int)
    requires wild(65537) == 1
    ensures Reads(wild, "65537-01-01", Date(1, 1, 1))
  {
    var year := "65537";
    assert "65537-01-01" == year + Tail(1, 1, false);
    assert Decimal(65537) == year by {
      hide Decimal;
      assert Decimal(6) == "6" by { DecimalSnoc(6); }
      assert Decimal(65) == "6" + "5" == "65" by { DecimalSnoc(65); }
      assert Decimal(655) == "65" + "5" == "655" by { DecimalSnoc(655); }
      assert Decimal(6553) == "655" + "3" == "6553" by { DecimalSnoc(6553); }
      assert Decimal(65537) == "6553" + "7" == "65537" by { DecimalSnoc(65537); }
    }
    TextSpells(Int, "", 65537);
    assert "" + Text(65537) == year;
    assert ReadsAs(wild, "65537-01-01", Date(1, 1, 1), year, 65537, false);
  }
}

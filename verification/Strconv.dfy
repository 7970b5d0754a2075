/** Integers to and from text (libpqxx/src/strconv.cxx): the backwards digit writer
    with its special case for the most negative value, and the parser. */
module Strconv {
  import opened Options

  /** The integer types that have conversions; `long long` is the same as `long`. */
  datatype IntType = Short | UShort | Int | UInt | Long | ULong

  predicate Signed(t: IntType) { t.Short? || t.Int? || t.Long? }

  /** The unsigned type of the same width. */
  function Unsigned(t: IntType): IntType {
    match t
    case Short => UShort
    case Int => UInt
    case Long => ULong
    case _ => t
  }

  /** The number of values of the type. */
  function Modulus(t: IntType): int {
    match t
    case Short | UShort => 0x1_0000
    case Int | UInt => 0x1_0000_0000
    case Long | ULong => 0x1_0000_0000_0000_0000
  }

  function Bottom(t: IntType): int { if Signed(t) then -(Modulus(t) / 2) else 0 }

  function Top(t: IntType): int { Bottom(t) + Modulus(t) - 1 }

  predicate Fits(t: IntType, x: int) { Bottom(t) <= x <= Top(t) }

  /** A value stored in a variable of type `t`: writing `Stored` is a promise that
      the arithmetic did not leave the type's range. */
  function Stored(t: IntType, x: int): int
    requires Fits(t, x)
  {
    x
  }

  /** Conversion to the unsigned type of the same width. */
  function Cast(t: IntType, x: int): (r: int)
    requires Fits(t, x)
    ensures Fits(Unsigned(t), r) && (r - x) % Modulus(t) == 0
  {
    x % Modulus(t)
  }

  /** The number of decimal digits that any value of that many digits may use. */
  function Digits10(t: IntType): nat {
    match t
    case Short | UShort => 4
    case Int | UInt => 9
    case Long => 18
    case ULong => 19
  }

  function SizeBuffer(t: IntType): nat { (if Signed(t) then 1 else 0) + Digits10(t) + 1 }

  /** The widths of the types, as a platform with 64-bit `long` has them. */
  lemma TypeLimits()
    ensures Bottom(Short) == -32768 && Top(Short) == 32767 && SizeBuffer(Short) == 6
    ensures Bottom(UShort) == 0 && Top(UShort) == 65535 && SizeBuffer(UShort) == 5
    ensures Bottom(Int) == -2147483648 && Top(Int) == 2147483647 && SizeBuffer(Int) == 11
    ensures Bottom(UInt) == 0 && Top(UInt) == 4294967295 && SizeBuffer(UInt) == 10
    ensures Bottom(Long) == -9223372036854775808 && Top(Long) == 9223372036854775807 && SizeBuffer(Long) == 20
    ensures Bottom(ULong) == 0 && Top(ULong) == 18446744073709551615 && SizeBuffer(ULong) == 20
  {
  }

  // Decimal numerals

  predicate IsDigit(c: char) { '0' <= c <= '9' }

  function NumberToDigit(i: int): (c: char)
    requires 0 <= i <= 9
    ensures IsDigit(c) && DigitToNumber(c) == i
  {
    ('0' as int + i) as char
  }

  function DigitToNumber(c: char): (i: int)
    requires IsDigit(c)
    ensures 0 <= i <= 9
  {
    c as int - '0' as int
  }

  /** The digits, as characters. */
  lemma DigitCodes(c: char)
    ensures IsDigit(c) <==> c in "0123456789"
    ensures forall i :: 0 <= i <= 9 ==> NumberToDigit(i) == "0123456789"[i] && DigitToNumber("0123456789"[i]) == i
  {
    var digits := "0123456789";
    assert IsDigit(c) ==> c == digits[DigitToNumber(c)];
  }

  predicate Digits(s: string) { forall i :: 0 <= i < |s| ==> IsDigit(s[i]) }

  /** The number that a string of digits stands for. */
  function Value(s: string): nat
    requires Digits(s)
  {
    if s == [] then 0 else 10 * Value(s[..|s| - 1]) + DigitToNumber(s[|s| - 1])
  }

  /** The shortest numeral of a number. */
  function Decimal(n: nat): (s: string)
    ensures s != [] && Digits(s)
  {
    (if n < 10 then [] else Decimal(n / 10)) + [NumberToDigit(n % 10)]
  }

  lemma ValueSnoc(s: string, c: char)
    requires Digits(s) && IsDigit(c)
    ensures Digits(s + [c]) && Value(s + [c]) == 10 * Value(s) + DigitToNumber(c)
  {
    assert (s + [c])[..|s|] == s;
  }

  lemma ValueOne(c: char)
    requires IsDigit(c)
    ensures Value([c]) == DigitToNumber(c)
  {
    assert [c][..0] == [];
  }

  lemma DecimalSnoc(n: nat)
    ensures n < 10 ==> Decimal(n) == [NumberToDigit(n)]
    ensures n >= 10 ==> Decimal(n) == Decimal(n / 10) + [NumberToDigit(n % 10)]
  {
  }

  /** The canonical text of an integer. */
  function Text(x: int): string { if x < 0 then "-" + Decimal(-x) else Decimal(x) }

  /** A numeral grows by one digit. */
  lemma OneMoreDigit(n: nat, text: string, d: nat)
    requires n > 0 && Decimal(n) == text && d <= 9
    ensures Decimal(10 * n + d) == text + ["0123456789"[d]]
  {
    hide Decimal;
    DecimalSnoc(10 * n + d);
    DigitCodes('0');
  }

  lemma OneDigit(d: nat)
    requires d <= 9
    ensures Decimal(d) == ["0123456789"[d]]
  {
    hide Decimal;
    DecimalSnoc(d);
    DigitCodes('0');
  }

  /** A number that uses every digit, and some others. */
  lemma KnownTexts()
    ensures Text(1234567890) == "1234567890" && Text(-1234567890) == "-1234567890"
    ensures Text(0) == "0" && Text(49) == "49" && Text(-94) == "-94"
  {
    hide Decimal;
    OneDigit(0);
    OneDigit(4);
    OneMoreDigit(4, "4", 9);
    OneDigit(9);
    OneMoreDigit(9, "9", 4);
    OneDigit(1);
    OneMoreDigit(1, "1", 2);
    OneMoreDigit(12, "12", 3);
    OneMoreDigit(123, "123", 4);
    OneMoreDigit(1234, "1234", 5);
    OneMoreDigit(12345, "12345", 6);
    OneMoreDigit(123456, "123456", 7);
    OneMoreDigit(1234567, "1234567", 8);
    OneMoreDigit(12345678, "12345678", 9);
    OneMoreDigit(123456789, "123456789", 0);
  }

  lemma {:induction false} ValueOfDecimal(n: nat)
    ensures Value(Decimal(n)) == n
  {
    hide Decimal, Value;
    DecimalSnoc(n);
    if n < 10 {
      ValueOne(NumberToDigit(n));
    } else {
      ValueOfDecimal(n / 10);
      ValueSnoc(Decimal(n / 10), NumberToDigit(n % 10));
    }
  }

  lemma {:induction false} LeadingZero(s: string)
    requires Digits(s)
    ensures Value("0" + s) == Value(s)
  {
    var z := "0" + s;
    if s == [] {
      assert z[..0] == [];
    } else {
      LeadingZero(s[..|s| - 1]);
      assert z[..|z| - 1] == "0" + s[..|s| - 1];
    }
  }

  predicate NoLeadingZero(s: string) { s == "0" || (s != [] && s[0] != '0') }

  /** Among numerals without a leading zero, only one has a given value. */
  lemma {:induction false} DecimalOfValue(s: string)
    requires Digits(s) && NoLeadingZero(s)
    ensures Decimal(Value(s)) == s
    ensures s != "0" ==> Value(s) > 0
  {
    hide Decimal, Value;
    var front, last := s[..|s| - 1], s[|s| - 1];
    assert s == front + [last];
    if |s| == 1 {
      assert front == [];
      ValueOne(last);
      DecimalSnoc(Value(s));
    } else {
      assert front[0] == s[0];
      DecimalOfValue(front);
      ValueSnoc(front, last);
      DecimalSnoc(Value(s));
    }
  }

  lemma {:induction false} DecimalNoLeadingZero(n: nat)
    ensures NoLeadingZero(Decimal(n)) && (Decimal(n)[0] == '0' <==> n == 0)
  {
    hide Decimal;
    DecimalSnoc(n);
    if n >= 10 {
      DecimalNoLeadingZero(n / 10);
    }
  }

  function Pow10(k: nat): nat { if k == 0 then 1 else 10 * Pow10(k - 1) }

  /** How long a numeral is. */
  lemma {:induction false} DecimalLength(n: nat, k: nat)
    requires k > 0
    ensures |Decimal(n)| <= k <==> n < Pow10(k)
  {
    hide Decimal;
    DecimalSnoc(n);
    if k == 1 {
      assert Pow10(1) == 10;
    } else if n >= 10 {
      DecimalLength(n / 10, k - 1);
    } else {
      PowAtLeast(k);
    }
  }

  lemma {:induction false} PowAtLeast(k: nat)
    requires k > 0
    ensures Pow10(k) >= 10
  {
    if k > 1 {
      PowAtLeast(k - 1);
    }
  }

  /** Every value of the type fits its buffer, the most negative one included. */
  lemma TextFits(t: IntType, x: int)
    requires Fits(t, x)
    ensures |Text(x)| <= SizeBuffer(t)
  {
    hide Decimal;
    DecimalLength(if x < 0 then -x else x, Digits10(t) + 1);
    assert Pow10(5) == 10_0000 && Pow10(10) == 100_0000_0000 by {
      assert Pow10(4) == 1_0000 && Pow10(8) == 1_0000_0000;
    }
    assert Pow10(19) == 1000_0000_0000_0000_0000 && Pow10(20) == 1_0000_0000_0000_0000_0000 by {
      assert Pow10(12) == 1_0000_0000_0000 && Pow10(16) == 1_0000_0000_0000_0000;
    }
  }

  lemma SmallerFits(t: IntType, x: int)
    requires 0 <= x <= Top(t)
    ensures forall y :: 0 <= y <= x ==> Fits(t, y)
  {
  }

  // Writing

  /** Taking the last digit off a numeral. */
  lemma LastDigit(value: nat)
    ensures var s := Decimal(value);
      && s[|s| - 1] == NumberToDigit(value % 10)
      && (if value < 10 then |s| == 1 else s[..|s| - 1] == Decimal(value / 10))
  {
    DecimalSnoc(value);
  }

  /** Write a nonnegative value backwards from `end`; return where it starts. */
  method NonnegToBuf(buf: array<char>, end: nat, t: IntType, x: int) returns (pos: nat)
    requires 0 <= x <= Top(t) && |Decimal(x)| <= end <= buf.Length
    modifies buf
    ensures pos == end - |Decimal(x)| && buf[pos..end] == Decimal(x)
    ensures forall i :: 0 <= i < pos || end <= i < buf.Length ==> buf[i] == old(buf[i])
  {
    hide Decimal, Bottom, Top, NumberToDigit;
    SmallerFits(t, x);
    LastDigit(x);
    ghost var text, start := Decimal(x), end - |Decimal(x)|;
    pos := end - 1;
    var value := x;
    buf[pos] := NumberToDigit(value % 10);
    value := Stored(t, value / 10);
    while value > 0
      invariant 0 <= value <= x && start <= pos < end
      invariant if value == 0 then pos == start else Decimal(value) == text[..pos - start]
      invariant forall i :: pos <= i < end ==> buf[i] == text[i - start]
      invariant forall i :: 0 <= i < pos || end <= i < buf.Length ==> buf[i] == old(buf[i])
    {
      LastDigit(value);
      pos := pos - 1;
      buf[pos] := NumberToDigit(value % 10);
      value := Stored(t, value / 10);
    }
  }

  /** Write the negation of a nonnegative value. */
  method NegToBuf(buf: array<char>, end: nat, t: IntType, x: int) returns (pos: nat)
    requires 0 <= x <= Top(t) && |Decimal(x)| < end <= buf.Length
    modifies buf
    ensures pos == end - |Decimal(x)| - 1 && buf[pos..end] == "-" + Decimal(x)
    ensures forall i :: 0 <= i < pos || end <= i < buf.Length ==> buf[i] == old(buf[i])
  {
    hide Decimal, Bottom, Top;
    pos := NonnegToBuf(buf, end, t, x);
    ghost var written := buf[pos..end];
    pos := pos - 1;
    buf[pos] := '-';
    assert buf[pos..end] == [buf[pos]] + written;
  }

  /** Write the type's most negative value, which has no positive equivalent. */
  method BottomToBuf(buf: array<char>, end: nat, t: IntType) returns (pos: nat)
    requires Signed(t) && |Text(Bottom(t))| <= end <= buf.Length
    modifies buf
    ensures pos == end - |Text(Bottom(t))| && buf[pos..end] == Text(Bottom(t))
    ensures forall i :: 0 <= i < pos || end <= i < buf.Length ==> buf[i] == old(buf[i])
  {
    hide Decimal;
    var positive := Cast(t, Bottom(t));
    assert positive == -Bottom(t);
    pos := NegToBuf(buf, end, Unsigned(t), positive);
  }

  /** Write a value at the end of the span `buf[lo..hi]`; none if the span is too small. */
  method ToBuf(buf: array<char>, lo: nat, hi: nat, t: IntType, x: int) returns (r: Option<nat>)
    requires lo <= hi <= buf.Length && Fits(t, x)
    modifies buf
    ensures r.None? <==> hi - lo < SizeBuffer(t)
    ensures r.None? ==> buf[..] == old(buf[..])
    ensures r.Some? ==> lo <= r.value <= hi && buf[r.value..hi] == Text(x)
    ensures forall i :: 0 <= i < lo || hi <= i < buf.Length ==> buf[i] == old(buf[i])
  {
    hide Decimal, Digits10;
    if hi - lo < SizeBuffer(t) {
      return None;
    }
    TextFits(t, x);
    var pos;
    if x >= 0 {
      pos := NonnegToBuf(buf, hi, t, x);
    } else if x > Bottom(t) {
      pos := NegToBuf(buf, hi, t, Stored(t, -x));
    } else {
      pos := BottomToBuf(buf, hi, t);
    }
    return Some(pos);
  }

  /** Write a value at the front of the span; return the text's length. */
  method IntoBuf(buf: array<char>, lo: nat, hi: nat, t: IntType, x: int) returns (r: Option<nat>)
    requires lo <= hi <= buf.Length && Fits(t, x)
    modifies buf
    ensures r.None? <==> hi - lo < SizeBuffer(t)
    ensures r.Some? ==> r.value == |Text(x)| && lo + r.value <= hi && buf[lo..lo + r.value] == Text(x)
    ensures forall i :: 0 <= i < lo || hi <= i < buf.Length ==> buf[i] == old(buf[i])
  {
    hide Decimal, SizeBuffer, Fits, Text;
    r := ToBuf(buf, lo, hi, t, x);
    if r.Some? {
      var pos, size := r.value, hi - r.value;
      ghost var text := buf[pos..hi];
      MoveText(buf, pos, lo, size);
      assert buf[lo..lo + size] == text;
      r := Some(size);
    }
  }

  /** memmove: the two places may overlap. */
  method MoveText(buf: array<char>, from: nat, to: nat, n: nat)
    requires from + n <= buf.Length && to + n <= buf.Length
    modifies buf
    ensures buf[to..to + n] == old(buf[from..from + n])
    ensures forall i :: 0 <= i < to || to + n <= i < buf.Length ==> buf[i] == old(buf[i])
  {
    forall i | 0 <= i < n {
      buf[to + i] := buf[from + i];
    }
  }

  // Reading

  datatype Parsed = Number(value: int) | NotAll | OutOfRange | Invalid

  predicate Blank(c: char) { c == ' ' || c == '\t' }

  /** The length of the longest run of digits at the front. */
  function DigitRun(s: string): (n: nat)
    ensures n <= |s| && Digits(s[..n]) && (n < |s| ==> !IsDigit(s[n]))
  {
    if s == [] || !IsDigit(s[0]) then 0
    else
      var n := 1 + DigitRun(s[1..]);
      assert forall i :: 0 < i < n ==> s[i] == s[1..][..n - 1][i - 1];
      n
  }

  /** What `std::from_chars` reads: the value and how many characters it took. */
  function FromChars(t: IntType, s: string): (Parsed, nat) {
    var sign := if Signed(t) && s != [] && s[0] == '-' then 1 else 0;
    var n := DigitRun(s[sign..]);
    if n == 0 then (Invalid, 0)
    else
      var v: int := Value(s[sign..][..n]);
      var x := if sign == 1 then -v else v;
      (if Fits(t, x) then Number(x) else OutOfRange, sign + n)
  }

  /** `s` is a numeral for `x`: digits, perhaps after a minus sign. */
  predicate Numeral(t: IntType, s: string, x: int) {
    && Fits(t, x)
    && ((s != [] && Digits(s) && x == Value(s))
        || (Signed(t) && |s| > 1 && s[0] == '-' && Digits(s[1..]) && x == 0 - Value(s[1..])))
  }

  /** `s` is blanks and then a numeral for `x`. */
  predicate Spells(t: IntType, s: string, x: int) {
    Numeral(t, Trim(s), x)
  }

  function Trim(s: string): (r: string)
    ensures r != [] ==> !Blank(r[0])
  {
    if s != [] && Blank(s[0]) then Trim(s[1..]) else s
  }

  lemma TrimStep(s: string)
    ensures Trim(s) == if s != [] && Blank(s[0]) then Trim(s[1..]) else s
  {
  }

  /** What is trimmed is the spaces and tabs at the front, all of them and no more. */
  lemma {:induction false} TrimCuts(s: string)
    ensures |Trim(s)| <= |s| && s[|s| - |Trim(s)|..] == Trim(s)
    ensures forall i :: 0 <= i < |s| - |Trim(s)| ==> s[i] == ' ' || s[i] == '\t'
    ensures Trim(s) != [] ==> Trim(s)[0] != ' ' && Trim(s)[0] != '\t'
  {
    TrimStep(s);
    hide Trim;
    if s != [] && Blank(s[0]) {
      var rest, n := s[1..], |s| - |Trim(s)|;
      TrimCuts(rest);
      assert rest[n - 1..] == s[n..];
      assert forall i :: 0 < i < n ==> s[i] == rest[i - 1];
    }
  }

  /** The digits begin after a minus sign, if the type has one. */
  function Start(t: IntType, s: string): (n: nat)
    ensures n <= |s|
  {
    if Signed(t) && s != [] && s[0] == '-' then 1 else 0
  }

  /** The first `k` characters of `s` are a numeral for `x`, of whatever size, and the
      numeral does not go on. */
  predicate Leads(t: IntType, s: string, k: nat, x: int) {
    var n := Start(t, s);
    && n < k <= |s| && Digits(s[n..k]) && (k < |s| ==> !IsDigit(s[k]))
    && x == if n == 1 then 0 - Value(s[n..k]) else Value(s[n..k])
  }

  /** No digit comes first. */
  predicate NoDigit(t: IntType, s: string) { Start(t, s) == |s| || !IsDigit(s[Start(t, s)]) }

  /** What a text is, by the numeral at its front. */
  ghost predicate ParsesAs(t: IntType, s: string, p: Parsed) {
    match p
    case Number(x) => Leads(t, s, |s|, x) && Fits(t, x)
    case NotAll => exists k: nat, x :: Leads(t, s, k, x) && Fits(t, x) && k < |s|
    case OutOfRange => exists k: nat, x :: Leads(t, s, k, x) && !Fits(t, x)
    case Invalid => NoDigit(t, s)
  }

  lemma LeadsOnce(t: IntType, s: string, k: nat, x: int, l: nat, y: int)
    requires Leads(t, s, k, x) && Leads(t, s, l, y)
    ensures k == l && x == y && !NoDigit(t, s)
  {
    var n := Start(t, s);
    assert s[n] == s[n..k][0];
  }

  /** A text is one of these things only. */
  lemma ParsesOnce(t: IntType, s: string, p: Parsed, q: Parsed)
    requires ParsesAs(t, s, p) && ParsesAs(t, s, q)
    ensures p == q
  {
    hide Leads, NoDigit, Fits;
    forall k: nat, x, l: nat, y | Leads(t, s, k, x) && Leads(t, s, l, y)
      ensures k == l && x == y && !NoDigit(t, s)
    {
      LeadsOnce(t, s, k, x, l, y);
    }
  }

  /** What the parser makes of `s`. */
  function Verdict(t: IntType, s: string): Parsed {
    var (out, used) := FromChars(t, s);
    if out.Number? && used < |s| then NotAll else out
  }

  lemma Outcome(t: IntType, s: string)
    ensures forall p :: p == Verdict(t, s) <==> ParsesAs(t, s, p)
  {
    hide Leads, NoDigit, Fits, FromChars;
    FromCharsLeads(t, s);
    FromCharsUsed(t, s);
    forall p | ParsesAs(t, s, p)
      ensures p == Verdict(t, s)
    {
      ParsesOnce(t, s, p, Verdict(t, s));
    }
  }

  lemma FromCharsLeads(t: IntType, s: string)
    ensures FromChars(t, s).0 == Invalid <==> NoDigit(t, s)
    ensures FromChars(t, s).0 != Invalid ==>
      exists x :: Leads(t, s, FromChars(t, s).1, x) && FromChars(t, s).0 == if Fits(t, x) then Number(x) else OutOfRange
  {
    hide DigitRun, Value, Fits;
    var n := Start(t, s);
    var rest := s[n..];
    var run := DigitRun(rest);
    if run > 0 {
      assert rest[..run] == s[n..n + run] && rest[0] == rest[..run][0];
      var v: int := Value(s[n..n + run]);
      assert Leads(t, s, n + run, if n == 1 then -v else v);
    }
  }

  /** Taking all of the text means that it is a numeral. */
  lemma FromCharsAll(t: IntType, s: string, x: int)
    ensures FromChars(t, s) == (Number(x), |s|) <==> Numeral(t, s, x)
  {
    var sign := if Signed(t) && s != [] && s[0] == '-' then 1 else 0;
    var n := DigitRun(s[sign..]);
    assert sign + n == |s| ==> s[sign..][..n] == s[sign..];
    assert s[0..] == s;
    if Digits(s[sign..]) {
      assert sign + n == |s|;
    } else {
      assert sign + n < |s|;
      assert sign == 1 ==> !Digits(s);
    }
  }

  lemma FromCharsUsed(t: IntType, s: string)
    ensures FromChars(t, s).1 <= |s|
  {
  }

  /** Parse a text: blanks, then one numeral and nothing else. */
  method FromString(t: IntType, s: string) returns (r: Parsed)
    ensures r.Number? ==> Spells(t, s, r.value)
    ensures r.Number? <==> exists x :: Spells(t, s, x)
    ensures r == Verdict(t, Trim(s))
    ensures forall p :: p == r <==> ParsesAs(t, Trim(s), p)
  {
    hide Numeral, FromChars, DigitRun, Leads, NoDigit, Fits;
    var here := 0;
    assert s[0..] == s;
    while here < |s| && Blank(s[here])
      invariant 0 <= here <= |s| && Trim(s[here..]) == Trim(s)
    {
      assert s[here..][1..] == s[here + 1..];
      here := here + 1;
    }
    var rest := s[here..];
    assert Trim(rest) == rest;
    var (out, used) := FromChars(t, rest);
    forall x ensures (out, used) == (Number(x), |rest|) <==> Numeral(t, rest, x) {
      FromCharsAll(t, rest, x);
    }
    FromCharsUsed(t, rest);
    Outcome(t, rest);
    if out.Number? && used < |rest| {
      return NotAll;
    }
    return out;
  }

  /** One text of each kind. */
  method KnownParses() returns (r: seq<Parsed>)
    ensures r == [OutOfRange, Invalid, NotAll, Invalid, Number(-32768), Invalid, Number(12)]
  {
    hide ParsesAs, Spells, Verdict;
    KnownReadings();
    var a := FromString(Short, "99999");
    var b := FromString(Int, "x");
    var c := FromString(Int, "12x");
    var d := FromString(UInt, "-1");
    var e := FromString(Short, "-32768");
    var f := FromString(Int, "\n12");
    var g := FromString(Int, " \t12");
    return [a, b, c, d, e, f, g];
  }

  /** A numeral at the front of a text leads it. */
  lemma NumeralLeads(t: IntType, minus: bool, n: nat, rest: string)
    requires minus ==> Signed(t)
    requires rest != [] ==> !IsDigit(rest[0])
    ensures minus ==> Leads(t, "-" + Decimal(n) + rest, 1 + |Decimal(n)|, 0 - n)
    ensures !minus ==> Leads(t, Decimal(n) + rest, |Decimal(n)|, n)
  {
    hide Decimal, Value;
    ValueOfDecimal(n);
    if minus {
      var s := "-" + Decimal(n) + rest;
      assert s[1..1 + |Decimal(n)|] == Decimal(n);
    } else {
      var s := Decimal(n) + rest;
      assert s[0..|Decimal(n)|] == Decimal(n);
    }
  }

  lemma KnownReadings()
    ensures ParsesAs(Short, Trim("99999"), OutOfRange)
    ensures ParsesAs(Int, Trim("x"), Invalid)
    ensures ParsesAs(Int, Trim("12x"), NotAll)
    ensures ParsesAs(UInt, Trim("-1"), Invalid)
    ensures ParsesAs(Short, Trim("-32768"), Number(-32768))
    ensures ParsesAs(Int, Trim("\n12"), Invalid)
    ensures ParsesAs(Int, Trim(" \t12"), Number(12))
  {
    hide Decimal, Value, Leads;
    KnownNumerals();
    NumeralLeads(Short, false, 99999, "");
    assert "99999" + "" == "99999";
    NumeralLeads(Int, false, 12, "x");
    assert "12" + "x" == "12x";
    NumeralLeads(Short, true, 32768, "");
    assert "-" + "32768" + "" == "-32768";
    NumeralLeads(Int, false, 12, "");
    assert "12" + "" == "12";
    assert " \t12"[1..] == "\t12" && "\t12"[1..] == "12";
  }

  lemma KnownNumerals()
    ensures Decimal(12) == "12" && Decimal(99999) == "99999" && Decimal(32768) == "32768"
  {
    hide Decimal;
    OneDigit(1);
    OneMoreDigit(1, "1", 2);
    OneDigit(9);
    OneMoreDigit(9, "9", 9);
    OneMoreDigit(99, "99", 9);
    OneMoreDigit(999, "999", 9);
    OneMoreDigit(9999, "9999", 9);
    OneDigit(3);
    OneMoreDigit(3, "3", 2);
    OneMoreDigit(32, "32", 7);
    OneMoreDigit(327, "327", 6);
    OneMoreDigit(3276, "3276", 8);
  }

  /** A text spells at most one value. */
  lemma SpellsOnce(t: IntType, s: string, x: int, y: int)
    requires Spells(t, s, x) && Spells(t, s, y)
    ensures x == y
  {
    hide Numeral, FromChars;
    FromCharsAll(t, Trim(s), x);
    FromCharsAll(t, Trim(s), y);
  }

  lemma {:induction false} TrimBlanks(blanks: string, s: string)
    requires forall i :: 0 <= i < |blanks| ==> Blank(blanks[i])
    requires s != [] && !Blank(s[0])
    ensures Trim(blanks + s) == s
  {
    if blanks == [] {
      assert blanks + s == s;
    } else {
      TrimBlanks(blanks[1..], s);
      assert (blanks + s)[1..] == blanks[1..] + s;
    }
  }

  /** The written text, after any blanks, reads as the value, for every type and value. */
  lemma TextSpells(t: IntType, blanks: string, x: int)
    requires Fits(t, x) && forall i :: 0 <= i < |blanks| ==> Blank(blanks[i])
    ensures Spells(t, blanks + Text(x), x)
  {
    hide Decimal, Value;
    ValueOfDecimal(if x < 0 then -x else x);
    assert x < 0 ==> Text(x)[1..] == Decimal(-x);
    TrimBlanks(blanks, Text(x));
  }

  /** A text without superfluous characters: no blanks, leading zeros or negative zero. */
  predicate Canonical(s: string) {
    NoLeadingZero(s) && (s[0] == '-' ==> NoLeadingZero(s[1..]) && s[1..] != "0") && !Blank(s[0])
  }

  /** The other direction: the canonical texts that can be read are the written ones. */
  lemma CanonicalText(t: IntType, s: string, x: int)
    ensures Spells(t, s, x) && Canonical(s) <==> Fits(t, x) && s == Text(x)
  {
    hide Decimal, Value, Bottom, Top;
    if Spells(t, s, x) && Canonical(s) {
      assert Trim(s) == s;
      if Digits(s) {
        DecimalOfValue(s);
      } else {
        DecimalOfValue(s[1..]);
        assert s == "-" + s[1..];
      }
    }
    if Fits(t, x) && s == Text(x) {
      TextSpells(t, "", x);
      assert "" + s == s;
      DecimalNoLeadingZero(if x < 0 then -x else x);
      assert x < 0 ==> s[1..] == Decimal(-x);
    }
  }

  /** A value written to a buffer and read back. */
  method WriteAndRead(t: IntType, x: int, space: nat) returns (r: Option<Parsed>)
    requires Fits(t, x)
    ensures r == if space < SizeBuffer(t) then None else Some(Number(x))
  {
    hide Decimal, SizeBuffer, Text, Spells;
    var buf := new char[space](_ => ' ');
    var pos := ToBuf(buf, 0, space, t, x);
    if pos.None? {
      return None;
    }
    var text := buf[pos.value..];
    assert text == "" + Text(x);
    TextSpells(t, "", x);
    var p := FromString(t, text);
    SpellsOnce(t, text, x, p.value);
    return Some(p);
  }
}

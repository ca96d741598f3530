/**
 * Character classes and the string validators shared by every entity of the
 * hospital tool. Characters are ASCII: the letter, digit and whitespace classes
 * are those that Python's `str.isalpha`, `str.isdigit`, `str.isspace` and the
 * regular-expression classes `[A-Za-z0-9]` and `\s` agree on below code 128.
 */
module Text {
  import opened Options

  predicate IsLetter(c: char) { 'A' <= c <= 'Z' || 'a' <= c <= 'z' }

  predicate IsDigit(c: char) { '0' <= c <= '9' }

  /** ASCII whitespace in Python's sense: tab to carriage return, the four
      separator controls 0x1C-0x1F, and the space. */
  predicate IsSpace(c: char) { 9 <= c as int <= 13 || 28 <= c as int <= 32 }

  /** The whitespace `int()` strips around a number: tab to carriage return and
      the space. The separator controls 0x1C-0x1F count as whitespace for
      `str.isspace` but not here. */
  predicate IsIntSpace(c: char) { 9 <= c as int <= 13 || c == ' ' }

  /** `^[A-Za-z0-9]+$`: bill, patient (in billing and appointments), service
      and appointment IDs. */
  predicate IsAlnumId(s: string) {
    |s| > 0 && forall i :: 0 <= i < |s| ==> IsLetter(s[i]) || IsDigit(s[i])
  }

  /** `^(?=.*[A-Za-z])[A-Za-z0-9]+$`: a doctor ID is alphanumeric and holds a letter. */
  predicate IsDoctorId(s: string) {
    IsAlnumId(s) && exists i :: 0 <= i < |s| && IsLetter(s[i])
  }

  /** `^[A-Za-z0-9\s\-_]+$`: a service name. */
  predicate IsServiceName(s: string) {
    |s| > 0 &&
    forall i :: 0 <= i < |s| ==> IsLetter(s[i]) || IsDigit(s[i]) || IsSpace(s[i]) || s[i] == '-' || s[i] == '_'
  }

  /** A non-empty string whose every character is a letter or whitespace: a
      doctor's name and specialization, an appointment's diagnosis. */
  predicate IsLettersOrSpaces(s: string) {
    |s| > 0 && forall i :: 0 <= i < |s| ==> IsLetter(s[i]) || IsSpace(s[i])
  }

  /** `s` with every space character ' ' removed (Python's `s.replace(' ', '')`). */
  function WithoutSpaces(s: string): (r: string)
    ensures |r| <= |s|
    ensures forall c :: c in r <==> c in s && c != ' '
  {
    if s == [] then []
    else WithoutSpaces(s[..|s| - 1]) + (if s[|s| - 1] == ' ' then [] else [s[|s| - 1]])
  }

  /** A patient's name: non-empty, and what remains once spaces are removed is a
      non-empty run of letters. */
  predicate IsPatientName(s: string) {
    var t := WithoutSpaces(s);
    |s| > 0 && |t| > 0 && forall i :: 0 <= i < |t| ==> IsLetter(t[i])
  }

  /** A patient's name, character by character: only letters and spaces, and
      at least one letter (so a name of spaces alone is refused). */
  lemma PatientNameChars(s: string)
    ensures IsPatientName(s) <==>
      && (forall i :: 0 <= i < |s| ==> IsLetter(s[i]) || s[i] == ' ')
      && (exists i :: 0 <= i < |s| && IsLetter(s[i]))
  {
    var t := WithoutSpaces(s);
    if IsPatientName(s) {
      forall i | 0 <= i < |s| ensures IsLetter(s[i]) || s[i] == ' ' {
        if s[i] != ' ' {
          assert s[i] in t;
          var j :| 0 <= j < |t| && t[j] == s[i];
        }
      }
      assert t[0] in s;
      var k :| 0 <= k < |s| && s[k] == t[0];
      assert IsLetter(s[k]);
    }
    if (forall i :: 0 <= i < |s| ==> IsLetter(s[i]) || s[i] == ' ') && (exists i :: 0 <= i < |s| && IsLetter(s[i])) {
      var k :| 0 <= k < |s| && IsLetter(s[k]);
      assert s[k] in t;
      forall j | 0 <= j < |t| ensures IsLetter(t[j]) {
        assert t[j] in s;
      }
    }
  }

  /** A contact number: only digits, at least ten of them. */
  predicate IsContact(s: string) {
    |s| >= 10 && forall i :: 0 <= i < |s| ==> IsDigit(s[i])
  }

  predicate IsGender(s: string) { s == "M" || s == "F" || s == "Other" }

  const MaxCost: real := 5000.0

  /** The closed cost range of a service, both endpoints included. */
  predicate IsCost(c: real) { 0.0 <= c <= MaxCost }

  // ---------------------------------------------------------------- numbers

  function DigitValue(c: char): (d: nat)
    requires IsDigit(c)
    ensures d < 10
  {
    (c as int) - ('0' as int)
  }

  /** Every character is a digit or the separator `_`. */
  predicate IsNumeral(s: string) {
    forall i :: 0 <= i < |s| ==> IsDigit(s[i]) || s[i] == '_'
  }

  /** The value of a run of digits in which `_` separators are skipped. */
  function Magnitude(s: string): nat
    requires IsNumeral(s)
  {
    if s == [] then 0
    else if s[|s| - 1] == '_' then Magnitude(s[..|s| - 1])
    else Magnitude(s[..|s| - 1]) * 10 + DigitValue(s[|s| - 1])
  }

  /** How many characters of `s` are digits: separators and signs do not count. */
  function DigitCount(s: string): (n: nat)
    ensures n <= |s|
  {
    if s == [] then 0 else DigitCount(s[..|s| - 1]) + (if IsDigit(s[|s| - 1]) then 1 else 0)
  }

  /** The interpreter's default limit on the digits `int()` converts
      (`sys.get_int_max_str_digits()`); a longer numeral raises `ValueError`. */
  const MaxIntDigits: nat := 4300

  function Pow10(k: nat): (p: nat)
    ensures p >= 1
  {
    if k == 0 then 1 else 10 * Pow10(k - 1)
  }

  /** Digits, where a single `_` may stand between two digits: the body of a
      Python integer literal in base 10. */
  predicate IsDigitRun(s: string) {
    && |s| > 0
    && IsDigit(s[0])
    && IsNumeral(s)
    && forall i :: 0 <= i < |s| && s[i] == '_' ==> i + 1 < |s| && IsDigit(s[i + 1])
  }

  /** `s` without its leading whitespace: only whitespace is dropped, and all of it. */
  function TrimStart(s: string): (r: string)
    ensures |r| <= |s|
    ensures r == s[|s| - |r|..]
    ensures forall i :: 0 <= i < |s| - |r| ==> IsIntSpace(s[i])
    ensures r != [] ==> !IsIntSpace(r[0])
  {
    if s != [] && IsIntSpace(s[0]) then TrimStart(s[1..]) else s
  }

  /** `s` without its trailing whitespace: only whitespace is dropped, and all of it. */
  function TrimEnd(s: string): (r: string)
    ensures |r| <= |s|
    ensures r == s[..|r|]
    ensures forall i :: |r| <= i < |s| ==> IsIntSpace(s[i])
    ensures r != [] ==> !IsIntSpace(r[|r| - 1])
  {
    if s != [] && IsIntSpace(s[|s| - 1]) then TrimEnd(s[..|s| - 1]) else s
  }

  /** A numeral of `k` digits stands for a number below `10^k`. */
  lemma {:induction false} MagnitudeBound(s: string)
    requires IsNumeral(s)
    ensures Magnitude(s) < Pow10(DigitCount(s))
  {
    if s != [] {
      var init := s[..|s| - 1];
      assert IsNumeral(init) by {
        forall i | 0 <= i < |init| ensures IsDigit(init[i]) || init[i] == '_' {
          assert init[i] == s[i];
        }
      }
      MagnitudeBound(init);
      assert DigitCount(s) == DigitCount(init) + (if IsDigit(s[|s| - 1]) then 1 else 0);
      if s[|s| - 1] != '_' {
        var p := Pow10(DigitCount(init));
        assert Magnitude(init) <= p - 1;
        assert Magnitude(s) == Magnitude(init) * 10 + DigitValue(s[|s| - 1]);
        assert Magnitude(init) * 10 <= (p - 1) * 10;
        assert Pow10(DigitCount(s)) == 10 * p;
      }
    }
  }

  /** A number below `10^k` is written in at most `k` decimal digits. */
  lemma {:induction false} DecimalLength(n: nat, k: nat)
    requires 1 <= k && n < Pow10(k)
    ensures |Decimal(n)| <= k
  {
    if n >= 10 {
      assert Pow10(k) == 10 * Pow10(k - 1);
      assert Pow10(k - 1) > 1;
      DecimalLength(n / 10, k - 1);
    }
  }

  /** A numeral within the digit limit stands for a number that is written
      back within the limit. */
  lemma MagnitudeFits(s: string)
    requires IsNumeral(s) && DigitCount(s) <= MaxIntDigits
    ensures |Decimal(Magnitude(s))| <= MaxIntDigits
  {
    MagnitudeBound(s);
    if DigitCount(s) > 0 {
      DecimalLength(Magnitude(s), DigitCount(s));
    }
  }

  /** Python's `int(s)` on a string: surrounding `IsIntSpace` whitespace is ignored, an
      optional sign may lead, and the rest must be a digit run of at most
      `MaxIntDigits` digits. `None` stands for the `ValueError` the source catches. */
  function ParseInt(s: string): (r: Option<int>)
    ensures var t := TrimEnd(TrimStart(s));
            r.Some? <==> || (IsDigitRun(t) && DigitCount(t) <= MaxIntDigits)
                         || (|t| > 1 && (t[0] == '+' || t[0] == '-') && IsDigitRun(t[1..]) && DigitCount(t[1..]) <= MaxIntDigits)
    ensures var t := TrimEnd(TrimStart(s));
            r.Some? ==>
              && (IsDigitRun(t) ==> r.value == Magnitude(t))
              && (t[0] == '+' ==> r.value == Magnitude(t[1..]))
              && (t[0] == '-' ==> r.value == 0 - Magnitude(t[1..]))
    ensures r.Some? ==> |Decimal(if r.value < 0 then 0 - r.value else r.value)| <= MaxIntDigits
  {
    var t := TrimEnd(TrimStart(s));
    if |t| > 0 && (t[0] == '+' || t[0] == '-') then
      var body := t[1..];
      if IsDigitRun(body) && DigitCount(body) <= MaxIntDigits then
        MagnitudeFits(body);
        Some(if t[0] == '-' then 0 - Magnitude(body) else Magnitude(body))
      else None
    else if IsDigitRun(t) && DigitCount(t) <= MaxIntDigits then
      MagnitudeFits(t);
      Some(Magnitude(t))
    else None
  }

  /** The canonical decimal spelling of a natural number (what the database
      gives back for an integer key). */
  function Decimal(n: nat): (s: string)
    ensures |s| > 0
    ensures forall i :: 0 <= i < |s| ==> IsDigit(s[i])
  {
    if n < 10 then ['0' + n as char] else Decimal(n / 10) + ['0' + (n % 10) as char]
  }

  lemma {:induction false} DecimalMagnitude(n: nat)
    ensures Magnitude(Decimal(n)) == n
  {
    if n >= 10 {
      var s := Decimal(n);
      DecimalMagnitude(n / 10);
      assert s[..|s| - 1] == Decimal(n / 10);
    }
  }

  /** In a string of digits only, every character counts toward the limit. */
  lemma {:induction false} AllDigitsCount(s: string)
    requires forall i :: 0 <= i < |s| ==> IsDigit(s[i])
    ensures DigitCount(s) == |s|
  {
    if s != [] {
      AllDigitsCount(s[..|s| - 1]);
    }
  }

  /** A string of digits only is read by `int()` as its magnitude, when it is
      within the digit limit, and refused when it is longer. Leading zeros count. */
  lemma ParseDigits(s: string)
    requires |s| > 0 && forall i :: 0 <= i < |s| ==> IsDigit(s[i])
    ensures |s| <= MaxIntDigits ==> ParseInt(s) == Some(Magnitude(s))
    ensures |s| > MaxIntDigits ==> ParseInt(s) == None
  {
    assert !IsIntSpace(s[0]) && !IsIntSpace(s[|s| - 1]);
    assert TrimStart(s) == s;
    assert TrimEnd(s) == s;
    assert s[0] != '+' && s[0] != '-';
    assert IsNumeral(s);
    assert IsDigitRun(s);
    AllDigitsCount(s);
  }

  /** `int()` strips less than `str.isspace` admits: a number led by the
      separator control 0x1C is refused, though 0x1C is whitespace to `isspace`. */
  lemma SeparatorIsNoIntSpace()
    ensures IsSpace(28 as char) && !IsIntSpace(28 as char)
    ensures ParseInt([28 as char, '5']) == None
  {
    var s := [28 as char, '5'];
    assert TrimStart(s) == s;
    assert TrimEnd(s) == s;
    assert !IsDigit(s[0]) && s[0] != '+' && s[0] != '-';
  }

  /** Round trip: `int()` of the canonical decimal of a number gives the
      number back, when the decimal is within the digit limit. */
  lemma ParseDecimal(n: nat)
    requires |Decimal(n)| <= MaxIntDigits
    ensures ParseInt(Decimal(n)) == Some(n)
  {
    ParseDigits(Decimal(n));
    DecimalMagnitude(n);
  }

  /** The canonical decimal of a number is a valid alphanumeric ID. */
  lemma DecimalIsAlnumId(n: nat)
    ensures IsAlnumId(Decimal(n))
  {
  }

  // ------------------------------------------------------------------ dates

  /** `^\d{4}-\d{2}-\d{2}$`: the shape of a date, with no calendar check. */
  predicate IsDateShape(s: string) {
    && |s| == 10
    && IsDigit(s[0]) && IsDigit(s[1]) && IsDigit(s[2]) && IsDigit(s[3])
    && s[4] == '-'
    && IsDigit(s[5]) && IsDigit(s[6])
    && s[7] == '-'
    && IsDigit(s[8]) && IsDigit(s[9])
  }

  function Year(s: string): nat requires IsDateShape(s) {
    DigitValue(s[0]) * 1000 + DigitValue(s[1]) * 100 + DigitValue(s[2]) * 10 + DigitValue(s[3])
  }

  function Month(s: string): nat requires IsDateShape(s) {
    DigitValue(s[5]) * 10 + DigitValue(s[6])
  }

  function Day(s: string): nat requires IsDateShape(s) {
    DigitValue(s[8]) * 10 + DigitValue(s[9])
  }

  predicate IsLeapYear(y: int) { (y % 4 == 0 && y % 100 != 0) || y % 400 == 0 }

  function DaysInMonth(y: int, m: int): (d: int)
    requires 1 <= m <= 12
    ensures 28 <= d <= 31
  {
    if m == 2 then (if IsLeapYear(y) then 29 else 28)
    else if m == 4 || m == 6 || m == 9 || m == 11 then 30
    else 31
  }

  /** `datetime.strptime(s, "%Y-%m-%d")` succeeds: the date shape, a year of at
      least 1, a month of the year and a day of that month. */
  predicate IsCalendarDate(s: string) {
    && IsDateShape(s)
    && 1 <= Year(s)
    && 1 <= Month(s) <= 12
    && 1 <= Day(s) <= DaysInMonth(Year(s), Month(s))
  }

  /** The Gregorian calendar `strptime` checks, month by month: day 31 only in
      the seven long months, day 30 in all but February, and February 29th
      only in a leap year. */
  lemma CalendarDays(s: string)
    requires IsDateShape(s) && 1 <= Year(s) && 1 <= Month(s) <= 12 && 1 <= Day(s)
    ensures Day(s) <= 28 ==> IsCalendarDate(s)
    ensures Day(s) == 29 ==> (IsCalendarDate(s) <==> Month(s) != 2 || IsLeapYear(Year(s)))
    ensures Day(s) == 30 ==> (IsCalendarDate(s) <==> Month(s) != 2)
    ensures Day(s) == 31 ==> (IsCalendarDate(s) <==> Month(s) in {1, 3, 5, 7, 8, 10, 12})
    ensures Day(s) > 31 ==> !IsCalendarDate(s)
  {
  }
}

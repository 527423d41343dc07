/** parsers/parseDate.ts: a date as "DD-MM-YYYY", from a day and a
    genitive month name ("15 августа") or from a numeric day and month
    ("15.08", "1-8", "3/12"). The year is the current one, passed in. */
module DateParser {
  import opened Wrappers
  import opened Text
  import opened SlotModel

  /** The alternation of the month-name pattern, in its written order. */
  const MonthNames: seq<string> :=
    ["января", "февраля", "марта", "апреля", "мая", "июня",
     "июля", "августа", "сентября", "октября", "ноября", "декабря"]

  /** The table `months`. */
  const Months: map<string, string> :=
    map["января" := "01", "февраля" := "02", "марта" := "03", "апреля" := "04",
        "мая" := "05", "июня" := "06", "июля" := "07", "августа" := "08",
        "сентября" := "09", "октября" := "10", "ноября" := "11", "декабря" := "12"]

  /** The table's keys are the twelve names of the pattern, and the i-th
      name maps to month i + 1 written with two digits, so distinct names
      give distinct months. */
  lemma MonthTable()
    ensures forall name :: name in Months <==> name in MonthNames
    ensures forall i :: 0 <= i < |MonthNames| ==> Months[MonthNames[i]] == PadTwo(NatToString(i + 1))
    ensures forall i, j :: 0 <= i < |MonthNames| && 0 <= j < |MonthNames| && i != j ==>
      Months[MonthNames[i]] != Months[MonthNames[j]]
  {
    forall i | 0 <= i < |MonthNames|
      ensures Months[MonthNames[i]] == PadTwo(NatToString(i + 1))
    {
      MonthNumber(i);
    }
    forall i, j | 0 <= i < |MonthNames| && 0 <= j < |MonthNames| && i != j
      ensures Months[MonthNames[i]] != Months[MonthNames[j]]
    {
      MonthNumber(i);
      MonthNumber(j);
      MonthNumberInjective(i + 1, j + 1);
    }
  }

  /** The i-th name of the pattern is in the table, with month i + 1. */
  lemma MonthNumber(i: nat)
    requires i < |MonthNames|
    ensures MonthNames[i] in Months && Months[MonthNames[i]] == PadTwo(NatToString(i + 1))
  {
    if i < 2 { MonthsFrom0(i); }
    else if i < 4 { MonthsFrom2(i); }
    else if i < 6 { MonthsFrom4(i); }
    else if i < 8 { MonthsFrom6(i); }
    else if i < 10 { MonthsFrom8(i); }
    else if i == 10 { MonthsFrom10(i); }
    else { MonthsFrom11(i); }
  }

  lemma MonthsFrom0(i: nat)
    requires i == 0 || i == 1
    ensures MonthNames[i] in Months && Months[MonthNames[i]] == PadTwo(NatToString(i + 1))
  {
    if i == 0 {
      assert MonthNames[0] == "января" && Months["января"] == "01";
      assert NatToString(1) == "1";
    } else {
      assert MonthNames[1] == "февраля" && Months["февраля"] == "02";
      assert NatToString(2) == "2";
    }
  }

  lemma MonthsFrom2(i: nat)
    requires i == 2 || i == 3
    ensures MonthNames[i] in Months && Months[MonthNames[i]] == PadTwo(NatToString(i + 1))
  {
    if i == 2 {
      assert MonthNames[2] == "марта" && Months["марта"] == "03";
      assert NatToString(3) == "3";
    } else {
      assert MonthNames[3] == "апреля" && Months["апреля"] == "04";
      assert NatToString(4) == "4";
    }
  }

  lemma MonthsFrom4(i: nat)
    requires i == 4 || i == 5
    ensures MonthNames[i] in Months && Months[MonthNames[i]] == PadTwo(NatToString(i + 1))
  {
    if i == 4 {
      assert MonthNames[4] == "мая" && Months["мая"] == "05";
      assert NatToString(5) == "5";
    } else {
      assert MonthNames[5] == "июня" && Months["июня"] == "06";
      assert NatToString(6) == "6";
    }
  }

  lemma MonthsFrom6(i: nat)
    requires i == 6 || i == 7
    ensures MonthNames[i] in Months && Months[MonthNames[i]] == PadTwo(NatToString(i + 1))
  {
    if i == 6 {
      assert MonthNames[6] == "июля" && Months["июля"] == "07";
      assert NatToString(7) == "7";
    } else {
      assert MonthNames[7] == "августа" && Months["августа"] == "08";
      assert NatToString(8) == "8";
    }
  }

  lemma MonthsFrom8(i: nat)
    requires i == 8 || i == 9
    ensures MonthNames[i] in Months && Months[MonthNames[i]] == PadTwo(NatToString(i + 1))
  {
    if i == 8 {
      assert MonthNames[8] == "сентября" && Months["сентября"] == "09";
      assert NatToString(9) == "9";
    } else {
      assert MonthNames[9] == "октября" && Months["октября"] == "10";
      assert NatToString(10) == "10";
    }
  }

  lemma MonthsFrom10(i: nat)
    requires i == 10
    ensures MonthNames[i] in Months && Months[MonthNames[i]] == PadTwo(NatToString(i + 1))
  {
    assert MonthNames[10] == "ноября" && Months["ноября"] == "11";
    assert NatToString(11) == "11";
  }

  lemma MonthsFrom11(i: nat)
    requires i == 11
    ensures MonthNames[i] in Months && Months[MonthNames[i]] == PadTwo(NatToString(i + 1))
  {
    assert MonthNames[11] == "декабря" && Months["декабря"] == "12";
    assert NatToString(12) == "12";
  }

  /** Two-digit month numbers of different months differ. */
  lemma MonthNumberInjective(a: nat, b: nat)
    requires 1 <= a <= 12 && 1 <= b <= 12 && a != b
    ensures PadTwo(NatToString(a)) != PadTwo(NatToString(b))
  {
    PadTwoValue(a);
    PadTwoValue(b);
  }

  /** Padding a numeral below 100 to two digits keeps its value. */
  lemma PadTwoValue(n: nat)
    requires n < 100
    ensures AllDigits(PadTwo(NatToString(n))) && DigitsValue(PadTwo(NatToString(n))) == n
  {
    NatToStringDigits(n);
    var s := NatToString(n);
    if n < 10 {
      var p := PadTwo(s);
      assert p == "0" + s;
      assert p[..1] == "0";
    }
  }

  // ---------------------------------------------------------------------
  // The month-name pattern `(\d{1,2})\s?(января|…|декабря)`

  /** The first month name of the alternation that starts at `q`. */
  function MonthAt(s: string, q: nat, i: nat): (r: Option<string>)
    requires q <= |s| && i <= |MonthNames|
    ensures r.Some? ==> r.value in MonthNames
    decreases |MonthNames| - i
  {
    if i == |MonthNames| then None
    else if StartsWith(s[q..], MonthNames[i]) then Some(MonthNames[i])
    else MonthAt(s, q, i + 1)
  }

  /** `\s?(month)` after the day ends at `q`: a greedy optional space, then
      without it. */
  function MonthAfterDay(s: string, q: nat): (r: Option<string>)
    requires q <= |s|
    ensures r.Some? ==> r.value in MonthNames
  {
    if q < |s| && IsSpace(s[q]) && MonthAt(s, q + 1, 0).Some? then MonthAt(s, q + 1, 0)
    else MonthAt(s, q, 0)
  }

  /** The pattern tried at `p`: two day digits, and failing that one. */
  function MonthDateAt(s: string, p: nat): (r: Option<(string, string)>)
    requires p <= |s|
    ensures r.Some? ==> 1 <= |r.value.0| <= 2 && AllDigits(r.value.0) && r.value.1 in MonthNames
  {
    if p + 2 <= |s| && IsDigit(s[p]) && IsDigit(s[p + 1]) && MonthAfterDay(s, p + 2).Some? then
      var day := s[p..p + 2];
      assert day[0] == s[p] && day[1] == s[p + 1];
      Some((day, MonthAfterDay(s, p + 2).value))
    else if p + 1 <= |s| && IsDigit(s[p]) && MonthAfterDay(s, p + 1).Some? then
      var day := s[p..p + 1];
      assert day[0] == s[p];
      Some((day, MonthAfterDay(s, p + 1).value))
    else None
  }

  /** The leftmost match of the month-name pattern from `p` on: (day, month name). */
  function MonthDate(s: string, p: nat): (r: Option<(string, string)>)
    requires p <= |s|
    ensures r.Some? ==> 1 <= |r.value.0| <= 2 && AllDigits(r.value.0) && r.value.1 in MonthNames
    decreases |s| - p
  {
    if MonthDateAt(s, p).Some? then MonthDateAt(s, p)
    else if p == |s| then None
    else MonthDate(s, p + 1)
  }

  // ---------------------------------------------------------------------
  // The numeric pattern `(\d{1,2})[.\-/](\d{1,2})`

  predicate IsDateSep(c: char) {
    c == '.' || c == '-' || c == '/'
  }

  /** `[.\-/](\d{1,2})` after the day ends at `q`: the month's digits, two
      if there are two. */
  function MonthDigitsAfter(s: string, q: nat): (r: Option<string>)
    requires q <= |s|
    ensures r.Some? ==> 1 <= |r.value| <= 2 && AllDigits(r.value)
  {
    if q + 2 <= |s| && IsDateSep(s[q]) && IsDigit(s[q + 1]) then
      if q + 3 <= |s| && IsDigit(s[q + 2]) then Some(s[q + 1 .. q + 3]) else Some(s[q + 1 .. q + 2])
    else None
  }

  function NumericDateAt(s: string, p: nat): (r: Option<(string, string)>)
    requires p <= |s|
    ensures r.Some? ==> 1 <= |r.value.0| <= 2 && AllDigits(r.value.0)
    ensures r.Some? ==> 1 <= |r.value.1| <= 2 && AllDigits(r.value.1)
  {
    if p + 2 <= |s| && IsDigit(s[p]) && IsDigit(s[p + 1]) && MonthDigitsAfter(s, p + 2).Some? then
      Some((s[p..p + 2], MonthDigitsAfter(s, p + 2).value))
    else if p + 1 <= |s| && IsDigit(s[p]) && MonthDigitsAfter(s, p + 1).Some? then
      Some((s[p..p + 1], MonthDigitsAfter(s, p + 1).value))
    else None
  }

  /** The leftmost match of the numeric pattern from `p` on: (day, month). */
  function NumericDate(s: string, p: nat): (r: Option<(string, string)>)
    requires p <= |s|
    ensures r.Some? ==> 1 <= |r.value.0| <= 2 && AllDigits(r.value.0)
    ensures r.Some? ==> 1 <= |r.value.1| <= 2 && AllDigits(r.value.1)
    decreases |s| - p
  {
    if NumericDateAt(s, p).Some? then NumericDateAt(s, p)
    else if p == |s| then None
    else NumericDate(s, p + 1)
  }

  // ---------------------------------------------------------------------
  // parseDate

  /** `${day}-${month}-${year}`. */
  function FormatDate(day: string, month: string, year: nat): string {
    PadTwo(day) + "-" + month + "-" + NatToString(year)
  }

  /** The shape `^\d{2}-\d{2}-\d{4}$`. */
  predicate IsDdMmYyyy(d: string) {
    |d| == 10 && d[2] == '-' && d[5] == '-'
    && forall i :: 0 <= i < 10 && i != 2 && i != 5 ==> IsDigit(d[i])
  }

  /** `parseDate`: the month-name pattern first, the numeric pattern only
      when it fails. The record holds the date key alone, or nothing. */
  function ParseDate(message: string, year: nat): (r: SlotState)
    ensures r == Empty || (r.date.Some? && r == Empty.(date := r.date))
  {
    var lower := LowerStr(message);
    match MonthDate(lower, 0)
    case Some((day, name)) => Empty.(date := Some(FormatDate(day, Months[name], year)))
    case None =>
      match NumericDate(lower, 0)
      case Some((day, month)) => Empty.(date := Some(FormatDate(day, PadTwo(month), year)))
      case None => Empty
  }

  lemma ShapeOfParts(d: string, m: string, y: string)
    requires |d| == 2 && |m| == 2 && |y| == 4 && AllDigits(d) && AllDigits(m) && AllDigits(y)
    ensures IsDdMmYyyy(d + "-" + m + "-" + y)
  {
    var f := d + "-" + m + "-" + y;
    forall i | 0 <= i < 10 && i != 2 && i != 5 ensures IsDigit(f[i]) {
      if i < 2 { assert f[i] == d[i]; }
      else if i < 5 { assert f[i] == m[i - 3]; }
      else { assert f[i] == y[i - 6]; }
    }
  }

  /** A day of one or two digits is padded to two digits. */
  lemma PadTwoDigits(s: string)
    requires 1 <= |s| <= 2 && AllDigits(s)
    ensures |PadTwo(s)| == 2 && AllDigits(PadTwo(s))
  {
    if |s| == 1 {
      assert PadTwo(s) == "0" + s;
    }
  }

  /** A day and month of one or two digits and a four-digit year give
      DD-MM-YYYY. */
  lemma FormatShape(day: string, month: string, year: nat)
    requires 1 <= |day| <= 2 && AllDigits(day)
    requires |month| == 2 && AllDigits(month)
    requires 1000 <= year <= 9999
    ensures IsDdMmYyyy(FormatDate(day, month, year))
  {
    NatToStringFourDigits(year);
    NatToStringDigits(year);
    PadTwoDigits(day);
    ShapeOfParts(PadTwo(day), month, NatToString(year));
  }

  /** Every date produced, from either pattern, has the form DD-MM-YYYY
      when the year has four digits. The numeric pattern checks no range,
      so "99.99" gives "99-99-YYYY" too. */
  lemma DateShape(message: string, year: nat)
    requires 1000 <= year <= 9999
    ensures ParseDate(message, year).date.Some? ==> IsDdMmYyyy(ParseDate(message, year).date.value)
  {
    var lower := LowerStr(message);
    match MonthDate(lower, 0)
    case Some((day, name)) =>
      MonthValueDigits(name);
      FormatShape(day, Months[name], year);
    case None =>
      match NumericDate(lower, 0)
      case Some((day, month)) =>
        PadTwoDigits(month);
        FormatShape(day, PadTwo(month), year);
      case None =>
  }

  /** The month a name of the pattern stands for is two digits. */
  lemma MonthValueDigits(name: string)
    requires name in MonthNames
    ensures name in Months && |Months[name]| == 2 && AllDigits(Months[name])
  {
    var i :| 0 <= i < |MonthNames| && MonthNames[i] == name;
    MonthNumber(i);
    SmallNumeral(i + 1);
    PadTwoDigits(NatToString(i + 1));
  }

  /** Digits and the separators of the numeric pattern only. */
  predicate AllNumeric(s: string) {
    forall k :: 0 <= k < |s| ==> IsDigit(s[k]) || IsDateSep(s[k])
  }

  /** No month name starts with a digit or a separator. */
  lemma NameInitial(i: nat)
    requires i < |MonthNames|
    ensures |MonthNames[i]| > 0 && !IsDigit(MonthNames[i][0]) && !IsDateSep(MonthNames[i][0])
  {
    StemOf(i);
  }

  /** From a position where only digits and separators follow, no month
      name of the alternation from `j` on matches. */
  lemma {:induction false} NoMonthAt(s: string, q: nat, j: nat)
    requires q <= |s| && j <= |MonthNames| && AllNumeric(s)
    ensures MonthAt(s, q, j).None?
    decreases |MonthNames| - j
  {
    if j < |MonthNames| {
      NameInitial(j);
      assert !StartsWith(s[q..], MonthNames[j]) by {
        if q < |s| { assert s[q..][0] == s[q]; }
      }
      NoMonthAt(s, q, j + 1);
    }
  }

  /** After a day, only digits and separators: no optional space and no
      month name. */
  lemma NoMonthAfterDay(s: string, q: nat)
    requires q <= |s| && AllNumeric(s)
    ensures MonthAfterDay(s, q).None?
  {
    NoMonthAt(s, q, 0);
    if q < |s| {
      NoMonthAt(s, q + 1, 0);
    }
  }

  /** Digits and separators hold no match of the month-name pattern. */
  lemma {:induction false} NoMonthDate(s: string, p: nat)
    requires p <= |s| && AllNumeric(s)
    ensures MonthDate(s, p).None?
    decreases |s| - p
  {
    if p + 1 <= |s| { NoMonthAfterDay(s, p + 1); }
    if p + 2 <= |s| { NoMonthAfterDay(s, p + 2); }
    assert MonthDateAt(s, p).None?;
    if p < |s| {
      NoMonthDate(s, p + 1);
    }
  }

  /** "D<sep>M" with one or two digits on each side matches the numeric
      pattern at its start, with D and M as its groups. */
  lemma NumericAtStart(day: string, sep: char, month: string)
    requires 1 <= |day| <= 2 && AllDigits(day) && 1 <= |month| <= 2 && AllDigits(month) && IsDateSep(sep)
    ensures NumericDateAt(day + [sep] + month, 0) == Some((day, month))
  {
    var s := day + [sep] + month;
    var q := |day|;
    assert s[q] == sep && s[..q] == day;
    if |month| == 2 {
      assert s[q + 1 .. q + 3] == month;
    } else {
      assert s[q + 1 .. q + 2] == month;
    }
    assert MonthDigitsAfter(s, q) == Some(month);
    if q == 1 {
      assert !IsDigit(s[1]);
    }
  }

  /** Day d and month m below 100 written "d.m", "d-m" or "d/m" come back
      as PadTwo(d)-PadTwo(m)-year. */
  lemma {:induction false} NumericRoundTrip(d: nat, m: nat, sep: char, year: nat)
    requires d < 100 && m < 100 && IsDateSep(sep)
    ensures ParseDate(NatToString(d) + [sep] + NatToString(m), year).date ==
      Some(PadTwo(NatToString(d)) + "-" + PadTwo(NatToString(m)) + "-" + NatToString(year))
  {
    var day := NatToString(d);
    var month := NatToString(m);
    SmallNumeral(d);
    SmallNumeral(m);
    var s := day + [sep] + month;
    assert AllNumeric(s) by {
      forall k | 0 <= k < |s| ensures IsDigit(s[k]) || IsDateSep(s[k]) {
        if k < |day| { assert s[k] == day[k]; }
        else if k > |day| { assert s[k] == month[k - |day| - 1]; }
      }
    }
    assert LowerStr(s) == s;
    NoMonthDate(s, 0);
    NumericAtStart(day, sep, month);
  }

  /** Neither day nor month is range-checked: "99.99" is a date. */
  lemma NoRangeCheck(year: nat)
    ensures ParseDate("99.99", year) == Empty.(date := Some("99-99-" + NatToString(year)))
  {
    var m := "99.99";
    assert LowerStr(m) == m;
    assert AllNumeric(m);
    NoMonthDate(m, 0);
    NumericAtStart("99", '.', "99");
    assert "99" + ['.'] + "99" == m;
    assert NumericDate(m, 0) == Some(("99", "99"));
    assert MonthDate(LowerStr(m), 0).None?;
    assert NumericDate(LowerStr(m), 0) == Some(("99", "99"));
    assert ParseDate(m, year).date == Some(FormatDate("99", PadTwo("99"), year));
    assert PadTwo("99") == "99";
    assert "99" + "-" + "99" + "-" == "99-99-";
    assert ParseDate(m, year).date == Some("99-99-" + NatToString(year));
  }

  /** A message with a month name never reaches the numeric pattern: "15
      августа 10.09" is the 15th of August. */
  lemma MonthNameFirst(message: string, year: nat)
    requires MonthDate(LowerStr(message), 0).Some?
    ensures var m := MonthDate(LowerStr(message), 0).value;
      ParseDate(message, year).date == Some(FormatDate(m.0, Months[m.1], year))
  {
  }

  /** A numeral below 100 has one or two digits. */
  lemma SmallNumeral(d: nat)
    requires d < 100
    ensures 1 <= |NatToString(d)| <= 2 && AllDigits(NatToString(d))
  {
    NatToStringDigits(d);
    if d >= 10 {
      assert NatToString(d) == NatToString(d / 10) + [DigitChar(d % 10)];
    }
  }

  /** "<digits> <month name>" is already lower case. */
  lemma LowerDayMonth(digits: string, i: nat)
    requires AllDigits(digits) && i < |MonthNames|
    ensures LowerStr(digits + " " + MonthNames[i]) == digits + " " + MonthNames[i]
  {
    var s := digits + " " + MonthNames[i];
    forall k | 0 <= k < |s| ensures Lower(s[k]) == s[k] {
      if k > |digits| {
        assert s[k] == MonthNames[i][k - |digits| - 1];
        assert 'а' <= s[k] <= 'я';
      }
    }
  }

  /** A space and then a month name: the optional space is taken. */
  lemma MonthAfterSpace(s: string, q: nat, i: nat)
    requires i < |MonthNames| && q < |s| && s[q] == ' ' && s[q + 1..] == MonthNames[i]
    ensures MonthAfterDay(s, q) == Some(MonthNames[i])
  {
    MonthAtName(s, q + 1, i);
  }

  /** The month-name pattern matches "<digits> <month name>" at its start. */
  lemma MonthDateOfPhrase(digits: string, i: nat)
    requires 1 <= |digits| <= 2 && AllDigits(digits) && i < |MonthNames|
    ensures MonthDate(digits + " " + MonthNames[i], 0) == Some((digits, MonthNames[i]))
  {
    var name := MonthNames[i];
    var s := digits + " " + name;
    var q := |digits|;
    assert s[q + 1..] == name;
    MonthAfterSpace(s, q, i);
    assert s[0..q] == digits;
    if q == 1 {
      assert !IsDigit(s[1]);
      assert MonthDateAt(s, 0) == Some((digits, name));
    } else {
      assert IsDigit(s[0]) && IsDigit(s[1]);
      assert MonthDateAt(s, 0) == Some((digits, name));
    }
  }

  /** Day number `d` followed by a space and the i-th month name comes back
      as that day of month i + 1. */
  lemma {:induction false} DayMonthRoundTrip(d: nat, i: nat, year: nat)
    requires d < 100 && i < |MonthNames|
    ensures ParseDate(NatToString(d) + " " + MonthNames[i], year).date ==
      Some(PadTwo(NatToString(d)) + "-" + PadTwo(NatToString(i + 1)) + "-" + NatToString(year))
  {
    var digits := NatToString(d);
    var s := digits + " " + MonthNames[i];
    SmallNumeral(d);
    LowerDayMonth(digits, i);
    MonthDateOfPhrase(digits, i);
    MonthTable();
    assert Months[MonthNames[i]] == PadTwo(NatToString(i + 1));
    assert ParseDate(s, year).date == Some(FormatDate(digits, Months[MonthNames[i]], year));
  }

  /** At the start of the i-th month name the alternation picks that name:
      no earlier name of the list is a prefix of it. */
  lemma MonthAtName(s: string, q: nat, i: nat)
    requires i < |MonthNames| && q <= |s| && s[q..] == MonthNames[i]
    ensures MonthAt(s, q, 0) == Some(MonthNames[i])
  {
    MonthAtFrom(s, q, i, 0);
  }

  lemma {:induction false} MonthAtFrom(s: string, q: nat, i: nat, j: nat)
    requires i < |MonthNames| && j <= i && q <= |s| && s[q..] == MonthNames[i]
    ensures MonthAt(s, q, j) == Some(MonthNames[i])
    decreases i - j
  {
    if j < i {
      assert !StartsWith(MonthNames[i], MonthNames[j]) by { NoNamePrefix(i, j); }
      MonthAtFrom(s, q, i, j + 1);
    }
  }

  /** No month name starts with a different month name. */
  lemma NoNamePrefix(i: nat, j: nat)
    requires i < |MonthNames| && j < |MonthNames| && i != j
    ensures !StartsWith(MonthNames[i], MonthNames[j])
  {
    StemsDistinct(i, j);
    PrefixStem(MonthNames[i], MonthNames[j]);
  }

  /** The first and third letters of each month name. */
  const Stems: seq<(char, char)> :=
    [('я', 'в'), ('ф', 'в'), ('м', 'р'), ('а', 'р'), ('м', 'я'), ('и', 'н'),
     ('и', 'л'), ('а', 'г'), ('с', 'н'), ('о', 'т'), ('н', 'я'), ('д', 'к')]

  lemma StemOf(k: nat)
    requires k < |MonthNames|
    ensures |MonthNames[k]| >= 3 && (MonthNames[k][0], MonthNames[k][2]) == Stems[k]
  {
    if k < 6 {
      assert MonthNames[..6] == ["января", "февраля", "марта", "апреля", "мая", "июня"];
      assert MonthNames[k] == MonthNames[..6][k];
    } else {
      assert MonthNames[6..] == ["июля", "августа", "сентября", "октября", "ноября", "декабря"];
      assert MonthNames[k] == MonthNames[6..][k - 6];
    }
  }

  /** The month names already differ in their first or third letter. */
  lemma StemsDistinct(i: nat, j: nat)
    requires i < |MonthNames| && j < |MonthNames| && i != j
    ensures |MonthNames[i]| >= 3 && |MonthNames[j]| >= 3
    ensures MonthNames[i][0] != MonthNames[j][0] || MonthNames[i][2] != MonthNames[j][2]
  {
    StemOf(i);
    StemOf(j);
  }

  lemma PrefixStem(a: string, b: string)
    requires |b| >= 3
    ensures StartsWith(a, b) ==> a[0] == b[0] && a[2] == b[2]
  {
    if StartsWith(a, b) {
      assert a[0] == a[..|b|][0] && a[2] == a[..|b|][2];
    }
  }

  /** A message without a digit holds no date: both patterns begin with a
      digit. */
  lemma NoDigitNoDate(message: string, year: nat)
    requires forall k :: 0 <= k < |LowerStr(message)| ==> !IsDigit(LowerStr(message)[k])
    ensures ParseDate(message, year) == Empty
  {
    NoDigitNoPattern(LowerStr(message), 0);
  }

  lemma {:induction false} NoDigitNoPattern(s: string, p: nat)
    requires p <= |s| && forall k :: 0 <= k < |s| ==> !IsDigit(s[k])
    ensures MonthDate(s, p).None? && NumericDate(s, p).None?
    decreases |s| - p
  {
    if p < |s| {
      NoDigitNoPattern(s, p + 1);
    }
  }
}

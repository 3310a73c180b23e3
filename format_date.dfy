/** `format_date`: the day of the month with its English ordinal suffix,
    the abbreviated month name and the year, such as "21st Sep 2024". */
module DateFormat {
  import opened Text

  /** The suffix chosen for a day: "st", "nd" and "rd" for a last digit of
      1, 2 and 3, except on the 11th, 12th and 13th; "th" otherwise. */
  function OrdinalSuffix(day: nat): string {
    if day % 10 == 1 && day != 11 then "st"
    else if day % 10 == 2 && day != 12 then "nd"
    else if day % 10 == 3 && day != 13 then "rd"
    else "th"
  }

  /** The usual English rule, written independently: the numbers whose
      last two digits are 11, 12 or 13 take "th"; the others follow their
      last digit. */
  function EnglishSuffix(n: nat): string {
    var lastTwo := n % 100;
    if 11 <= lastTwo <= 13 then "th"
    else
      match n % 10
      case 1 => "st"
      case 2 => "nd"
      case 3 => "rd"
      case _ => "th"
  }

  /** On the days a month has, the suffix agrees with the English rule. */
  lemma SuffixIsEnglish(day: nat)
    requires 1 <= day <= 31
    ensures OrdinalSuffix(day) == EnglishSuffix(day)
  {
  }

  /** The English rule names exactly 1st, 21st, 31st, 2nd, 22nd, 3rd and
      23rd among the days of a month; every other day takes "th". */
  lemma SuffixTable(day: nat)
    requires 1 <= day <= 31
    ensures OrdinalSuffix(day) == "st" <==> day == 1 || day == 21 || day == 31
    ensures OrdinalSuffix(day) == "nd" <==> day == 2 || day == 22
    ensures OrdinalSuffix(day) == "rd" <==> day == 3 || day == 23
    ensures OrdinalSuffix(day) == "th" <==> !(day in {1, 2, 3, 21, 22, 23, 31})
  {
  }

  /** `f"{day}{suffix} {month} {year}"`, with `month` the text of
      `strftime("%b")`. */
  function FormatDate(day: nat, month: string, year: nat): string {
    Show(day) + OrdinalSuffix(day) + " " + month + " " + Show(year)
  }

  /** The text splits at its spaces back into the day with its suffix,
      the month and the year, and the day and year read back as numbers. */
  lemma FormatDateFields(day: nat, month: string, year: nat)
    requires ' ' !in month
    ensures var fields := Split(FormatDate(day, month, year), ' ');
      fields == [Show(day) + OrdinalSuffix(day), month, Show(year)]
      && ParseInt(fields[2]) == Some(year)
      && ParseInt(fields[0][..|Show(day)|]) == Some(day)
  {
    var d, y := Show(day), Show(year);
    var first := d + OrdinalSuffix(day);
    NoSpaceInDigits(d);
    NoSpaceInDigits(y);
    assert ' ' !in first;
    ThreeFields(first, month, y);
    assert first[..|d|] == d;
    ParseShow(year);
    ParseShow(day);
  }

  lemma NoSpaceInDigits(s: string)
    requires forall i :: 0 <= i < |s| ==> IsDigit(s[i])
    ensures ' ' !in s
  {
  }

  /** Three space-free fields joined by single spaces split back apart. */
  lemma ThreeFields(a: string, b: string, c: string)
    requires ' ' !in a && ' ' !in b && ' ' !in c
    ensures Split(a + " " + b + " " + c, ' ') == [a, b, c]
  {
    assert a + " " + b + " " + c == a + [' '] + (b + [' '] + c);
    SplitAtFirst(a, b + [' '] + c, ' ');
    SplitAtFirst(b, c, ' ');
    SplitOfPlain(c, ' ');
  }

  lemma ShowYear()
    ensures Show(2024) == "2024"
  {
    assert DigitChar(2) == '2' && DigitChar(0) == '0' && DigitChar(4) == '4';
    assert Show(2) == "2";
    assert Show(20) == "20";
    assert Show(202) == "202";
  }

  lemma ShowDays()
    ensures Show(1) == "1" && Show(12) == "12" && Show(22) == "22" && Show(23) == "23"
  {
    assert DigitChar(1) == '1' && DigitChar(2) == '2' && DigitChar(3) == '3';
    assert Show(2) == "2";
  }

  /** Dates early in a month, as the script renders them. */
  lemma Examples()
    ensures FormatDate(1, "Jan", 2024) == "1st Jan 2024"
    ensures FormatDate(12, "Feb", 2024) == "12th Feb 2024"
  {
    ShowYear();
    ShowDays();
  }

  /** Dates in the twenties, as the script renders them. */
  lemma LateExamples()
    ensures FormatDate(22, "Mar", 2024) == "22nd Mar 2024"
    ensures FormatDate(23, "Sep", 2024) == "23rd Sep 2024"
  {
    ShowYear();
    ShowDays();
  }
}

/** Text forms of dates: `date.isoformat()` ("YYYY-MM-DD") and the
    month labels of `strftime('%b %Y')`, with a parser that inverts the
    ISO form over Python's year range. */
module DateFormat {
  import opened Wrappers
  import opened Calendar

  predicate IsDigit(c: char) {
    '0' <= c <= '9'
  }

  function DigitChar(d: int): (c: char)
    requires 0 <= d <= 9
    ensures IsDigit(c)
  {
    '0' + d as char
  }

  /** Decimal digits of `n`, no leading zeros ("0" for zero). */
  function Digits(n: nat): (s: string)
    ensures 1 <= |s|
    ensures forall i :: 0 <= i < |s| ==> IsDigit(s[i])
    ensures n < 10 ==> |s| == 1
    ensures 10 <= n < 100 ==> |s| == 2
    ensures 100 <= n < 1000 ==> |s| == 3
    ensures 1000 <= n < 10000 ==> |s| == 4
  {
    if n < 10 then [DigitChar(n)] else Digits(n / 10) + [DigitChar(n % 10)]
  }

  function Zeros(k: nat): (s: string)
    ensures |s| == k && forall i :: 0 <= i < k ==> s[i] == '0'
  {
    if k == 0 then "" else Zeros(k - 1) + "0"
  }

  /** `n` in decimal, left-padded with zeros to at least `width` characters
      (`%0<width>d`). */
  function Padded(n: nat, width: nat): (s: string)
    ensures |s| == if |Digits(n)| < width then width else |Digits(n)|
    ensures forall i :: 0 <= i < |s| ==> IsDigit(s[i])
  {
    var ds := Digits(n);
    if |ds| < width then Zeros(width - |ds|) + ds else ds
  }

  function DigitValue(c: char): nat
    requires IsDigit(c)
  {
    c as int - '0' as int
  }

  /** The value of a string of decimal digits. */
  function NumberValue(s: string): nat
    requires forall i :: 0 <= i < |s| ==> IsDigit(s[i])
  {
    if s == [] then 0
    else NumberValue(s[..|s| - 1]) * 10 + DigitValue(s[|s| - 1])
  }

  /** A non-empty string of digits, read as a number. */
  function ParseNumber(s: string): (r: Option<nat>)
    ensures r.Some? <==> s != [] && forall i :: 0 <= i < |s| ==> IsDigit(s[i])
  {
    if s != [] && forall i :: 0 <= i < |s| ==> IsDigit(s[i]) then Some(NumberValue(s)) else None
  }

  /** A year as `%Y` writes it for years 1000 to 9999: four digits. Smaller
      years are zero-padded to four digits here. */
  function YearText(year: int): (s: string)
    ensures 0 <= year <= 9999 ==> |s| == 4 && s == Padded(year, 4)
  {
    if year >= 0 then Padded(year, 4) else "-" + Padded(-year, 4)
  }

  /** `date.isoformat()`: four-digit year, two-digit month and day. Years
      below zero do not occur in Python; they are written with a leading '-'. */
  function IsoFormat(d: Date): (s: string)
    ensures 0 <= d.year <= 9999 ==> |s| == 10 && s[4] == '-' && s[7] == '-'
  {
    YearText(d.year) + "-" + Padded(d.month, 2) + "-" + Padded(d.day, 2)
  }

  /** Reads "YYYY-MM-DD" back into a date, or None when the text is not a
      date in that form. */
  function ParseIso(s: string): (r: Option<Date>)
    ensures r.Some? ==> |s| == 10 && IsoFormat(r.value) == s
  {
    if |s| != 10 || s[4] != '-' || s[7] != '-' then None
    else
      var y, m, d := ParseNumber(s[..4]), ParseNumber(s[5..7]), ParseNumber(s[8..]);
      if y.None? || m.None? || d.None? then None
      else
        var c := CivilDate(y.value, m.value, d.value);
        if !ValidDate(c) then None
        else
          ParsedFormatsBack(s, c);
          Some(c)
  }

  // ---------------------------------------------------------------------
  // Round trip

  lemma {:induction false} DigitsValue(n: nat)
    ensures NumberValue(Digits(n)) == n
    decreases n
  {
    if n >= 10 {
      DigitsValue(n / 10);
      var s := Digits(n);
      assert s[..|s| - 1] == Digits(n / 10);
    }
  }

  lemma {:induction false} ZerosValue(k: nat, s: string)
    requires forall i :: 0 <= i < |s| ==> IsDigit(s[i])
    ensures forall i :: 0 <= i < |Zeros(k) + s| ==> IsDigit((Zeros(k) + s)[i])
    ensures NumberValue(Zeros(k) + s) == NumberValue(s)
    decreases |s|, k
  {
    if s == [] {
      assert Zeros(k) + s == Zeros(k);
      if k > 0 {
        ZerosValue(k - 1, []);
        assert Zeros(k)[..k - 1] == Zeros(k - 1) + [];
      }
    } else {
      var z := Zeros(k) + s;
      assert z[..|z| - 1] == Zeros(k) + s[..|s| - 1];
      ZerosValue(k, s[..|s| - 1]);
    }
  }

  lemma PaddedValue(n: nat, width: nat)
    ensures NumberValue(Padded(n, width)) == n
  {
    DigitsValue(n);
    var ds := Digits(n);
    if |ds| < width {
      ZerosValue(width - |ds|, ds);
    }
  }

  /** A number as digits, then read back: the same number. */
  lemma ParsePadded(n: nat, width: nat)
    ensures ParseNumber(Padded(n, width)) == Some(n)
  {
    PaddedValue(n, width);
  }

  /** Formatting a date and reading it back gives the date, for every year
      Python can represent. */
  lemma IsoRoundTrip(d: Date)
    requires 1 <= d.year <= 9999
    ensures ParseIso(IsoFormat(d)) == Some(d)
  {
    var s := IsoFormat(d);
    var y, m, dd := YearText(d.year), Padded(d.month, 2), Padded(d.day, 2);
    assert s == y + "-" + m + "-" + dd;
    assert s[..4] == y && s[5..7] == m && s[8..] == dd;
    ParsePadded(d.year, 4);
    ParsePadded(d.month, 2);
    ParsePadded(d.day, 2);
  }

  /** A string the parser accepts is the ISO form of what it parsed to. */
  lemma ParsedFormatsBack(s: string, c: Date)
    requires |s| == 10 && s[4] == '-' && s[7] == '-'
    requires ParseNumber(s[..4]) == Some(c.year) && ParseNumber(s[5..7]) == Some(c.month)
    requires ParseNumber(s[8..]) == Some(c.day)
    ensures IsoFormat(c) == s
  {
    FourDigits(s[..4]);
    TwoDigits(s[5..7]);
    TwoDigits(s[8..]);
    assert s == s[..4] + "-" + s[5..7] + "-" + s[8..];
  }

  /** A string of exactly `width` digits is the padded form of its value. */
  lemma {:induction false} PaddedOfValue(s: string)
    requires forall i :: 0 <= i < |s| ==> IsDigit(s[i])
    requires 1 <= |s| <= 4
    ensures Padded(NumberValue(s), |s|) == s
  {
    DigitsOfValue(s);
  }

  lemma FourDigits(s: string)
    requires |s| == 4 && forall i :: 0 <= i < |s| ==> IsDigit(s[i])
    ensures Padded(NumberValue(s), 4) == s
  {
    PaddedOfValue(s);
  }

  lemma TwoDigits(s: string)
    requires |s| == 2 && forall i :: 0 <= i < |s| ==> IsDigit(s[i])
    ensures Padded(NumberValue(s), 2) == s
  {
    PaddedOfValue(s);
  }

  /** The digits of a value written with leading zeros are the string
      without those zeros. */
  lemma {:induction false} DigitsOfValue(s: string)
    requires forall i :: 0 <= i < |s| ==> IsDigit(s[i])
    requires 1 <= |s|
    ensures |Digits(NumberValue(s))| <= |s|
    ensures Zeros(|s| - |Digits(NumberValue(s))|) + Digits(NumberValue(s)) == s
    decreases |s|
  {
    var init, last := s[..|s| - 1], s[|s| - 1];
    if |s| == 1 {
      assert init == [];
      assert s == [last];
    } else {
      DigitsOfValue(init);
      LastDigit(s);
      if NumberValue(init) == 0 {
        assert init == Zeros(|s| - 1) by {
          assert Digits(0) == "0";
        }
        LeadingZeroStep(s);
      } else {
        SignificantStep(s);
      }
    }
  }

  /** The last character of a digit string is its value's last digit. */
  lemma LastDigit(s: string)
    requires forall i :: 0 <= i < |s| ==> IsDigit(s[i])
    requires 1 <= |s|
    ensures NumberValue(s) / 10 == NumberValue(s[..|s| - 1])
    ensures NumberValue(s) % 10 == DigitValue(s[|s| - 1])
  {
  }

  /** A string of zeros ending in one digit `c` is `c` padded. */
  lemma LeadingZeroStep(s: string)
    requires forall i :: 0 <= i < |s| ==> IsDigit(s[i])
    requires 2 <= |s| && s[..|s| - 1] == Zeros(|s| - 1)
    requires NumberValue(s) == DigitValue(s[|s| - 1])
    ensures |Digits(NumberValue(s))| <= |s|
    ensures Zeros(|s| - |Digits(NumberValue(s))|) + Digits(NumberValue(s)) == s
  {
    var last := s[|s| - 1];
    assert Digits(NumberValue(s)) == [last] by {
      DigitRoundTrip(last);
    }
    assert s == s[..|s| - 1] + [last];
  }

  lemma DigitRoundTrip(c: char)
    requires IsDigit(c)
    ensures DigitChar(DigitValue(c)) == c
  {
  }

  lemma SignificantStep(s: string)
    requires forall i :: 0 <= i < |s| ==> IsDigit(s[i])
    requires 2 <= |s| && NumberValue(s[..|s| - 1]) != 0
    requires |Digits(NumberValue(s[..|s| - 1]))| <= |s| - 1
    requires Zeros(|s| - 1 - |Digits(NumberValue(s[..|s| - 1]))|) + Digits(NumberValue(s[..|s| - 1])) == s[..|s| - 1]
    requires NumberValue(s) % 10 == DigitValue(s[|s| - 1]) && NumberValue(s) / 10 == NumberValue(s[..|s| - 1])
    ensures |Digits(NumberValue(s))| <= |s|
    ensures Zeros(|s| - |Digits(NumberValue(s))|) + Digits(NumberValue(s)) == s
  {
    var init, last := s[..|s| - 1], s[|s| - 1];
    var n := NumberValue(s);
    assert Digits(n) == Digits(n / 10) + [last];
    assert s == init + [last];
  }

  // ---------------------------------------------------------------------
  // Month labels

  const MonthAbbreviations: seq<string> :=
    ["Jan", "Feb", "Mar", "Apr", "May", "Jun", "Jul", "Aug", "Sep", "Oct", "Nov", "Dec"]

  /** `strftime('%b %Y')` in the C locale: "Jan 2025". */
  function MonthLabel(year: int, month: int): (s: string)
    requires 1 <= month <= 12
    ensures |s| >= 8 && s[..3] == MonthAbbreviations[month - 1] && s[3] == ' '
    ensures s[4..] == YearText(year)
  {
    MonthAbbreviations[month - 1] + " " + YearText(year)
  }

  /** The month an abbreviation names (0 for none). */
  function AbbreviationMonth(a: string): int {
    if a == "Jan" then 1 else if a == "Feb" then 2 else if a == "Mar" then 3
    else if a == "Apr" then 4 else if a == "May" then 5 else if a == "Jun" then 6
    else if a == "Jul" then 7 else if a == "Aug" then 8 else if a == "Sep" then 9
    else if a == "Oct" then 10 else if a == "Nov" then 11 else if a == "Dec" then 12
    else 0
  }

  lemma AbbreviationInverse(m: int)
    requires 1 <= m <= 12
    ensures AbbreviationMonth(MonthAbbreviations[m - 1]) == m
  {
  }

  /** Different months of Python's year range get different labels. */
  lemma MonthLabelInjective(y1: int, m1: int, y2: int, m2: int)
    requires 1 <= y1 <= 9999 && 1 <= y2 <= 9999 && 1 <= m1 <= 12 && 1 <= m2 <= 12
    requires MonthLabel(y1, m1) == MonthLabel(y2, m2)
    ensures y1 == y2 && m1 == m2
  {
    var s1, s2 := MonthLabel(y1, m1), MonthLabel(y2, m2);
    assert m1 == m2 by {
      assert MonthAbbreviations[m1 - 1] == s1[..3] == s2[..3] == MonthAbbreviations[m2 - 1];
      AbbreviationInverse(m1);
      AbbreviationInverse(m2);
    }
    assert y1 == y2 by {
      assert Padded(y1, 4) == s1[4..] == s2[4..] == Padded(y2, 4);
      PaddedValue(y1, 4);
      PaddedValue(y2, 4);
    }
  }
}

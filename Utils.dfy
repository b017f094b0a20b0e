/**
 * The string helpers of `utils/Utils.js`: random alphanumeric strings (the
 * random source is a parameter) and date formatting by token substitution.
 */
module Utils {
  import opened Values
  import opened JsString

  /** The `n` consecutive characters from `first` on. */
  function CharRange(first: char, n: nat): (r: string)
    requires first as int + n <= 0xD800
    ensures |r| == n && forall i :: 0 <= i < n ==> r[i] as int == first as int + i
  {
    seq(n, i requires 0 <= i < n => (first as int + i) as char)
  }

  /** The characters `generateRandomString` draws from: `A`-`Z`, then `a`-`z`, then `0`-`9`. */
  const Alphabet: string := CharRange('A', 26) + CharRange('a', 26) + CharRange('0', 10)

  /** An index into `Alphabet`: what `Math.floor(Math.random() * characters.length)` yields. */
  type CharIndex = i: int | 0 <= i < 62

  predicate IsAsciiAlphanumeric(c: char) {
    ('A' <= c <= 'Z') || ('a' <= c <= 'z') || ('0' <= c <= '9')
  }

  /** The alphabet has 62 characters, every one of them an ASCII letter or digit. */
  lemma AlphabetIsAlphanumeric()
    ensures |Alphabet| == 62
    ensures forall i :: 0 <= i < |Alphabet| ==> IsAsciiAlphanumeric(Alphabet[i])
  {
    var upper, lower, digits := CharRange('A', 26), CharRange('a', 26), CharRange('0', 10);
    assert forall i :: 0 <= i < 26 ==> Alphabet[i] == upper[i];
    assert forall i :: 26 <= i < 52 ==> Alphabet[i] == lower[i - 26];
    assert forall i :: 52 <= i < 62 ==> Alphabet[i] == digits[i - 52];
  }

  /** The length `generateRandomString(length = 8)` produces: the loop runs while `i < length`. */
  function RandomStringLength(length: Option<int>): (n: nat)
    ensures length.None? ==> n == 8
    ensures length.Some? && length.value <= 0 ==> n == 0
    ensures length.Some? && length.value > 0 ==> n == length.value
  {
    var l := length.GetOr(8);
    if l > 0 then l else 0
  }

  /**
   * `generateRandomString(length)`: appends one drawn character per turn of
   * the loop; `pick(i)` is the index drawn on turn `i`.
   */
  method GenerateRandomString(length: Option<int>, pick: nat -> CharIndex) returns (result: string)
    ensures |result| == RandomStringLength(length)
    ensures forall i :: 0 <= i < |result| ==> result[i] == Alphabet[pick(i)]
    ensures forall i :: 0 <= i < |result| ==> IsAsciiAlphanumeric(result[i])
  {
    AlphabetIsAlphanumeric();
    var n := length.GetOr(8);
    result := "";
    var i: nat := 0;
    while i < n
      invariant |result| == i
      invariant i <= RandomStringLength(length)
      invariant forall k :: 0 <= k < i ==> result[k] == Alphabet[pick(k)]
    {
      result := result + [Alphabet[pick(i)]];
      i := i + 1;
    }
  }

  /** What `formatDate` reads off a `Date`: the full year, the zero-based month and the day of the month. */
  type Month0 = m: int | 0 <= m <= 11
  type DayOfMonth = d: int | 1 <= d <= 31 witness 1
  datatype Date = Date(year: int, month0: Month0, day: DayOfMonth)

  /** The default format. */
  const DefaultFormat: string := "YYYY-MM-DD"

  /** `String(n).padStart(2, '0')` */
  function TwoDigits(n: nat): string {
    PadStart(NatToString(n), 2, '0')
  }

  /**
   * `formatDate(date, format = 'YYYY-MM-DD')`: the first `YYYY` becomes the
   * year, then the first `MM` the month (1-12, two digits), then the first
   * `DD` the day (two digits).
   */
  function FormatDate(date: Date, format: Option<string>): string {
    Substitute(format.GetOr(DefaultFormat), IntToString(date.year), TwoDigits(date.month0 + 1), TwoDigits(date.day))
  }

  /** The three substitutions of `formatDate`, in their order. */
  function Substitute(f: string, year: string, month: string, day: string): string {
    ReplaceFirst(ReplaceFirst(ReplaceFirst(f, "YYYY", year), "MM", month), "DD", day)
  }

  /** Below 100 the two-digit form is exactly two decimal digits whose value is the number. */
  lemma {:induction false} TwoDigitsValue(n: nat)
    requires n < 100
    ensures |TwoDigits(n)| == 2 && AllDigits(TwoDigits(n))
    ensures ParseDigits(TwoDigits(n)) == n
  {
    var s := NatToString(n);
    NatToStringRoundTrip(n);
    if n < 10 {
      LeadingZerosKeepValue(1, s);
      assert TwoDigits(n) == Repeat('0', 1) + s;
    } else {
      assert |s| == 2 by {
        assert s == NatToString(n / 10) + [DigitChar(n % 10)];
      }
      assert TwoDigits(n) == s;
    }
  }

  /** The month is written as `getMonth() + 1`, padded to two digits; the day likewise. */
  lemma MonthAndDayDigits(date: Date)
    ensures |TwoDigits(date.month0 + 1)| == 2 && AllDigits(TwoDigits(date.month0 + 1))
    ensures ParseDigits(TwoDigits(date.month0 + 1)) == date.month0 + 1
    ensures |TwoDigits(date.day)| == 2 && AllDigits(TwoDigits(date.day))
    ensures ParseDigits(TwoDigits(date.day)) == date.day
  {
    TwoDigitsValue(date.month0 + 1);
    TwoDigitsValue(date.day);
  }

  /** Every character of `String(i)` is a digit or the minus sign. */
  lemma IntToStringChars(i: int)
    ensures forall k :: 0 <= k < |IntToString(i)| ==> IsDigit(IntToString(i)[k]) || IntToString(i)[k] == '-'
  {
    if i < 0 {
      var d := NatToString(-i);
      assert forall k :: 1 <= k < |"-" + d| ==> ("-" + d)[k] == d[k - 1];
    }
  }

  /** The year goes in first: the default format's leading `YYYY` becomes `String(year)`. */
  lemma DefaultFormatYear(year: string)
    ensures ReplaceFirst(DefaultFormat, "YYYY", year) == year + "-MM-DD"
  {
    assert DefaultFormat == "" + "YYYY" + "-MM-DD";
    NoOccurrenceBefore("", "YYYY", "-MM-DD");
    ReplaceFirstAfter("", "YYYY", "-MM-DD", year);
  }

  /** Then the month: the first `MM` after the year, which holds no `M`. */
  lemma DefaultFormatMonth(year: string, month: string)
    requires forall k :: 0 <= k < |year| ==> year[k] != 'M'
    ensures ReplaceFirst(year + "-MM-DD", "MM", month) == year + "-" + month + "-DD"
  {
    var a := year + "-";
    assert forall k :: 0 <= k < |year| ==> a[k] == year[k];
    assert year + "-MM-DD" == a + "MM" + "-DD";
    NoOccurrenceBefore(a, "MM", "-DD");
    ReplaceFirstAfter(a, "MM", "-DD", month);
  }

  /** Then the day: the first `DD` after year and month, which hold no `D`. */
  lemma DefaultFormatDay(year: string, month: string, day: string)
    requires forall k :: 0 <= k < |year| ==> year[k] != 'D'
    requires forall k :: 0 <= k < |month| ==> month[k] != 'D'
    ensures ReplaceFirst(year + "-" + month + "-DD", "DD", day) == year + "-" + month + "-" + day
  {
    var a := year + "-" + month + "-";
    assert forall k :: 0 <= k < |year| ==> a[k] == year[k];
    assert forall k :: |year| + 1 <= k < |year| + 1 + |month| ==> a[k] == month[k - |year| - 1];
    assert year + "-" + month + "-DD" == a + "DD" + "";
    NoOccurrenceBefore(a, "DD", "");
    ReplaceFirstAfter(a, "DD", "", day);
    assert a + day + "" == year + "-" + month + "-" + day;
  }

  /**
   * With the default format the result is the year exactly as `String` writes
   * it (no padding), a dash, the two-digit month, a dash, the two-digit day.
   */
  lemma DefaultFormatShape(date: Date)
    ensures FormatDate(date, None) == IntToString(date.year) + "-" + TwoDigits(date.month0 + 1) + "-" + TwoDigits(date.day)
  {
    var year := IntToString(date.year);
    var month := TwoDigits(date.month0 + 1);
    var day := TwoDigits(date.day);
    assert FormatDate(date, None) == Substitute(DefaultFormat, year, month, day);
    YearHoldsNoToken(date.year);
    MonthHoldsNoToken(date.month0 + 1);
    DefaultFormatSubstitute(year, month, day);
  }

  /** `String(year)` holds neither `M` nor `D`. */
  lemma YearHoldsNoToken(i: int)
    ensures forall k :: 0 <= k < |IntToString(i)| ==> IntToString(i)[k] != 'M' && IntToString(i)[k] != 'D'
  {
    IntToStringChars(i);
  }

  /** A padded month holds no `D`. */
  lemma MonthHoldsNoToken(n: nat)
    requires n < 100
    ensures forall k :: 0 <= k < |TwoDigits(n)| ==> TwoDigits(n)[k] != 'D'
  {
    TwoDigitsValue(n);
    assert AllDigits(TwoDigits(n));
  }

  /** The three substitutions into the default format, when neither year nor month can be mistaken for a later token. */
  lemma DefaultFormatSubstitute(year: string, month: string, day: string)
    requires forall k :: 0 <= k < |year| ==> year[k] != 'M' && year[k] != 'D'
    requires forall k :: 0 <= k < |month| ==> month[k] != 'D'
    ensures Substitute(DefaultFormat, year, month, day) == year + "-" + month + "-" + day
  {
    DefaultFormatYear(year);
    DefaultFormatMonth(year, month);
    DefaultFormatDay(year, month, day);
  }

  /** In a format without `Y` or `M`, only the first `DD` is substituted. */
  lemma DayOnlyFormat(year: string, month: string, day: string)
    ensures Substitute("DD.DD", year, month, day) == day + ".DD"
  {
    var f := "DD.DD";
    ReplaceFirstFirstCharAbsent(f, "YYYY", year);
    ReplaceFirstFirstCharAbsent(f, "MM", month);
    assert f == "" + "DD" + ".DD";
    NoOccurrenceBefore("", "DD", ".DD");
    ReplaceFirstAfter("", "DD", ".DD", day);
  }

  /** Only the first occurrence of a token is replaced: the format `DD.DD` gives the day, a dot and `DD`. */
  lemma OnlyFirstTokenReplaced(date: Date)
    ensures FormatDate(date, Some("DD.DD")) == TwoDigits(date.day) + ".DD"
  {
    var year, month, day := IntToString(date.year), TwoDigits(date.month0 + 1), TwoDigits(date.day);
    assert FormatDate(date, Some("DD.DD")) == Substitute("DD.DD", year, month, day);
    DayOnlyFormat(year, month, day);
  }
}

/** The date handling of the scraper: the text cleanup of `get_date`, the
    month table, the `DD-MM-YYYY HH:mm:ss` reading that `arrow.get` performs
    on the cleaned text, and `str()` of the resulting instant, which is the
    key the store is queried with. */
module Dates {
  import opened Results
  import opened PyStr

  /** A UTC instant as `arrow` holds it, to the second. */
  datatype Instant = Instant(year: nat, month: nat, day: nat, hour: nat, minute: nat, second: nat)

  function DaysInMonth(month: nat, year: nat): nat
    requires 1 <= month <= 12
  {
    if month == 2 then (if year % 4 == 0 && (year % 100 != 0 || year % 400 == 0) then 29 else 28)
    else if month == 4 || month == 6 || month == 9 || month == 11 then 30
    else 31
  }

  /** The instants a calendar date and a time of day can name. */
  predicate ValidInstant(t: Instant) {
    && 1 <= t.year <= 9999
    && 1 <= t.month <= 12
    && 1 <= t.day <= DaysInMonth(t.month, t.year)
    && t.hour < 24 && t.minute < 60 && t.second < 60
  }

  // ---------------------------------------------------------------------
  // Decimal digits

  predicate IsDigit(c: char) {
    '0' <= c <= '9'
  }

  predicate AllDigits(s: string) {
    forall i :: 0 <= i < |s| ==> IsDigit(s[i])
  }

  function DigitChar(d: nat): (c: char)
    requires d < 10
    ensures IsDigit(c)
  {
    ('0' as int + d) as char
  }

  function Pow10(n: nat): (p: nat)
    ensures p >= 1
  {
    if n == 0 then 1 else 10 * Pow10(n - 1)
  }

  /** The value of a string of decimal digits, most significant first. */
  function Number(s: string): (n: nat)
    requires AllDigits(s)
    ensures n < Pow10(|s|)
  {
    if s == [] then 0
    else Number(s[..|s| - 1]) * 10 + (s[|s| - 1] as int - '0' as int)
  }

  /** `n` written with exactly `width` digits, zero-padded on the left. */
  function Digits(n: nat, width: nat): (s: string)
    ensures |s| == width && AllDigits(s)
  {
    if width == 0 then [] else Digits(n / 10, width - 1) + [DigitChar(n % 10)]
  }

  lemma {:induction false} NumberOfDigits(n: nat, width: nat)
    requires n < Pow10(width)
    ensures Number(Digits(n, width)) == n
  {
    if width > 0 {
      NumberOfDigits(n / 10, width - 1);
      var s := Digits(n, width);
      assert s[..|s| - 1] == Digits(n / 10, width - 1);
    }
  }

  lemma DivMod10(q: nat, d: nat)
    requires d < 10
    ensures (q * 10 + d) / 10 == q && (q * 10 + d) % 10 == d
  {
  }

  lemma {:induction false} DigitsOfNumber(s: string)
    requires AllDigits(s)
    ensures Digits(Number(s), |s|) == s
  {
    if s != [] {
      var init := s[..|s| - 1];
      var last := s[|s| - 1];
      assert IsDigit(last);
      var d: nat := last as int - '0' as int;
      assert AllDigits(init) by {
        forall i | 0 <= i < |init| ensures IsDigit(init[i]) {
          assert init[i] == s[i];
        }
      }
      var q := Number(init);
      assert Number(s) == q * 10 + d;
      DivMod10(q, d);
      DigitsOfNumber(init);
      assert DigitChar(d) == last;
      assert Digits(Number(s), |s|) == Digits(q, |init|) + [DigitChar(d)];
      assert init + [last] == s;
    }
  }

  // ---------------------------------------------------------------------
  // Cleanup of the listing's date text

  /** The month table `month_dict` in its insertion order. A Python dict
      (3.7 and later) is iterated in insertion order, so this is also the
      order in which `get_date` scans it. */
  const MonthNames: seq<string> :=
    ["jan", "feb", "mar", "apr", "may", "jun", "jul", "aug", "sep", "oct", "nov", "dec"]
  const MonthNumbers: seq<string> :=
    ["01", "02", "03", "04", "05", "06", "07", "08", "09", "10", "11", "12"]

  /** Month `i` of the table is a three-letter lower-case name, and its
      number is the two-digit form of `i + 1`. */
  lemma MonthTable()
    ensures |MonthNames| == |MonthNumbers| == 12
    ensures forall i :: 0 <= i < 12 ==> |MonthNames[i]| == 3 && Lower(MonthNames[i]) == MonthNames[i]
    ensures forall i :: 0 <= i < 12 ==> MonthNumbers[i] == Digits(i + 1, 2)
  {
  }

  /** The index of the first month (from `from` on) whose name occurs in `s`. */
  function FirstMonthFrom(s: string, from: nat): (r: Option<nat>)
    requires from <= 12
    ensures r.Some? ==> from <= r.value < 12 && Contains(s, MonthNames[r.value])
                        && forall j :: from <= j < r.value ==> !Contains(s, MonthNames[j])
    ensures r.None? ==> forall j :: from <= j < 12 ==> !Contains(s, MonthNames[j])
    decreases 12 - from
  {
    if from == 12 then None
    else if Contains(s, MonthNames[from]) then Some(from)
    else FirstMonthFrom(s, from + 1)
  }

  /** The month name delimited by spaces, and the text put in its place. */
  function MonthToken(m: nat): string
    requires m < 12
  {
    " " + MonthNames[m] + " "
  }

  function MonthReplacement(m: nat): string
    requires m < 12
  {
    "-" + MonthNumbers[m] + "-"
  }

  /** The month step of `get_date`: find the first month of the table that
      occurs anywhere in `s`, replace that month between spaces by its
      number between hyphens, and look no further. */
  function SubstituteMonth(s: string): string
  {
    match FirstMonthFrom(s, 0)
    case None => s
    case Some(m) => ReplaceAll(s, MonthToken(m), MonthReplacement(m))
  }

  /** The noise-removal step of `get_date`, in the order the source applies it. */
  function RemoveNoise(s: string): string
  {
    var t := ReplaceAll(Lower(s), "posted by", "");
    var t := ReplaceAll(t, "at", "");
    var t := ReplaceAll(t, "utc", "");
    var t := ReplaceAll(t, "anonymous", "");
    ReplaceAll(t, ",", "")
  }

  /** The text `get_date` hands to `arrow.get`. */
  function CleanDate(raw: string): string
  {
    SubstituteMonth(Strip(RemoveNoise(raw)))
  }

  lemma SubstituteFirstMonth(s: string, m: nat)
    requires m < 12 && Contains(s, MonthNames[m])
    requires forall j :: 0 <= j < m ==> !Contains(s, MonthNames[j])
    ensures SubstituteMonth(s) == ReplaceAll(s, MonthToken(m), MonthReplacement(m))
  {
    var r := FirstMonthFrom(s, 0);
    assert r.Some?;
    assert r.value == m;
  }

  lemma NoMonthUnchanged(s: string)
    requires forall j :: 0 <= j < 12 ==> !Contains(s, MonthNames[j])
    ensures SubstituteMonth(s) == s
  {
    assert FirstMonthFrom(s, 0).None?;
  }

  /** When the first month found does not stand between spaces, nothing is
      substituted, even if a later month does. */
  lemma UndelimitedMonthUnchanged(s: string, m: nat)
    requires m < 12 && Contains(s, MonthNames[m])
    requires forall j :: 0 <= j < m ==> !Contains(s, MonthNames[j])
    requires !Contains(s, MonthToken(m))
    ensures SubstituteMonth(s) == s
  {
    SubstituteFirstMonth(s, m);
    ReplaceAbsent(s, MonthToken(m), MonthReplacement(m));
  }

  // ---------------------------------------------------------------------
  // Reading and printing instants

  /** The `DD-MM-YYYY HH:mm:ss` form of an instant. */
  function FormatDmy(t: Instant): string
  {
    Digits(t.day, 2) + "-" + Digits(t.month, 2) + "-" + Digits(t.year, 4) + " "
      + Digits(t.hour, 2) + ":" + Digits(t.minute, 2) + ":" + Digits(t.second, 2)
  }

  predicate DmyShape(s: string) {
    && |s| == 19
    && s[2] == '-' && s[5] == '-' && s[10] == ' ' && s[13] == ':' && s[16] == ':'
    && AllDigits(s[0..2]) && AllDigits(s[3..5]) && AllDigits(s[6..10])
    && AllDigits(s[11..13]) && AllDigits(s[14..16]) && AllDigits(s[17..19])
  }

  /** `arrow.get(s, 'DD-MM-YYYY HH:mm:ss')`: the whole text must have that
      shape and name a real calendar date and time of day; `None` stands for
      the parser error `arrow` raises otherwise. */
  function ParseInstant(s: string): (r: Option<Instant>)
    ensures r.Some? ==> ValidInstant(r.value) && FormatDmy(r.value) == s
  {
    if !DmyShape(s) then None
    else
      var t := Instant(Number(s[6..10]), Number(s[3..5]), Number(s[0..2]),
                       Number(s[11..13]), Number(s[14..16]), Number(s[17..19]));
      if !ValidInstant(t) then None
      else
        assert FormatDmy(t) == s by { FormatOfShape(s, t); }
        Some(t)
  }

  lemma FormatOfShape(s: string, t: Instant)
    requires DmyShape(s)
    requires t == Instant(Number(s[6..10]), Number(s[3..5]), Number(s[0..2]),
                          Number(s[11..13]), Number(s[14..16]), Number(s[17..19]))
    ensures FormatDmy(t) == s
  {
    DigitsOfNumber(s[0..2]);
    DigitsOfNumber(s[3..5]);
    DigitsOfNumber(s[6..10]);
    DigitsOfNumber(s[11..13]);
    DigitsOfNumber(s[14..16]);
    DigitsOfNumber(s[17..19]);
    Glue(s, 0, 2, 5);
    Glue(s, 0, 5, 10);
    Glue(s, 0, 10, 13);
    Glue(s, 0, 13, 16);
    Glue(s, 0, 16, 19);
    assert s[0..19] == s;
  }

  /** A slice is the slice before a separator, the separator and the slice after. */
  lemma Glue(s: string, i: nat, j: nat, k: nat)
    requires i <= j < k <= |s|
    ensures s[i..k] == s[i..j] + [s[j]] + s[j + 1..k]
  {
  }

  /** Where each field sits in the `DD-MM-YYYY HH:mm:ss` form. */
  lemma FormatFields(t: Instant)
    ensures var s := FormatDmy(t);
      && |s| == 19
      && s[2] == '-' && s[5] == '-' && s[10] == ' ' && s[13] == ':' && s[16] == ':'
      && s[0..2] == Digits(t.day, 2) && s[3..5] == Digits(t.month, 2)
      && s[6..10] == Digits(t.year, 4) && s[11..13] == Digits(t.hour, 2)
      && s[14..16] == Digits(t.minute, 2) && s[17..19] == Digits(t.second, 2)
  {
    var s := FormatDmy(t);
    assert s[0..2] == Digits(t.day, 2);
    assert s[3..5] == Digits(t.month, 2);
    assert s[6..10] == Digits(t.year, 4);
    assert s[11..13] == Digits(t.hour, 2);
    assert s[14..16] == Digits(t.minute, 2);
    assert s[17..19] == Digits(t.second, 2);
  }

  /** The printed form of a valid instant has the `DD-MM-YYYY HH:mm:ss`
      shape, and its fields read back as the instant's fields. */
  lemma FormatReadsBack(t: Instant)
    requires ValidInstant(t)
    ensures var s := FormatDmy(t);
      && DmyShape(s)
      && Number(s[0..2]) == t.day && Number(s[3..5]) == t.month
      && Number(s[6..10]) == t.year && Number(s[11..13]) == t.hour
      && Number(s[14..16]) == t.minute && Number(s[17..19]) == t.second
  {
    var s := FormatDmy(t);
    FormatFields(t);
    assert Pow10(2) == 100 && Pow10(4) == 10000;
    FieldReadsBack(s[0..2], t.day, 2);
    FieldReadsBack(s[3..5], t.month, 2);
    FieldReadsBack(s[6..10], t.year, 4);
    FieldReadsBack(s[11..13], t.hour, 2);
    FieldReadsBack(s[14..16], t.minute, 2);
    FieldReadsBack(s[17..19], t.second, 2);
  }

  /** A field printed with `Digits` reads back as its value. */
  lemma FieldReadsBack(f: string, n: nat, width: nat)
    requires n < Pow10(width) && f == Digits(n, width)
    ensures AllDigits(f) && Number(f) == n
  {
    NumberOfDigits(n, width);
  }

  /** Reading back the `DD-MM-YYYY HH:mm:ss` form of a valid instant gives
      that instant: together with the contract of ParseInstant, the reader and
      the printer are inverse on valid instants. */
  lemma ParseFormat(t: Instant)
    requires ValidInstant(t)
    ensures ParseInstant(FormatDmy(t)) == Some(t)
  {
    var s := FormatDmy(t);
    FormatReadsBack(t);
    var u := Instant(Number(s[6..10]), Number(s[3..5]), Number(s[0..2]),
                     Number(s[11..13]), Number(s[14..16]), Number(s[17..19]));
    assert u == t;
  }

  /** `str()` of an arrow instant in UTC: `YYYY-MM-DDTHH:mm:ss+00:00`. */
  function InstantText(t: Instant): string
  {
    Digits(t.year, 4) + "-" + Digits(t.month, 2) + "-" + Digits(t.day, 2) + "T"
      + Digits(t.hour, 2) + ":" + Digits(t.minute, 2) + ":" + Digits(t.second, 2) + "+00:00"
  }

  /** Distinct valid instants have distinct texts, so querying the store by
      text is querying it by instant. */
  lemma InstantTextInjective(a: Instant, b: Instant)
    requires ValidInstant(a) && ValidInstant(b)
    requires InstantText(a) == InstantText(b)
    ensures a == b
  {
    var a2 := Digits(a.year, 4) + "-" + Digits(a.month, 2);
    var a3 := a2 + "-" + Digits(a.day, 2);
    var a4 := a3 + "T" + Digits(a.hour, 2);
    var a5 := a4 + ":" + Digits(a.minute, 2);
    var a6 := a5 + ":" + Digits(a.second, 2);
    var b2 := Digits(b.year, 4) + "-" + Digits(b.month, 2);
    var b3 := b2 + "-" + Digits(b.day, 2);
    var b4 := b3 + "T" + Digits(b.hour, 2);
    var b5 := b4 + ":" + Digits(b.minute, 2);
    var b6 := b5 + ":" + Digits(b.second, 2);
    SplitEqual(a6, "+00:00", b6, "+00:00");
    SplitField(a5, ":", Digits(a.second, 2), b5, Digits(b.second, 2));
    SplitField(a4, ":", Digits(a.minute, 2), b4, Digits(b.minute, 2));
    SplitField(a3, "T", Digits(a.hour, 2), b3, Digits(b.hour, 2));
    SplitField(a2, "-", Digits(a.day, 2), b2, Digits(b.day, 2));
    SplitField(Digits(a.year, 4), "-", Digits(a.month, 2), Digits(b.year, 4), Digits(b.month, 2));
    assert Pow10(2) == 100 && Pow10(4) == 10000;
    NumberOfDigits(a.year, 4);
    NumberOfDigits(b.year, 4);
    NumberOfDigits(a.month, 2);
    NumberOfDigits(b.month, 2);
    NumberOfDigits(a.day, 2);
    NumberOfDigits(b.day, 2);
    NumberOfDigits(a.hour, 2);
    NumberOfDigits(b.hour, 2);
    NumberOfDigits(a.minute, 2);
    NumberOfDigits(b.minute, 2);
    NumberOfDigits(a.second, 2);
    NumberOfDigits(b.second, 2);
  }

  /** Two texts that end in the same separator and an equally long field
      agree on the field and on what comes before the separator. */
  lemma SplitField(x: string, sep: string, f: string, y: string, g: string)
    requires x + sep + f == y + sep + g && |f| == |g|
    ensures x == y && f == g
  {
    SplitEqual(x + sep, f, y + sep, g);
    SplitEqual(x, sep, y, sep);
  }

  /** `get_date`: the instant the listing's date text names, or `None` where
      `arrow.get` raises. */
  function GetDate(raw: string): (r: Option<Instant>)
    ensures r.Some? ==> ValidInstant(r.value) && FormatDmy(r.value) == CleanDate(raw)
  {
    ParseInstant(CleanDate(raw))
  }
}

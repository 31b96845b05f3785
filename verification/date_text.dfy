/** The stored form of a subscription end: `strftime("%Y-%m-%d")` on the way
    out, `strptime(..., "%Y-%m-%d")` on the way back, restricted to the
    zero-padded shape YYYY-MM-DD (the `full-date` production of section 5.6
    of RFC 3339). */
module DateText {
  import opened Optional
  import opened Calendar

  predicate IsDigit(c: char) {
    '0' <= c <= '9'
  }

  predicate AllDigits(s: string) {
    forall i :: 0 <= i < |s| ==> IsDigit(s[i])
  }

  function DigitChar(n: int): (c: char)
    requires 0 <= n <= 9
    ensures IsDigit(c)
  {
    (48 + n) as char
  }

  function DigitValue(c: char): (n: int)
    requires IsDigit(c)
    ensures 0 <= n <= 9
  {
    c as int - 48
  }

  function Pow10(k: nat): (p: nat)
    ensures p >= 1
  {
    if k == 0 then 1 else 10 * Pow10(k - 1)
  }

  /** The last `width` decimal digits of `n`, padded with leading zeros. */
  function Padded(n: nat, width: nat): (s: string)
    ensures |s| == width && AllDigits(s)
    decreases width
  {
    if width == 0 then [] else Padded(n / 10, width - 1) + [DigitChar(n % 10)]
  }

  /** The number a string of decimal digits denotes. */
  function Number(s: string): nat
    requires AllDigits(s)
    decreases |s|
  {
    if |s| == 0 then 0 else Number(s[..|s| - 1]) * 10 + DigitValue(s[|s| - 1])
  }

  /** Reading back a padded number that fits its width gives the number. */
  lemma {:induction false} NumberOfPadded(n: nat, width: nat)
    requires n < Pow10(width)
    ensures Number(Padded(n, width)) == n
    decreases width
  {
    if width > 0 {
      var s := Padded(n, width);
      assert s[..|s| - 1] == Padded(n / 10, width - 1);
      NumberOfPadded(n / 10, width - 1);
    }
  }

  /** Padding the number a digit string denotes to the string's own length
      gives the string back: leading zeros included. */
  lemma {:induction false} PaddedOfNumber(s: string)
    requires AllDigits(s)
    ensures Padded(Number(s), |s|) == s
    decreases |s|
  {
    if |s| > 0 {
      var prefix := s[..|s| - 1];
      var v := DigitValue(s[|s| - 1]);
      var n := Number(s);
      assert n / 10 == Number(prefix) && n % 10 == v;
      PaddedOfNumber(prefix);
      assert DigitChar(v) == s[|s| - 1];
      assert s == prefix + [s[|s| - 1]];
    }
  }

  /** `strftime("%Y-%m-%d")`. */
  function Format(d: Date): (s: string)
    requires ValidDate(d)
    ensures |s| == 10 && s[4] == '-' && s[7] == '-'
  {
    Padded(d.year, 4) + "-" + Padded(d.month, 2) + "-" + Padded(d.day, 2)
  }

  /** `strptime(s, "%Y-%m-%d")` on zero-padded input: `None` for every string
      that is not a valid date written as YYYY-MM-DD (Python raises
      `ValueError`). */
  function Parse(s: string): (r: Option<Date>)
    ensures r.Some? ==> ValidDate(r.value)
  {
    if |s| == 10 && s[4] == '-' && s[7] == '-'
       && AllDigits(s[0..4]) && AllDigits(s[5..7]) && AllDigits(s[8..10])
    then
      var d := Date(Number(s[0..4]), Number(s[5..7]), Number(s[8..10]));
      if ValidDate(d) then Some(d) else None
    else None
  }

  /** The written fields are, in order, the year, the month and the day:
      `%Y`, `%m` and `%d` separated by dashes. */
  lemma FormatFields(d: Date)
    requires ValidDate(d)
    ensures
      var s := Format(d);
      && AllDigits(s[0..4]) && AllDigits(s[5..7]) && AllDigits(s[8..10])
      && Number(s[0..4]) == d.year
      && Number(s[5..7]) == d.month
      && Number(s[8..10]) == d.day
  {
    var s := Format(d);
    assert s[0..4] == Padded(d.year, 4);
    assert s[5..7] == Padded(d.month, 2);
    assert s[8..10] == Padded(d.day, 2);
    NumberOfPadded(d.year, 4);
    NumberOfPadded(d.month, 2);
    NumberOfPadded(d.day, 2);
  }

  /** Every date the program writes reads back as itself. */
  lemma ParseFormat(d: Date)
    requires ValidDate(d)
    ensures Parse(Format(d)) == Some(d)
  {
    FormatFields(d);
  }

  /** Every string that parses is the canonical spelling of its date, so
      parsing loses nothing. */
  lemma FormatParse(s: string)
    requires Parse(s).Some?
    ensures Format(Parse(s).value) == s
  {
    var d := Parse(s).value;
    var y, m, dd := s[0..4], s[5..7], s[8..10];
    assert d == Date(Number(y), Number(m), Number(dd));
    PaddedOfNumber(y);
    PaddedOfNumber(m);
    PaddedOfNumber(dd);
    assert Format(d) == y + "-" + m + "-" + dd;
    SplitAtDashes(s);
  }

  /** A ten-character string with dashes at 4 and 7 is its three fields
      joined by dashes. */
  lemma SplitAtDashes(s: string)
    requires |s| == 10 && s[4] == '-' && s[7] == '-'
    ensures s == s[0..4] + "-" + s[5..7] + "-" + s[8..10]
  {
    var t := s[0..4] + "-" + s[5..7] + "-" + s[8..10];
    assert |t| == 10;
    forall i | 0 <= i < 10
      ensures t[i] == s[i]
    {
    }
  }

  /** Distinct dates are stored as distinct strings. */
  lemma FormatInjective(a: Date, b: Date)
    requires ValidDate(a) && ValidDate(b) && Format(a) == Format(b)
    ensures a == b
  {
    ParseFormat(a);
    ParseFormat(b);
  }
}

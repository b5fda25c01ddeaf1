/** The local calendar-day key `YYYY-MM-DD` of App.tsx `getLocalDateKey`, built from the local year,
    zero-based month and day of a date, with its inverse `SplitKey`. */
module DateKey {
  import opened Wrappers

  predicate IsDigit(c: char) {
    '0' <= c <= '9'
  }

  function DigitChar(d: nat): (c: char)
    requires d < 10
    ensures IsDigit(c)
  {
    "0123456789"[d]
  }

  function DigitValue(c: char): nat {
    if IsDigit(c) then (c - '0') as nat else 0
  }

  /** The decimal digits of a natural number, without leading zeros: `String(n)` for n >= 0. */
  function Decimal(n: nat): (s: string)
    ensures |s| >= 1
    ensures forall i :: 0 <= i < |s| ==> IsDigit(s[i])
  {
    if n < 10 then [DigitChar(n)] else Decimal(n / 10) + [DigitChar(n % 10)]
  }

  /** The value of a string of decimal digits, most significant first. */
  function ParseDecimal(s: string): nat {
    if s == [] then 0 else ParseDecimal(s[..|s| - 1]) * 10 + DigitValue(s[|s| - 1])
  }

  /** Parsing the decimal representation of a number gives the number back. */
  lemma {:induction false} ParseDecimalOfDecimal(n: nat)
    ensures ParseDecimal(Decimal(n)) == n
  {
    if n >= 10 {
      var s := Decimal(n);
      assert s[..|s| - 1] == Decimal(n / 10);
      ParseDecimalOfDecimal(n / 10);
    }
  }

  /** A leading zero does not change the value of a digit string. */
  lemma {:induction false} ParseDecimalLeadingZero(s: string)
    ensures ParseDecimal("0" + s) == ParseDecimal(s)
    decreases |s|
  {
    if s != [] {
      var t := "0" + s;
      assert t[..|t| - 1] == "0" + s[..|s| - 1];
      ParseDecimalLeadingZero(s[..|s| - 1]);
    }
  }

  /** `String(x)` for any integer: a minus sign before the digits of a negative number. */
  function IntToString(x: int): string {
    if x < 0 then "-" + Decimal(-x) else Decimal(x)
  }

  /** `s.padStart(2, '0')`: zeros on the left up to two characters; longer strings are unchanged. */
  function PadStart2(s: string): string {
    if |s| >= 2 then s else seq(2 - |s|, _ => '0') + s
  }

  /** `getLocalDateKey`: the year as written by `String`, then the one-based month and the day, each
      left-padded to two characters, joined by `-`. The arguments are the local `getFullYear()`,
      `getMonth()` and `getDate()` of the date. */
  function LocalDateKey(year: int, month0: int, day: int): string {
    IntToString(year) + "-" + PadStart2(IntToString(month0 + 1)) + "-" + PadStart2(IntToString(day))
  }

  /** Reads a key back: `Some((year, month, day))` for ten characters `DDDD-DD-DD`, otherwise `None`. */
  function SplitKey(key: string): Option<(int, int, int)> {
    if |key| == 10 && key[4] == '-' && key[7] == '-'
       && (forall i :: 0 <= i < 10 && i != 4 && i != 7 ==> IsDigit(key[i]))
    then Some((ParseDecimal(key[..4]), ParseDecimal(key[5..7]), ParseDecimal(key[8..])))
    else None
  }

  /** A number from 1 to 99 padded to two characters is two digits with that value. */
  lemma TwoDigits(n: int)
    requires 1 <= n <= 99
    ensures |PadStart2(IntToString(n))| == 2
    ensures forall i :: 0 <= i < 2 ==> IsDigit(PadStart2(IntToString(n))[i])
    ensures ParseDecimal(PadStart2(IntToString(n))) == n
  {
    ParseDecimalOfDecimal(n);
    if n < 10 {
      assert PadStart2(IntToString(n)) == "0" + Decimal(n);
      ParseDecimalLeadingZero(Decimal(n));
    } else {
      assert Decimal(n) == [DigitChar(n / 10)] + [DigitChar(n % 10)];
    }
  }

  /** A four-digit year is written with four digits. */
  lemma FourDigits(y: int)
    requires 1000 <= y <= 9999
    ensures |IntToString(y)| == 4
    ensures ParseDecimal(IntToString(y)) == y
  {
    ParseDecimalOfDecimal(y);
    assert |Decimal(y / 1000)| == 1;
    assert |Decimal(y / 100)| == 2;
    assert |Decimal(y / 10)| == 3;
  }

  /** For a four-digit year, a month from 1 to 12 and a day from 1 to 31 the key has ten characters,
      and splitting it at the dashes recovers the year, the one-based month and the day. */
  lemma DateKeyRoundTrip(year: int, month0: int, day: int)
    requires 1000 <= year <= 9999 && 0 <= month0 <= 11 && 1 <= day <= 31
    ensures |LocalDateKey(year, month0, day)| == 10
    ensures SplitKey(LocalDateKey(year, month0, day)) == Some((year, month0 + 1, day))
  {
    var y, m, d := IntToString(year), PadStart2(IntToString(month0 + 1)), PadStart2(IntToString(day));
    FourDigits(year);
    TwoDigits(month0 + 1);
    TwoDigits(day);
    var key := LocalDateKey(year, month0, day);
    assert key == y + "-" + m + "-" + d;
    assert key[..4] == y;
    assert key[5..7] == m;
    assert key[8..] == d;
    assert forall i :: 0 <= i < 4 ==> key[i] == y[i];
    assert forall i :: 5 <= i < 7 ==> key[i] == m[i - 5];
    assert forall i :: 8 <= i < 10 ==> key[i] == d[i - 8];
  }

  /** Distinct calendar days get distinct keys, so keying workouts by this string loses no day. */
  lemma DateKeyInjective(y1: int, m1: int, d1: int, y2: int, m2: int, d2: int)
    requires 1000 <= y1 <= 9999 && 0 <= m1 <= 11 && 1 <= d1 <= 31
    requires 1000 <= y2 <= 9999 && 0 <= m2 <= 11 && 1 <= d2 <= 31
    ensures LocalDateKey(y1, m1, d1) == LocalDateKey(y2, m2, d2) <==> (y1, m1, d1) == (y2, m2, d2)
  {
    DateKeyRoundTrip(y1, m1, d1);
    DateKeyRoundTrip(y2, m2, d2);
  }
}

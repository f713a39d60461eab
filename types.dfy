/**
  The four record kinds of the tracker (companies, hourly work logs,
  transport logs and tithing logs) and the field constraints their
  declarations document.  Money is an exact `real`; identifiers and dates
  are strings, as in the application, which compares them only for
  equality.
*/
module Types {
  import opened Optional

  type Id = string

  datatype Company = Company(
    id: Id,
    name: string,
    locationLink: string,
    hourlyRate: real,
    color: Option<string>)

  datatype WorkLog = WorkLog(
    id: Id,
    date: string,              // YYYY-MM-DD
    hour: int,                 // 7 to 22
    companyId: Id,
    isPaid: Option<bool>,
    hourlyRateSnapshot: Option<real>)

  datatype TransportLog = TransportLog(
    id: Id,
    workLogId: Option<Id>,
    date: string,              // YYYY-MM-DD
    companyId: Id,
    tripCost: real,            // at most two decimals
    description: Option<string>,
    isPaid: Option<bool>)

  datatype TithingLog = TithingLog(
    id: Id,
    companyId: Id,
    amount: real,
    createdAt: string,
    isPaid: Option<bool>)

  /** An optional paid flag is truthy only when present and true: absent means unpaid. */
  predicate Paid(flag: Option<bool>) {
    flag == Some(true)
  }

  /** The hours a work log may name: 7 to 22. */
  predicate ValidHour(hour: int) {
    7 <= hour <= 22
  }

  predicate IsDigit(c: char) {
    '0' <= c <= '9'
  }

  /** The `YYYY-MM-DD` shape of a date key. */
  predicate IsDateKey(s: string) {
    && |s| == 10
    && s[4] == '-' && s[7] == '-'
    && forall i :: 0 <= i < 10 && i != 4 && i != 7 ==> IsDigit(s[i])
  }

  /** An amount with at most two decimals: a whole number of hundredths. */
  predicate HasCents(x: real) {
    (x * 100.0).Floor as real == x * 100.0
  }

  predicate WellFormedWorkLog(log: WorkLog) {
    IsDateKey(log.date) && ValidHour(log.hour)
  }

  predicate WellFormedTransportLog(log: TransportLog) {
    IsDateKey(log.date) && HasCents(log.tripCost)
  }

  /** The number written by a string of decimal digits (JavaScript's `Number` on such a string). */
  function DigitsValue(s: string): (n: nat)
    requires forall i :: 0 <= i < |s| ==> IsDigit(s[i])
    ensures n < Power10(|s|)
  {
    if s == [] then 0
    else
      var prefix := s[..|s| - 1];
      assert IsDigit(s[|s| - 1]);
      var digit := (s[|s| - 1] as int) - ('0' as int);
      var high := DigitsValue(prefix);
      assert high * 10 <= (Power10(|prefix|) - 1) * 10;
      high * 10 + digit
  }

  function Power10(n: nat): (p: nat)
    ensures p >= 1
  {
    if n == 0 then 1 else 10 * Power10(n - 1)
  }

  /** The digit character of a value below ten. */
  function DigitChar(d: nat): (c: char)
    requires d < 10
    ensures IsDigit(c) && c as int - '0' as int == d
  {
    ('0' as int + d) as char
  }

  /** `n` written in exactly `width` decimal digits, zero-padded on the left (how a date key writes its fields). */
  function Padded(n: nat, width: nat): (s: string)
    requires n < Power10(width)
    ensures |s| == width
    ensures forall i :: 0 <= i < |s| ==> IsDigit(s[i])
  {
    if width == 0 then []
    else Padded(n / 10, width - 1) + [DigitChar(n % 10)]
  }

  /** Two strings of digits concatenate to a string of digits. */
  lemma DigitsConcat(a: string, b: string)
    requires forall i :: 0 <= i < |a| ==> IsDigit(a[i])
    requires forall i :: 0 <= i < |b| ==> IsDigit(b[i])
    ensures forall i :: 0 <= i < |a + b| ==> IsDigit((a + b)[i])
  {
    forall i | 0 <= i < |a + b| ensures IsDigit((a + b)[i]) {
      if i < |a| { assert (a + b)[i] == a[i]; } else { assert (a + b)[i] == b[i - |a|]; }
    }
  }

  /** Reading digits is positional: the high part is worth ten to the length of the low part. */
  lemma {:induction false} DigitsValueConcat(a: string, b: string)
    requires forall i :: 0 <= i < |a| ==> IsDigit(a[i])
    requires forall i :: 0 <= i < |b| ==> IsDigit(b[i])
    ensures forall i :: 0 <= i < |a + b| ==> IsDigit((a + b)[i])
    ensures DigitsValue(a + b) == DigitsValue(a) * Power10(|b|) + DigitsValue(b)
    decreases |b|
  {
    DigitsConcat(a, b);
    if b == [] {
      assert a + b == a;
    } else {
      var b' := b[..|b| - 1];
      var c := b[|b| - 1];
      assert (a + b)[..|a + b| - 1] == a + b';
      assert (a + b)[|a + b| - 1] == c;
      DigitsConcat(a, b');
      DigitsValueConcat(a, b');
      LastDigit(a + b);
      LastDigit(b);
      ShiftByTen(DigitsValue(a), Power10(|b'|), DigitsValue(b'), c as int - '0' as int);
    }
  }

  /** Unfolding `DigitsValue` at its last digit. */
  lemma LastDigit(s: string)
    requires |s| > 0 && forall i :: 0 <= i < |s| ==> IsDigit(s[i])
    ensures DigitsValue(s) == DigitsValue(s[..|s| - 1]) * 10 + (s[|s| - 1] as int - '0' as int)
  {
  }

  lemma ShiftByTen(x: int, p: int, y: int, d: int)
    ensures (x * p + y) * 10 + d == x * (p * 10) + (y * 10 + d)
  {
  }

  /** A single digit reads as its own value. */
  lemma DigitsValueOfDigit(c: char)
    requires IsDigit(c)
    ensures DigitsValue([c]) == c as int - '0' as int
  {
    assert [c][..0] == [];
  }

  /** Writing out the value of a digit string in as many digits gives the string back. */
  lemma {:induction false} PaddedOfDigitsValue(s: string)
    requires forall i :: 0 <= i < |s| ==> IsDigit(s[i])
    ensures Padded(DigitsValue(s), |s|) == s
  {
    if s != [] {
      var prefix := s[..|s| - 1];
      var d := s[|s| - 1] as int - '0' as int;
      LastDigit(s);
      assert (DigitsValue(prefix) * 10 + d) / 10 == DigitsValue(prefix);
      assert (DigitsValue(prefix) * 10 + d) % 10 == d;
      PaddedOfDigitsValue(prefix);
      assert DigitChar(d) == s[|s| - 1];
      assert s == prefix + [s[|s| - 1]];
    }
  }

  /** The `YYYY-MM-DD` key of a year, month and day, each zero-padded. */
  function DateKeyOf(year: nat, month: nat, day: nat): (key: string)
    requires year < 10000 && month < 100 && day < 100
    ensures IsDateKey(key)
  {
    var y, m, d := Padded(year, 4), Padded(month, 2), Padded(day, 2);
    var key := y + "-" + m + "-" + d;
    assert forall i :: 0 <= i < 4 ==> key[i] == y[i];
    assert forall i :: 5 <= i < 7 ==> key[i] == m[i - 5];
    assert forall i :: 8 <= i < 10 ==> key[i] == d[i - 8];
    key
  }

  /** Reading back a zero-padded number gives the number. */
  lemma {:induction false} DigitsValueOfPadded(n: nat, width: nat)
    requires n < Power10(width)
    ensures DigitsValue(Padded(n, width)) == n
  {
    if width > 0 {
      var s := Padded(n, width);
      assert s[..|s| - 1] == Padded(n / 10, width - 1);
      DigitsValueOfPadded(n / 10, width - 1);
    }
  }
}

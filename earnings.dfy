/**
  The pending-earnings summary: for each company, the unpaid work logs whose
  hour block has fully elapsed at `now`, their count and the sum of their
  rates (the log's rate snapshot, falling back to the company's current
  rate).

  Instants are milliseconds of local wall-clock time since 1970-01-01 00:00;
  `now` is `None` until the clock has been read on the client.
*/
module Earnings {
  import opened Optional
  import opened Seqs
  import opened Types

  const MsPerHour: int := 3600000
  const MsPerDay: int := 86400000

  /**
    Days from 1970-01-01 to year `y`, month `m` (1 to 12), day `d` of the
    proleptic Gregorian calendar; `d` may lie outside the month, counting on
    from its first day as a JavaScript `Date` does.
  */
  function DaysFromCivil(y: int, m: int, d: int): int
    requires 1 <= m <= 12
  {
    var y' := if m <= 2 then y - 1 else y;
    var era := y' / 400;
    var yoe := y' - era * 400;
    var mp := if m > 2 then m - 3 else m + 9;
    var doy := (153 * mp + 2) / 5 + d - 1;
    var doe := yoe * 365 + yoe / 4 - yoe / 100 + doy;
    era * 146097 + doe - 719468
  }

  /**
    The local day number of `new Date(year, monthIndex, day)`: a year from 0 to
    99 means 1900 plus that year, and a month index outside 0..11 carries into
    the year.
  */
  function LocalDayNumber(year: int, monthIndex: int, day: int): int
  {
    DaysFromCivil(FullYear(year) + monthIndex / 12, monthIndex % 12 + 1, 1) + (day - 1)
  }

  /** The year a `Date` constructor means: 0 to 99 stand for 1900 to 1999. */
  function FullYear(year: int): int {
    if 0 <= year <= 99 then 1900 + year else year
  }

  /** The Gregorian leap-year rule. */
  predicate IsLeapYear(y: int) {
    y % 4 == 0 && (y % 100 != 0 || y % 400 == 0)
  }

  /** The length of month `m` (1 to 12) of year `y` in the Gregorian calendar. */
  function DaysInMonth(y: int, m: int): int
    requires 1 <= m <= 12
  {
    if m == 2 then (if IsLeapYear(y) then 29 else 28)
    else if m == 4 || m == 6 || m == 9 || m == 11 then 30
    else 31
  }

  /** Day zero is 1970-01-01, which `new Date(70, 0, 1)` also names. */
  lemma EpochIsDayZero()
    ensures DaysFromCivil(1970, 1, 1) == 0
    ensures LocalDayNumber(70, 0, 1) == 0
  {
  }

  /** Days from 0000-03-01 to 1 March of year `y` (the year-dependent part of `DaysFromCivil`). */
  function MarchStart(y: int): int {
    var era := y / 400;
    var yoe := y - era * 400;
    era * 146097 + yoe * 365 + yoe / 4 - yoe / 100
  }

  /** Within a 400-year era, one more year adds a leap day exactly on the leap years. */
  lemma EraYearStep(yoe: int)
    requires 1 <= yoe < 400
    ensures (yoe * 365 + yoe / 4 - yoe / 100) - ((yoe - 1) * 365 + (yoe - 1) / 4 - (yoe - 1) / 100)
         == if yoe % 4 == 0 && (yoe % 100 != 0 || yoe == 0) then 366 else 365
  {
    assert yoe / 4 - (yoe - 1) / 4 == if yoe % 4 == 0 then 1 else 0;
    assert yoe / 100 - (yoe - 1) / 100 == if yoe % 100 == 0 then 1 else 0;
  }

  /** A year and its place in its era agree on divisibility by 4, 100 and 400. */
  lemma EraRemainders(y: int)
    ensures var yoe := y - (y / 400) * 400;
            y % 4 == yoe % 4 && y % 100 == yoe % 100 && y % 400 == yoe
  {
    var era := y / 400;
    var yoe := y - era * 400;
    RemainderOfShift(yoe, era * 100, 4);
    RemainderOfShift(yoe, era * 4, 100);
  }

  /** Adding a multiple of `n` leaves the remainder modulo `n` unchanged. */
  lemma RemainderOfShift(a: int, k: int, n: int)
    requires n == 4 || n == 100
    ensures (a + k * n) % n == a % n
  {
    var q := a / n;
    assert a + k * n == (q + k) * n + a % n;
  }

  /** From one 1 March to the next there are 366 days exactly when the year of the February between is a leap year. */
  lemma MarchYearLength(y: int)
    ensures DaysFromCivil(y, 3, 1) - DaysFromCivil(y - 1, 3, 1) == if IsLeapYear(y) then 366 else 365
  {
    assert DaysFromCivil(y, 3, 1) == MarchStart(y) - 719468;
    assert DaysFromCivil(y - 1, 3, 1) == MarchStart(y - 1) - 719468;
    var era := y / 400;
    var yoe := y - era * 400;
    EraRemainders(y);
    if yoe == 0 {
      assert (y - 1) / 400 == era - 1;
      assert MarchStart(y) == era * 146097;
      assert MarchStart(y - 1) == (era - 1) * 146097 + 399 * 365 + 99 - 3;
    } else {
      assert (y - 1) / 400 == era;
      EraYearStep(yoe);
    }
  }

  /** The first of the next month comes exactly the month's length after the first of a month. */
  lemma MonthLength(y: int, m: int)
    requires 1 <= m <= 12
    ensures DaysFromCivil(y, m, 1) + DaysInMonth(y, m)
         == if m == 12 then DaysFromCivil(y + 1, 1, 1) else DaysFromCivil(y, m + 1, 1)
  {
    if m == 2 {
      FebruaryLength(y);
    } else if m == 12 {
      DaysFromCivilParts(y, 12);
      DaysFromCivilParts(y + 1, 1);
    } else {
      DaysFromCivilParts(y, m);
      DaysFromCivilParts(y, m + 1);
      MonthOffsetStep(m);
    }
  }

  /** 1 March follows 1 February by 29 days in a leap year and by 28 otherwise. */
  lemma FebruaryLength(y: int)
    ensures DaysFromCivil(y, 2, 1) + DaysInMonth(y, 2) == DaysFromCivil(y, 3, 1)
  {
    DaysFromCivilParts(y, 2);
    DaysFromCivilParts(y - 1, 3);
    MarchYearLength(y);
  }

  /** Days from 1 March to the first of month `m` (1 to 12), counting January and February as months 11 and 12. */
  function MonthOffset(m: int): int
    requires 1 <= m <= 12
  {
    (153 * (if m > 2 then m - 3 else m + 9) + 2) / 5
  }

  /** Outside February and December, the next month starts the month's length later. */
  lemma MonthOffsetStep(m: int)
    requires 1 <= m <= 11 && m != 2
    ensures MonthOffset(m + 1) - MonthOffset(m) == if m == 4 || m == 6 || m == 9 || m == 11 then 30 else 31
  {
  }

  /** The first of a month is the March-based year start plus the days from March to that month. */
  lemma DaysFromCivilParts(y: int, m: int)
    requires 1 <= m <= 12
    ensures DaysFromCivil(y, m, 1) == MarchStart(if m <= 2 then y - 1 else y) + MonthOffset(m) - 719468
  {
  }

  /** The next day of the month is the next day number, also past the month's end. */
  lemma LocalDayNumberNextDay(year: int, monthIndex: int, day: int)
    ensures LocalDayNumber(year, monthIndex, day + 1) == LocalDayNumber(year, monthIndex, day) + 1
  {
  }

  /**
    The day after a month's last day is the first of the next month, and a
    month index of 11 carries into January of the next year.
  */
  lemma LocalDayNumberMonthCarry(year: int, monthIndex: int)
    ensures LocalDayNumber(year, monthIndex, DaysInMonth(FullYear(year) + monthIndex / 12, monthIndex % 12 + 1) + 1)
         == LocalDayNumber(year, monthIndex + 1, 1)
  {
    var y := FullYear(year) + monthIndex / 12;
    var m := monthIndex % 12 + 1;
    MonthLength(y, m);
    MonthIndexCarry(monthIndex);
    if m == 12 {
      assert LocalDayNumber(year, monthIndex + 1, 1) == DaysFromCivil(y + 1, 1, 1);
    } else {
      assert LocalDayNumber(year, monthIndex + 1, 1) == DaysFromCivil(y, m + 1, 1);
    }
  }

  /** The next month index is the next month of the same year, or January of the next year after December. */
  lemma MonthIndexCarry(monthIndex: int)
    ensures monthIndex % 12 == 11 ==> (monthIndex + 1) / 12 == monthIndex / 12 + 1 && (monthIndex + 1) % 12 == 0
    ensures monthIndex % 12 != 11 ==> (monthIndex + 1) / 12 == monthIndex / 12 && (monthIndex + 1) % 12 == monthIndex % 12 + 1
  {
  }

  /** `date.split('-').map(Number)` on a `YYYY-MM-DD` key. */
  function DateFields(key: string): (fields: (int, int, int))
    requires IsDateKey(key)
    ensures 0 <= fields.0 <= 9999 && 0 <= fields.1 <= 99 && 0 <= fields.2 <= 99
  {
    (DigitsValue(key[..4]), DigitsValue(key[5..7]), DigitsValue(key[8..]))
  }

  /**
    The instant the log's hour block ends: its date at `(hour + 1):00`, i.e.
    `new Date(year, month - 1, day, hour + 1, 0, 0)`.  A date that is not a
    `YYYY-MM-DD` key gives no instant.
  */
  function CompletionInstant(log: WorkLog): (t: Option<int>)
    ensures t.Some? <==> IsDateKey(log.date)
    ensures t.Some? ==> var (y, m, d) := DateFields(log.date);
      t.value - (log.hour + 1) * MsPerHour == LocalDayNumber(y, m - 1, d) * MsPerDay
  {
    if !IsDateKey(log.date) then None
    else
      var (y, m, d) := DateFields(log.date);
      Some(LocalDayNumber(y, m - 1, d) * MsPerDay + (log.hour + 1) * MsPerHour)
  }

  /** A log one hour later on the same date completes exactly one hour later. */
  lemma CompletionOneHourLater(log: WorkLog)
    requires IsDateKey(log.date)
    ensures CompletionInstant(log.(hour := log.hour + 1)).Some?
    ensures CompletionInstant(log.(hour := log.hour + 1)).value == CompletionInstant(log).value + MsPerHour
  {
  }

  /** The hour block has fully elapsed at `now`; nothing has while `now` is unknown. */
  predicate Matured(log: WorkLog, now: Option<int>) {
    now.Some? && CompletionInstant(log).Some? && now.value >= CompletionInstant(log).value
  }

  /** A log counts for a company: it is the company's, it is unpaid, and it has matured. */
  predicate Counts(log: WorkLog, company: Company, now: Option<int>) {
    log.companyId == company.id && !Paid(log.isPaid) && Matured(log, now)
  }

  function CountsFor(company: Company, now: Option<int>): WorkLog -> bool {
    (l: WorkLog) => Counts(l, company, now)
  }

  /** The logs that count for `company` at `now`, in their original order. */
  function CountedLogs(logs: seq<WorkLog>, company: Company, now: Option<int>): (r: seq<WorkLog>)
    ensures forall l :: l in r <==>
      l in logs && l.companyId == company.id && !Paid(l.isPaid) && Matured(l, now)
    ensures |r| <= |logs|
  {
    Filter(logs, CountsFor(company, now))
  }

  /** `log.hourlyRateSnapshot ?? company.hourlyRate`. */
  function Rate(log: WorkLog, company: Company): real {
    log.hourlyRateSnapshot.GetOr(company.hourlyRate)
  }

  function RateFor(company: Company): WorkLog -> real {
    (l: WorkLog) => Rate(l, company)
  }

  datatype CompanyEarnings = CompanyEarnings(company: Company, totalHours: nat, totalEarned: real)

  /** One company's entry: how many logs count and the sum of their rates. */
  function EarningsFor(company: Company, logs: seq<WorkLog>, now: Option<int>): (e: CompanyEarnings)
    ensures e.company == company
    ensures e.totalHours <= |logs|
  {
    var counted := CountedLogs(logs, company, now);
    CompanyEarnings(company, |counted|, Sum(counted, RateFor(company)))
  }

  function EarningsOf(logs: seq<WorkLog>, now: Option<int>): Company -> CompanyEarnings {
    (c: Company) => EarningsFor(c, logs, now)
  }

  /** `earningsByCompany`: one entry per company, in company order, zero-hour companies included. */
  function EarningsByCompany(companies: seq<Company>, logs: seq<WorkLog>, now: Option<int>): (r: seq<CompanyEarnings>)
    ensures |r| == |companies|
    ensures forall i :: 0 <= i < |r| ==> r[i].company == companies[i] && r[i] == EarningsFor(companies[i], logs, now)
  {
    Map(companies, EarningsOf(logs, now))
  }

  function TotalEarnedOf(e: CompanyEarnings): real { e.totalEarned }

  /** `grandTotal`: the sum of the per-company totals. */
  function GrandTotal(entries: seq<CompanyEarnings>): real {
    Sum(entries, TotalEarnedOf)
  }

  /** Until `now` is known, no log counts: every entry has zero hours and zero earnings. */
  lemma NothingCountsWithoutNow(companies: seq<Company>, logs: seq<WorkLog>)
    ensures forall e :: e in EarningsByCompany(companies, logs, None) ==> e.totalHours == 0 && e.totalEarned == 0.0
    ensures GrandTotal(EarningsByCompany(companies, logs, None)) == 0.0
  {
    var r := EarningsByCompany(companies, logs, None);
    forall e | e in r ensures e.totalHours == 0 && e.totalEarned == 0.0 {
      FilterKeepsNone(logs, CountsFor(e.company, None));
    }
    SumConstant(r, TotalEarnedOf, 0.0);
    TimesIsProduct(|r|, 0.0);
  }

  /** Once counted, a log keeps counting as time goes on. */
  lemma MaturityIsMonotone(log: WorkLog, company: Company, t: int, later: int)
    requires t <= later
    ensures Counts(log, company, Some(t)) ==> Counts(log, company, Some(later))
  {
  }

  /** As time goes on a company's counted hours never decrease, whatever its rates. */
  lemma HoursGrowWithTime(company: Company, logs: seq<WorkLog>, t: int, later: int)
    requires t <= later
    ensures EarningsFor(company, logs, Some(t)).totalHours <= EarningsFor(company, logs, Some(later)).totalHours
  {
    forall l | l in logs ensures CountsFor(company, Some(t))(l) ==> CountsFor(company, Some(later))(l) {
      MaturityIsMonotone(l, company, t, later);
    }
    FilterWeakerKeepsMore(logs, CountsFor(company, Some(t)), CountsFor(company, Some(later)), (l: WorkLog) => 0.0);
  }

  /** With non-negative rates, a company's earnings never decrease as time goes on. */
  lemma EarningsGrowWithTime(company: Company, logs: seq<WorkLog>, t: int, later: int)
    requires t <= later
    requires forall l :: l in logs ==> Rate(l, company) >= 0.0
    ensures EarningsFor(company, logs, Some(t)).totalEarned <= EarningsFor(company, logs, Some(later)).totalEarned
  {
    FilterWeakerKeepsMore(logs, CountsFor(company, Some(t)), CountsFor(company, Some(later)), RateFor(company));
  }

  /**
    Adding a log adds its rate to the company's earnings exactly when it
    counts: the earnings are the sum of the counted logs' rates.
  */
  lemma EarningsOfOneMoreLog(company: Company, logs: seq<WorkLog>, log: WorkLog, now: Option<int>)
    ensures EarningsFor(company, [], now) == CompanyEarnings(company, 0, 0.0)
    ensures EarningsFor(company, logs + [log], now).totalHours
         == EarningsFor(company, logs, now).totalHours + (if Counts(log, company, now) then 1 else 0)
    ensures EarningsFor(company, logs + [log], now).totalEarned
         == EarningsFor(company, logs, now).totalEarned + (if Counts(log, company, now) then Rate(log, company) else 0.0)
  {
    var keep := CountsFor(company, now);
    FilterConcat(logs, [log], keep);
    assert Filter([log], keep) == if Counts(log, company, now) then [log] else [];
    SumConcat(Filter(logs, keep), Filter([log], keep), RateFor(company));
  }

  /**
    Without rate snapshots, a company earns its hours times its current rate
    (`Times` is that product, see `Seqs.TimesIsProduct`).
  */
  lemma EarningsAtCurrentRate(company: Company, logs: seq<WorkLog>, now: Option<int>)
    requires forall l :: l in logs ==> l.hourlyRateSnapshot.None?
    ensures EarningsFor(company, logs, now).totalEarned
         == Times(EarningsFor(company, logs, now).totalHours, company.hourlyRate)
  {
    var counted := CountedLogs(logs, company, now);
    forall l | l in counted ensures RateFor(company)(l) == company.hourlyRate {
      assert l in logs;
    }
    SumConstant(counted, RateFor(company), company.hourlyRate);
  }

  /** With non-negative rates and snapshots, the grand total is non-negative. */
  lemma GrandTotalNonNegative(companies: seq<Company>, logs: seq<WorkLog>, now: Option<int>)
    requires forall c :: c in companies ==> c.hourlyRate >= 0.0
    requires forall l :: l in logs && l.hourlyRateSnapshot.Some? ==> l.hourlyRateSnapshot.value >= 0.0
    ensures forall e :: e in EarningsByCompany(companies, logs, now) ==> e.totalEarned >= 0.0
    ensures GrandTotal(EarningsByCompany(companies, logs, now)) >= 0.0
  {
    var r := EarningsByCompany(companies, logs, now);
    forall e | e in r ensures e.totalEarned >= 0.0 {
      var i :| 0 <= i < |r| && r[i] == e;
      SumNonNegative(CountedLogs(logs, companies[i], now), RateFor(companies[i]));
    }
    SumNonNegative(r, TotalEarnedOf);
  }

  /** Reading the fields of a zero-padded key gives back the year, month and day it was written from. */
  lemma DateFieldsOfDateKey(year: nat, month: nat, day: nat)
    requires year < 10000 && month < 100 && day < 100
    ensures DateFields(DateKeyOf(year, month, day)) == (year, month, day)
  {
    var key := DateKeyOf(year, month, day);
    assert key[..4] == Padded(year, 4);
    assert key[5..7] == Padded(month, 2);
    assert key[8..] == Padded(day, 2);
    DigitsValueOfPadded(year, 4);
    DigitsValueOfPadded(month, 2);
    DigitsValueOfPadded(day, 2);
  }

  /** Every `YYYY-MM-DD` key is the zero-padded key of the fields read from it, so distinct keys read differently. */
  lemma DateKeyOfDateFields(key: string)
    requires IsDateKey(key)
    ensures var (y, m, d) := DateFields(key); DateKeyOf(y, m, d) == key
  {
    var (y, m, d) := DateFields(key);
    PaddedOfDigitsValue(key[..4]);
    PaddedOfDigitsValue(key[5..7]);
    PaddedOfDigitsValue(key[8..]);
    assert key == key[..4] + "-" + key[5..7] + "-" + key[8..];
  }

  /** The key `2024-01-01` reads as year 2024, month 1, day 1. */
  lemma NewYear2024Fields()
    ensures IsDateKey("2024-01-01") && DateFields("2024-01-01") == (2024, 1, 1)
  {
    var key := "2024-01-01";
    assert IsDateKey(key);
    assert key[..4] == "2024" && key[5..7] == "01" && key[8..] == "01";
    assert "2024"[..3] == "202" && "202"[..2] == "20" && "20"[..1] == "2" && "2"[..0] == [];
    assert DigitsValue("2024") == 2024;
    assert "01"[..1] == "0" && "0"[..0] == [];
    assert DigitsValue("01") == 1;
  }

  /** 2024-01-01 is day 19723 after 1970-01-01. */
  lemma NewYear2024Day()
    ensures LocalDayNumber(2024, 0, 1) == 19723
  {
    assert DaysFromCivil(2024, 1, 1) == 19723;
  }

  /** An hour-9 log on 2024-01-01 completes at 10:00 that day. */
  lemma HourNineCompletesAtTen(log: WorkLog)
    requires log.date == "2024-01-01" && log.hour == 9
    ensures CompletionInstant(log) == Some(19723 * MsPerDay + 10 * MsPerHour)
  {
    NewYear2024Fields();
    NewYear2024Day();
  }

  /**
    A company at 20 per hour with an unpaid hour-9 log on 2024-01-01: at 09:59
    that day nothing is pending, at 10:00 the 20 are.
  */
  lemma HourNineMaturesAtTen()
    ensures var company := Company("c", "Acme", "", 20.0, None);
            var log := WorkLog("w", "2024-01-01", 9, "c", None, None);
            var day := 19723 * MsPerDay;
            && EarningsFor(company, [log], Some(day + 9 * MsPerHour + 59 * 60000)) == CompanyEarnings(company, 0, 0.0)
            && EarningsFor(company, [log], Some(day + 10 * MsPerHour)) == CompanyEarnings(company, 1, 20.0)
  {
    var company := Company("c", "Acme", "", 20.0, None);
    var log := WorkLog("w", "2024-01-01", 9, "c", None, None);
    HourNineCompletesAtTen(log);
    var early := Some(19723 * MsPerDay + 9 * MsPerHour + 59 * 60000);
    var onTime := Some(19723 * MsPerDay + 10 * MsPerHour);
    assert !Counts(log, company, early);
    assert Counts(log, company, onTime);
    assert Filter([log], CountsFor(company, early)) == [];
    assert Filter([log], CountsFor(company, onTime)) == [log];
    assert Sum([log], RateFor(company)) == 20.0;
  }
}

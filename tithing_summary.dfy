/**
  The accumulated-tithe summary: for each company, the sum and number of its
  unpaid tithing logs; companies without any are not listed.
*/
module TithingSummary {
  import opened Seqs
  import opened Types
  import opened Schema

  /** A tithing log counts for a company: it is the company's and it is unpaid. */
  predicate Counts(t: TithingLog, company: Company) {
    t.companyId == company.id && !Paid(t.isPaid)
  }

  function CountsFor(company: Company): TithingLog -> bool {
    (t: TithingLog) => Counts(t, company)
  }

  function Amount(t: TithingLog): real { t.amount }

  datatype CompanyTithing = CompanyTithing(company: Company, totalAmount: real, count: nat)

  /** One company's entry, before the companies without entries are dropped. */
  function TithingFor(company: Company, tithingLogs: seq<TithingLog>): (e: CompanyTithing)
    ensures e.company == company
    ensures e.count <= |tithingLogs|
    ensures e.count > 0 <==> exists t :: t in tithingLogs && Counts(t, company)
  {
    var logs := Filter(tithingLogs, CountsFor(company));
    assert logs != [] ==> logs[0] in logs;
    CompanyTithing(company, Sum(logs, Amount), |logs|)
  }

  /**
    The entry is built log by log: no logs give a zero entry, and one more log
    adds one to the count and its amount to the total exactly when it is the
    company's and unpaid.
  */
  lemma TithingOfOneMoreLog(company: Company, tithingLogs: seq<TithingLog>, t: TithingLog)
    ensures TithingFor(company, []) == CompanyTithing(company, 0.0, 0)
    ensures TithingFor(company, tithingLogs + [t]).count
         == TithingFor(company, tithingLogs).count + (if Counts(t, company) then 1 else 0)
    ensures TithingFor(company, tithingLogs + [t]).totalAmount
         == TithingFor(company, tithingLogs).totalAmount + (if Counts(t, company) then t.amount else 0.0)
  {
    var keep := CountsFor(company);
    FilterConcat(tithingLogs, [t], keep);
    assert Filter([t], keep) == if Counts(t, company) then [t] else [];
    SumConcat(Filter(tithingLogs, keep), Filter([t], keep), Amount);
  }

  function EntryFor(tithingLogs: seq<TithingLog>): Company -> CompanyTithing {
    (c: Company) => TithingFor(c, tithingLogs)
  }

  function HasEntries(e: CompanyTithing): bool { e.count > 0 }

  /** `tithingByCompany`: the entries of the companies that have an unpaid tithing log. */
  function TithingByCompany(companies: seq<Company>, tithingLogs: seq<TithingLog>): (r: seq<CompanyTithing>)
    ensures |r| <= |companies|
    ensures forall e :: e in r ==> e.count >= 1 && e.company in companies && e == TithingFor(e.company, tithingLogs)
  {
    var all := Map(companies, EntryFor(tithingLogs));
    var r := Filter(all, HasEntries);
    assert forall e :: e in r ==> e.company in companies && e == TithingFor(e.company, tithingLogs) by {
      forall e | e in r ensures e.company in companies && e == TithingFor(e.company, tithingLogs) {
        var i :| 0 <= i < |all| && all[i] == e;
      }
    }
    r
  }

  function TotalAmountOf(e: CompanyTithing): real { e.totalAmount }

  /** `grandTotal`: the sum of the listed companies' totals. */
  function GrandTotal(entries: seq<CompanyTithing>): real {
    Sum(entries, TotalAmountOf)
  }

  /** The company has at least one unpaid tithing log. */
  function HasUnpaidTithe(tithingLogs: seq<TithingLog>): Company -> bool {
    (c: Company) => exists t :: t in tithingLogs && Counts(t, c)
  }

  /** The listed companies are exactly those with an unpaid tithing log, in their original relative order. */
  lemma ListsCompaniesWithUnpaidTithes(companies: seq<Company>, tithingLogs: seq<TithingLog>)
    ensures TithingByCompany(companies, tithingLogs)
         == Map(Filter(companies, HasUnpaidTithe(tithingLogs)), EntryFor(tithingLogs))
  {
    var entry := EntryFor(tithingLogs);
    var listed := (c: Company) => HasEntries(entry(c));
    FilterOfMap(companies, entry, HasEntries, listed);
    FilterCongruent(companies, listed, HasUnpaidTithe(tithingLogs));
  }

  function Unpaid(t: TithingLog): bool { !Paid(t.isPaid) }

  /** Paid tithing logs affect nothing: the summary over the unpaid logs alone is the same. */
  lemma PaidLogsIgnored(companies: seq<Company>, tithingLogs: seq<TithingLog>)
    ensures TithingByCompany(companies, tithingLogs) == TithingByCompany(companies, Filter(tithingLogs, Unpaid))
  {
    var unpaid := Filter(tithingLogs, Unpaid);
    forall c | c in companies ensures EntryFor(tithingLogs)(c) == EntryFor(unpaid)(c) {
      FilterOfFilter(tithingLogs, CountsFor(c), Unpaid);
    }
    MapCongruent(companies, EntryFor(tithingLogs), EntryFor(unpaid));
  }

  /** Adding a paid tithing log changes no entry. */
  lemma PaidLogAddsNothing(companies: seq<Company>, tithingLogs: seq<TithingLog>, t: TithingLog)
    requires Paid(t.isPaid)
    ensures TithingByCompany(companies, tithingLogs + [t]) == TithingByCompany(companies, tithingLogs)
  {
    forall c | c in companies ensures EntryFor(tithingLogs + [t])(c) == EntryFor(tithingLogs)(c) {
      FilterConcat(tithingLogs, [t], CountsFor(c));
      assert Filter([t], CountsFor(c)) == [];
      assert Filter(tithingLogs, CountsFor(c)) + [] == Filter(tithingLogs, CountsFor(c));
    }
    MapCongruent(companies, EntryFor(tithingLogs + [t]), EntryFor(tithingLogs));
  }

  /** An unpaid tithing log of a company among `companies`. */
  function UnpaidListed(companies: seq<Company>): TithingLog -> bool {
    (t: TithingLog) => !Paid(t.isPaid) && t.companyId in CompanyIds(companies)
  }

  /**
    With unique company ids, the grand total is the sum of the amounts of all
    unpaid tithing logs whose company is listed.
  */
  lemma GrandTotalIsUnpaidTithes(companies: seq<Company>, tithingLogs: seq<TithingLog>)
    requires UniqueBy(companies, CompanyKey)
    ensures GrandTotal(TithingByCompany(companies, tithingLogs))
         == Sum(Filter(tithingLogs, UnpaidListed(companies)), Amount)
  {
    var all := Map(companies, EntryFor(tithingLogs));
    forall e | e in all && !HasEntries(e) ensures TotalAmountOf(e) == 0.0 {
      var i :| 0 <= i < |all| && all[i] == e;
    }
    FilterDropsZeros(all, HasEntries, TotalAmountOf);
    AllEntriesSumToUnpaidTithes(companies, tithingLogs);
  }

  lemma {:induction false} AllEntriesSumToUnpaidTithes(companies: seq<Company>, tithingLogs: seq<TithingLog>)
    requires UniqueBy(companies, CompanyKey)
    ensures Sum(Map(companies, EntryFor(tithingLogs)), TotalAmountOf)
         == Sum(Filter(tithingLogs, UnpaidListed(companies)), Amount)
  {
    if companies == [] {
      FilterKeepsNone(tithingLogs, UnpaidListed(companies));
    } else {
      var c, rest := companies[0], companies[1..];
      CompanyIdsCons(companies);
      AllEntriesSumToUnpaidTithes(rest, tithingLogs);
      var m := Map(companies, EntryFor(tithingLogs));
      assert m[0] == TithingFor(c, tithingLogs) && m[1..] == Map(rest, EntryFor(tithingLogs));
      FilterSumSplit(tithingLogs, UnpaidListed(companies), CountsFor(c), UnpaidListed(rest), Amount);
    }
  }

  /** With non-negative amounts, every total and the grand total are non-negative. */
  lemma TotalsNonNegative(companies: seq<Company>, tithingLogs: seq<TithingLog>)
    requires forall t :: t in tithingLogs ==> t.amount >= 0.0
    ensures forall e :: e in TithingByCompany(companies, tithingLogs) ==> e.totalAmount >= 0.0
    ensures GrandTotal(TithingByCompany(companies, tithingLogs)) >= 0.0
  {
    var r := TithingByCompany(companies, tithingLogs);
    forall e | e in r ensures e.totalAmount >= 0.0 {
      SumNonNegative(Filter(tithingLogs, CountsFor(e.company)), Amount);
    }
    SumNonNegative(r, TotalAmountOf);
  }
}

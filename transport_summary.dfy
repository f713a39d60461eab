/**
  The pending-transport summary: for each company, its unpaid transport logs,
  how many there are and the sum of their trip costs; companies without any
  unpaid trip are not listed.  Unlike work, a trip needs no time to elapse.
*/
module TransportSummary {
  import opened Seqs
  import opened Types
  import opened Schema

  /** A transport log counts for a company: it is the company's and it is unpaid. */
  predicate Counts(t: TransportLog, company: Company) {
    t.companyId == company.id && !Paid(t.isPaid)
  }

  function CountsFor(company: Company): TransportLog -> bool {
    (t: TransportLog) => Counts(t, company)
  }

  function TripCost(t: TransportLog): real { t.tripCost }

  datatype CompanyTransport = CompanyTransport(
    company: Company,
    totalTrips: nat,
    totalCost: real,
    logs: seq<TransportLog>)

  /** One company's entry, before the companies without trips are dropped. */
  function TransportFor(company: Company, transportLogs: seq<TransportLog>): (e: CompanyTransport)
    ensures e.company == company
    ensures forall t :: t in e.logs <==> t in transportLogs && t.companyId == company.id && !Paid(t.isPaid)
    ensures e.totalTrips == |e.logs| <= |transportLogs|
  {
    var logs := Filter(transportLogs, CountsFor(company));
    CompanyTransport(company, |logs|, Sum(logs, TripCost), logs)
  }

  function EntryFor(transportLogs: seq<TransportLog>): Company -> CompanyTransport {
    (c: Company) => TransportFor(c, transportLogs)
  }

  function HasTrips(e: CompanyTransport): bool { e.totalTrips > 0 }

  /** `transportByCompany`: the entries of the companies that have an unpaid trip. */
  function TransportByCompany(companies: seq<Company>, transportLogs: seq<TransportLog>): (r: seq<CompanyTransport>)
    ensures |r| <= |companies|
    ensures forall e :: e in r ==> e.totalTrips >= 1 && e.company in companies && e == TransportFor(e.company, transportLogs)
  {
    var all := Map(companies, EntryFor(transportLogs));
    var r := Filter(all, HasTrips);
    assert forall e :: e in r ==> e.company in companies && e == TransportFor(e.company, transportLogs) by {
      forall e | e in r ensures e.company in companies && e == TransportFor(e.company, transportLogs) {
        var i :| 0 <= i < |all| && all[i] == e;
      }
    }
    r
  }

  function TotalCostOf(e: CompanyTransport): real { e.totalCost }

  /** `grandTotal`: the sum of the listed companies' totals. */
  function GrandTotal(entries: seq<CompanyTransport>): real {
    Sum(entries, TotalCostOf)
  }

  /** The company has at least one unpaid transport log. */
  function HasUnpaidTrip(transportLogs: seq<TransportLog>): Company -> bool {
    (c: Company) => exists t :: t in transportLogs && Counts(t, c)
  }

  /**
    The listed companies are exactly those with an unpaid trip, in their
    original relative order, each with its own entry.
  */
  lemma ListsCompaniesWithUnpaidTrips(companies: seq<Company>, transportLogs: seq<TransportLog>)
    ensures TransportByCompany(companies, transportLogs)
         == Map(Filter(companies, HasUnpaidTrip(transportLogs)), EntryFor(transportLogs))
  {
    var entry := EntryFor(transportLogs);
    var listed := (c: Company) => HasTrips(entry(c));
    forall c | c in companies ensures listed(c) == HasUnpaidTrip(transportLogs)(c) {
      var e := TransportFor(c, transportLogs);
      if listed(c) {
        assert e.logs[0] in e.logs;
      }
    }
    FilterOfMap(companies, entry, HasTrips, listed);
    FilterCongruent(companies, listed, HasUnpaidTrip(transportLogs));
  }

  /** Adding a transport log adds its cost to a company's total exactly when it counts for it. */
  lemma TransportOfOneMoreLog(company: Company, transportLogs: seq<TransportLog>, t: TransportLog)
    ensures TransportFor(company, []) == CompanyTransport(company, 0, 0.0, [])
    ensures TransportFor(company, transportLogs + [t]).logs
         == TransportFor(company, transportLogs).logs + (if Counts(t, company) then [t] else [])
    ensures TransportFor(company, transportLogs + [t]).totalTrips
         == TransportFor(company, transportLogs).totalTrips + (if Counts(t, company) then 1 else 0)
    ensures TransportFor(company, transportLogs + [t]).totalCost
         == TransportFor(company, transportLogs).totalCost + (if Counts(t, company) then t.tripCost else 0.0)
  {
    var keep := CountsFor(company);
    FilterConcat(transportLogs, [t], keep);
    assert Filter([t], keep) == if Counts(t, company) then [t] else [];
    SumConcat(Filter(transportLogs, keep), Filter([t], keep), TripCost);
  }

  /** An unpaid transport log of a company among `companies`. */
  function UnpaidListed(companies: seq<Company>): TransportLog -> bool {
    (t: TransportLog) => !Paid(t.isPaid) && t.companyId in CompanyIds(companies)
  }

  /**
    With unique company ids, the grand total is the sum of the trip costs of
    all unpaid transport logs whose company is listed.
  */
  lemma GrandTotalIsUnpaidTrips(companies: seq<Company>, transportLogs: seq<TransportLog>)
    requires UniqueBy(companies, CompanyKey)
    ensures GrandTotal(TransportByCompany(companies, transportLogs))
         == Sum(Filter(transportLogs, UnpaidListed(companies)), TripCost)
  {
    var all := Map(companies, EntryFor(transportLogs));
    forall e | e in all && !HasTrips(e) ensures TotalCostOf(e) == 0.0 {
      var i :| 0 <= i < |all| && all[i] == e;
    }
    FilterDropsZeros(all, HasTrips, TotalCostOf);
    AllEntriesSumToUnpaidTrips(companies, transportLogs);
  }

  lemma {:induction false} AllEntriesSumToUnpaidTrips(companies: seq<Company>, transportLogs: seq<TransportLog>)
    requires UniqueBy(companies, CompanyKey)
    ensures Sum(Map(companies, EntryFor(transportLogs)), TotalCostOf)
         == Sum(Filter(transportLogs, UnpaidListed(companies)), TripCost)
  {
    if companies == [] {
      FilterKeepsNone(transportLogs, UnpaidListed(companies));
    } else {
      var c, rest := companies[0], companies[1..];
      CompanyIdsCons(companies);
      AllEntriesSumToUnpaidTrips(rest, transportLogs);
      var m := Map(companies, EntryFor(transportLogs));
      assert m[0] == TransportFor(c, transportLogs) && m[1..] == Map(rest, EntryFor(transportLogs));
      FilterSumSplit(transportLogs, UnpaidListed(companies), CountsFor(c), UnpaidListed(rest), TripCost);
    }
  }

  /** With non-negative trip costs, every total and the grand total are non-negative. */
  lemma TotalsNonNegative(companies: seq<Company>, transportLogs: seq<TransportLog>)
    requires forall t :: t in transportLogs ==> t.tripCost >= 0.0
    ensures forall e :: e in TransportByCompany(companies, transportLogs) ==> e.totalCost >= 0.0
    ensures GrandTotal(TransportByCompany(companies, transportLogs)) >= 0.0
  {
    var r := TransportByCompany(companies, transportLogs);
    forall e | e in r ensures e.totalCost >= 0.0 {
      SumNonNegative(e.logs, TripCost);
    }
    SumNonNegative(r, TotalCostOf);
  }
}

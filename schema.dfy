/**
  The database tables' declarative rules: primary keys, the company reference
  of a work log (with its cascade on delete, modelled in `Collections`) and
  the column defaults applied on insert.
*/
module Schema {
  import opened Optional
  import opened Seqs
  import opened Types

  function CompanyKey(c: Company): Id { c.id }
  function WorkLogKey(l: WorkLog): Id { l.id }
  function TransportKey(t: TransportLog): Id { t.id }
  function TithingKey(t: TithingLog): Id { t.id }

  function CompanyIds(companies: seq<Company>): (ids: seq<Id>)
    ensures |ids| == |companies|
    ensures forall c :: c in companies ==> c.id in ids
    ensures forall id :: id in ids ==> exists c :: c in companies && c.id == id
  {
    var ids := Map(companies, CompanyKey);
    assert forall c :: c in companies ==> c.id in ids by {
      forall c | c in companies ensures c.id in ids {
        var i :| 0 <= i < |companies| && companies[i] == c;
        assert ids[i] == c.id;
      }
    }
    ids
  }

  /** The ids of a non-empty company list: the first company's and those of the rest, which with unique keys differ from it. */
  lemma CompanyIdsCons(companies: seq<Company>)
    requires companies != []
    ensures forall id :: id in CompanyIds(companies) <==> id == companies[0].id || id in CompanyIds(companies[1..])
    ensures UniqueBy(companies, CompanyKey) ==> companies[0].id !in CompanyIds(companies[1..]) && UniqueBy(companies[1..], CompanyKey)
  {
    var rest := companies[1..];
    assert Map(companies, CompanyKey)[1..] == Map(rest, CompanyKey);
    if UniqueBy(companies, CompanyKey) {
      forall d | d in rest ensures d.id != companies[0].id {
        var j :| 0 <= j < |rest| && rest[j] == d;
        assert companies[j + 1] == d;
      }
      forall i, j | 0 <= i < j < |rest| ensures CompanyKey(rest[i]) != CompanyKey(rest[j]) {
        assert rest[i] == companies[i + 1] && rest[j] == companies[j + 1];
      }
    }
  }

  /** Every work log names an existing company (the foreign key `company_id`). */
  ghost predicate References(logs: seq<WorkLog>, companies: seq<Company>) {
    forall l :: l in logs ==> l.companyId in CompanyIds(companies)
  }

  /**
    A work-log row as inserted: an absent `is_paid` takes the column default
    `false`; every other field is stored as given.
  */
  function InsertedWorkLog(data: WorkLog): (row: WorkLog)
    ensures row.isPaid.Some? && Paid(row.isPaid) == Paid(data.isPaid)
    ensures data.isPaid.Some? ==> row == data
    ensures row.(isPaid := data.isPaid) == data
  {
    data.(isPaid := Some(data.isPaid.GetOr(false)))
  }

  /**
    The store's tables obey their keys: company, work-log, transport-log and
    tithing-log ids are unique, every work log references a company and has a
    stored paid flag.
  */
  ghost predicate TablesValid(
    companies: seq<Company>, workLogs: seq<WorkLog>,
    transportLogs: seq<TransportLog>, tithingLogs: seq<TithingLog>)
  {
    && UniqueBy(companies, CompanyKey)
    && UniqueBy(workLogs, WorkLogKey)
    && References(workLogs, companies)
    && (forall l :: l in workLogs ==> l.isPaid.Some?)
    && UniqueBy(transportLogs, TransportKey)
    && UniqueBy(tithingLogs, TithingKey)
  }
}

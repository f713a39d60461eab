/**
  The list transitions the application performs on its in-memory collections
  (and, for paying and cascading, on its tables): placing a work log in its
  calendar slot, removing by id, dropping a company together with its work
  logs, and setting the paid flag on every log of a company.
*/
module Collections {
  import opened Optional
  import opened Seqs
  import opened Types
  import opened Schema

  /** The calendar slot a work log occupies: its date key and hour. */
  function SlotOf(l: WorkLog): (string, int) { (l.date, l.hour) }

  function AtSlot(date: string, hour: int): WorkLog -> bool {
    (l: WorkLog) => SlotOf(l) == (date, hour)
  }

  function OutsideSlot(date: string, hour: int): WorkLog -> bool {
    (l: WorkLog) => SlotOf(l) != (date, hour)
  }

  /**
    `[...workLogs.filter(l => !(l.date === log.date && l.hour === log.hour)), log]`:
    `log` becomes the one log of its slot; every log of another slot stays, in order.
  */
  function PlaceLog(logs: seq<WorkLog>, log: WorkLog): (r: seq<WorkLog>)
    ensures Filter(r, AtSlot(log.date, log.hour)) == [log]
    ensures Filter(r, OutsideSlot(log.date, log.hour)) == Filter(logs, OutsideSlot(log.date, log.hour))
    ensures forall l :: SlotOf(l) != SlotOf(log) ==> (l in r <==> l in logs)
    ensures |r| <= |logs| + 1
  {
    var others := Filter(logs, OutsideSlot(log.date, log.hour));
    FilterConcat(others, [log], AtSlot(log.date, log.hour));
    FilterConcat(others, [log], OutsideSlot(log.date, log.hour));
    FilterKeepsNone(others, AtSlot(log.date, log.hour));
    FilterKeepsAll(others, OutsideSlot(log.date, log.hour));
    assert Filter([log], AtSlot(log.date, log.hour)) == [log];
    assert Filter([log], OutsideSlot(log.date, log.hour)) == [];
    others + [log]
  }

  /** Placing a log keeps the one-log-per-slot invariant. */
  lemma PlaceLogKeepsSlotsUnique(logs: seq<WorkLog>, log: WorkLog)
    requires UniqueBy(logs, SlotOf)
    ensures UniqueBy(PlaceLog(logs, log), SlotOf)
  {
    var others := Filter(logs, OutsideSlot(log.date, log.hour));
    FilterUniqueBy(logs, OutsideSlot(log.date, log.hour), SlotOf);
    AppendUniqueBy(others, log, SlotOf);
  }

  function WithoutId(id: Id): WorkLog -> bool {
    (l: WorkLog) => l.id != id
  }

  /** `workLogs.filter(l => l.id !== logId)`: every log with that id goes, all others stay in order. */
  function RemoveLog(logs: seq<WorkLog>, id: Id): (r: seq<WorkLog>)
    ensures forall l :: l in r <==> l in logs && l.id != id
    ensures (forall l :: l in logs ==> l.id != id) ==> r == logs
    ensures UniqueBy(logs, SlotOf) ==> UniqueBy(r, SlotOf)
    ensures UniqueBy(logs, WorkLogKey) ==> UniqueBy(r, WorkLogKey)
  {
    var r := Filter(logs, WithoutId(id));
    FilterUniqueBy(logs, WithoutId(id), SlotOf);
    FilterUniqueBy(logs, WithoutId(id), WorkLogKey);
    FilterKeepsAll(logs, WithoutId(id));
    r
  }

  /**
    Removing by id works element by element: on a concatenation it removes
    from each part, and a single log stays exactly when its id differs.  So
    the logs kept stay in their order and with their repetitions.
  */
  lemma RemoveLogPiecewise(a: seq<WorkLog>, b: seq<WorkLog>, l: WorkLog, id: Id)
    ensures RemoveLog([], id) == []
    ensures RemoveLog([l], id) == if l.id == id then [] else [l]
    ensures RemoveLog(a + b, id) == RemoveLog(a, id) + RemoveLog(b, id)
  {
    FilterConcat(a, b, WithoutId(id));
  }

  function NotOfCompany(companyId: Id): WorkLog -> bool {
    (l: WorkLog) => l.companyId != companyId
  }

  /** `workLogs.filter(l => l.companyId !== id)`: the work logs that survive deleting company `id`. */
  function LogsOfOtherCompanies(logs: seq<WorkLog>, companyId: Id): (r: seq<WorkLog>)
    ensures forall l :: l in r <==> l in logs && l.companyId != companyId
    ensures UniqueBy(logs, SlotOf) ==> UniqueBy(r, SlotOf)
    ensures UniqueBy(logs, WorkLogKey) ==> UniqueBy(r, WorkLogKey)
  {
    var r := Filter(logs, NotOfCompany(companyId));
    FilterUniqueBy(logs, NotOfCompany(companyId), SlotOf);
    FilterUniqueBy(logs, NotOfCompany(companyId), WorkLogKey);
    r
  }

  /** Deleting a company's logs keeps the other logs in their order, part by part. */
  lemma LogsOfOtherCompaniesPiecewise(a: seq<WorkLog>, b: seq<WorkLog>, l: WorkLog, companyId: Id)
    ensures LogsOfOtherCompanies([], companyId) == []
    ensures LogsOfOtherCompanies([l], companyId) == if l.companyId == companyId then [] else [l]
    ensures LogsOfOtherCompanies(a + b, companyId) == LogsOfOtherCompanies(a, companyId) + LogsOfOtherCompanies(b, companyId)
  {
    FilterConcat(a, b, NotOfCompany(companyId));
  }

  function OtherCompany(id: Id): Company -> bool {
    (c: Company) => c.id != id
  }

  /** `companies.filter(c => c.id !== id)`. */
  function RemoveCompany(companies: seq<Company>, id: Id): (r: seq<Company>)
    ensures forall c :: c in r <==> c in companies && c.id != id
    ensures UniqueBy(companies, CompanyKey) ==> UniqueBy(r, CompanyKey)
  {
    var r := Filter(companies, OtherCompany(id));
    FilterUniqueBy(companies, OtherCompany(id), CompanyKey);
    r
  }

  /** Deleting a company keeps the other companies in their order, part by part. */
  lemma RemoveCompanyPiecewise(a: seq<Company>, b: seq<Company>, c: Company, id: Id)
    ensures RemoveCompany([], id) == []
    ensures RemoveCompany([c], id) == if c.id == id then [] else [c]
    ensures RemoveCompany(a + b, id) == RemoveCompany(a, id) + RemoveCompany(b, id)
  {
    FilterConcat(a, b, OtherCompany(id));
  }

  /**
    Deleting a company and, with it, its work logs (the `on delete cascade` of
    `company_id`) leaves no log referring to a missing company.
  */
  lemma CascadeKeepsReferences(companies: seq<Company>, logs: seq<WorkLog>, id: Id)
    requires References(logs, companies)
    ensures References(LogsOfOtherCompanies(logs, id), RemoveCompany(companies, id))
  {
    var cs := RemoveCompany(companies, id);
    forall l | l in LogsOfOtherCompanies(logs, id) ensures l.companyId in CompanyIds(cs) {
      assert l.companyId in CompanyIds(companies);
      var c :| c in companies && c.id == l.companyId;
      assert c in cs;
    }
  }

  function Replacing(updated: Company): Company -> Company {
    (c: Company) => if c.id == updated.id then updated else c
  }

  /** `companies.map(c => c.id === updated.id ? updated : c)`: same length and order, matching entries replaced. */
  function ReplaceCompany(companies: seq<Company>, updated: Company): (r: seq<Company>)
    ensures |r| == |companies|
    ensures forall i :: 0 <= i < |r| ==> r[i] == (if companies[i].id == updated.id then updated else companies[i])
    ensures UniqueBy(companies, CompanyKey) ==> UniqueBy(r, CompanyKey)
  {
    var r := Map(companies, Replacing(updated));
    MapUniqueBy(companies, Replacing(updated), CompanyKey);
    r
  }

  function PayIfOf(companyId: Id): WorkLog -> WorkLog {
    (l: WorkLog) => if l.companyId == companyId then l.(isPaid := Some(true)) else l
  }

  /**
    `workLogs.map(log => log.companyId === companyId ? { ...log, isPaid: true } : log)`,
    and the store's `update ... set is_paid = true where company_id = ...`: every log
    of the company is paid afterwards, whatever its flag was, and no other log changes.
  */
  function PayCompanyLogs(logs: seq<WorkLog>, companyId: Id): (r: seq<WorkLog>)
    ensures |r| == |logs|
    ensures forall i :: 0 <= i < |r| ==> SlotOf(r[i]) == SlotOf(logs[i]) && r[i].id == logs[i].id && r[i].companyId == logs[i].companyId
    ensures forall i :: 0 <= i < |r| && logs[i].companyId == companyId ==> Paid(r[i].isPaid) && r[i] == logs[i].(isPaid := Some(true))
    ensures forall i :: 0 <= i < |r| && logs[i].companyId != companyId ==> r[i] == logs[i]
    ensures UniqueBy(logs, SlotOf) ==> UniqueBy(r, SlotOf)
    ensures UniqueBy(logs, WorkLogKey) ==> UniqueBy(r, WorkLogKey)
  {
    var r := Map(logs, PayIfOf(companyId));
    MapUniqueBy(logs, PayIfOf(companyId), SlotOf);
    MapUniqueBy(logs, PayIfOf(companyId), WorkLogKey);
    r
  }

  /** Paying a company twice is paying it once. */
  lemma PayCompanyLogsIdempotent(logs: seq<WorkLog>, companyId: Id)
    ensures PayCompanyLogs(PayCompanyLogs(logs, companyId), companyId) == PayCompanyLogs(logs, companyId)
  {
    var once := PayCompanyLogs(logs, companyId);
    var twice := PayCompanyLogs(once, companyId);
    assert forall i :: 0 <= i < |twice| ==> twice[i] == once[i];
  }

  function PayTransportIfOf(companyId: Id): TransportLog -> TransportLog {
    (t: TransportLog) => if t.companyId == companyId then t.(isPaid := Some(true)) else t
  }

  /** The store's `update transport_logs set is_paid = true where company_id = ...`. */
  function PayCompanyTransport(logs: seq<TransportLog>, companyId: Id): (r: seq<TransportLog>)
    ensures |r| == |logs|
    ensures forall i :: 0 <= i < |r| ==> r[i].id == logs[i].id && r[i].workLogId == logs[i].workLogId && r[i].companyId == logs[i].companyId
    ensures forall i :: 0 <= i < |r| && logs[i].companyId == companyId ==> Paid(r[i].isPaid) && r[i] == logs[i].(isPaid := Some(true))
    ensures forall i :: 0 <= i < |r| && logs[i].companyId != companyId ==> r[i] == logs[i]
    ensures UniqueBy(logs, TransportKey) ==> UniqueBy(r, TransportKey)
  {
    var r := Map(logs, PayTransportIfOf(companyId));
    MapUniqueBy(logs, PayTransportIfOf(companyId), TransportKey);
    r
  }

  lemma PayCompanyTransportIdempotent(logs: seq<TransportLog>, companyId: Id)
    ensures PayCompanyTransport(PayCompanyTransport(logs, companyId), companyId) == PayCompanyTransport(logs, companyId)
  {
    var once := PayCompanyTransport(logs, companyId);
    var twice := PayCompanyTransport(once, companyId);
    assert forall i :: 0 <= i < |twice| ==> twice[i] == once[i];
  }
}

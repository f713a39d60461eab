/**
  The server actions over the store's four tables.  Each table is a sequence
  of rows; a primary-key clash and a work log naming a missing company are
  the store's errors.  An update writes only the fields the given record
  carries: an absent optional field keeps the stored value.
*/
module Actions {
  import opened Optional
  import opened Seqs
  import opened Types
  import opened Schema
  import opened Collections

  datatype DbError = DuplicateKey | UnknownCompany

  datatype Result<T> = Ok(value: T) | Err(error: DbError)

  /** An update's treatment of an optional field: a given value is written, an absent one leaves the stored value. */
  function Overlay<T>(given: Option<T>, stored: Option<T>): Option<T> {
    if given.Some? then given else stored
  }

  // ---------------------------------------------------------------- companies

  /** `update companies set <data>`: a stored colour survives an update without one. */
  function MergeCompany(row: Company, data: Company): Company {
    data.(color := Overlay(data.color, row.color))
  }

  function MergeCompanyIfSame(data: Company): Company -> Company {
    (c: Company) => if c.id == data.id then MergeCompany(c, data) else c
  }

  /** `updateCompanyAction`: the row with the record's id takes its fields; no row, no change. */
  function UpdateCompanyRows(rows: seq<Company>, data: Company): (r: seq<Company>)
    ensures |r| == |rows|
    ensures forall i :: 0 <= i < |r| && rows[i].id != data.id ==> r[i] == rows[i]
    ensures forall i :: 0 <= i < |r| && rows[i].id == data.id ==>
      r[i].id == data.id && r[i].name == data.name && r[i].locationLink == data.locationLink
      && r[i].hourlyRate == data.hourlyRate && r[i].color == (if data.color.Some? then data.color else rows[i].color)
    ensures CompanyIds(r) == CompanyIds(rows)
  {
    var r := Map(rows, MergeCompanyIfSame(data));
    assert Map(r, CompanyKey) == Map(rows, CompanyKey);
    r
  }

  // ---------------------------------------------------------------- work logs

  function HasId(id: Id): WorkLog -> bool {
    (l: WorkLog) => l.id == id
  }

  /** `update work_logs set <data>`: a stored paid flag and rate snapshot survive an update without them. */
  function MergeWorkLog(row: WorkLog, data: WorkLog): WorkLog {
    data.(isPaid := Overlay(data.isPaid, row.isPaid),
          hourlyRateSnapshot := Overlay(data.hourlyRateSnapshot, row.hourlyRateSnapshot))
  }

  function MergeWorkLogIfSame(data: WorkLog): WorkLog -> WorkLog {
    (l: WorkLog) => if l.id == data.id then MergeWorkLog(l, data) else l
  }

  /**
    `createOrUpdateWorkLogAction`: with a stored row of the same id, that row
    takes the record's fields; otherwise the record is inserted with the
    paid-flag default.  Only the id is looked at, never the slot.  A company
    id that names no company is refused.
  */
  function UpsertWorkLog(rows: seq<WorkLog>, companies: seq<Company>, data: WorkLog): (r: Result<seq<WorkLog>>)
    ensures r.Err? <==> data.companyId !in CompanyIds(companies)
    ensures r.Err? ==> r.error == UnknownCompany
    ensures r.Ok? && (exists l :: l in rows && l.id == data.id) ==>
      |r.value| == |rows| &&
      forall i :: 0 <= i < |rows| ==> r.value[i] == (if rows[i].id == data.id then MergeWorkLog(rows[i], data) else rows[i])
    ensures r.Ok? && (forall l :: l in rows ==> l.id != data.id) ==> r.value == rows + [InsertedWorkLog(data)]
  {
    if data.companyId !in CompanyIds(companies) then Err(UnknownCompany)
    else if exists l :: l in rows && l.id == data.id then Ok(Map(rows, MergeWorkLogIfSame(data)))
    else Ok(rows + [InsertedWorkLog(data)])
  }

  /**
    The upsert keeps the tables valid, grows the work-log table by at most one
    row, and afterwards the table holds a row with the record's id, date, hour
    and company.
  */
  lemma UpsertWorkLogKeepsTablesValid(
    companies: seq<Company>, rows: seq<WorkLog>, transportLogs: seq<TransportLog>, tithingLogs: seq<TithingLog>, data: WorkLog)
    requires TablesValid(companies, rows, transportLogs, tithingLogs)
    ensures var r := UpsertWorkLog(rows, companies, data);
            r.Ok? ==> && TablesValid(companies, r.value, transportLogs, tithingLogs)
                      && |rows| <= |r.value| <= |rows| + 1
                      && exists l :: l in r.value && l.id == data.id && SlotOf(l) == SlotOf(data) && l.companyId == data.companyId
  {
    var r := UpsertWorkLog(rows, companies, data);
    if r.Ok? {
      if exists l :: l in rows && l.id == data.id {
        UpdatedWorkLogRowsValid(companies, rows, data);
      } else {
        AppendUniqueBy(rows, InsertedWorkLog(data), WorkLogKey);
        assert r.value[|rows|] in r.value;
      }
    }
  }

  lemma UpdatedWorkLogRowsValid(companies: seq<Company>, rows: seq<WorkLog>, data: WorkLog)
    requires UniqueBy(rows, WorkLogKey) && References(rows, companies) && forall l :: l in rows ==> l.isPaid.Some?
    requires data.companyId in CompanyIds(companies)
    requires exists l :: l in rows && l.id == data.id
    ensures var after := Map(rows, MergeWorkLogIfSame(data));
            && UniqueBy(after, WorkLogKey) && References(after, companies) && (forall l :: l in after ==> l.isPaid.Some?)
            && exists l :: l in after && l.id == data.id && SlotOf(l) == SlotOf(data) && l.companyId == data.companyId
  {
    var after := Map(rows, MergeWorkLogIfSame(data));
    var l :| l in rows && l.id == data.id;
    var i :| 0 <= i < |rows| && rows[i] == l;
    assert after[i] == MergeWorkLog(rows[i], data);
    assert after[i] in after;
    MapUniqueBy(rows, MergeWorkLogIfSame(data), WorkLogKey);
    MergedRowsValid(companies, rows, data);
  }

  /** Every row the update leaves keeps a stored paid flag and refers to a company. */
  lemma MergedRowsValid(companies: seq<Company>, rows: seq<WorkLog>, data: WorkLog)
    requires References(rows, companies) && forall l :: l in rows ==> l.isPaid.Some?
    requires data.companyId in CompanyIds(companies)
    ensures var after := Map(rows, MergeWorkLogIfSame(data));
            References(after, companies) && forall l :: l in after ==> l.isPaid.Some?
  {
    var after := Map(rows, MergeWorkLogIfSame(data));
    forall m | m in after ensures m.isPaid.Some? && m.companyId in CompanyIds(companies) {
      var k :| 0 <= k < |after| && after[k] == m;
      assert rows[k] in rows;
      if rows[k].id == data.id {
        assert m == MergeWorkLog(rows[k], data);
      } else {
        assert m == rows[k];
      }
    }
  }

  /**
    Upserting the same record twice is upserting it once: the second call
    finds the row the first one wrote and writes the same fields again.
  */
  lemma UpsertWorkLogIdempotent(rows: seq<WorkLog>, companies: seq<Company>, data: WorkLog)
    requires UpsertWorkLog(rows, companies, data).Ok?
    ensures UpsertWorkLog(UpsertWorkLog(rows, companies, data).value, companies, data) == UpsertWorkLog(rows, companies, data)
  {
    var once := UpsertWorkLog(rows, companies, data).value;
    if !exists l :: l in rows && l.id == data.id {
      assert once[|rows|] in once;
    }
    assert exists l :: l in once && l.id == data.id;
    var twice := UpsertWorkLog(once, companies, data).value;
    assert |twice| == |once|;
    forall i | 0 <= i < |once| ensures twice[i] == once[i] {
      if once[i].id == data.id {
        if i < |rows| {
          assert rows[i].id == data.id;
        }
      }
    }
    assert twice == once;
  }

  /**
    The store does not guard the slot: a record with a new id for a slot that
    already holds a log leaves two rows in that slot.
  */
  lemma FreshIdInOccupiedSlot(rows: seq<WorkLog>, companies: seq<Company>, data: WorkLog, occupant: WorkLog)
    requires occupant in rows && SlotOf(occupant) == SlotOf(data)
    requires forall l :: l in rows ==> l.id != data.id
    requires data.companyId in CompanyIds(companies)
    ensures var r := UpsertWorkLog(rows, companies, data).value;
            && occupant in r && InsertedWorkLog(data) in r
            && occupant != InsertedWorkLog(data) && SlotOf(occupant) == SlotOf(InsertedWorkLog(data))
  {
    var r := UpsertWorkLog(rows, companies, data).value;
    assert r[|rows|] == InsertedWorkLog(data);
  }

  /** With unique ids, deleting an existing id removes exactly one row. */
  lemma {:induction false} DeleteRemovesOneRow(rows: seq<WorkLog>, id: Id)
    requires UniqueBy(rows, WorkLogKey)
    requires exists l :: l in rows && l.id == id
    ensures |Collections.RemoveLog(rows, id)| == |rows| - 1
  {
    var rest := rows[1..];
    var keep := WithoutId(id);
    assert rows == [rows[0]] + rest;
    if rows[0].id == id {
      forall l | l in rest ensures keep(l) {
        var k :| 0 <= k < |rest| && rest[k] == l;
        assert rows[k + 1] == l;
      }
      FilterKeepsAll(rest, keep);
    } else {
      assert UniqueBy(rest, WorkLogKey) by {
        forall i, j | 0 <= i < j < |rest| ensures WorkLogKey(rest[i]) != WorkLogKey(rest[j]) {
          assert rest[i] == rows[i + 1] && rest[j] == rows[j + 1];
        }
      }
      var l :| l in rows && l.id == id;
      assert l in rest;
      DeleteRemovesOneRow(rest, id);
    }
  }

  /** Deleting a company and, by the cascade, its work logs keeps the tables valid. */
  lemma DeleteCompanyKeepsTablesValid(
    companies: seq<Company>, workLogs: seq<WorkLog>, transportLogs: seq<TransportLog>, tithingLogs: seq<TithingLog>, id: Id)
    requires TablesValid(companies, workLogs, transportLogs, tithingLogs)
    ensures TablesValid(RemoveCompany(companies, id), LogsOfOtherCompanies(workLogs, id), transportLogs, tithingLogs)
  {
    CascadeKeepsReferences(companies, workLogs, id);
  }

  // ---------------------------------------------------------------- transport logs

  /** A transport log tied to a work log: a present, non-empty work-log id (the truthiness test). */
  predicate Linked(t: TransportLog) {
    t.workLogId.Some? && t.workLogId.value != ""
  }

  function ForWorkLog(workLogId: Option<Id>): TransportLog -> bool {
    (t: TransportLog) => t.workLogId == workLogId
  }

  /** `update transport_logs set <data>`: stored optional fields survive an update without them. */
  function MergeTransportLog(row: TransportLog, data: TransportLog): TransportLog {
    data.(workLogId := Overlay(data.workLogId, row.workLogId),
          description := Overlay(data.description, row.description),
          isPaid := Overlay(data.isPaid, row.isPaid))
  }

  function MergeTransportLogIfSame(data: TransportLog): TransportLog -> TransportLog {
    (t: TransportLog) => if t.id == data.id then MergeTransportLog(t, data) else t
  }

  /** `updateTransportLogAction`: the row with the record's id takes its fields. */
  function UpdateTransportRows(rows: seq<TransportLog>, data: TransportLog): (r: seq<TransportLog>)
    ensures |r| == |rows|
    ensures forall i :: 0 <= i < |r| && rows[i].id != data.id ==> r[i] == rows[i]
    ensures forall i :: 0 <= i < |r| && rows[i].id == data.id ==>
      r[i].id == data.id && r[i].tripCost == data.tripCost && r[i].date == data.date && r[i].companyId == data.companyId
      && r[i].workLogId == Overlay(data.workLogId, rows[i].workLogId)
      && r[i].description == Overlay(data.description, rows[i].description)
      && r[i].isPaid == Overlay(data.isPaid, rows[i].isPaid)
    ensures UniqueBy(rows, TransportKey) ==> UniqueBy(r, TransportKey)
  {
    var r := Map(rows, MergeTransportLogIfSame(data));
    MapUniqueBy(rows, MergeTransportLogIfSame(data), TransportKey);
    r
  }

  /** The fields `createOrUpdateTransportLogAction` writes over an existing trip of the same work log. */
  function RetargetTrip(row: TransportLog, data: TransportLog): TransportLog {
    row.(tripCost := data.tripCost,
         description := Overlay(data.description, row.description),
         companyId := data.companyId,
         date := data.date)
  }

  function RetargetIfId(id: Id, data: TransportLog): TransportLog -> TransportLog {
    (t: TransportLog) => if t.id == id then RetargetTrip(t, data) else t
  }

  /** Inserting a row refuses an id already taken. */
  function InsertTransport(rows: seq<TransportLog>, data: TransportLog): (r: Result<seq<TransportLog>>)
    ensures r.Err? <==> exists t :: t in rows && t.id == data.id
    ensures r.Err? ==> r.error == DuplicateKey
    ensures r.Ok? ==> r.value == rows + [data]
  {
    if exists t :: t in rows && t.id == data.id then Err(DuplicateKey) else Ok(rows + [data])
  }

  /**
    `createOrUpdateTransportLogAction`: for a record tied to a work log that
    already has a trip, the first such trip takes the record's cost,
    description (when given), company and date and keeps its id, work-log id
    and paid flag, and its id is returned; otherwise the record is inserted
    and its own id returned.
  */
  function UpsertTransportLog(rows: seq<TransportLog>, data: TransportLog): (r: Result<(seq<TransportLog>, Id)>)
    // update path: the first trip of the work log is retargeted, every other row stays
    ensures Linked(data) && (exists t :: t in rows && t.workLogId == data.workLogId) ==>
      && r.Ok? && |r.value.0| == |rows|
      && (exists k :: 0 <= k < |rows| && rows[k].workLogId == data.workLogId && rows[k].id == r.value.1
                       && forall j :: 0 <= j < k ==> rows[j].workLogId != data.workLogId)
      && forall i :: 0 <= i < |rows| ==>
           var (before, after) := (rows[i], r.value.0[i]);
           if before.id != r.value.1 then after == before
           else && after.id == before.id && after.workLogId == before.workLogId && after.isPaid == before.isPaid
                && after.tripCost == data.tripCost && after.companyId == data.companyId && after.date == data.date
                && after.description == Overlay(data.description, before.description)
    // insert path: the record is appended unless its id is taken
    ensures !(Linked(data) && exists t :: t in rows && t.workLogId == data.workLogId) ==>
      && (r.Err? <==> exists t :: t in rows && t.id == data.id)
      && (r.Err? ==> r.error == DuplicateKey)
      && (r.Ok? ==> r.value == (rows + [data], data.id))
  {
    var found := Find(rows, ForWorkLog(data.workLogId));
    if Linked(data) && found.Some? then
      var existing := found.value;
      Ok((Map(rows, RetargetIfId(existing.id, data)), existing.id))
    else
      assert found.None? ==> forall t :: t in rows ==> t.workLogId != data.workLogId;
      match InsertTransport(rows, data)
      case Ok(inserted) => Ok((inserted, data.id))
      case Err(e) => Err(e)
  }

  /** No two trips are tied to the same work log. */
  ghost predicate AtMostOnePerWorkLog(rows: seq<TransportLog>) {
    forall i, j :: 0 <= i < j < |rows| && Linked(rows[i]) ==> rows[i].workLogId != rows[j].workLogId
  }

  /**
    The transport upsert keeps ids unique and at most one trip per work log,
    never drops a row, and returns the id of a row of the new table.
  */
  lemma UpsertTransportLogKeepsOnePerWorkLog(rows: seq<TransportLog>, data: TransportLog)
    requires UniqueBy(rows, TransportKey)
    ensures var r := UpsertTransportLog(rows, data);
            r.Ok? ==> && UniqueBy(r.value.0, TransportKey)
                      && (AtMostOnePerWorkLog(rows) ==> AtMostOnePerWorkLog(r.value.0))
                      && |r.value.0| >= |rows|
                      && exists t :: t in r.value.0 && t.id == r.value.1
  {
    var r := UpsertTransportLog(rows, data);
    if r.Ok? {
      var (after, id) := r.value;
      if Linked(data) && exists t :: t in rows && t.workLogId == data.workLogId {
        RetargetKeepsOnePerWorkLog(rows, data);
        var k :| 0 <= k < |rows| && rows[k].workLogId == data.workLogId && rows[k].id == id;
        assert after[k].id == id;
        assert after[k] in after;
      } else {
        InsertKeepsOnePerWorkLog(rows, data);
        assert after[|rows|] in after;
      }
    }
  }

  /** Retargeting a trip changes no id and no work-log id, so both invariants survive. */
  lemma RetargetKeepsOnePerWorkLog(rows: seq<TransportLog>, data: TransportLog)
    requires UniqueBy(rows, TransportKey)
    requires Linked(data) && exists t :: t in rows && t.workLogId == data.workLogId
    ensures var after := UpsertTransportLog(rows, data).value.0;
            UniqueBy(after, TransportKey) && (AtMostOnePerWorkLog(rows) ==> AtMostOnePerWorkLog(after))
  {
    var after := UpsertTransportLog(rows, data).value.0;
    forall i | 0 <= i < |after| ensures after[i].id == rows[i].id && after[i].workLogId == rows[i].workLogId {
    }
  }

  /** Appending a trip with a new id and no trip yet for its work log keeps both invariants. */
  lemma InsertKeepsOnePerWorkLog(rows: seq<TransportLog>, data: TransportLog)
    requires UniqueBy(rows, TransportKey)
    requires !(Linked(data) && exists t :: t in rows && t.workLogId == data.workLogId)
    requires forall t :: t in rows ==> t.id != data.id
    ensures UniqueBy(rows + [data], TransportKey)
    ensures AtMostOnePerWorkLog(rows) ==> AtMostOnePerWorkLog(rows + [data])
  {
    var after := rows + [data];
    AppendUniqueBy(rows, data, TransportKey);
    if AtMostOnePerWorkLog(rows) {
      forall i, j | 0 <= i < j < |after| && Linked(after[i]) ensures after[i].workLogId != after[j].workLogId {
        if j == |rows| {
          assert after[i] == rows[i] && rows[i] in rows;
        } else {
          assert after[i] == rows[i] && after[j] == rows[j];
        }
      }
    }
  }

  /** The update path of the transport upsert, as the store runs it. */
  lemma UpsertTransportLogRetargets(rows: seq<TransportLog>, data: TransportLog, existing: TransportLog)
    requires Linked(data) && Find(rows, ForWorkLog(data.workLogId)) == Some(existing)
    ensures UpsertTransportLog(rows, data) == Ok((Map(rows, RetargetIfId(existing.id, data)), existing.id))
  {
  }

  /** The insert path of the transport upsert, as the store runs it. */
  lemma UpsertTransportLogInserts(rows: seq<TransportLog>, data: TransportLog)
    requires !(Linked(data) && Find(rows, ForWorkLog(data.workLogId)).Some?)
    ensures UpsertTransportLog(rows, data)
         == if exists t :: t in rows && t.id == data.id then Err(DuplicateKey) else Ok((rows + [data], data.id))
  {
  }

  // ---------------------------------------------------------------- the store

  /** The store's tables. */
  class Database {
    var companies: seq<Company>
    var workLogs: seq<WorkLog>
    var transportLogs: seq<TransportLog>
    var tithingLogs: seq<TithingLog>

    ghost predicate Valid()
      reads this
    {
      TablesValid(companies, workLogs, transportLogs, tithingLogs)
    }

    /** An empty store. */
    constructor()
      ensures Valid()
      ensures companies == [] && workLogs == [] && transportLogs == [] && tithingLogs == []
    {
      companies, workLogs, transportLogs, tithingLogs := [], [], [], [];
    }

    /** `createCompanyAction`: insert, refusing a taken id. */
    method CreateCompany(data: Company) returns (r: Result<()>)
      requires Valid()
      modifies this
      ensures Valid()
      ensures r.Err? <==> data.id in CompanyIds(old(companies))
      ensures r.Err? ==> r.error == DuplicateKey && companies == old(companies)
      ensures r.Ok? ==> companies == old(companies) + [data]
      ensures workLogs == old(workLogs) && transportLogs == old(transportLogs) && tithingLogs == old(tithingLogs)
    {
      if data.id in CompanyIds(companies) {
        return Err(DuplicateKey);
      }
      AppendUniqueBy(companies, data, CompanyKey);
      assert forall c :: c in companies ==> c in companies + [data];
      companies := companies + [data];
      return Ok(());
    }

    /** `updateCompanyAction`. */
    method UpdateCompany(data: Company)
      requires Valid()
      modifies this
      ensures Valid()
      ensures companies == UpdateCompanyRows(old(companies), data)
      ensures workLogs == old(workLogs) && transportLogs == old(transportLogs) && tithingLogs == old(tithingLogs)
    {
      MapUniqueBy(companies, MergeCompanyIfSame(data), CompanyKey);
      companies := UpdateCompanyRows(companies, data);
    }

    /** `deleteCompanyAction`, with the cascade to the company's work logs; transport logs are not cascaded. */
    method DeleteCompany(id: Id)
      requires Valid()
      modifies this
      ensures Valid()
      ensures companies == RemoveCompany(old(companies), id)
      ensures workLogs == LogsOfOtherCompanies(old(workLogs), id)
      ensures transportLogs == old(transportLogs) && tithingLogs == old(tithingLogs)
    {
      DeleteCompanyKeepsTablesValid(companies, workLogs, transportLogs, tithingLogs, id);
      companies := RemoveCompany(companies, id);
      workLogs := LogsOfOtherCompanies(workLogs, id);
    }

    /** `createOrUpdateWorkLogAction`: look the id up, then update that row or insert. */
    method CreateOrUpdateWorkLog(data: WorkLog) returns (r: Result<()>)
      requires Valid()
      modifies this
      ensures Valid()
      ensures var spec := UpsertWorkLog(old(workLogs), old(companies), data);
              && (spec.Ok? ==> r.Ok? && workLogs == spec.value)
              && (spec.Err? ==> r == Err(spec.error) && workLogs == old(workLogs))
      ensures companies == old(companies) && transportLogs == old(transportLogs) && tithingLogs == old(tithingLogs)
    {
      UpsertWorkLogKeepsTablesValid(companies, workLogs, transportLogs, tithingLogs, data);
      if data.companyId !in CompanyIds(companies) {
        return Err(UnknownCompany);
      }
      var existing := Filter(workLogs, HasId(data.id));
      if |existing| > 0 {
        assert existing[0] in existing;
        workLogs := Map(workLogs, MergeWorkLogIfSame(data));
      } else {
        workLogs := workLogs + [InsertedWorkLog(data)];
      }
      return Ok(());
    }

    /** `deleteWorkLogAction`: the row with that id goes. */
    method DeleteWorkLog(id: Id)
      requires Valid()
      modifies this
      ensures Valid()
      ensures workLogs == Collections.RemoveLog(old(workLogs), id)
      ensures (exists l :: l in old(workLogs) && l.id == id) ==> |workLogs| == |old(workLogs)| - 1
      ensures companies == old(companies) && transportLogs == old(transportLogs) && tithingLogs == old(tithingLogs)
    {
      if exists l :: l in workLogs && l.id == id {
        DeleteRemovesOneRow(workLogs, id);
      }
      workLogs := Collections.RemoveLog(workLogs, id);
    }

    /** `resetPaymentsAction`: every work log of the company is marked paid, whatever its flag. */
    method ResetPayments(companyId: Id)
      requires Valid()
      modifies this
      ensures Valid()
      ensures workLogs == PayCompanyLogs(old(workLogs), companyId)
      ensures companies == old(companies) && transportLogs == old(transportLogs) && tithingLogs == old(tithingLogs)
    {
      var paid := PayCompanyLogs(workLogs, companyId);
      forall l | l in paid ensures l.isPaid.Some? && l.companyId in CompanyIds(companies) {
        var k :| 0 <= k < |paid| && paid[k] == l;
        assert workLogs[k] in workLogs;
      }
      workLogs := paid;
    }

    /** `createTransportLogAction`: insert, refusing a taken id. */
    method CreateTransportLog(data: TransportLog) returns (r: Result<()>)
      requires Valid()
      modifies this
      ensures Valid()
      ensures var spec := InsertTransport(old(transportLogs), data);
              && (spec.Ok? ==> r.Ok? && transportLogs == spec.value)
              && (spec.Err? ==> r == Err(spec.error) && transportLogs == old(transportLogs))
      ensures companies == old(companies) && workLogs == old(workLogs) && tithingLogs == old(tithingLogs)
    {
      if exists t :: t in transportLogs && t.id == data.id {
        return Err(DuplicateKey);
      }
      AppendUniqueBy(transportLogs, data, TransportKey);
      transportLogs := transportLogs + [data];
      return Ok(());
    }

    /** `updateTransportLogAction`. */
    method UpdateTransportLog(data: TransportLog)
      requires Valid()
      modifies this
      ensures Valid()
      ensures transportLogs == UpdateTransportRows(old(transportLogs), data)
      ensures companies == old(companies) && workLogs == old(workLogs) && tithingLogs == old(tithingLogs)
    {
      transportLogs := UpdateTransportRows(transportLogs, data);
    }

    /**
      `createOrUpdateTransportLogAction`: for a record tied to a work log,
      look for a trip of that work log and retarget it; otherwise insert.
      Returns the id of the row written.
    */
    method CreateOrUpdateTransportLog(data: TransportLog) returns (r: Result<Id>)
      requires Valid()
      modifies this
      ensures Valid()
      ensures var spec := UpsertTransportLog(old(transportLogs), data);
              && (spec.Ok? ==> r == Ok(spec.value.1) && transportLogs == spec.value.0)
              && (spec.Err? ==> r == Err(spec.error) && transportLogs == old(transportLogs))
      ensures old(AtMostOnePerWorkLog(transportLogs)) ==> AtMostOnePerWorkLog(transportLogs)
      ensures companies == old(companies) && workLogs == old(workLogs) && tithingLogs == old(tithingLogs)
    {
      UpsertTransportLogKeepsOnePerWorkLog(transportLogs, data);
      if Linked(data) {
        var existing := Find(transportLogs, ForWorkLog(data.workLogId));
        if existing.Some? {
          var id := existing.value.id;
          UpsertTransportLogRetargets(transportLogs, data, existing.value);
          transportLogs := Map(transportLogs, RetargetIfId(id, data));
          return Ok(id);
        }
      }
      UpsertTransportLogInserts(transportLogs, data);
      if exists t :: t in transportLogs && t.id == data.id {
        return Err(DuplicateKey);
      }
      transportLogs := transportLogs + [data];
      return Ok(data.id);
    }

    /** `deleteTransportLogAction`: the row with that id goes. */
    method DeleteTransportLog(id: Id)
      requires Valid()
      modifies this
      ensures Valid()
      ensures forall t :: t in transportLogs <==> t in old(transportLogs) && t.id != id
      ensures companies == old(companies) && workLogs == old(workLogs) && tithingLogs == old(tithingLogs)
    {
      var keep := (t: TransportLog) => t.id != id;
      FilterUniqueBy(transportLogs, keep, TransportKey);
      transportLogs := Filter(transportLogs, keep);
    }

    /** `resetTransportPaymentsAction`: every trip of the company is marked paid. */
    method ResetTransportPayments(companyId: Id)
      requires Valid()
      modifies this
      ensures Valid()
      ensures transportLogs == PayCompanyTransport(old(transportLogs), companyId)
      ensures companies == old(companies) && workLogs == old(workLogs) && tithingLogs == old(tithingLogs)
    {
      transportLogs := PayCompanyTransport(transportLogs, companyId);
    }

    /** `createTithingLogAction`: insert, refusing a taken id. */
    method CreateTithingLog(data: TithingLog) returns (r: Result<()>)
      requires Valid()
      modifies this
      ensures Valid()
      ensures r.Err? <==> exists t :: t in old(tithingLogs) && t.id == data.id
      ensures r.Err? ==> r.error == DuplicateKey && tithingLogs == old(tithingLogs)
      ensures r.Ok? ==> tithingLogs == old(tithingLogs) + [data]
      ensures companies == old(companies) && workLogs == old(workLogs) && transportLogs == old(transportLogs)
    {
      if exists t :: t in tithingLogs && t.id == data.id {
        return Err(DuplicateKey);
      }
      AppendUniqueBy(tithingLogs, data, TithingKey);
      tithingLogs := tithingLogs + [data];
      return Ok(());
    }
  }
}

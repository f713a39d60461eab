/**
  The server-backed home page's client state: companies, work logs and
  transport logs as last loaded, updated optimistically by each handler, and
  the transport-cost modal's open flag and target.  Each handler is one
  atomic transition; the store call it then awaits is modelled in `Actions`.
*/
module ClientPage {
  import opened Optional
  import opened Seqs
  import opened Types
  import opened Schema
  import opened Collections
  import Earnings
  import TransportSummary
  import Calendar
  import TransportCostModal

  /** What the transport modal was opened for. */
  datatype TransportModalState = TransportModalState(companyId: Id, date: string, hour: int, workLogId: Id)

  /** The transport log `handleSaveTransportCost` builds: not yet paid. */
  function NewTransportLog(data: TransportModalState, freshId: Id, cost: real, description: Option<string>): (t: TransportLog)
    ensures t.id == freshId && t.workLogId == Some(data.workLogId)
    ensures t.date == data.date && t.companyId == data.companyId
    ensures t.tripCost == cost && t.description == description && !Paid(t.isPaid)
  {
    TransportLog(freshId, Some(data.workLogId), data.date, data.companyId, cost, description, None)
  }

  /** A trip the cost form accepts, for a well-formed date key, is a well-formed transport log. */
  lemma AcceptedTripIsWellFormed(data: TransportModalState, freshId: Id, parsed: Option<real>, description: string)
    requires IsDateKey(data.date)
    requires TransportCostModal.Decide(parsed, description).Accept?
    ensures var d := TransportCostModal.Decide(parsed, description);
            WellFormedTransportLog(NewTransportLog(data, freshId, d.cost, d.description))
  {
  }

  /**
    Paying a company settles it: its pending earnings drop to nothing, at any
    time, and every other company's stay as they were.
  */
  lemma MarkAsPaidSettlesCompany(logs: seq<WorkLog>, company: Company, other: Company, now: Option<int>)
    requires other.id != company.id
    ensures Earnings.EarningsFor(company, PayCompanyLogs(logs, company.id), now) == Earnings.CompanyEarnings(company, 0, 0.0)
    ensures Earnings.EarningsFor(other, PayCompanyLogs(logs, company.id), now) == Earnings.EarningsFor(other, logs, now)
  {
    var paid := PayCompanyLogs(logs, company.id);
    forall l | l in paid ensures !Earnings.CountsFor(company, now)(l) {
      var i :| 0 <= i < |paid| && paid[i] == l;
    }
    FilterKeepsNone(paid, Earnings.CountsFor(company, now));
    var keep := Earnings.CountsFor(other, now);
    var f := PayIfOf(company.id);
    FilterOfMap(logs, f, keep, keep);
    var kept := Filter(logs, keep);
    MapIdentity(kept, f);
  }

  /**
    A log saved from the calendar, placed into its slot, keeps both the
    one-log-per-slot rule and unique ids, provided the fresh id is new: the
    reused id belonged to the log that leaves the slot.
  */
  lemma CalendarSaveKeepsIdsUnique(slot: Calendar.Slot, logs: seq<WorkLog>, companyId: Id, freshId: Id)
    requires UniqueBy(logs, SlotOf) && UniqueBy(logs, WorkLogKey)
    requires forall l :: l in logs ==> l.id != freshId
    ensures var log := Calendar.SaveRequest(Some(slot), logs, companyId, freshId).value;
            UniqueBy(PlaceLog(logs, log), SlotOf) && UniqueBy(PlaceLog(logs, log), WorkLogKey)
  {
    var log := Calendar.SaveRequest(Some(slot), logs, companyId, freshId).value;
    var others := Filter(logs, OutsideSlot(log.date, log.hour));
    PlaceLogKeepsSlotsUnique(logs, log);
    FilterUniqueBy(logs, OutsideSlot(log.date, log.hour), WorkLogKey);
    forall y | y in others ensures WorkLogKey(y) != WorkLogKey(log) {
      var current := Calendar.CurrentLog(Some(slot), logs);
      if log.id != freshId {
        var i :| 0 <= i < |logs| && logs[i] == y;
        var j :| 0 <= j < |logs| && logs[j] == current.value;
        assert i != j;
      }
    }
    AppendUniqueBy(others, log, WorkLogKey);
  }

  /** At most one work log in each (date, hour) slot. */
  ghost predicate OneLogPerSlot(workLogs: seq<WorkLog>) {
    UniqueBy(workLogs, SlotOf)
  }

  class ClientHome {
    var companies: seq<Company>
    var workLogs: seq<WorkLog>
    var transportLogs: seq<TransportLog>
    var transportModalOpen: bool
    var transportModalData: Option<TransportModalState>

    /** The page as loaded from the store, with the modal closed. */
    constructor(initialCompanies: seq<Company>, initialWorkLogs: seq<WorkLog>, initialTransportLogs: seq<TransportLog>)
      ensures companies == initialCompanies && workLogs == initialWorkLogs && transportLogs == initialTransportLogs
      ensures !transportModalOpen && transportModalData.None?
    {
      companies := initialCompanies;
      workLogs := initialWorkLogs;
      transportLogs := initialTransportLogs;
      transportModalOpen := false;
      transportModalData := None;
    }

    /** `addCompany`: one more company, at the end. */
    method AddCompany(company: Company)
      modifies this
      ensures companies == old(companies) + [company]
      ensures workLogs == old(workLogs) && transportLogs == old(transportLogs)
      ensures transportModalOpen == old(transportModalOpen) && transportModalData == old(transportModalData)
    {
      companies := companies + [company];
    }

    /** `updateCompany`: the company with the same id replaced, length and order kept. */
    method UpdateCompany(updated: Company)
      modifies this
      ensures companies == ReplaceCompany(old(companies), updated)
      ensures |companies| == |old(companies)|
      ensures workLogs == old(workLogs) && transportLogs == old(transportLogs)
      ensures transportModalOpen == old(transportModalOpen) && transportModalData == old(transportModalData)
    {
      companies := ReplaceCompany(companies, updated);
    }

    /**
      `deleteCompany`: the company and its work logs go; transport logs stay.
      Logs that referred to existing companies still do.
    */
    method DeleteCompany(id: Id)
      modifies this
      ensures companies == RemoveCompany(old(companies), id)
      ensures workLogs == LogsOfOtherCompanies(old(workLogs), id)
      ensures transportLogs == old(transportLogs)
      ensures old(References(workLogs, companies)) ==> References(workLogs, companies)
      ensures old(OneLogPerSlot(workLogs)) ==> OneLogPerSlot(workLogs)
      ensures transportModalOpen == old(transportModalOpen) && transportModalData == old(transportModalData)
    {
      if References(workLogs, companies) {
        CascadeKeepsReferences(companies, workLogs, id);
      }
      companies := RemoveCompany(companies, id);
      workLogs := LogsOfOtherCompanies(workLogs, id);
    }

    /** `updateLog`: the log becomes the one log of its slot; the other slots keep theirs. */
    method UpdateLog(log: WorkLog)
      modifies this
      ensures workLogs == PlaceLog(old(workLogs), log)
      ensures Filter(workLogs, AtSlot(log.date, log.hour)) == [log]
      ensures old(OneLogPerSlot(workLogs)) ==> OneLogPerSlot(workLogs)
      ensures companies == old(companies) && transportLogs == old(transportLogs)
      ensures transportModalOpen == old(transportModalOpen) && transportModalData == old(transportModalData)
    {
      if OneLogPerSlot(workLogs) {
        PlaceLogKeepsSlotsUnique(workLogs, log);
      }
      workLogs := PlaceLog(workLogs, log);
    }

    /** `removeLog`: every log with the id goes, the rest stay in order. */
    method RemoveLog(logId: Id)
      modifies this
      ensures workLogs == Collections.RemoveLog(old(workLogs), logId)
      ensures old(OneLogPerSlot(workLogs)) ==> OneLogPerSlot(workLogs)
      ensures companies == old(companies) && transportLogs == old(transportLogs)
      ensures transportModalOpen == old(transportModalOpen) && transportModalData == old(transportModalData)
    {
      workLogs := Collections.RemoveLog(workLogs, logId);
    }

    /** `markAsPaid`: every work log of the company is paid; transport logs are not touched. */
    method MarkAsPaid(companyId: Id)
      modifies this
      ensures workLogs == PayCompanyLogs(old(workLogs), companyId)
      ensures old(OneLogPerSlot(workLogs)) ==> OneLogPerSlot(workLogs)
      ensures companies == old(companies) && transportLogs == old(transportLogs)
      ensures transportModalOpen == old(transportModalOpen) && transportModalData == old(transportModalData)
    {
      workLogs := PayCompanyLogs(workLogs, companyId);
    }

    /** `handleOpenTransportModal`: remember the target and open the modal. */
    method OpenTransportModal(companyId: Id, date: string, hour: int, workLogId: Id)
      modifies this
      ensures transportModalData == Some(TransportModalState(companyId, date, hour, workLogId)) && transportModalOpen
      ensures companies == old(companies) && workLogs == old(workLogs) && transportLogs == old(transportLogs)
    {
      transportModalData := Some(TransportModalState(companyId, date, hour, workLogId));
      transportModalOpen := true;
    }

    /**
      `handleSaveTransportCost`: nothing without a target; otherwise one
      unpaid transport log for the target is appended, which raises the
      target company's pending transport by exactly `cost`, and the modal
      closes and forgets its target.
    */
    method SaveTransportCost(cost: real, description: Option<string>, freshId: Id)
      modifies this
      ensures old(transportModalData).None? ==>
        transportLogs == old(transportLogs) && transportModalOpen == old(transportModalOpen) && transportModalData.None?
      ensures old(transportModalData).Some? ==>
        && transportLogs == old(transportLogs) + [NewTransportLog(old(transportModalData).value, freshId, cost, description)]
        && !transportModalOpen && transportModalData.None?
      ensures old(transportModalData).Some? ==> forall c :: c in companies ==>
        TransportSummary.TransportFor(c, transportLogs).totalCost
        == TransportSummary.TransportFor(c, old(transportLogs)).totalCost
           + (if c.id == old(transportModalData).value.companyId then cost else 0.0)
      ensures companies == old(companies) && workLogs == old(workLogs)
    {
      if transportModalData.None? {
        return;
      }
      var t := NewTransportLog(transportModalData.value, freshId, cost, description);
      forall c | c in companies
        ensures TransportSummary.TransportFor(c, transportLogs + [t]).totalCost
             == TransportSummary.TransportFor(c, transportLogs).totalCost + (if c.id == t.companyId then cost else 0.0)
      {
        TransportSummary.TransportOfOneMoreLog(c, transportLogs, t);
      }
      transportLogs := transportLogs + [t];
      transportModalOpen := false;
      transportModalData := None;
    }

    /** The transport modal's `onClose`. */
    method CloseTransportModal()
      modifies this
      ensures !transportModalOpen && transportModalData.None?
      ensures companies == old(companies) && workLogs == old(workLogs) && transportLogs == old(transportLogs)
    {
      transportModalOpen := false;
      transportModalData := None;
    }
  }
}

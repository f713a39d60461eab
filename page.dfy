/**
  The browser-only home page: companies and work logs kept in the page's
  state (and mirrored to local storage, which is not part of this model).
*/
module Page {
  import opened Seqs
  import opened Types
  import opened Schema
  import opened Collections

  class Home {
    var companies: seq<Company>
    var workLogs: seq<WorkLog>

    /** The page before anything has been added. */
    constructor()
      ensures companies == [] && workLogs == []
    {
      companies := [];
      workLogs := [];
    }

    /** `addCompany`: the company appended at the end. */
    method AddCompany(company: Company)
      modifies this
      ensures companies == old(companies) + [company]
      ensures workLogs == old(workLogs)
    {
      companies := companies + [company];
    }

    /** `deleteCompany`: the company and, to leave no orphans, its work logs. */
    method DeleteCompany(id: Id)
      modifies this
      ensures companies == RemoveCompany(old(companies), id)
      ensures workLogs == LogsOfOtherCompanies(old(workLogs), id)
      ensures old(References(workLogs, companies)) ==> References(workLogs, companies)
    {
      if References(workLogs, companies) {
        CascadeKeepsReferences(companies, workLogs, id);
      }
      companies := RemoveCompany(companies, id);
      workLogs := LogsOfOtherCompanies(workLogs, id);
    }

    /** `updateLog`: whatever sat in the log's slot is replaced by it. */
    method UpdateLog(log: WorkLog)
      modifies this
      ensures workLogs == PlaceLog(old(workLogs), log)
      ensures old(UniqueBy(workLogs, SlotOf)) ==> UniqueBy(workLogs, SlotOf)
      ensures companies == old(companies)
    {
      if UniqueBy(workLogs, SlotOf) {
        PlaceLogKeepsSlotsUnique(workLogs, log);
      }
      workLogs := PlaceLog(workLogs, log);
    }

    /** `removeLog`: only the logs with that id go. */
    method RemoveLog(logId: Id)
      modifies this
      ensures workLogs == Collections.RemoveLog(old(workLogs), logId)
      ensures companies == old(companies)
    {
      workLogs := Collections.RemoveLog(workLogs, logId);
    }
  }
}

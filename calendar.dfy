/**
  The weekly calendar: its hour rows, the Monday-start week around the
  current date, the lookup of the log in a slot, and the view's state
  (current date, open modal, selected slot, mobile day tab) with the
  requests it emits on save and clear.

  A calendar date is a local day number (days since 1970-01-01, a Thursday);
  the time of day a JavaScript `Date` carries along never reaches any output
  here.  Slots name their date by its `YYYY-MM-DD` key.
*/
module Calendar {
  import opened Optional
  import opened Seqs
  import opened Types
  import opened Schema
  import opened Collections
  import Earnings

  /** `HOURS`: the sixteen hour rows 7 to 22. */
  function Hours(): (r: seq<int>)
    ensures |r| == 16
    ensures forall i, j :: 0 <= i < j < |r| ==> r[i] < r[j]
    ensures forall h :: h in r <==> ValidHour(h)
  {
    var r := seq(16, i => i + 7);
    assert forall h :: ValidHour(h) ==> r[h - 7] == h;
    r
  }

  /** `getDay()`: 0 for Sunday, 1 for Monday, ..., 6 for Saturday. */
  function Weekday(day: int): (w: int)
    ensures 0 <= w < 7
  {
    (day + 4) % 7
  }

  /** Day zero, 1970-01-01, was a Thursday, and each day is the weekday after the one before. */
  lemma WeekdayAdvancesDaily(day: int)
    ensures Weekday(0) == 4
    ensures Weekday(day + 1) == (Weekday(day) + 1) % 7
    ensures Weekday(day + 7) == Weekday(day)
  {
    assert (day + 4) - Weekday(day) == 7 * ((day + 4) / 7);
    assert (day + 5) - Weekday(day + 1) == 7 * ((day + 5) / 7);
  }

  /** The calendar's weekday agrees with the real one: 2024-01-01 was a Monday. */
  lemma NewYear2024IsMonday()
    ensures Weekday(Earnings.LocalDayNumber(2024, 0, 1)) == 1
  {
    Earnings.NewYear2024Day();
  }

  /** `startOfWeek`: `day - weekday + (weekday == 0 ? -6 : 1)`, carried across months as `setDate` does. */
  function StartOfWeek(day: int): (monday: int)
    ensures Weekday(monday) == 1
    ensures day - 6 <= monday <= day
  {
    var w := Weekday(day);
    var monday := day - w + (if w == 0 then -6 else 1);
    assert (day + 4) - w == 7 * ((day + 4) / 7);
    monday
  }

  /** The Monday on or at most six days before a day is the one `StartOfWeek` picks. */
  lemma StartOfWeekIsTheMonday(day: int, monday: int)
    requires Weekday(monday) == 1 && day - 6 <= monday <= day
    ensures monday == StartOfWeek(day)
  {
    var m := StartOfWeek(day);
    assert (monday + 4) - 1 == 7 * ((monday + 4) / 7);
    assert (m + 4) - 1 == 7 * ((m + 4) / 7);
    assert monday - m == 7 * ((monday + 4) / 7 - (m + 4) / 7);
  }

  /** `weekDays`: the seven consecutive days from the week's Monday. */
  function WeekDays(day: int): (r: seq<int>)
    ensures |r| == 7 && r[0] == StartOfWeek(day)
    ensures forall i :: 0 <= i < 7 ==> r[i] == r[0] + i && Weekday(r[i]) == (i + 1) % 7
  {
    var start := StartOfWeek(day);
    var r := seq(7, i => start + i);
    assert forall i :: 0 <= i < 7 ==> Weekday(r[i]) == (Weekday(start) + i) % 7;
    r
  }

  /** The mobile tab shown first: Sunday is the seventh tab, any other weekday `w` tab `w - 1`. */
  function MobileDayIndex(day: int): (index: int)
    ensures 0 <= index < 7
    ensures WeekDays(day)[index] == day
  {
    var w := Weekday(day);
    if w == 0 then 6 else w - 1
  }

  /** `weekDays[mobileDayIndex] || new Date()`: the day the mobile view shows. */
  function MobileDisplayDate(currentDate: int, mobileDayIndex: int, today: int): (d: int)
    ensures 0 <= mobileDayIndex < 7 ==> d == StartOfWeek(currentDate) + mobileDayIndex
    ensures !(0 <= mobileDayIndex < 7) ==> d == today
  {
    if 0 <= mobileDayIndex < 7 then WeekDays(currentDate)[mobileDayIndex] else today
  }

  /** The week views of a date and the date seven days later are consecutive weeks. */
  lemma NextWeekStartsSevenDaysLater(day: int)
    ensures StartOfWeek(day + 7) == StartOfWeek(day) + 7
  {
    StartOfWeekIsTheMonday(day + 7, StartOfWeek(day) + 7);
  }

  datatype Slot = Slot(date: string, hour: int)

  /** `currentLog`: the first log in the selected slot, if a slot is selected and has one. */
  function CurrentLog(selected: Option<Slot>, logs: seq<WorkLog>): (r: Option<WorkLog>)
    ensures r.Some? ==> selected.Some? && r.value in logs && SlotOf(r.value) == (selected.value.date, selected.value.hour)
    ensures r.None? <==> selected.None? || forall l :: l in logs ==> SlotOf(l) != (selected.value.date, selected.value.hour)
    ensures r.Some? ==> exists i :: 0 <= i < |logs| && logs[i] == r.value
                          && forall j :: 0 <= j < i ==> SlotOf(logs[j]) != (selected.value.date, selected.value.hour)
  {
    match selected
    case None => None
    case Some(slot) =>
      var r := Find(logs, AtSlot(slot.date, slot.hour));
      assert r.Some? ==> r.value in logs;
      r
  }

  /** With one log per slot, `currentLog` is the log in the selected slot. */
  lemma CurrentLogIsTheSlotsLog(slot: Slot, logs: seq<WorkLog>, log: WorkLog)
    requires UniqueBy(logs, SlotOf)
    requires log in logs && SlotOf(log) == (slot.date, slot.hour)
    ensures CurrentLog(Some(slot), logs) == Some(log)
  {
    var r := CurrentLog(Some(slot), logs);
    var i :| 0 <= i < |logs| && logs[i] == r.value;
    var j :| 0 <= j < |logs| && logs[j] == log;
    assert i == j;
  }

  /**
    `handleSave(companyId)`: nothing without a selected slot; otherwise a log
    for the selected date and hour and the given company, with the slot's
    current log's id when it has a non-empty one, else `freshId`.  The new
    log has no paid flag and no rate snapshot.
  */
  function SaveRequest(selected: Option<Slot>, logs: seq<WorkLog>, companyId: Id, freshId: Id): (r: Option<WorkLog>)
    ensures r.Some? <==> selected.Some?
    ensures r.Some? ==> && r.value.date == selected.value.date && r.value.hour == selected.value.hour
                        && r.value.companyId == companyId
                        && r.value.isPaid.None? && r.value.hourlyRateSnapshot.None?
    ensures r.Some? ==> var current := CurrentLog(selected, logs);
                        r.value.id == if current.Some? && current.value.id != "" then current.value.id else freshId
  {
    match selected
    case None => None
    case Some(slot) =>
      var current := CurrentLog(selected, logs);
      var id := if current.Some? && current.value.id != "" then current.value.id else freshId;
      Some(WorkLog(id, slot.date, slot.hour, companyId, None, None))
  }

  /** A save at a displayed hour of a well-formed date key emits a well-formed work log. */
  lemma SavedLogIsWellFormed(selected: Option<Slot>, logs: seq<WorkLog>, companyId: Id, freshId: Id)
    requires selected.Some? && IsDateKey(selected.value.date) && selected.value.hour in Hours()
    ensures SaveRequest(selected, logs, companyId, freshId).Some?
    ensures WellFormedWorkLog(SaveRequest(selected, logs, companyId, freshId).value)
  {
  }

  /** `handleClear`: the id to remove, which is the current log's when the slot has one. */
  function ClearRequest(selected: Option<Slot>, logs: seq<WorkLog>): (r: Option<Id>)
    ensures r.Some? <==> CurrentLog(selected, logs).Some?
    ensures r.Some? ==> r.value == CurrentLog(selected, logs).value.id
    ensures r.Some? ==> exists i :: 0 <= i < |logs| && logs[i].id == r.value
                          && SlotOf(logs[i]) == (selected.value.date, selected.value.hour)
                          && forall j :: 0 <= j < i ==> SlotOf(logs[j]) != (selected.value.date, selected.value.hour)
  {
    var current := CurrentLog(selected, logs);
    if current.Some? then Some(current.value.id) else None
  }

  /** What `getCompanyForSlot` answers: `null`, `undefined`, or a company. */
  datatype SlotCompany = NoLog | UnknownCompany | CompanyOf(company: Company)

  /**
    `getCompanyForSlot`: no log in the slot gives `NoLog`; otherwise, for the
    slot's first log, the first company whose id is the log's company id, or `UnknownCompany` when there
    is none.
  */
  function CompanyForSlot(key: string, hour: int, logs: seq<WorkLog>, companies: seq<Company>): (r: SlotCompany)
    ensures r.NoLog? <==> forall l :: l in logs ==> SlotOf(l) != (key, hour)
    ensures var current := CurrentLog(Some(Slot(key, hour)), logs);
            && (r.UnknownCompany? <==> current.Some? && current.value.companyId !in CompanyIds(companies))
            && (r.CompanyOf? ==> && current.Some? && r.company.id == current.value.companyId
                                 && exists k :: 0 <= k < |companies| && companies[k] == r.company
                                                  && forall j :: 0 <= j < k ==> companies[j].id != r.company.id)
  {
    match Find(logs, AtSlot(key, hour))
    case None => NoLog
    case Some(log) =>
      assert log in logs;
      match Find(companies, (c: Company) => c.id == log.companyId)
      case None => UnknownCompany
      case Some(c) => assert c in companies; CompanyOf(c)
  }

  /** When every log refers to an existing company, an occupied slot always shows its company. */
  lemma OccupiedSlotShowsItsCompany(key: string, hour: int, logs: seq<WorkLog>, companies: seq<Company>)
    requires References(logs, companies)
    ensures !CompanyForSlot(key, hour, logs, companies).UnknownCompany?
  {
  }

  /** The calendar view's own state. */
  class CalendarView {
    var currentDate: int
    var modalOpen: bool
    var selectedSlot: Option<Slot>
    var mobileDayIndex: int

    /** The view as first shown on day `today`: this week, no modal, today's tab. */
    constructor(today: int)
      ensures currentDate == today && !modalOpen && selectedSlot.None?
      ensures mobileDayIndex == MobileDayIndex(today) && 0 <= mobileDayIndex < 7
      ensures MobileDisplayDate(currentDate, mobileDayIndex, today) == today
    {
      currentDate := today;
      modalOpen := false;
      selectedSlot := None;
      mobileDayIndex := MobileDayIndex(today);
    }

    /** "Semana Ant.": seven days back. */
    method PreviousWeek()
      modifies this
      ensures currentDate == old(currentDate) - 7
      ensures StartOfWeek(currentDate) == StartOfWeek(old(currentDate)) - 7
      ensures modalOpen == old(modalOpen) && selectedSlot == old(selectedSlot) && mobileDayIndex == old(mobileDayIndex)
    {
      currentDate := currentDate - 7;
      NextWeekStartsSevenDaysLater(currentDate);
    }

    /** "Semana Sig.": seven days on. */
    method NextWeek()
      modifies this
      ensures currentDate == old(currentDate) + 7
      ensures StartOfWeek(currentDate) == StartOfWeek(old(currentDate)) + 7
      ensures modalOpen == old(modalOpen) && selectedSlot == old(selectedSlot) && mobileDayIndex == old(mobileDayIndex)
    {
      NextWeekStartsSevenDaysLater(currentDate);
      currentDate := currentDate + 7;
    }

    /** "Hoy": back to the current day. */
    method GoToToday(today: int)
      modifies this
      ensures currentDate == today
      ensures modalOpen == old(modalOpen) && selectedSlot == old(selectedSlot) && mobileDayIndex == old(mobileDayIndex)
    {
      currentDate := today;
    }

    /** A mobile day tab. */
    method SelectMobileDay(index: int)
      requires 0 <= index < 7
      modifies this
      ensures mobileDayIndex == index
      ensures currentDate == old(currentDate) && modalOpen == old(modalOpen) && selectedSlot == old(selectedSlot)
    {
      mobileDayIndex := index;
    }

    /** `handleSlotClick`: select the slot and open the modal. */
    method SlotClick(key: string, hour: int)
      modifies this
      ensures selectedSlot == Some(Slot(key, hour)) && modalOpen
      ensures currentDate == old(currentDate) && mobileDayIndex == old(mobileDayIndex)
    {
      selectedSlot := Some(Slot(key, hour));
      modalOpen := true;
    }

    /**
      `handleSave`: without a selected slot nothing happens; otherwise the log
      to upsert is emitted and the modal closes (the slot stays selected).
    */
    method Save(logs: seq<WorkLog>, companyId: Id, freshId: Id) returns (emitted: Option<WorkLog>)
      modifies this
      ensures emitted == SaveRequest(old(selectedSlot), logs, companyId, freshId)
      ensures modalOpen == (old(modalOpen) && old(selectedSlot).None?)
      ensures currentDate == old(currentDate) && selectedSlot == old(selectedSlot) && mobileDayIndex == old(mobileDayIndex)
    {
      if selectedSlot.None? {
        return None;
      }
      emitted := SaveRequest(selectedSlot, logs, companyId, freshId);
      modalOpen := false;
    }

    /** `handleClear`: emits the current log's id when there is one, and always closes the modal. */
    method Clear(logs: seq<WorkLog>) returns (removed: Option<Id>)
      modifies this
      ensures removed == ClearRequest(old(selectedSlot), logs)
      ensures !modalOpen
      ensures currentDate == old(currentDate) && selectedSlot == old(selectedSlot) && mobileDayIndex == old(mobileDayIndex)
    {
      removed := ClearRequest(selectedSlot, logs);
      modalOpen := false;
    }

    /** The modal's `onClose`. */
    method CloseModal()
      modifies this
      ensures !modalOpen
      ensures currentDate == old(currentDate) && selectedSlot == old(selectedSlot) && mobileDayIndex == old(mobileDayIndex)
    {
      modalOpen := false;
    }
  }
}

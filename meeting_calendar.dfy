/**
 * The meeting calendar's slot store: a list of events, and a modal dialog
 * that either edits the event it was opened with or adds a new one.
 */
module MeetingCalendar {
  import opened Wrappers
  import opened JsArray

  datatype EventStatus = Available | Requested | Confirmed

  /** A calendar slot; `start` and `end` are timestamps. */
  datatype CalendarEvent = CalendarEvent(id: string, title: string, start: int, end: int, status: EventStatus)

  datatype Tab = CalendarTab | Upcoming | Add

  /** `getStatusClasses`: the badge classes for a status. */
  function StatusClasses(status: EventStatus): (classes: string)
    ensures |classes| > 0
  {
    match status
    case Available => "bg-blue-100 text-blue-800 border-blue-500"
    case Requested => "bg-yellow-100 text-yellow-800 border-yellow-400"
    case Confirmed => "bg-green-100 text-green-800 border-green-500"
  }

  /** Each of the three statuses gets its own class string. */
  lemma StatusClassesDistinct(s: EventStatus, t: EventStatus)
    ensures StatusClasses(s) == StatusClasses(t) <==> s == t
  {
    var a, r, c := StatusClasses(Available), StatusClasses(Requested), StatusClasses(Confirmed);
    assert a == "bg-blue-100 text-blue-800 border-blue-500" && a[3] == 'b';
    assert r == "bg-yellow-100 text-yellow-800 border-yellow-400" && r[3] == 'y';
    assert c == "bg-green-100 text-green-800 border-green-500" && c[3] == 'g';
  }

  /** The edit branch of `saveEvent`: events with the given id take the new fields and keep their id. */
  function EditEvents(events: seq<CalendarEvent>, id: string, title: string, status: EventStatus, start: int, end: int)
    : (r: seq<CalendarEvent>)
    ensures |r| == |events|
    ensures forall i :: 0 <= i < |r| ==> r[i].id == events[i].id
    ensures forall i :: 0 <= i < |r| && events[i].id == id ==>
              r[i] == CalendarEvent(id, title, start, end, status)
    ensures forall i :: 0 <= i < |r| && events[i].id != id ==> r[i] == events[i]
  {
    seq(|events|, i requires 0 <= i < |events| =>
      if events[i].id == id then events[i].(title := title, status := status, start := start, end := end)
      else events[i])
  }

  /** Editing an id no event carries changes nothing. */
  lemma EditWithoutMatch(events: seq<CalendarEvent>, id: string, title: string, status: EventStatus, start: int, end: int)
    requires forall i :: 0 <= i < |events| ==> events[i].id != id
    ensures EditEvents(events, id, title, status, start, end) == events
  {
  }

  /** Editing twice with the same fields is editing once. */
  lemma EditIdempotent(events: seq<CalendarEvent>, id: string, title: string, status: EventStatus, start: int, end: int)
    ensures var once := EditEvents(events, id, title, status, start, end);
            EditEvents(once, id, title, status, start, end) == once
  {
  }

  function IdIsNot(id: string): CalendarEvent -> bool { (e: CalendarEvent) => e.id != id }
  function IdIs(id: string): CalendarEvent -> bool { (e: CalendarEvent) => e.id == id }

  /** `events.filter(e => e.id !== id)`: exactly the events with that id are gone, the rest keep their order. */
  function RemoveEvent(events: seq<CalendarEvent>, id: string): (r: seq<CalendarEvent>)
    ensures forall e :: e in r <==> e in events && e.id != id
    ensures |r| + |Filter(IdIs(id), events)| == |events|
  {
    FilterPartition(IdIsNot(id), IdIs(id), events);
    Filter(IdIsNot(id), events)
  }

  /** Removing the events of one id from a concatenation removes them from each part. */
  lemma RemoveEventAppend(s: seq<CalendarEvent>, t: seq<CalendarEvent>, id: string)
    ensures RemoveEvent(s + t, id) == RemoveEvent(s, id) + RemoveEvent(t, id)
  {
    FilterAppend(IdIsNot(id), s, t);
  }

  class MeetingCalendarPage {
    var events: seq<CalendarEvent>
    var activeTab: Tab
    var isModalOpen: bool
    var modalEvent: Option<CalendarEvent>

    constructor (initialEvents: seq<CalendarEvent>)
      ensures events == initialEvents && activeTab == CalendarTab
      ensures !isModalOpen && modalEvent == None
    {
      events := initialEvents;
      activeTab := CalendarTab;
      isModalOpen := false;
      modalEvent := None;
    }

    /** `setActiveTab(tab)`. */
    method SelectTab(tab: Tab)
      modifies this`activeTab
      ensures activeTab == tab
    {
      activeTab := tab;
    }

    /** `openModal(event?)`: None opens the dialog in "add" mode. */
    method OpenModal(event: Option<CalendarEvent>)
      modifies this`modalEvent, this`isModalOpen
      ensures modalEvent == event && isModalOpen
    {
      modalEvent := event;
      isModalOpen := true;
    }

    /** `closeModal`. */
    method CloseModal()
      modifies this`modalEvent, this`isModalOpen
      ensures modalEvent == None && !isModalOpen
    {
      modalEvent := None;
      isModalOpen := false;
    }

    /**
     * `saveEvent`: edits every event carrying the modal event's id when the
     * dialog was opened with an event, appends one new event otherwise, and
     * closes the dialog either way. `newId` stands for `String(Date.now())`.
     */
    method SaveEvent(newId: string, title: string, status: EventStatus, start: int, end: int)
      modifies this`events, this`modalEvent, this`isModalOpen
      ensures old(modalEvent).Some? ==>
                events == EditEvents(old(events), old(modalEvent).value.id, title, status, start, end)
      ensures old(modalEvent).None? ==>
                events == old(events) + [CalendarEvent(newId, title, start, end, status)]
      ensures modalEvent == None && !isModalOpen
    {
      if modalEvent.Some? {
        events := EditEvents(events, modalEvent.value.id, title, status, start, end);
      } else {
        events := events + [CalendarEvent(newId, title, start, end, status)];
      }
      CloseModal();
    }

    /** `deleteEvent(id)`; `confirmed` is the answer to the `confirm` prompt. */
    method DeleteEvent(id: string, confirmed: bool)
      modifies this`events
      ensures events == if confirmed then RemoveEvent(old(events), id) else old(events)
    {
      if confirmed {
        events := RemoveEvent(events, id);
      }
    }

    /** `handleDateClick`: opens the dialog with a placeholder event whose id is empty. */
    method HandleDateClick(start: int, end: Option<int>)
      modifies this`modalEvent, this`isModalOpen
      ensures isModalOpen
      ensures modalEvent == Some(CalendarEvent("", "", start, end.GetOr(start), Available))
    {
      OpenModal(Some(CalendarEvent("", "", start, end.GetOr(start), Available)));
    }

    /** `handleEventClick`: opens the dialog with the first event carrying the clicked id, if any. */
    method HandleEventClick(id: string)
      modifies this`modalEvent, this`isModalOpen
      ensures (forall i :: 0 <= i < |events| ==> events[i].id != id) ==>
                modalEvent == old(modalEvent) && isModalOpen == old(isModalOpen)
      ensures (exists i :: 0 <= i < |events| && events[i].id == id) ==>
                isModalOpen && modalEvent.Some? &&
                exists i :: 0 <= i < |events| && events[i] == modalEvent.value && events[i].id == id &&
                            forall j :: 0 <= j < i ==> events[j].id != id
    {
      var clicked := Find(IdIs(id), events);
      if clicked.None? {
        return;
      }
      ghost var k :| 0 <= k < |events| && events[k] == clicked.value && IdIs(id)(events[k]) &&
                     forall j :: 0 <= j < k ==> !IdIs(id)(events[j]);
      OpenModal(clicked);
      assert events[k] == modalEvent.value && events[k].id == id;
      assert forall j :: 0 <= j < k ==> events[j].id != id;
    }
  }

  /**
   * Selecting a date range and then saving the dialog takes the edit branch
   * with the placeholder's empty id, so no event is added; unless an event
   * already has the empty id, the list is unchanged.
   */
  method DateSelectionThenSave(page: MeetingCalendarPage, start: int, end: Option<int>,
                               newId: string, title: string, status: EventStatus, start': int, end': int)
    requires forall i :: 0 <= i < |page.events| ==> page.events[i].id != ""
    modifies page
    ensures page.events == old(page.events)
    ensures page.modalEvent == None && !page.isModalOpen
  {
    page.HandleDateClick(start, end);
    page.SaveEvent(newId, title, status, start', end');
    EditWithoutMatch(old(page.events), "", title, status, start', end');
  }
}

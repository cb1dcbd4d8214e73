/** The events page: a list of scheduled events, a list of blocked dates, the
    scheduling rules the event form enforces, the search and the month calendar. */
module Events {
  import opened Collections
  import opened Text

  datatype Event = Event(id: nat, title: string, date: string, time: string, location: string,
                         kind: string, attendees: nat, status: string)

  /** A date closed to new events, with the reason shown on the calendar. */
  datatype Block = Block(date: string, reason: string)

  /** The event form; `date` is the ISO value of a date input. */
  datatype EventForm = EventForm(title: string, date: string, time: string, location: string,
                                 kind: string, description: string)

  /** Why a submit was refused, or that it was saved. */
  datatype Outcome = Saved | MissingField | BlockedDate | Conflict

  const EmptyForm := EventForm("", "", "", "Templo Principal", "Culto", "")

  /** The slot an event occupies: same date, same time and same place. */
  predicate SameSlot(e: Event, date: string, time: string, location: string)
  {
    e.date == date && e.time == time && e.location == location
  }

  predicate IsBlocked(blocks: seq<Block>, date: string)
  {
    exists i :: 0 <= i < |blocks| && blocks[i].date == date
  }

  /** Some event other than the one under edit already holds the form's slot. */
  predicate HasConflict(events: seq<Event>, f: EventForm, editing: Option<nat>)
  {
    exists i :: 0 <= i < |events| && SameSlot(events[i], f.date, f.time, f.location)
                && (editing.None? || events[i].id != editing.value)
  }

  /** The checks of a submit, in the order the handler makes them. */
  function SubmitOutcome(events: seq<Event>, blocks: seq<Block>, editing: Option<nat>, f: EventForm): Outcome
  {
    if f.title == "" || f.date == "" || f.time == "" then MissingField
    else if IsBlocked(blocks, f.date) then BlockedDate
    else if HasConflict(events, f, editing) then Conflict
    else Saved
  }

  function Edited(e: Event, f: EventForm): Event
  {
    e.(title := f.title, date := f.date, time := f.time, location := f.location, kind := f.kind)
  }

  function NewEvent(id: nat, f: EventForm): Event
  {
    Event(id, f.title, f.date, f.time, f.location, f.kind, 0, "Confirmado")
  }

  function EditEvent(events: seq<Event>, id: nat, f: EventForm): seq<Event>
  {
    UpdateWhere(events, (e: Event) => e.id == id, (e: Event) => Edited(e, f))
  }

  /** The event list after a submit of `f`: unchanged when refused, otherwise the
      edited list or the list with the new event appended. */
  function EventsAfterSubmit(events: seq<Event>, blocks: seq<Block>, editing: Option<nat>,
                             f: EventForm, freshId: nat): seq<Event>
  {
    if SubmitOutcome(events, blocks, editing, f) != Saved then events
    else match editing
      case Some(id) => EditEvent(events, id, f)
      case None => events + [NewEvent(freshId, f)]
  }

  function WithoutEvent(events: seq<Event>, id: nat): seq<Event>
  {
    Filter(events, (e: Event) => e.id != id)
  }

  /** Two events with different ids that do not share a slot. */
  predicate Apart(a: Event, b: Event)
  {
    a.id != b.id && !SameSlot(b, a.date, a.time, a.location)
  }

  /** Ids are unique and no two events are booked in the same slot. */
  ghost predicate WellScheduled(events: seq<Event>)
  {
    Pairwise(events, Apart)
  }

  predicate IsFreshId(events: seq<Event>, id: nat)
  {
    forall i :: 0 <= i < |events| ==> events[i].id != id
  }

  /** The search: title or location contains the query, ignoring case. */
  function FilteredEvents(events: seq<Event>, query: string): seq<Event>
  {
    Filter(events, (e: Event) => MatchesIgnoringCase(e.title, query) || MatchesIgnoringCase(e.location, query))
  }

  /** The form a click on "edit" fills in. */
  function EditForm(e: Event): (f: EventForm)
    ensures f.title == e.title && f.date == e.date && f.time == e.time
    ensures f.location == e.location && f.kind == e.kind && f.description == ""
  {
    EventForm(e.title, e.date, e.time, e.location, e.kind, "")
  }

  // ---------------------------------------------------------------- submit rules

  /** An empty title, date or time refuses the submit and leaves the events as they were. */
  lemma MissingFieldKeepsEvents(events: seq<Event>, blocks: seq<Block>, editing: Option<nat>,
                                f: EventForm, freshId: nat)
    requires f.title == "" || f.date == "" || f.time == ""
    ensures SubmitOutcome(events, blocks, editing, f) == MissingField
    ensures EventsAfterSubmit(events, blocks, editing, f, freshId) == events
  {
  }

  /** A complete form whose date is blocked is refused and leaves the events as they were. */
  lemma BlockedDateKeepsEvents(events: seq<Event>, blocks: seq<Block>, editing: Option<nat>,
                               f: EventForm, freshId: nat, k: nat)
    requires f.title != "" && f.date != "" && f.time != ""
    requires k < |blocks| && blocks[k].date == f.date
    ensures SubmitOutcome(events, blocks, editing, f) == BlockedDate
    ensures EventsAfterSubmit(events, blocks, editing, f, freshId) == events
  {
  }

  /** A submit is refused as a conflict exactly when another event holds the slot;
      the event under edit does not conflict with itself. */
  lemma ConflictRule(events: seq<Event>, blocks: seq<Block>, editing: Option<nat>, f: EventForm)
    requires f.title != "" && f.date != "" && f.time != "" && !IsBlocked(blocks, f.date)
    ensures SubmitOutcome(events, blocks, editing, f) == Conflict <==>
      exists i :: 0 <= i < |events| && SameSlot(events[i], f.date, f.time, f.location)
                  && !(editing.Some? && events[i].id == editing.value)
  {
  }

  /** An accepted edit rewrites title, date, time, location and type of the matching
      event; its id, attendees and status, every other event and the length stay. */
  lemma EditTouchesOnlyTarget(events: seq<Event>, blocks: seq<Block>, id: nat, f: EventForm, freshId: nat)
    requires SubmitOutcome(events, blocks, Some(id), f) == Saved
    ensures var r := EventsAfterSubmit(events, blocks, Some(id), f, freshId);
      |r| == |events| &&
      forall i :: 0 <= i < |events| ==>
        r[i].id == events[i].id && r[i].attendees == events[i].attendees && r[i].status == events[i].status &&
        (events[i].id == id ==> r[i].title == f.title && r[i].date == f.date && r[i].time == f.time
                                && r[i].location == f.location && r[i].kind == f.kind) &&
        (events[i].id != id ==> r[i] == events[i])
  {
  }

  /** An accepted create appends one event with the fresh id, no attendees and status
      "Confirmado", after the earlier events in their order. */
  lemma CreateAppends(events: seq<Event>, blocks: seq<Block>, f: EventForm, freshId: nat)
    requires SubmitOutcome(events, blocks, None, f) == Saved
    ensures var r := EventsAfterSubmit(events, blocks, None, f, freshId);
      |r| == |events| + 1 && r[..|events|] == events &&
      r[|events|].id == freshId && r[|events|].attendees == 0 && r[|events|].status == "Confirmado" &&
      r[|events|].title == f.title && r[|events|].date == f.date && r[|events|].time == f.time &&
      r[|events|].location == f.location && r[|events|].kind == f.kind
  {
  }

  /** Every accepted create or edit keeps ids unique and slots unshared, provided a
      created event gets an id no event has. */
  lemma SubmitKeepsSchedule(events: seq<Event>, blocks: seq<Block>, editing: Option<nat>,
                            f: EventForm, freshId: nat)
    requires WellScheduled(events)
    requires editing.None? ==> IsFreshId(events, freshId)
    ensures WellScheduled(EventsAfterSubmit(events, blocks, editing, f, freshId))
  {
    if SubmitOutcome(events, blocks, editing, f) == Saved {
      var r := EventsAfterSubmit(events, blocks, editing, f, freshId);
      match editing
      case Some(id) =>
        forall i, j | 0 <= i < j < |r| ensures Apart(r[i], r[j]) {
          assert Apart(events[i], events[j]);
          if events[i].id == id {
            assert !SameSlot(events[j], f.date, f.time, f.location);
          } else if events[j].id == id {
            assert !SameSlot(events[i], f.date, f.time, f.location);
          }
        }
      case None =>
        var n := NewEvent(freshId, f);
        forall i, j | 0 <= i < j < |r| ensures Apart(r[i], r[j]) {
          if j == |events| {
            assert r[i] == events[i] && r[j] == n;
            assert !SameSlot(events[i], f.date, f.time, f.location);
          } else {
            assert Apart(events[i], events[j]);
          }
        }
    }
  }

  // ---------------------------------------------------------------- delete and search

  /** Deleting removes exactly the events with that id and keeps the others in order. */
  lemma DeleteRemovesOnlyId(events: seq<Event>, id: nat)
    ensures var r := WithoutEvent(events, id);
      IsSubsequence(r, events) &&
      (forall i :: 0 <= i < |r| ==> r[i].id != id) &&
      (forall i :: 0 <= i < |events| && events[i].id != id ==> events[i] in r)
  {
    FilterIsSubsequence(events, (e: Event) => e.id != id);
  }

  /** Deleting keeps ids unique and slots unshared. */
  lemma DeleteKeepsSchedule(events: seq<Event>, id: nat)
    requires WellScheduled(events)
    ensures WellScheduled(WithoutEvent(events, id))
  {
    FilterKeepsPairwise(events, (e: Event) => e.id != id, Apart);
  }

  /** The search returns, in list order, the events whose title or location holds the
      query; an empty query returns every event. */
  lemma SearchIsOrderedSelection(events: seq<Event>, query: string)
    ensures var r := FilteredEvents(events, query);
      IsSubsequence(r, events) &&
      (forall i :: 0 <= i < |r| ==> MatchesIgnoringCase(r[i].title, query) || MatchesIgnoringCase(r[i].location, query)) &&
      (forall i :: 0 <= i < |events| && (MatchesIgnoringCase(events[i].title, query) || MatchesIgnoringCase(events[i].location, query))
         ==> events[i] in r)
    ensures query == "" ==> FilteredEvents(events, query) == events
  {
    var p := (e: Event) => MatchesIgnoringCase(e.title, query) || MatchesIgnoringCase(e.location, query);
    FilterIsSubsequence(events, p);
    if query == "" {
      forall i | 0 <= i < |events| ensures p(events[i]) {
        EmptyQueryMatches(events[i].title);
      }
      FilterKeepsAll(events, p);
    }
  }

  // ---------------------------------------------------------------- calendar

  /** A calendar day: the year, the month counted from 0, and the day of the month. */
  datatype Day = Day(year: nat, month: nat, day: nat)

  /** The month grid: `firstWeekday` empty cells (0 = Sunday) followed by the days
      1 to `dayCount` of the month. */
  method MonthCells(year: nat, month: nat, firstWeekday: nat, dayCount: nat) returns (days: seq<Option<Day>>)
    ensures |days| == firstWeekday + dayCount
    ensures forall i :: 0 <= i < firstWeekday ==> days[i] == None
    ensures forall i :: firstWeekday <= i < |days| ==> days[i] == Some(Day(year, month, i - firstWeekday + 1))
  {
    days := [];
    var i := 0;
    while i < firstWeekday
      invariant 0 <= i <= firstWeekday
      invariant |days| == i
      invariant forall j :: 0 <= j < i ==> days[j] == None
    {
      days := days + [None];
      i := i + 1;
    }
    var d := 1;
    while d <= dayCount
      invariant 1 <= d <= dayCount + 1
      invariant |days| == firstWeekday + d - 1
      invariant forall j :: 0 <= j < firstWeekday ==> days[j] == None
      invariant forall i :: firstWeekday <= i < |days| ==> days[i] == Some(Day(year, month, i - firstWeekday + 1))
    {
      days := days + [Some(Day(year, month, d))];
      d := d + 1;
    }
  }

  function DigitChar(d: nat): char
    requires d < 10
  {
    ('0' as int + d) as char
  }

  /** The decimal numeral of `n`, as `String(n)` writes it. */
  function Decimal(n: nat): (r: string)
    ensures 1 <= |r|
    ensures forall i :: 0 <= i < |r| ==> '0' <= r[i] <= '9'
    ensures |r| == 1 <==> n < 10
    ensures |r| == 2 <==> 10 <= n < 100
    decreases n
  {
    if n < 10 then [DigitChar(n)] else Decimal(n / 10) + [DigitChar(n % 10)]
  }

  /** `s.padStart(2, '0')`. */
  function PadTwo(s: string): (r: string)
    ensures |s| <= 2 ==> |r| == 2
    ensures |s| >= 2 ==> r == s
  {
    if |s| == 0 then "00" else if |s| == 1 then "0" + s else s
  }

  /** The `YYYY-MM-DD` key of a calendar cell. */
  function DateKey(d: Day): string
  {
    Decimal(d.year) + "-" + PadTwo(Decimal(d.month + 1)) + "-" + PadTwo(Decimal(d.day))
  }

  /** A cell of a four-digit year has the ten-character key of a date input. */
  lemma DateKeyShape(d: Day)
    requires 1000 <= d.year <= 9999 && d.month < 12 && 1 <= d.day <= 31
    ensures |DateKey(d)| == 10 && DateKey(d)[4] == '-' && DateKey(d)[7] == '-'
  {
    assert |Decimal(d.year / 10)| == 3 by {
      assert |Decimal(d.year / 100)| == 2;
    }
  }

  /** The events on a calendar cell; an empty cell has none. */
  function EventsForDate(events: seq<Event>, cell: Option<Day>): (r: seq<Event>)
    ensures cell.None? ==> r == []
    ensures cell.Some? ==> forall i :: 0 <= i < |r| ==> r[i] in events && r[i].date == DateKey(cell.value)
    ensures cell.Some? ==> forall i :: 0 <= i < |events| && events[i].date == DateKey(cell.value) ==> events[i] in r
    ensures IsSubsequence(r, events)
  {
    match cell
    case None => []
    case Some(d) =>
      FilterIsSubsequence(events, (e: Event) => e.date == DateKey(d));
      Filter(events, (e: Event) => e.date == DateKey(d))
  }

  // ---------------------------------------------------------------- blocked dates

  /** Every block has a date and a reason. */
  predicate BlocksComplete(blocked: seq<Block>)
  {
    forall i :: 0 <= i < |blocked| ==> blocked[i].date != "" && blocked[i].reason != ""
  }

  /** The blocks after `handleAddBlock`: appended only with both a date and a reason. */
  function BlocksAfterAdd(blocked: seq<Block>, b: Block): seq<Block>
  {
    if b.date != "" && b.reason != "" then blocked + [b] else blocked
  }

  // ---------------------------------------------------------------- page state

  /** The events seeded on page load, all in the current month `yearMonth` ("YYYY-MM"). */
  function SeedEvents(yearMonth: string): seq<Event>
  {
    [ Event(1, "Culto de Domingo", yearMonth + "-05", "18:00", "Templo Principal", "Culto", 150, "Confirmado"),
      Event(2, "Encontro de Jovens", yearMonth + "-10", "19:30", "Salão Anexo", "Jovens", 45, "Confirmado"),
      Event(3, "Reunião de Liderança", yearMonth + "-12", "20:00", "Sala 02", "Reunião", 12, "Pendente"),
      Event(4, "Ação Social - Entrega de Cestas", yearMonth + "-18", "09:00", "Comunidade Local", "Ação Social", 20, "Confirmado"),
      Event(5, "Escola Bíblica Dominical", yearMonth + "-05", "09:00", "Salas EBD", "Ensino", 80, "Confirmado") ]
  }

  /** The seeded events already satisfy the scheduling invariant. */
  lemma SeedIsWellScheduled(yearMonth: string)
    ensures WellScheduled(SeedEvents(yearMonth))
  {
    var s := SeedEvents(yearMonth);
    forall i, j | 0 <= i < j < |s| ensures Apart(s[i], s[j]) {
      var a, b := s[i].location, s[j].location;
      assert |a| != |b| || a[0] != b[0];
    }
  }

  class EventsPage {
    var events: seq<Event>
    var blocked: seq<Block>
    /** The id of the event whose edit form is open, if any. */
    var editing: Option<nat>

    constructor (yearMonth: string)
      ensures events == SeedEvents(yearMonth) && blocked == [] && editing == None
      ensures BlocksComplete(blocked)
    {
      events := SeedEvents(yearMonth);
      blocked := [];
      editing := None;
    }

    /** `handleAddEvent`: validate, then edit the open event or append a new one. */
    method AddEvent(f: EventForm, freshId: nat) returns (outcome: Outcome)
      modifies this
      ensures outcome == SubmitOutcome(old(events), old(blocked), old(editing), f)
      ensures events == EventsAfterSubmit(old(events), old(blocked), old(editing), f, freshId)
      ensures blocked == old(blocked)
      ensures editing == if outcome == Saved then None else old(editing)
      ensures WellScheduled(old(events)) && (old(editing).None? ==> IsFreshId(old(events), freshId))
              ==> WellScheduled(events)
    {
      if WellScheduled(events) && (editing.None? ==> IsFreshId(events, freshId)) {
        SubmitKeepsSchedule(events, blocked, editing, f, freshId);
      }
      if f.title == "" || f.date == "" || f.time == "" {
        return MissingField;
      }
      if IsBlocked(blocked, f.date) {
        return BlockedDate;
      }
      if HasConflict(events, f, editing) {
        return Conflict;
      }
      match editing {
        case Some(id) =>
          events := EditEvent(events, id, f);
        case None =>
          events := events + [NewEvent(freshId, f)];
      }
      editing := None;
      outcome := Saved;
    }

    /** `handleEdit`: open the form on an existing event. */
    method BeginEdit(e: Event) returns (f: EventForm)
      modifies this
      ensures editing == Some(e.id) && f == EditForm(e)
      ensures events == old(events) && blocked == old(blocked)
    {
      editing := Some(e.id);
      f := EditForm(e);
    }

    /** The form's close buttons: no event under edit and an empty form. */
    method CancelEdit() returns (f: EventForm)
      modifies this
      ensures editing == None && f == EmptyForm && events == old(events) && blocked == old(blocked)
    {
      editing := None;
      f := EmptyForm;
    }

    /** `handleAddBlock`: a block needs both a date and a reason. */
    method AddBlock(b: Block) returns (added: bool)
      modifies this
      ensures added == (b.date != "" && b.reason != "")
      ensures blocked == BlocksAfterAdd(old(blocked), b)
      ensures events == old(events) && editing == old(editing)
      ensures BlocksComplete(old(blocked)) ==> BlocksComplete(blocked)
    {
      if BlocksComplete(blocked) {
        BlocksAreComplete(blocked, b);
      }
      added := b.date != "" && b.reason != "";
      if added {
        blocked := blocked + [b];
      }
    }

    /** `handleDeleteEvent`: removes the event once the user confirms. */
    method DeleteEvent(id: nat, confirmed: bool)
      modifies this
      ensures events == if confirmed then WithoutEvent(old(events), id) else old(events)
      ensures blocked == old(blocked) && editing == old(editing)
    {
      if confirmed {
        events := WithoutEvent(events, id);
      }
    }
  }

  /** Adding a block keeps every stored block with a date and a reason. */
  lemma BlocksAreComplete(blocked: seq<Block>, b: Block)
    requires BlocksComplete(blocked)
    ensures BlocksComplete(BlocksAfterAdd(blocked, b))
  {
  }
}

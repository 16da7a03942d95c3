/**
 * `CalendarStore`: the in-memory calendar (core/calendar.py:64-197). The store
 * owns a dictionary from id to event; `order` is the dictionary's key order
 * (insertion order), which decides how `sorted` breaks ties in the queries.
 */
module Calendar {
  import opened Wrappers
  import opened LocalTime
  import opened Palette
  import opened Events
  import opened Ordering

  /** `ValueError` for an end before the start, `KeyError` for an unknown id, `TypeError` from `_as_datetime`. */
  datatype CalendarError = InvalidRange | NotFound | UnsupportedDate

  /** The dictionary's values in key order. */
  function ValuesOf(m: map<Id, Event>, ids: seq<Id>): (r: seq<Event>)
    requires forall id | id in ids :: id in m
    ensures |r| == |ids|
  {
    if ids == [] then [] else [m[ids[0]]] + ValuesOf(m, ids[1..])
  }

  /** Every event stored under distinct keys shows up exactly once among the values. */
  lemma {:induction false} ValuesOfCount(m: map<Id, Event>, ids: seq<Id>)
    requires forall id | id in ids :: id in m
    requires forall id | id in m :: m[id].id == id
    requires Distinct(ids)
    ensures forall e :: multiset(ValuesOf(m, ids))[e] == if e.id in ids && m[e.id] == e then 1 else 0
  {
    if ids != [] {
      var tail := ids[1..];
      ValuesOfCount(m, tail);
      DistinctTail(ids);
      forall e ensures multiset(ValuesOf(m, ids))[e] == if e.id in ids && m[e.id] == e then 1 else 0 {
        assert e.id in ids <==> e.id == ids[0] || e.id in tail;
        assert multiset(ValuesOf(m, ids))[e] == (if m[ids[0]] == e then 1 else 0) + multiset(ValuesOf(m, tail))[e];
      }
    }
  }

  /** `ids` without `id`, the others kept in order: the key order after `dict.pop(id)`. */
  function Without(ids: seq<Id>, id: Id): (r: seq<Id>)
    ensures forall x :: x in r <==> x in ids && x != id
    ensures Distinct(ids) ==> Distinct(r)
    ensures id !in ids ==> r == ids
  {
    if ids == [] then []
    else
      var rest := Without(ids[1..], id);
      assert Distinct(ids) ==> Distinct(ids[1..]) && ids[0] !in ids[1..] by {
        if Distinct(ids) {
          DistinctTail(ids);
        }
      }
      if ids[0] == id then rest else [ids[0]] + rest
  }

  /** The events whose start date lies in the day range [lo, hi]. */
  function StartingBetween(s: seq<Event>, lo: Day, hi: Day): (r: seq<Event>)
    ensures forall e :: multiset(r)[e] == if lo <= DayOf(e.start) <= hi then multiset(s)[e] else 0
  {
    Filter(s, (e: Event) => lo <= DayOf(e.start) <= hi)
  }

  /** The day listing over the values `v`: the events starting on `day`, sorted by start. */
  function DayListing(v: seq<Event>, day: Day): (r: seq<Event>)
    ensures SortedBy(ByStart, r)
    ensures forall e :: multiset(r)[e] == if DayOf(e.start) == day then multiset(v)[e] else 0
  {
    Sort(ByStart, StartingBetween(v, day, day))
  }

  /** The week listing over the values `v`: the events starting in the seven days from `weekStart`, sorted by (start, end). */
  function WeekListing(v: seq<Event>, weekStart: Day): (r: seq<Event>)
    ensures SortedBy(ByStartEnd, r)
    ensures forall e :: multiset(r)[e] == if weekStart <= DayOf(e.start) <= weekStart + 6 then multiset(v)[e] else 0
  {
    Sort(ByStartEnd, StartingBetween(v, weekStart, weekStart + 6))
  }

  /** A day's listing is part of its week's listing, which is part of the values. */
  lemma DayWithinWeekWithinValues(v: seq<Event>, day: Day)
    ensures multiset(DayListing(v, day)) <= multiset(WeekListing(v, WeekStart(day))) <= multiset(v)
    ensures |DayListing(v, day)| <= |WeekListing(v, WeekStart(day))| <= |v|
  {
    var ws := WeekStart(day);
    var a, b := DayListing(v, day), WeekListing(v, ws);
    forall e: Event
      ensures multiset(a)[e] <= multiset(b)[e] <= multiset(v)[e]
    {
      if DayOf(e.start) == day {
        assert ws <= DayOf(e.start) <= ws + 6;
      }
    }
    SubMultisetSize(a, b);
    SubMultisetSize(b, v);
  }

  /** A sequence whose multiset is contained in another's is no longer. */
  lemma SubMultisetSize(a: seq<Event>, b: seq<Event>)
    requires multiset(a) <= multiset(b)
    ensures |a| <= |b|
  {
    assert multiset(b) == multiset(a) + (multiset(b) - multiset(a));
    assert |multiset(b)| == |multiset(a)| + |multiset(b) - multiset(a)|;
  }

  /** Summary given to an imported event without SUMMARY. */
  const DEFAULT_SUMMARY: string := "Wydarzenie"

  /** A component of the parsed calendar as `Calendar.walk()` yields it, with its properties decoded. */
  datatype Component = Component(
    name: string,
    summary: Option<string>,
    description: Option<string>,
    dtstart: Option<IcsValue>,
    dtend: Option<IcsValue>)

  /** The arguments `import_ics` passes to `add_event` for one component. */
  datatype Draft = Draft(title: string, startDt: DateTime, endDt: DateTime, description: string)

  /** The event `add_event` stores for an imported component. */
  function DraftEvent(id: Id, d: Draft): Event {
    NewEvent(id, d.title, d.startDt, d.endDt, DEFAULT_COLOR_KEY, d.description)
  }

  /** Whether `add_event` accepts the draft. */
  predicate DraftInRange(d: Draft) {
    LocalInstant(d.startDt) <= LocalInstant(d.endDt)
  }

  predicate HasStart(c: Component) {
    c.name == "VEVENT" && c.dtstart.Some?
  }

  /**
   * What one pass of the import loop makes of a component: `None` when it is
   * skipped, a failure when a date value has an unsupported type, otherwise the
   * event to add. A missing DTEND is DTSTART plus one hour.
   */
  function DecodeComponent(c: Component): (r: Option<Result<Draft, CalendarError>>)
    ensures r.None? <==> !HasStart(c)
    ensures r.Some? && r.value.Failure? ==> r.value.error == UnsupportedDate
    ensures r.Some? && r.value.Failure? <==>
      HasStart(c) && (c.dtstart.value.OtherValue? || (c.dtend.Some? && c.dtend.value.OtherValue?))
    ensures r.Some? && r.value.Success? ==>
      var d := r.value.value;
      && d.title == c.summary.GetOr(DEFAULT_SUMMARY)
      && d.description == c.description.GetOr("")
      && LocalInstant(d.startDt) == AsDatetime(c.dtstart.value).value.wall
      && (c.dtend.None? ==> LocalInstant(d.endDt) == LocalInstant(d.startDt) + MICROS_PER_HOUR)
      && (c.dtend.Some? ==> LocalInstant(d.endDt) == AsDatetime(c.dtend.value).value.wall)
  {
    if c.name != "VEVENT" || c.dtstart.None? then None
    else
      var summary := c.summary.GetOr(DEFAULT_SUMMARY);
      var description := c.description.GetOr("");
      match AsDatetime(c.dtstart.value)
      case None => Some(Failure(UnsupportedDate))
      case Some(startDt) =>
        if c.dtend.None? then Some(Success(Draft(summary, startDt, AddMicros(startDt, MICROS_PER_HOUR), description)))
        else
          match AsDatetime(c.dtend.value)
          case None => Some(Failure(UnsupportedDate))
          case Some(endDt) => Some(Success(Draft(summary, startDt, endDt, description)))
  }

  /** The number of VEVENT components that carry a DTSTART. */
  function CountWithStart(cs: seq<Component>): nat {
    if cs == [] then 0 else (if HasStart(cs[0]) then 1 else 0) + CountWithStart(cs[1..])
  }

  /** What one pass of the import loop does with a component. */
  datatype Step = Skip | Stop(error: CalendarError) | Accept(draft: Draft)

  /**
   * The step for a component: a component without a start is skipped; a date
   * value of unsupported type, or a draft `add_event` refuses, stops the
   * import; any other draft is added.
   */
  function StepOf(c: Component): (s: Step)
    ensures s.Skip? <==> !HasStart(c)
    ensures s.Accept? <==> DecodeComponent(c).Some? && DecodeComponent(c).value.Success? && DraftInRange(DecodeComponent(c).value.value)
    ensures s.Accept? ==> DecodeComponent(c) == Some(Success(s.draft))
    ensures s.Stop? ==> s.error == if DecodeComponent(c).value.Failure? then UnsupportedDate else InvalidRange
  {
    match DecodeComponent(c)
    case None => Skip
    case Some(Failure(e)) => Stop(e)
    case Some(Success(d)) => if DraftInRange(d) then Accept(d) else Stop(InvalidRange)
  }

  /** The events an import adds, in order, and the error that stops it, if any. */
  datatype ImportPlan = ImportPlan(drafts: seq<Draft>, failure: Option<CalendarError>)

  /**
   * The outcome of `import_ics` over the walked components: the drafts of all
   * components with a start are added in order until one is refused; the error
   * then propagates and the drafts before it stay added.
   */
  function ImportSpec(cs: seq<Component>): (p: ImportPlan)
    ensures forall d | d in p.drafts :: DraftInRange(d)
    ensures p.failure.None? ==> |p.drafts| == CountWithStart(cs)
    ensures p.failure.Some? ==> |p.drafts| < CountWithStart(cs)
  {
    if cs == [] then ImportPlan([], None)
    else
      match StepOf(cs[0])
      case Skip => ImportSpec(cs[1..])
      case Stop(e) => ImportPlan([], Some(e))
      case Accept(d) =>
        var rest := ImportSpec(cs[1..]);
        ImportPlan([d] + rest.drafts, rest.failure)
  }

  /** After the first `i` components, `accepted` are the drafts added so far and the rest of the plan comes from the remaining components. */
  ghost predicate PlanSplit(cs: seq<Component>, i: nat, accepted: seq<Draft>)
    requires i <= |cs|
  {
    ImportSpec(cs) == ImportPlan(accepted + ImportSpec(cs[i..]).drafts, ImportSpec(cs[i..]).failure)
  }

  /** A component without a start is skipped. */
  lemma {:induction false} PlanSkip(cs: seq<Component>, i: nat, accepted: seq<Draft>)
    requires i < |cs| && PlanSplit(cs, i, accepted) && StepOf(cs[i]).Skip?
    ensures PlanSplit(cs, i + 1, accepted)
  {
    assert cs[i..][1..] == cs[i + 1..];
  }

  /** A component whose draft is accepted moves that draft to the added ones. */
  lemma {:induction false} PlanAccept(cs: seq<Component>, i: nat, accepted: seq<Draft>, d: Draft)
    requires i < |cs| && PlanSplit(cs, i, accepted) && StepOf(cs[i]) == Accept(d)
    ensures PlanSplit(cs, i + 1, accepted + [d])
  {
    assert cs[i..][1..] == cs[i + 1..];
    var rest := ImportSpec(cs[i + 1..]);
    assert ImportSpec(cs[i..]) == ImportPlan([d] + rest.drafts, rest.failure);
    assert accepted + ([d] + rest.drafts) == (accepted + [d]) + rest.drafts;
  }

  /** A component that cannot be decoded or added stops the import with its error. */
  lemma {:induction false} PlanStop(cs: seq<Component>, i: nat, accepted: seq<Draft>, e: CalendarError)
    requires i < |cs| && PlanSplit(cs, i, accepted) && StepOf(cs[i]) == Stop(e)
    ensures ImportSpec(cs) == ImportPlan(accepted, Some(e))
  {
    assert ImportSpec(cs[i..]) == ImportPlan([], Some(e));
    assert accepted + [] == accepted;
  }

  /** Once every component is consumed the import succeeds with the drafts added. */
  lemma PlanDone(cs: seq<Component>, accepted: seq<Draft>)
    requires PlanSplit(cs, |cs|, accepted)
    ensures ImportSpec(cs) == ImportPlan(accepted, None)
  {
    assert cs[|cs|..] == [];
    assert accepted + [] == accepted;
  }

  /**
   * `m` is `m0` with `values` added under the fresh ids `added`, position by
   * position, and nothing else changed.
   */
  ghost predicate AddsValues(m0: map<Id, Event>, m: map<Id, Event>, added: seq<Id>, values: seq<Event>) {
    && |added| == |values|
    && (forall id | id in m0 :: id in m && m[id] == m0[id])
    && (forall j | 0 <= j < |added| :: added[j] !in m0 && added[j] in m && m[added[j]] == values[j])
    && (forall id | id in m :: id in m0 || id in added)
  }

  /** The events the drafts become under the ids they were given, position by position. */
  function DraftEvents(ids: seq<Id>, drafts: seq<Draft>): (r: seq<Event>)
    requires |ids| == |drafts|
    ensures |r| == |ids|
    ensures forall j | 0 <= j < |r| :: r[j] == DraftEvent(ids[j], drafts[j])
  {
    MapPairs(DraftEvent, ids, drafts)
  }

  lemma DraftEventsSnoc(ids: seq<Id>, drafts: seq<Draft>, id: Id, d: Draft)
    requires |ids| == |drafts|
    ensures DraftEvents(ids + [id], drafts + [d]) == DraftEvents(ids, drafts) + [DraftEvent(id, d)]
  {
    MapPairsSnoc(DraftEvent, ids, drafts, id, d);
  }

  /** Adding one more value under a fresh id extends the record of added values. */
  lemma AddsValuesStep(m0: map<Id, Event>, m: map<Id, Event>, added: seq<Id>, values: seq<Event>, id: Id, e: Event)
    requires AddsValues(m0, m, added, values) && id !in m
    ensures AddsValues(m0, m[id := e], added + [id], values + [e])
  {
    var m' := m[id := e];
    var added', values' := added + [id], values + [e];
    forall j | 0 <= j < |added'|
      ensures added'[j] !in m0 && added'[j] in m' && m'[added'[j]] == values'[j]
    {
      if j < |added| {
        assert added'[j] == added[j] && values'[j] == values[j];
        assert added[j] in m && added[j] != id;
      }
    }
  }

  /**
   * The state of the import loop after the first `i` components: `accepted`
   * are the drafts added so far, each under the id at the same position of
   * `added`; the store `m`, `o` is `m0`, `o0` with those events added and their
   * ids appended.
   */
  ghost predicate ImportProgress(
    cs: seq<Component>, i: nat, accepted: seq<Draft>,
    m0: map<Id, Event>, o0: seq<Id>, m: map<Id, Event>, o: seq<Id>, added: seq<Id>)
  {
    && i <= |cs| && PlanSplit(cs, i, accepted)
    && |added| == |accepted|
    && o == o0 + added
    && AddsValues(m0, m, added, DraftEvents(added, accepted))
  }

  /** A skipped component leaves the import where it was. */
  lemma ImportSkipStep(
    cs: seq<Component>, i: nat, accepted: seq<Draft>,
    m0: map<Id, Event>, o0: seq<Id>, m: map<Id, Event>, o: seq<Id>, added: seq<Id>)
    requires i < |cs| && ImportProgress(cs, i, accepted, m0, o0, m, o, added) && StepOf(cs[i]).Skip?
    ensures ImportProgress(cs, i + 1, accepted, m0, o0, m, o, added)
  {
    PlanSkip(cs, i, accepted);
  }

  /**
   * An accepted component: its draft joins the accepted ones, the event it
   * becomes is stored under the fresh id, and the id extends the order.
   */
  lemma ImportAcceptStep(
    cs: seq<Component>, i: nat, accepted: seq<Draft>, d: Draft,
    m0: map<Id, Event>, o0: seq<Id>, m: map<Id, Event>, o: seq<Id>, added: seq<Id>, id: Id)
    requires i < |cs| && ImportProgress(cs, i, accepted, m0, o0, m, o, added) && StepOf(cs[i]) == Accept(d)
    requires id !in m
    ensures ImportProgress(cs, i + 1, accepted + [d], m0, o0, m[id := DraftEvent(id, d)], o + [id], added + [id])
  {
    PlanAccept(cs, i, accepted, d);
    ConcatAssoc(o0, added, [id]);
    AddsValuesStep(m0, m, added, DraftEvents(added, accepted), id, DraftEvent(id, d));
    DraftEventsSnoc(added, accepted, id, d);
  }

  /** A component that stops the import leaves the drafts accepted so far as the whole plan. */
  lemma ImportStopStep(
    cs: seq<Component>, i: nat, accepted: seq<Draft>, e: CalendarError,
    m0: map<Id, Event>, o0: seq<Id>, m: map<Id, Event>, o: seq<Id>, added: seq<Id>)
    requires i < |cs| && ImportProgress(cs, i, accepted, m0, o0, m, o, added) && StepOf(cs[i]) == Stop(e)
    ensures ImportSpec(cs) == ImportPlan(accepted, Some(e))
  {
    PlanStop(cs, i, accepted, e);
  }

  /**
   * An import keeps every stored event ordered: what it adds are the events of
   * drafts that passed the range check.
   */
  lemma ImportKeepsOrdered(cs: seq<Component>, m0: map<Id, Event>, m: map<Id, Event>, added: seq<Id>)
    requires |added| == |ImportSpec(cs).drafts| && AddsValues(m0, m, added, DraftEvents(added, ImportSpec(cs).drafts))
    requires AllOrdered(m0)
    ensures AllOrdered(m)
  {
    var drafts := ImportSpec(cs).drafts;
    forall id | id in m
      ensures Ordered(m[id])
    {
      if id !in m0 {
        var j :| 0 <= j < |added| && added[j] == id;
        assert drafts[j] in drafts;
      }
    }
  }

  /** A bound above every id in use, so that a fresh id exists. */
  ghost function IdBound(ids: set<Id>): (b: Id)
    ensures forall id | id in ids :: id < b
    decreases ids
  {
    if ids == {} then 0
    else
      var x :| x in ids;
      var b := IdBound(ids - {x});
      var r := if b > x then b else x + 1;
      assert forall id | id in ids :: id == x || id in ids - {x};
      r
  }

  /** Each event is stored under its own id, and `order` lists each key once. */
  ghost predicate WellFormed(m: map<Id, Event>, order: seq<Id>) {
    && (forall id | id in m :: m[id].id == id)
    && Distinct(order)
    && (forall id :: id in m <==> id in order)
  }

  /** The insertion order lists each stored id exactly once. */
  lemma WellFormedSize(m: map<Id, Event>, order: seq<Id>)
    requires WellFormed(m, order)
    ensures |m| == |order|
  {
    DistinctCardinality(order, m.Keys);
  }

  /** Every stored event ends no earlier than it starts. */
  ghost predicate AllOrdered(m: map<Id, Event>) {
    forall id | id in m :: Ordered(m[id])
  }

  /** Replacing a stored event by one with the same id keeps the store well formed. */
  lemma ReplaceKeepsWellFormed(m: map<Id, Event>, order: seq<Id>, e: Event)
    requires WellFormed(m, order) && e.id in m
    ensures WellFormed(m[e.id := e], order)
  {
  }

  /** Storing an ordered event under a fresh id at the end of the key order keeps the store well formed. */
  lemma InsertKeepsWellFormed(m: map<Id, Event>, order: seq<Id>, e: Event)
    requires WellFormed(m, order) && e.id !in m
    ensures WellFormed(m[e.id := e], order + [e.id])
  {
    var o := order + [e.id];
    forall i, j | 0 <= i < j < |o| ensures o[i] != o[j] {
      if j == |order| {
        assert o[i] == order[i];
        assert order[i] in m;
      }
    }
  }

  /** Replacing or adding an ordered event keeps every event ordered. */
  lemma PutKeepsOrdered(m: map<Id, Event>, e: Event)
    requires AllOrdered(m) && Ordered(e)
    ensures AllOrdered(m[e.id := e])
  {
  }

  class CalendarStore {
    var events: map<Id, Event>
    var order: seq<Id>
    /**
     * Every id `add_event` has drawn so far: the history of the id source,
     * which, like `uuid4`, never hands out the same id twice.
     */
    var issued: set<Id>

    ghost predicate Valid()
      reads this
    {
      WellFormed(events, order) && events.Keys <= issued
    }

    /** `e` is the event stored under its id. */
    predicate Stores(e: Event)
      reads this
    {
      e.id in events && events[e.id] == e
    }

    ghost predicate IntervalsOrdered()
      reads this
    {
      AllOrdered(events)
    }

    constructor ()
      ensures Valid() && IntervalsOrdered()
      ensures events == map[] && order == [] && issued == {}
    {
      events := map[];
      order := [];
      issued := {};
    }

    /** `self._events.values()`, in insertion order. */
    function Values(): (r: seq<Event>)
      reads this
      requires Valid()
      ensures |r| == |events|
      ensures forall e :: multiset(r)[e] == if Stores(e) then 1 else 0
    {
      ValuesOfCount(events, order);
      WellFormedSize(events, order);
      ValuesOf(events, order)
    }

    /**
     * `add_event`: on success, exactly one event is added, under an id never
     * drawn before, holding the normalised arguments; when the normalised end is before
     * the normalised start nothing changes and `ValueError` is raised.
     */
    method AddEvent(title: string, startDt: DateTime, endDt: DateTime, colorKey: string, description: string)
      returns (r: Result<Id, CalendarError>)
      requires Valid()
      modifies this
      ensures Valid()
      ensures r.Failure? <==> LocalInstant(endDt) < LocalInstant(startDt)
      ensures r.Failure? ==> r.error == InvalidRange && events == old(events) && order == old(order)
      ensures old(issued) <= issued
      ensures r.Success? ==>
        && r.value !in old(issued) && r.value in issued
        && r.value !in old(events)
        && events == old(events)[r.value := NewEvent(r.value, title, startDt, endDt, colorKey, description)]
        && order == old(order) + [r.value]
        && GetEvent(r.value) == Some(NewEvent(r.value, title, startDt, endDt, colorKey, description))
      ensures old(IntervalsOrdered()) ==> IntervalsOrdered()
    {
      var bound := IdBound(issued);
      assert bound !in issued;
      var id: Id :| id !in issued;
      issued := issued + {id};
      var event := NewEvent(id, title, startDt, endDt, colorKey, description);
      if event.end < event.start {
        return Failure(InvalidRange);
      }
      InsertKeepsWellFormed(events, order, event);
      if AllOrdered(events) {
        PutKeepsOrdered(events, event);
      }
      events := events[id := event];
      order := order + [id];
      return Success(id);
    }

    /**
     * `update_event`: an unknown id raises `KeyError` and changes nothing.
     * Otherwise the passed fields are assigned one by one and only then is the
     * range checked, so a refused update still leaves its values stored.
     */
    method UpdateEvent(id: Id, patch: Patch) returns (r: Outcome<CalendarError>)
      requires Valid()
      modifies this
      ensures Valid() && order == old(order) && issued == old(issued)
      ensures id !in old(events) ==> r == Fail(NotFound) && events == old(events)
      ensures id in old(events) ==>
        && events == old(events)[id := ApplyPatch(old(events)[id], patch)]
        && r == if Ordered(events[id]) then Pass else Fail(InvalidRange)
      ensures r.Pass? && old(IntervalsOrdered()) ==> IntervalsOrdered()
    {
      if id !in events {
        return Fail(NotFound);
      }
      // The passed fields are assigned to the stored event, in the order
      // `ApplyPatch` assigns them, before the range is checked.
      var event := ApplyPatch(events[id], patch);
      ReplaceKeepsWellFormed(events, order, event);
      if Ordered(event) && AllOrdered(events) {
        PutKeepsOrdered(events, event);
      }
      events := events[id := event];
      if event.end < event.start {
        return Fail(InvalidRange);
      }
      return Pass;
    }

    /** `remove_event`: drops the id if present; an absent id is not an error and changes nothing. */
    method RemoveEvent(id: Id)
      requires Valid()
      modifies this
      ensures Valid() && issued == old(issued)
      ensures events == old(events) - {id}
      ensures order == Without(old(order), id)
      ensures id !in old(events) ==> events == old(events) && order == old(order)
      ensures old(IntervalsOrdered()) ==> IntervalsOrdered()
    {
      events := events - {id};
      order := Without(order, id);
    }

    /** `get_event`: the stored event, or `None` for an unknown id. */
    function GetEvent(id: Id): (r: Option<Event>)
      reads this
      requires Valid()
      ensures r.Some? <==> id in events
      ensures r.Some? ==> Stores(r.value) && r.value.id == id
    {
      if id in events then Some(events[id]) else None
    }

    /**
     * `all_events`: every stored event once, ascending by start; events with the
     * same start keep their insertion order.
     */
    function AllEvents(): (r: seq<Event>)
      reads this
      requires Valid()
      ensures SortedBy(ByStart, r)
      ensures |r| == |events|
      ensures forall e :: multiset(r)[e] == if Stores(e) then 1 else 0
      ensures forall k :: WithKey(ByStart, r, k) == WithKey(ByStart, Values(), k)
    {
      SortIsStable(ByStart, Values());
      Sort(ByStart, Values())
    }

    /**
     * `events_for_day`: exactly the stored events that start on the given date,
     * ascending by start; events with the same start keep their insertion order.
     */
    function EventsForDay(day: DateLike): (r: seq<Event>)
      reads this
      requires Valid()
      ensures SortedBy(ByStart, r)
      ensures forall e :: multiset(r)[e] == if Stores(e) && DayOf(e.start) == NormalizeToDate(day) then 1 else 0
      ensures forall k :: WithKey(ByStart, r, k) == WithKey(ByStart, StartingBetween(Values(), NormalizeToDate(day), NormalizeToDate(day)), k)
    {
      SortIsStable(ByStart, StartingBetween(Values(), NormalizeToDate(day), NormalizeToDate(day)));
      DayListing(Values(), NormalizeToDate(day))
    }

    /**
     * `events_for_week`: exactly the stored events whose start date lies in the
     * Monday-to-Sunday week of the given date, ascending by (start, end); events
     * with the same start and end keep their insertion order.
     */
    function EventsForWeek(day: DateLike): (r: seq<Event>)
      reads this
      requires Valid()
      ensures SortedBy(ByStartEnd, r)
      ensures forall e :: multiset(r)[e] == if Stores(e) && InWeekOf(e, day) then 1 else 0
      ensures var ws := WeekStart(NormalizeToDate(day));
        forall k :: WithKey(ByStartEnd, r, k) == WithKey(ByStartEnd, StartingBetween(Values(), ws, ws + 6), k)
    {
      SortIsStable(ByStartEnd, StartingBetween(Values(), WeekStart(NormalizeToDate(day)), WeekStart(NormalizeToDate(day)) + 6));
      WeekListing(Values(), WeekStart(NormalizeToDate(day)))
    }

    /** The event starts in the Monday-to-Sunday week that holds the given date. */
    static predicate InWeekOf(e: Event, day: DateLike) {
      WeekStart(NormalizeToDate(day)) <= DayOf(e.start) <= WeekStart(NormalizeToDate(day)) + 6
    }

    /** The week listing depends on the date only through the Monday that starts its week. */
    lemma EventsForWeekByWeekStart(day: DateLike)
      requires Valid()
      ensures EventsForWeek(day) == WeekListing(Values(), WeekStart(NormalizeToDate(day)))
    {
    }

    /** Every date of one Monday-based week gives the same week listing. */
    lemma SameWeekSameEvents(d: DateLike, e: DateLike)
      requires Valid()
      requires WeekStart(NormalizeToDate(d)) <= NormalizeToDate(e) <= WeekStart(NormalizeToDate(d)) + 6
      ensures EventsForWeek(e) == EventsForWeek(d)
    {
      WeekStartConstantOnWeek(NormalizeToDate(d), NormalizeToDate(e));
      EventsForWeekByWeekStart(d);
      EventsForWeekByWeekStart(e);
    }

    /** The day listing is part of the week listing, which is part of all events. */
    lemma DayWithinWeekWithinAll(day: DateLike)
      requires Valid()
      ensures multiset(EventsForDay(day)) <= multiset(EventsForWeek(day)) <= multiset(AllEvents())
      ensures |EventsForDay(day)| <= |EventsForWeek(day)| <= |AllEvents()|
    {
      DayWithinWeekWithinValues(Values(), NormalizeToDate(day));
      EventsForWeekByWeekStart(day);
      assert EventsForDay(day) == DayListing(Values(), NormalizeToDate(day));
    }

    /**
     * `import_ics` over the walked components: returns how many events it added
     * (`added` names their ids), or the error that stopped it, in which case the
     * events added before it stay stored.
     */
    method ImportIcs(components: seq<Component>) returns (r: Result<nat, CalendarError>, ghost added: seq<Id>)
      requires Valid()
      modifies this
      ensures Valid()
      ensures var plan := ImportSpec(components);
        && r == (if plan.failure.None? then Success(|plan.drafts|) else Failure(plan.failure.value))
        && order == old(order) + added
        && |added| == |plan.drafts|
        && AddsValues(old(events), events, added, DraftEvents(added, plan.drafts))
      ensures old(issued) <= issued
    {
      var imported: nat := 0;
      added := [];
      ghost var accepted: seq<Draft> := [];
      var i := 0;
      while i < |components|
        invariant Valid()
        invariant ImportProgress(components, i, accepted, old(events), old(order), events, order, added)
        invariant imported == |added|
        invariant old(issued) <= issued
      {
        ghost var before, beforeOrder := events, order;
        var outcome := ImportComponent(components[i]);
        if outcome.None? {
          ImportSkipStep(components, i, accepted, old(events), old(order), events, order, added);
        } else if outcome.value.Failure? {
          ImportStopStep(components, i, accepted, outcome.value.error, old(events), old(order), events, order, added);
          return Failure(outcome.value.error), added;
        } else {
          var id := outcome.value.value;
          ghost var draft := StepOf(components[i]).draft;
          ImportAcceptStep(components, i, accepted, draft, old(events), old(order), before, beforeOrder, added, id);
          added := added + [id];
          accepted := accepted + [draft];
          imported := imported + 1;
        }
        i := i + 1;
      }
      PlanDone(components, accepted);
      return Success(imported), added;
    }

    /**
     * One pass of the `import_ics` loop: a component without a start is skipped
     * (`None`) and changes nothing; an unsupported date value or a refused range
     * is the error that stops the import, with nothing changed; otherwise the
     * decoded draft is added under a fresh id, which is returned.
     */
    method ImportComponent(component: Component) returns (r: Option<Result<Id, CalendarError>>)
      requires Valid()
      modifies this
      ensures Valid()
      ensures r.None? <==> StepOf(component).Skip?
      ensures r.Some? && r.value.Failure? <==> StepOf(component).Stop?
      ensures r.Some? && r.value.Failure? ==> r.value.error == StepOf(component).error
      ensures r.None? || (r.Some? && r.value.Failure?) ==> events == old(events) && order == old(order)
      ensures old(issued) <= issued
      ensures r.Some? && r.value.Success? ==>
        && StepOf(component).Accept?
        && r.value.value !in old(issued)
        && r.value.value !in old(events)
        && events == old(events)[r.value.value := DraftEvent(r.value.value, StepOf(component).draft)]
        && order == old(order) + [r.value.value]
    {
      if component.name != "VEVENT" {
        return None;
      }
      var summary := component.summary.GetOr(DEFAULT_SUMMARY);
      var description := component.description.GetOr("");
      if component.dtstart.None? {
        return None;
      }
      var startDt := AsDatetime(component.dtstart.value);
      if startDt.None? {
        return Some(Failure(UnsupportedDate));
      }
      var endDt: DateTime;
      if component.dtend.None? {
        endDt := AddMicros(startDt.value, MICROS_PER_HOUR);
      } else {
        var decodedEnd := AsDatetime(component.dtend.value);
        if decodedEnd.None? {
          return Some(Failure(UnsupportedDate));
        }
        endDt := decodedEnd.value;
      }
      ghost var draft := Draft(summary, startDt.value, endDt, description);
      assert DecodeComponent(component) == Some(Success(draft));
      var outcome := AddEvent(summary, startDt.value, endDt, DEFAULT_COLOR_KEY, description);
      if outcome.Failure? {
        return Some(Failure(outcome.error));
      }
      return Some(Success(outcome.value));
    }
  }

  /**
   * An id stays used after its event is removed: the next event added is
   * stored under a different id, as a fresh `uuid4` would be.
   */
  method RemovedIdIsNotReissued(title: string, startDt: DateTime, endDt: DateTime) returns (first: Id, second: Id)
    requires LocalInstant(startDt) <= LocalInstant(endDt)
    ensures first != second
  {
    var store := new CalendarStore();
    var r := store.AddEvent(title, startDt, endDt, DEFAULT_COLOR_KEY, "");
    first := r.value;
    store.RemoveEvent(first);
    r := store.AddEvent(title, startDt, endDt, DEFAULT_COLOR_KEY, "");
    second := r.value;
  }
}

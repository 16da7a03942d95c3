/**
 * The dashboard of the home screen (ui/home_view.py:180-241): the three
 * counters, the events of the coming seven days, the card for the next event
 * and the list of at most six upcoming entries. Widgets, fonts and the text
 * formatting of times are rendering and are not modelled; what a card or a
 * list row shows is modelled as a value.
 */
module Home {
  import opened Wrappers
  import opened LocalTime
  import opened Palette
  import opened Events
  import opened Ordering
  import opened Calendar

  /** How far ahead the dashboard looks: seven days. */
  const HORIZON: int := 7 * MICROS_PER_DAY

  /** The number of entries the upcoming list shows at most. */
  const MAX_ROWS: nat := 6

  /** Placeholder texts of the next-event card and of the empty upcoming list. */
  const NO_EVENTS_VALUE: string := "Brak zaplanowanych"
  const NO_EVENTS_HINT: string := "Dodaj wydarzenie, aby pojawi\U{0142}y si\U{0119} tutaj."
  const NO_EVENTS_ROW: string := "Brak zaplanowanych wydarze\U{0144}"

  /** The event is neither over before `now` nor starting after the horizon. */
  predicate Upcoming(e: Event, now: Instant) {
    !(e.end < now || e.start > now + HORIZON)
  }

  /** `Upcoming` as the filter the dashboard applies. */
  function UpcomingAt(now: Instant): Event -> bool {
    (e: Event) => Upcoming(e, now)
  }

  /**
   * What `_collect_upcoming_events` returns: the events overlapping the seven
   * days from `now`, both ends included, each as often as in the input, in
   * ascending order of start with ties in input order.
   */
  function UpcomingEvents(events: seq<Event>, now: Instant): (r: seq<Event>)
    ensures SortedBy(ByStart, r)
    ensures forall e :: multiset(r)[e] == if Upcoming(e, now) then multiset(events)[e] else 0
    ensures forall k :: WithKey(ByStart, r, k) == WithKey(ByStart, Filter(events, UpcomingAt(now)), k)
  {
    SortIsStable(ByStart, Filter(events, UpcomingAt(now)));
    Sort(ByStart, Filter(events, UpcomingAt(now)))
  }

  /** Filtering one element more of `events` keeps that element exactly when it is upcoming. */
  lemma UpcomingPrefixStep(events: seq<Event>, i: nat, now: Instant)
    requires i < |events|
    ensures Filter(events[..i + 1], UpcomingAt(now))
      == Filter(events[..i], UpcomingAt(now)) + (if Upcoming(events[i], now) then [events[i]] else [])
  {
    TakeSnoc(events, i);
    FilterSnoc(events[..i], events[i], UpcomingAt(now));
  }

  /** `_collect_upcoming_events`: keeps the events in the window one by one, then sorts them by start. */
  method CollectUpcoming(events: seq<Event>, now: Instant) returns (r: seq<Event>)
    ensures r == UpcomingEvents(events, now)
  {
    var upcoming: seq<Event> := [];
    for i := 0 to |events|
      invariant upcoming == Filter(events[..i], UpcomingAt(now))
    {
      var event := events[i];
      UpcomingPrefixStep(events, i, now);
      if !(event.end < now || event.start > now + HORIZON) {
        upcoming := upcoming + [event];
      }
    }
    assert events[..|events|] == events;
    return Sort(ByStart, upcoming);
  }

  /**
   * An event that ends exactly at `now`, or starts exactly at the horizon, is
   * still upcoming; one that ends a microsecond before `now` or starts a microsecond after
   * the horizon is not.
   */
  lemma UpcomingBoundaries(events: seq<Event>, now: Instant, e: Event)
    requires e in events && Ordered(e)
    ensures e.end == now || e.start == now + HORIZON ==> e in UpcomingEvents(events, now)
    ensures e.end == now - 1 || e.start == now + HORIZON + 1 ==> e !in UpcomingEvents(events, now)
  {
    var r := UpcomingEvents(events, now);
    assert multiset(events)[e] > 0;
    assert e in r <==> multiset(r)[e] > 0;
  }

  /** What the next-event card shows: the placeholder, or the window and title of one event. */
  datatype NextCard = NothingPlanned(value: string, hint: string) | NextUp(start: Instant, end: Instant, title: string)

  /** `_update_next_card` on the upcoming events. */
  function NextCardOf(upcoming: seq<Event>): (c: NextCard)
    ensures c.NothingPlanned? <==> upcoming == []
    ensures c.NothingPlanned? ==> c == NothingPlanned(NO_EVENTS_VALUE, NO_EVENTS_HINT)
    ensures c.NextUp? ==> c == NextUp(upcoming[0].start, upcoming[0].end, upcoming[0].title)
  {
    if upcoming == [] then NothingPlanned(NO_EVENTS_VALUE, NO_EVENTS_HINT)
    else NextUp(upcoming[0].start, upcoming[0].end, upcoming[0].title)
  }

  /**
   * The card shows an upcoming event that starts no later than any other
   * upcoming event, and the placeholder only when nothing is upcoming.
   */
  lemma NextCardIsEarliest(events: seq<Event>, now: Instant)
    ensures var c := NextCardOf(UpcomingEvents(events, now));
      && (c.NothingPlanned? <==> forall e | e in events :: !Upcoming(e, now))
      && (c.NextUp? ==> exists e | e in events :: Upcoming(e, now) && e.start == c.start && e.end == c.end && e.title == c.title)
      && (c.NextUp? ==> forall e | e in events && Upcoming(e, now) :: c.start <= e.start)
  {
    var r := UpcomingEvents(events, now);
    forall e | e in events
      ensures Upcoming(e, now) <==> e in r
    {
      assert multiset(events)[e] > 0;
    }
    if r != [] {
      var first := r[0];
      assert multiset(r)[first] > 0;
      assert first in events && Upcoming(first, now);
      forall e | e in events && Upcoming(e, now)
        ensures first.start <= e.start
      {
        var j :| 0 <= j < |r| && r[j] == e;
        if j > 0 {
          assert Before(ByStart, r[0], r[j]);
        }
      }
    } else {
      forall e | e in events
        ensures !Upcoming(e, now)
      {
        assert e !in r;
      }
    }
  }

  /** One entry of the upcoming list. */
  datatype Row =
    | Placeholder(text: string)
    | Entry(id: Id, start: Instant, end: Instant, title: string, tooltip: Option<string>, colorHex: string)

  /** The entry `_populate_upcoming_list` adds for one event. */
  function EntryOf(e: Event): (row: Row)
    ensures row.Entry? && row.id == e.id && row.start == e.start && row.end == e.end && row.title == e.title
    ensures row.tooltip.Some? <==> e.description != ""
    ensures row.tooltip.Some? ==> row.tooltip.value == e.description
    ensures row.colorHex == HexOf(e.colorKey)
  {
    Entry(e.id, e.start, e.end, e.title, if e.description != "" then Some(e.description) else None, HexOf(e.colorKey))
  }

  /**
   * The upcoming list: a single placeholder when there is nothing to show,
   * otherwise one entry for each of the first six events, in order.
   */
  function UpcomingRows(upcoming: seq<Event>): (rows: seq<Row>)
    ensures 1 <= |rows| <= MAX_ROWS
    ensures upcoming == [] <==> rows == [Placeholder(NO_EVENTS_ROW)]
    ensures upcoming != [] ==> |rows| == if |upcoming| < MAX_ROWS then |upcoming| else MAX_ROWS
    ensures upcoming != [] ==> forall i | 0 <= i < |rows| :: rows[i] == EntryOf(upcoming[i])
  {
    if upcoming == [] then [Placeholder(NO_EVENTS_ROW)]
    else
      var n := if |upcoming| < MAX_ROWS then |upcoming| else MAX_ROWS;
      var rows := seq(n, i requires 0 <= i < n => EntryOf(upcoming[i]));
      assert rows[0].Entry?;
      rows
  }

  /** `_populate_upcoming_list`: clears the list, then adds the placeholder or an entry per event of `events[:6]`. */
  method PopulateUpcomingList(events: seq<Event>) returns (rows: seq<Row>)
    ensures rows == UpcomingRows(events)
  {
    rows := [];
    if events == [] {
      rows := rows + [Placeholder(NO_EVENTS_ROW)];
      return;
    }
    var shown := if |events| < MAX_ROWS then events else events[..MAX_ROWS];
    for i := 0 to |shown|
      invariant |rows| == i
      invariant forall j | 0 <= j < i :: rows[j] == EntryOf(shown[j])
    {
      rows := rows + [EntryOf(shown[i])];
    }
    EntriesAreUpcomingRows(events, shown, rows);
  }

  /** One entry per event of the first six, in order, is the upcoming list. */
  lemma EntriesAreUpcomingRows(events: seq<Event>, shown: seq<Event>, rows: seq<Row>)
    requires events != []
    requires shown == if |events| < MAX_ROWS then events else events[..MAX_ROWS]
    requires |rows| == |shown| && forall j | 0 <= j < |rows| :: rows[j] == EntryOf(shown[j])
    ensures rows == UpcomingRows(events)
  {
    var expected := UpcomingRows(events);
    assert |rows| == |expected|;
    forall j | 0 <= j < |rows|
      ensures rows[j] == expected[j]
    {
      assert shown[j] == events[j];
    }
  }

  /** Everything `refresh` puts on the dashboard. */
  datatype Dashboard = Dashboard(today: nat, week: nat, total: nat, next: NextCard, rows: seq<Row>)

  /**
   * `refresh` at the instant `now`: the three counters are the sizes of the
   * store's listings for today, for this week and of all events; the card and
   * the list show the upcoming events taken from all events.
   */
  method Refresh(store: CalendarStore, now: Instant) returns (d: Dashboard)
    requires store.Valid()
    ensures d.today == |store.EventsForDay(Date(DayOf(now)))|
    ensures d.week == |store.EventsForWeek(Date(DayOf(now)))|
    ensures d.total == |store.AllEvents()| == |store.events|
    ensures d.today <= d.week <= d.total
    ensures d.next == NextCardOf(UpcomingEvents(store.AllEvents(), now))
    ensures d.rows == UpcomingRows(UpcomingEvents(store.AllEvents(), now))
  {
    var today := Date(DayOf(now));
    var todayEvents := store.EventsForDay(today);
    var weekEvents := store.EventsForWeek(today);
    var allEvents := store.AllEvents();
    store.DayWithinWeekWithinAll(today);
    var upcoming := CollectUpcoming(allEvents, now);
    var rows := PopulateUpcomingList(upcoming);
    return Dashboard(|todayEvents|, |weekEvents|, |allEvents|, NextCardOf(upcoming), rows);
  }

  /** Every entry the dashboard lists is a stored event within the seven days from `now`. */
  lemma ListedEntriesAreUpcoming(store: CalendarStore, now: Instant, i: nat)
    requires store.Valid()
    requires var rows := UpcomingRows(UpcomingEvents(store.AllEvents(), now)); i < |rows| && rows[i].Entry?
    ensures var row := UpcomingRows(UpcomingEvents(store.AllEvents(), now))[i];
      exists e :: store.Stores(e) && Upcoming(e, now) && row == EntryOf(e)
  {
    var all := store.AllEvents();
    var r := UpcomingEvents(all, now);
    assert r != [];
    var e := r[i];
    assert multiset(r)[e] > 0;
    assert multiset(all)[e] > 0;
  }
}

/**
 * `[cerrito_schedule]`: upcoming one-time events grouped by normalised date,
 * then by group key, each date section headed by its weekday and date.
 */
module Schedule {
  import opened Wrappers
  import opened Php
  import opened Seqs
  import opened Entities
  import opened Helpers
  import opened Grouping

  /** The date key an event is filed under. */
  function DateOf(cal: Calendar, e: Event): string {
    NormaliseDate(e.rawDate, cal)
  }

  /** The append the grouping loop makes for one event. */
  function ScheduleItem(cat: Catalog, cal: Calendar, e: Event): Item {
    var date := DateOf(cal, e);
    Item(date, EventTypeString(e), ExactDateTheme(cat, e, date), None, e)
  }

  /** The group key an event is filed under. */
  function KeyOf(cat: Catalog, cal: Calendar, e: Event): string {
    ScheduleItem(cat, cal, e).Key()
  }

  function ScheduleFn(cat: Catalog, cal: Calendar): Event -> Item {
    (e: Event) => ScheduleItem(cat, cal, e)
  }

  function ScheduleItems(cat: Catalog, cal: Calendar, events: seq<Event>): seq<Item> {
    MapItems(events, ScheduleFn(cat, cal))
  }

  /** The date key of each event, in input order. */
  function EventDates(cal: Calendar, events: seq<Event>): (r: seq<string>)
    ensures |r| == |events| && forall i :: 0 <= i < |events| ==> r[i] == DateOf(cal, events[i])
  {
    seq(|events|, i requires 0 <= i < |events| => DateOf(cal, events[i]))
  }

  /** The events filed under date `d` and group key `k`. */
  function InSlot(cat: Catalog, cal: Calendar, d: string, k: string): Event -> bool {
    (e: Event) => DateOf(cal, e) == d && KeyOf(cat, cal, e) == k
  }

  lemma ScheduleItemsSnoc(cat: Catalog, cal: Calendar, events: seq<Event>, e: Event)
    ensures ScheduleItems(cat, cal, events + [e]) == ScheduleItems(cat, cal, events) + [ScheduleItem(cat, cal, e)]
  {
    MapItemsSnoc(events, e, ScheduleFn(cat, cal));
  }

  /** `$events_by_date` after the loop. */
  function ByDate(cat: Catalog, cal: Calendar, events: seq<Event>): Buckets {
    PlaceAll(ScheduleItems(cat, cal, events))
  }

  /** One pass of the grouping loop up to the append: date, type and theme of `e`. */
  method ScheduleAppend(cat: Catalog, cal: Calendar, e: Event) returns (it: Item)
    ensures it == ScheduleItem(cat, cal, e)
  {
    var eventDate := NormaliseDate(e.rawDate, cal);
    var eventType := EventTypeString(e);
    var specialTheme := e.specialTheme;
    if !Truthy(specialTheme) && Truthy(eventDate) && |e.gameTypes| > 0 {
      var auto := GetEventTheme(cat, e.gameTypes[0].id, eventDate);
      if auto.Some? {
        specialTheme := auto.value.name;
      }
    }
    it := Item(eventDate, eventType, specialTheme, None, e);
  }

  /** The grouping loop of `cerrito_schedule_shortcode`. */
  method GroupByDate(cat: Catalog, cal: Calendar, events: seq<Event>) returns (b: Buckets)
    ensures b == ByDate(cat, cal, events)
  {
    b := NoBuckets;
    var i := 0;
    while i < |events|
      invariant 0 <= i <= |events|
      invariant b == PlaceAll(ScheduleItems(cat, cal, events[..i]))
    {
      var e := events[i];
      var it := ScheduleAppend(cat, cal, e);
      PlaceAllSnoc(ScheduleItems(cat, cal, events[..i]), it);
      b := Insert(b, it);
      TakeSnoc(events, i);
      ScheduleItemsSnoc(cat, cal, events[..i], e);
      i := i + 1;
    }
    assert events[..|events|] == events;
  }

  /** Date sections appear in order of the first event on each date. */
  lemma ScheduleDays(cat: Catalog, cal: Calendar, events: seq<Event>)
    ensures ByDate(cat, cal, events).days == Dedup(EventDates(cal, events))
  {
    var items := ScheduleItems(cat, cal, events);
    PlaceAllDescribes(items);
    assert DaysOf(items) == EventDates(cal, events);
  }

  /**
   * Each group holds exactly the events with its date and key, in input
   * order: events with equal date and key share one group.
   */
  lemma ScheduleGroupContents(cat: Catalog, cal: Calendar, events: seq<Event>, d: string, k: string)
    ensures Slot(ByDate(cat, cal, events), d, k, None) ==
      Filter(events, InSlot(cat, cal, d, k))
  {
    var f := ScheduleFn(cat, cal);
    OneEachSlot(events, ScheduleItems(cat, cal, events), f, d, k, None);
    FilterSame(events, LandsFn(f, d, k, None), InSlot(cat, cal, d, k));
  }

  /**
   * Exactly-once placement: an event sits in the group of its own date and key
   * as often as it occurs in the input, and in no other group.
   */
  lemma ScheduleExactlyOnce(cat: Catalog, cal: Calendar, events: seq<Event>, e: Event, d: string, k: string)
    ensures multiset(Slot(ByDate(cat, cal, events), d, k, None))[e] ==
      if d == DateOf(cal, e) && k == KeyOf(cat, cal, e) then multiset(events)[e] else 0
  {
    ScheduleGroupContents(cat, cal, events, d, k);
    FilterCount(events, InSlot(cat, cal, d, k), e);
  }

  /** A group's type, theme and class come from the first event filed under it. */
  lemma ScheduleGroupMeta(cat: Catalog, cal: Calendar, events: seq<Event>, d: string, k: string)
    requires d in ByDate(cat, cal, events).byDay && k in ByDate(cat, cal, events).byDay[d].groups
    ensures exists i ::
      && 0 <= i < |events| && DateOf(cal, events[i]) == d && KeyOf(cat, cal, events[i]) == k
      && (forall j :: 0 <= j < i ==> !(DateOf(cal, events[j]) == d && KeyOf(cat, cal, events[j]) == k))
      && var grp := ByDate(cat, cal, events).byDay[d].groups[k];
         && grp.typeName == EventTypeString(events[i])
         && grp.theme == ExactDateTheme(cat, events[i], d)
         && grp.cls == EventClass(EventTypeString(events[i]))
  {
    var f := ScheduleFn(cat, cal);
    OneEachMeta(events, ScheduleItems(cat, cal, events), f, d, k);
  }

  // ── Rendering ─────────────────────────────────────────────────────────────

  /** `strtoupper($date_obj->format('l, M j'))`, or the upper-cased raw key when it does not parse. */
  function DateHeader(date: string, cal: Calendar): (r: string)
    ensures cal.parseYmd(date).None? ==> r == StrToUpper(date)
    ensures cal.parseYmd(date).Some? ==>
      r == StrToUpper(cal.parseYmd(date).value.weekday + ", " + cal.parseYmd(date).value.monthDay)
  {
    match cal.parseYmd(date)
    case Some(info) => StrToUpper(info.weekday + ", " + info.monthDay)
    case None => StrToUpper(date)
  }

  /** One date section: its date key, its header and its group cards in key order. */
  datatype DateSection = DateSection(date: string, header: string, groups: seq<Group>)

  datatype ScheduleView = NoUpcomingEvents | DateSections(sections: seq<DateSection>)

  /** The sections the date loop renders: one per date key, in key order. */
  function Sections(b: Buckets, cal: Calendar): (r: seq<DateSection>)
    requires BucketsValid(b)
    ensures |r| == |b.days|
    ensures forall i :: 0 <= i < |b.days| ==>
      && r[i].date == b.days[i]
      && r[i].header == DateHeader(b.days[i], cal)
      && r[i].groups == Ordered(b.byDay[b.days[i]])
  {
    seq(|b.days|, i requires 0 <= i < |b.days| => DateSection(b.days[i], DateHeader(b.days[i], cal), Ordered(b.byDay[b.days[i]])))
  }

  /** The section loop: one section per date key, in key order. */
  method RenderSections(b: Buckets, cal: Calendar) returns (sections: seq<DateSection>)
    requires BucketsValid(b)
    ensures sections == Sections(b, cal)
  {
    sections := [];
    var i := 0;
    while i < |b.days|
      invariant 0 <= i <= |b.days|
      invariant sections == Sections(b, cal)[..i]
    {
      var date := b.days[i];
      var header := DateHeader(date, cal);
      var groups := Ordered(b.byDay[date]);
      sections := sections + [DateSection(date, header, groups)];
      i := i + 1;
    }
  }

  /** What the shortcode renders for the filtered events. */
  function View(cat: Catalog, cal: Calendar, events: seq<Event>): ScheduleView {
    if events == [] then NoUpcomingEvents
    else
      var b := ByDate(cat, cal, events);
      PlaceAllValid(ScheduleItems(cat, cal, events));
      DateSections(Sections(b, cal))
  }

  /**
   * The fallback message shows exactly when no event survives the filters;
   * otherwise there is one section per distinct date, in order of first
   * occurrence, and every section has at least one group.
   */
  lemma ViewShape(cat: Catalog, cal: Calendar, events: seq<Event>)
    ensures View(cat, cal, events).NoUpcomingEvents? <==> events == []
    ensures View(cat, cal, events).DateSections? ==>
      var sections := View(cat, cal, events).sections;
      && |sections| == |Dedup(EventDates(cal, events))| > 0
      && (forall i :: 0 <= i < |sections| ==> sections[i].date == Dedup(EventDates(cal, events))[i])
      && (forall i :: 0 <= i < |sections| ==> sections[i].groups != [])
  {
    if events != [] {
      ByDateShape(cat, cal, events);
      var b := ByDate(cat, cal, events);
      var sections := Sections(b, cal);
      assert View(cat, cal, events) == DateSections(sections);
      forall i | 0 <= i < |sections| ensures sections[i].groups != [] {
        assert |sections[i].groups| == |b.byDay[b.days[i]].keys|;
      }
    }
  }

  /** A non-empty input files at least one date, and every filed date has a group. */
  lemma ByDateShape(cat: Catalog, cal: Calendar, events: seq<Event>)
    requires events != []
    ensures BucketsValid(ByDate(cat, cal, events))
    ensures ByDate(cat, cal, events).days == Dedup(EventDates(cal, events))
    ensures |ByDate(cat, cal, events).days| > 0
    ensures forall i :: 0 <= i < |ByDate(cat, cal, events).days| ==>
      ByDate(cat, cal, events).days[i] in ByDate(cat, cal, events).byDay &&
      ByDate(cat, cal, events).byDay[ByDate(cat, cal, events).days[i]].keys != []
  {
    var b := ByDate(cat, cal, events);
    ScheduleDays(cat, cal, events);
    PlaceAllValid(ScheduleItems(cat, cal, events));
    assert EventDates(cal, events)[0] in b.days;
    forall i | 0 <= i < |b.days| ensures b.days[i] in b.byDay && b.byDay[b.days[i]].keys != [] {
      assert b.days[i] in b.days;
    }
  }

  /**
   * `cerrito_schedule_shortcode` on the posts the date-window query returned:
   * the attribute filters, then the grouping loop, then the sections.
   */
  method ScheduleShortcode(cat: Catalog, cal: Calendar, posts: seq<Event>, locationId: int, gameType: string)
    returns (v: ScheduleView)
    ensures v == View(cat, cal, ApplyFilters(posts, locationId, gameType))
  {
    var events := ApplyFilters(posts, locationId, gameType);
    if events == [] {
      return NoUpcomingEvents;
    }
    var b := GroupByDate(cat, cal, events);
    PlaceAllValid(ScheduleItems(cat, cal, events));
    var sections := RenderSections(b, cal);
    v := DateSections(sections);
  }
}

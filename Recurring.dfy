/**
 * `[cerrito_recurring_schedule]`: recurring events bucketed by the day names of
 * their `when` terms, an event without `when` terms listed under "Coming Soon",
 * and the days rendered Monday to Sunday.
 */
module Recurring {
  import opened Wrappers
  import opened Php
  import opened Seqs
  import opened Entities
  import opened Helpers
  import opened Grouping
  import opened Fanout

  /**
   * The theme of an event on day `day`: the explicit `special_theme`, else the
   * next themed date of its first game type falling on that day (60-day window `w`).
   */
  function RecurringTheme(cat: Catalog, cal: Calendar, w: Window, e: Event, day: string): (r: string)
    ensures Truthy(e.specialTheme) ==> r == e.specialTheme
    ensures !Truthy(e.specialTheme) && |e.gameTypes| > 0 ==> r == NextThemedLabel(cat, cal, e.gameTypes[0].id, day, w)
    ensures !Truthy(e.specialTheme) && e.gameTypes == [] ==> r == e.specialTheme
  {
    if !Truthy(e.specialTheme) && |e.gameTypes| > 0 then NextThemedLabel(cat, cal, e.gameTypes[0].id, day, w)
    else e.specialTheme
  }

  /** The append the inner loop makes for event `e` and `when` day `day`. */
  function RecurringItem(cat: Catalog, cal: Calendar, w: Window, e: Event, day: string): Item {
    Item(day, EventTypeString(e), RecurringTheme(cat, cal, w, e, day), None, e)
  }

  /** `RecurringItem` as a function value, for the generic fan-out lemmas. */
  function RecurringFn(cat: Catalog, cal: Calendar, w: Window): (Event, string) -> Item {
    (e: Event, d: string) => RecurringItem(cat, cal, w, e, d)
  }

  /** The days a recurring event is filed under: its `when` terms. */
  const WhenOf: Event -> seq<string> := (e: Event) => e.when

  /** The coming-soon test: no `when` term. */
  const HasNoWhen: Event -> bool := (e: Event) => e.when == []

  function RecurringKey(cat: Catalog, cal: Calendar, w: Window, e: Event, day: string): string {
    RecurringItem(cat, cal, w, e, day).Key()
  }

  /** All appends of the nested loop, event by event and `when` term by `when` term. */
  function RecurringItems(cat: Catalog, cal: Calendar, w: Window, events: seq<Event>): seq<Item> {
    Spread(events, WhenOf, RecurringFn(cat, cal, w))
  }

  /** `$events_by_day` after the loop. */
  function ByDay(cat: Catalog, cal: Calendar, w: Window, events: seq<Event>): Buckets {
    PlaceAll(RecurringItems(cat, cal, w, events))
  }

  /** `$coming_soon` after the loop. */
  function ComingSoon(events: seq<Event>): seq<Event> {
    Filter(events, HasNoWhen)
  }

  /** One pass of the inner loop up to the append: type and theme of `e` on `day`. */
  method RecurringAppend(cat: Catalog, cal: Calendar, w: Window, e: Event, day: string) returns (it: Item)
    ensures it == RecurringItem(cat, cal, w, e, day)
  {
    var eventType := EventTypeString(e);
    var specialTheme := e.specialTheme;
    if !Truthy(specialTheme) && |e.gameTypes| > 0 {
      specialTheme := NextThemedDateForDay(cat, cal, e.gameTypes[0].id, day, w);
    }
    it := Item(day, eventType, specialTheme, None, e);
  }

  /** The inner loop for one event, applied to the array built so far. */
  method FileByWhen(cat: Catalog, cal: Calendar, w: Window, b0: Buckets, e: Event) returns (b: Buckets)
    ensures b == PlaceFrom(b0, ItemsFor(e, e.when, RecurringFn(cat, cal, w)))
  {
    ghost var f := RecurringFn(cat, cal, w);
    b := b0;
    var j := 0;
    while j < |e.when|
      invariant 0 <= j <= |e.when|
      invariant b == PlaceFrom(b0, ItemsFor(e, e.when[..j], f))
    {
      var day := e.when[j];
      var it := RecurringAppend(cat, cal, w, e, day);
      b := Insert(b, it);
      TakeSnoc(e.when, j);
      ItemsForSnoc(e, e.when[..j], day, f);
      PlaceFromSnoc(b0, ItemsFor(e, e.when[..j], f), it);
      j := j + 1;
    }
    assert e.when[..|e.when|] == e.when;
  }

  /** The grouping loop of `cerrito_recurring_schedule_shortcode`. */
  method GroupByWhen(cat: Catalog, cal: Calendar, w: Window, events: seq<Event>) returns (b: Buckets, comingSoon: seq<Event>)
    ensures b == ByDay(cat, cal, w, events)
    ensures comingSoon == ComingSoon(events)
  {
    ghost var days := WhenOf;
    ghost var f := RecurringFn(cat, cal, w);
    b := NoBuckets;
    comingSoon := [];
    var i := 0;
    while i < |events|
      invariant 0 <= i <= |events|
      invariant b == PlaceAll(Spread(events[..i], days, f))
      invariant comingSoon == ComingSoon(events[..i])
    {
      var e := events[i];
      TakeSnoc(events, i);
      SpreadSnoc(events[..i], e, days, f);
      PlaceAllConcat(Spread(events[..i], days, f), ItemsFor(e, e.when, f));
      FilterSnoc(events[..i], e, HasNoWhen);
      if |e.when| > 0 {
        b := FileByWhen(cat, cal, w, b, e);
      } else {
        assert ItemsFor(e, e.when, f) == [];
        comingSoon := comingSoon + [e];
      }
      i := i + 1;
    }
    assert events[..|events|] == events;
  }

  // ── What the buckets hold ─────────────────────────────────────────────────

  lemma RecurringProper(cat: Catalog, cal: Calendar, w: Window)
    ensures Proper(RecurringFn(cat, cal, w))
  {
  }

  /**
   * Each group holds, in input order, every event whose `when` terms include
   * the day and whose key on that day is the group's key, once per such term.
   */
  lemma RecurringSlot(cat: Catalog, cal: Calendar, w: Window, events: seq<Event>, d: string, k: string)
    ensures Slot(ByDay(cat, cal, w, events), d, k, None) ==
      Expected(events, WhenOf, RecurringFn(cat, cal, w), d, k, None)
  {
    RecurringProper(cat, cal, w);
    SpreadSlot(events, WhenOf, RecurringFn(cat, cal, w), d, k, None);
  }

  /**
   * Exactly once per `when` term: an event fetched once sits in the group of
   * day `d` under its own key for that day as many times as `d` is among its
   * `when` terms, and in no other group. An event without `when` terms is in no
   * day bucket at all.
   */
  lemma RecurringPlacement(cat: Catalog, cal: Calendar, w: Window, events: seq<Event>, x: Event, d: string, k: string)
    requires multiset(events)[x] <= 1
    ensures multiset(Slot(ByDay(cat, cal, w, events), d, k, None))[x] ==
      if x in events && k == RecurringKey(cat, cal, w, x, d) then multiset(x.when)[d] else 0
    ensures x.when == [] ==> x !in Slot(ByDay(cat, cal, w, events), d, k, None)
  {
    RecurringSlot(cat, cal, w, events, d, k);
    ExpectedCount(events, WhenOf, RecurringFn(cat, cal, w), d, k, None, x);
  }

  /** "Coming Soon" lists exactly the events without `when` terms, each as often as it was fetched. */
  lemma ComingSoonExactlyOnce(events: seq<Event>, x: Event)
    ensures multiset(ComingSoon(events))[x] == if x.when == [] then multiset(events)[x] else 0
    ensures IsSubsequence(ComingSoon(events), events)
  {
    FilterCount(events, HasNoWhen, x);
    FilterIsSubsequence(events, HasNoWhen);
  }

  /** A day has a bucket exactly when some event has a `when` term with that name. */
  lemma RecurringDays(cat: Catalog, cal: Calendar, w: Window, events: seq<Event>, d: string)
    ensures d in ByDay(cat, cal, w, events).byDay <==> exists e :: e in events && d in e.when
  {
    var items := RecurringItems(cat, cal, w, events);
    RecurringProper(cat, cal, w);
    PlaceAllDescribes(items);
    SpreadDays(events, WhenOf, RecurringFn(cat, cal, w), d);
  }

  /**
   * First event wins: a group's type, theme and class are those of the first
   * event in it, its theme being that event's theme for the group's day.
   */
  lemma RecurringGroupMeta(cat: Catalog, cal: Calendar, w: Window, events: seq<Event>, d: string, k: string)
    requires d in ByDay(cat, cal, w, events).byDay && k in ByDay(cat, cal, w, events).byDay[d].groups
    ensures var s := Slot(ByDay(cat, cal, w, events), d, k, None);
      var grp := ByDay(cat, cal, w, events).byDay[d].groups[k];
      && s != []
      && grp.typeName == EventTypeString(s[0])
      && grp.theme == RecurringTheme(cat, cal, w, s[0], d)
      && grp.cls == EventClass(EventTypeString(s[0]))
  {
    var items := RecurringItems(cat, cal, w, events);
    var f := RecurringFn(cat, cal, w);
    RecurringProper(cat, cal, w);
    SpreadShape(events, WhenOf, f);
    SlotHead(items, d, k);
    var first := FirstAt(items, d, k);
    var i :| 0 <= i < |items| && items[i] == first && At(first, d, k);
    assert first == f(first.member, d);
  }

  // ── Rendering ─────────────────────────────────────────────────────────────

  /** One rendered day: its name, the "EVERY <DAY>" header and its groups in key order. */
  datatype DaySection = DaySection(day: string, header: string, groups: seq<Group>)

  datatype RecurringView = NoRecurringEvents | Days(sections: seq<DaySection>, comingSoon: seq<Event>)

  /** The days rendered: those of the canonical order that have groups, in that order. */
  function ShownDays(b: Buckets): (r: seq<string>)
    ensures forall d :: d in r <==> d in DayOrder && HasDay(b, d)
    ensures IsSubsequence(r, DayOrder)
  {
    FilterIsSubsequence(DayOrder, (d: string) => HasDay(b, d));
    Filter(DayOrder, (d: string) => HasDay(b, d))
  }

  function DaySectionOf(b: Buckets, day: string): (r: DaySection)
    requires BucketsValid(b) && HasDay(b, day)
    ensures r.day == day && r.groups != []
  {
    DaySection(day, "EVERY " + StrToUpper(day), Ordered(b.byDay[day]))
  }

  /** One section per day of `days`, in that order. */
  function SectionsFor(b: Buckets, days: seq<string>): (r: seq<DaySection>)
    requires BucketsValid(b) && forall d :: d in days ==> HasDay(b, d)
    ensures |r| == |days|
    ensures forall i :: 0 <= i < |r| ==> r[i].day == days[i] && r[i].groups != []
  {
    seq(|days|, i requires 0 <= i < |days| => DaySectionOf(b, days[i]))
  }

  lemma SectionsForSnoc(b: Buckets, days: seq<string>, d: string)
    requires BucketsValid(b) && (forall x :: x in days ==> HasDay(b, x)) && HasDay(b, d)
    ensures SectionsFor(b, days + [d]) == SectionsFor(b, days) + [DaySectionOf(b, d)]
  {
    assert SectionsFor(b, days + [d])[..|days|] == SectionsFor(b, days);
  }

  /** The sections of the view: one per shown day. */
  function Sections(b: Buckets): seq<DaySection>
    requires BucketsValid(b)
  {
    SectionsFor(b, ShownDays(b))
  }

  /** `foreach ($day_order as $day) { if (empty(...)) continue; ... }`. */
  method RenderDays(b: Buckets) returns (sections: seq<DaySection>)
    requires BucketsValid(b)
    ensures sections == Sections(b)
  {
    sections := [];
    var i := 0;
    while i < |DayOrder|
      invariant 0 <= i <= |DayOrder|
      invariant sections == SectionsFor(b, Filter(DayOrder[..i], (d: string) => HasDay(b, d)))
    {
      var day := DayOrder[i];
      var shown := Filter(DayOrder[..i], (d: string) => HasDay(b, d));
      TakeSnoc(DayOrder, i);
      FilterSnoc(DayOrder[..i], day, (d: string) => HasDay(b, d));
      if day in b.byDay && b.byDay[day].keys != [] {
        SectionsForSnoc(b, shown, day);
        sections := sections + [DaySection(day, "EVERY " + StrToUpper(day), Ordered(b.byDay[day]))];
      }
      i := i + 1;
    }
    assert DayOrder[..|DayOrder|] == DayOrder;
  }

  /** The day names of the rendered sections, in order. */
  function SectionDays(v: RecurringView): (r: seq<string>)
    requires v.Days?
    ensures |r| == |v.sections| && forall i :: 0 <= i < |r| ==> r[i] == v.sections[i].day
  {
    seq(|v.sections|, i requires 0 <= i < |v.sections| => v.sections[i].day)
  }

  /** What the shortcode renders for the filtered events. */
  function View(cat: Catalog, cal: Calendar, w: Window, events: seq<Event>): RecurringView {
    if events == [] then NoRecurringEvents
    else
      PlaceAllValid(RecurringItems(cat, cal, w, events));
      Days(Sections(ByDay(cat, cal, w, events)), ComingSoon(events))
  }

  /**
   * The fallback message shows exactly when no event survives the filters.
   * Otherwise the sections are, in Monday-to-Sunday order, exactly the
   * canonical days some event has a `when` term for: a `when` name outside the
   * canonical seven is never rendered.
   */
  lemma ViewShape(cat: Catalog, cal: Calendar, w: Window, events: seq<Event>, d: string)
    ensures View(cat, cal, w, events).NoRecurringEvents? <==> events == []
    ensures View(cat, cal, w, events).Days? ==>
      && IsSubsequence(SectionDays(View(cat, cal, w, events)), DayOrder)
      && (d in SectionDays(View(cat, cal, w, events)) <==> d in DayOrder && exists e :: e in events && d in e.when)
  {
    if events != [] {
      var items := RecurringItems(cat, cal, w, events);
      var b := PlaceAll(items);
      PlaceAllValid(items);
      RecurringDays(cat, cal, w, events, d);
      var v := View(cat, cal, w, events);
      assert v.sections == Sections(b);
      assert SectionDays(v) == ShownDays(b);
      assert HasDay(b, d) <==> d in b.byDay;
    }
  }

  /**
   * `cerrito_recurring_schedule_shortcode` on the recurring posts the query
   * returned: the attribute filters, the grouping loop, then the day sections.
   */
  method RecurringShortcode(cat: Catalog, cal: Calendar, w: Window, posts: seq<Event>, locationId: int, gameType: string)
    returns (v: RecurringView)
    ensures v == View(cat, cal, w, ApplyFilters(posts, locationId, gameType))
  {
    var events := ApplyFilters(posts, locationId, gameType);
    if events == [] {
      return NoRecurringEvents;
    }
    var b, comingSoon := GroupByWhen(cat, cal, w, events);
    PlaceAllValid(RecurringItems(cat, cal, w, events));
    var sections := RenderDays(b);
    v := Days(sections, comingSoon);
  }
}

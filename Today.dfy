/**
 * `[cerrito_today]`: the events happening today, recurring and one-time,
 * grouped by type and explicit theme in a one-level insertion-ordered array.
 */
module Today {
  import opened Wrappers
  import opened Php
  import opened Seqs
  import opened Entities
  import opened Helpers
  import opened Grouping

  /**
   * The include test: a recurring event is on today when one of its `when`
   * names is today's weekday name; a one-time event when its normalised date is
   * today's `Y-m-d` string.
   */
  predicate Includes(cal: Calendar, today: string, todayDate: string, e: Event) {
    if e.isRecurring then today in e.when else NormaliseDate(e.rawDate, cal) == todayDate
  }

  /** The `$include` flag as the loop computes it, leaving the `when` loop at the first match. */
  method IsIncluded(cal: Calendar, today: string, todayDate: string, e: Event) returns (included: bool)
    ensures included == Includes(cal, today, todayDate, e)
  {
    included := false;
    if e.isRecurring {
      var j := 0;
      while j < |e.when|
        invariant 0 <= j <= |e.when|
        invariant today !in e.when[..j]
      {
        if e.when[j] == today {
          included := true;
          break;
        }
        TakeSnoc(e.when, j);
        j := j + 1;
      }
      assert !included ==> e.when[..j] == e.when;
    } else {
      included := NormaliseDate(e.rawDate, cal) == todayDate;
    }
  }

  function IncludesFn(cal: Calendar, today: string, todayDate: string): Event -> bool {
    (e: Event) => Includes(cal, today, todayDate, e)
  }

  /** The included events, in fetch order. */
  function TodayEvents(cal: Calendar, today: string, todayDate: string, events: seq<Event>): seq<Event> {
    Filter(events, IncludesFn(cal, today, todayDate))
  }

  /** The append for an included event: its type and its explicit theme only. */
  function TodayItem(today: string, e: Event): Item {
    Item(today, EventTypeString(e), e.specialTheme, None, e)
  }

  function TodayKey(e: Event): string {
    GroupKey(EventTypeString(e), e.specialTheme)
  }

  function TodayFn(today: string): Event -> Item {
    (e: Event) => TodayItem(today, e)
  }

  function HasKey(k: string): Event -> bool {
    (e: Event) => TodayKey(e) == k
  }

  /** The group key of each event, in order. */
  function KeysOfEvents(events: seq<Event>): (r: seq<string>)
    ensures |r| == |events| && forall i :: 0 <= i < |events| ==> r[i] == TodayKey(events[i])
  {
    seq(|events|, i requires 0 <= i < |events| => TodayKey(events[i]))
  }

  function TodayItems(cal: Calendar, today: string, todayDate: string, events: seq<Event>): seq<Item> {
    MapItems(TodayEvents(cal, today, todayDate, events), TodayFn(today))
  }

  /** `$today_groups` after the loop. */
  function TodayGroups(cal: Calendar, today: string, todayDate: string, events: seq<Event>): Groups {
    GroupAll(TodayItems(cal, today, todayDate, events))
  }

  lemma TodayItemsSnoc(cal: Calendar, today: string, todayDate: string, events: seq<Event>, e: Event)
    ensures TodayItems(cal, today, todayDate, events + [e]) ==
      TodayItems(cal, today, todayDate, events) + if Includes(cal, today, todayDate, e) then [TodayItem(today, e)] else []
  {
    var p := IncludesFn(cal, today, todayDate);
    FilterSnoc(events, e, p);
    if Includes(cal, today, todayDate, e) {
      MapItemsSnoc(Filter(events, p), e, TodayFn(today));
    }
  }

  /** The grouping loop of `cerrito_today_schedule_shortcode`. */
  method GroupToday(cal: Calendar, today: string, todayDate: string, events: seq<Event>) returns (g: Groups)
    ensures g == TodayGroups(cal, today, todayDate, events)
  {
    g := NoGroups;
    var i := 0;
    while i < |events|
      invariant 0 <= i <= |events|
      invariant g == GroupAll(TodayItems(cal, today, todayDate, events[..i]))
    {
      var e := events[i];
      TakeSnoc(events, i);
      TodayItemsSnoc(cal, today, todayDate, events[..i], e);
      var included := IsIncluded(cal, today, todayDate, e);
      if included {
        var eventType := EventTypeString(e);
        var specialTheme := e.specialTheme;
        var it := Item(today, eventType, specialTheme, None, e);
        GroupAllSnoc(TodayItems(cal, today, todayDate, events[..i]), it);
        g := InsertGroup(g, it);
      }
      i := i + 1;
    }
    assert events[..|events|] == events;
  }

  // ── What the array holds ──────────────────────────────────────────────────

  /** The events under key `k` ([] when the key is unset). */
  function GroupEvents(g: Groups, k: string): seq<Event> {
    if k in g.groups then g.groups[k].events else []
  }

  /** Every group holds exactly the included events with its key, in fetch order. */
  lemma TodayGroupContents(cal: Calendar, today: string, todayDate: string, events: seq<Event>, k: string)
    ensures GroupEvents(TodayGroups(cal, today, todayDate, events), k) ==
      Filter(TodayEvents(cal, today, todayDate, events), HasKey(k))
  {
    var todays := TodayEvents(cal, today, todayDate, events);
    var f := TodayFn(today);
    var items := MapItems(todays, f);
    assert GroupEvents(GroupAll(items), k) == Members(items, k, None) by {
      GroupAllEvents(items, k);
    }
    assert Members(items, k, None) == Filter(todays, LandsFn(f, today, k, None)) by {
      FilterKeepsAll(items, IsOnDay(today));
      OneEachMembers(todays, items, f, today, k, None);
    }
    FilterSame(todays, LandsFn(f, today, k, None), HasKey(k));
  }

  /**
   * Exactly once: an event sits in the group of its own key as often as it was
   * fetched when it is on today, and in no group otherwise.
   */
  lemma TodayExactlyOnce(cal: Calendar, today: string, todayDate: string, events: seq<Event>, x: Event, k: string)
    ensures multiset(GroupEvents(TodayGroups(cal, today, todayDate, events), k))[x] ==
      if Includes(cal, today, todayDate, x) && TodayKey(x) == k then multiset(events)[x] else 0
  {
    TodayGroupContents(cal, today, todayDate, events, k);
    var todays := TodayEvents(cal, today, todayDate, events);
    FilterCount(todays, HasKey(k), x);
    FilterCount(events, IncludesFn(cal, today, todayDate), x);
  }

  /** Groups are in order of the first included event with each key. */
  lemma TodayOrder(cal: Calendar, today: string, todayDate: string, events: seq<Event>)
    ensures var todays := TodayEvents(cal, today, todayDate, events);
      TodayGroups(cal, today, todayDate, events).keys ==
        Dedup(KeysOfEvents(todays))
  {
    var todays := TodayEvents(cal, today, todayDate, events);
    var items := TodayItems(cal, today, todayDate, events);
    GroupAllDescribes(items);
    assert KeysOf(items) == KeysOfEvents(todays);
  }

  /**
   * A group's type, theme and class come from the first included event with
   * its key, and its theme is that event's own `special_theme`: no themed-date
   * lookup happens here.
   */
  lemma TodayGroupMeta(cal: Calendar, today: string, todayDate: string, events: seq<Event>, k: string)
    requires k in TodayGroups(cal, today, todayDate, events).groups
    ensures var todays := TodayEvents(cal, today, todayDate, events);
      var grp := TodayGroups(cal, today, todayDate, events).groups[k];
      exists i ::
        && 0 <= i < |todays| && TodayKey(todays[i]) == k
        && (forall j :: 0 <= j < i ==> TodayKey(todays[j]) != k)
        && grp.typeName == EventTypeString(todays[i])
        && grp.theme == todays[i].specialTheme
        && grp.cls == EventClass(EventTypeString(todays[i]))
  {
    var todays := TodayEvents(cal, today, todayDate, events);
    var items := TodayItems(cal, today, todayDate, events);
    GroupAllMeta(items, k);
    var i :| 0 <= i < |items| && items[i].Key() == k && (forall j :: 0 <= j < i ==> items[j].Key() != k)
      && TodayGroups(cal, today, todayDate, events).groups[k].typeName == items[i].typeName
      && TodayGroups(cal, today, todayDate, events).groups[k].theme == items[i].theme
      && TodayGroups(cal, today, todayDate, events).groups[k].cls == EventClass(items[i].typeName);
    assert items[i] == TodayItem(today, todays[i]);
    forall j | 0 <= j < i ensures TodayKey(todays[j]) != k {
      assert items[j] == TodayItem(today, todays[j]);
    }
  }

  // ── Rendering ─────────────────────────────────────────────────────────────

  datatype TodayView = NoEventsToday | TodayGroupCards(groups: seq<Group>)

  /** What the shortcode renders: the groups in key order, or the empty-day message. */
  function View(cal: Calendar, today: string, todayDate: string, events: seq<Event>): TodayView {
    var g := TodayGroups(cal, today, todayDate, events);
    GroupAllValid(TodayItems(cal, today, todayDate, events));
    if g.keys == [] then NoEventsToday else TodayGroupCards(Ordered(g))
  }

  /**
   * The empty-day message shows exactly when no fetched event is on today;
   * otherwise one card per distinct key of the included events.
   */
  lemma ViewShape(cal: Calendar, today: string, todayDate: string, events: seq<Event>)
    ensures View(cal, today, todayDate, events).NoEventsToday? <==>
      forall e :: e in events ==> !Includes(cal, today, todayDate, e)
    ensures View(cal, today, todayDate, events).TodayGroupCards? ==>
      |View(cal, today, todayDate, events).groups| == |TodayGroups(cal, today, todayDate, events).keys| > 0
  {
    var todays := TodayEvents(cal, today, todayDate, events);
    GroupAllValid(TodayItems(cal, today, todayDate, events));
    if todays != [] {
      assert todays[0] in todays;
    }
  }

  /** `cerrito_today_schedule_shortcode` on all event posts, with today's weekday name and date passed in. */
  method TodayShortcode(cal: Calendar, today: string, todayDate: string, posts: seq<Event>) returns (v: TodayView)
    ensures v == View(cal, today, todayDate, posts)
  {
    var g := GroupToday(cal, today, todayDate, posts);
    GroupAllValid(TodayItems(cal, today, todayDate, posts));
    if g.keys == [] {
      v := NoEventsToday;
    } else {
      v := TodayGroupCards(Ordered(g));
    }
  }
}

/**
 * `[cerrito_master_schedule]`: recurring and upcoming one-time events on one
 * page, bucketed by weekday. Each day holds two insertion-ordered arrays: the
 * recurring groups (`events` lists) and the one-time groups, whose events sit
 * in per-date sub-lists (`dates[$event_date]`) rendered in ascending date order.
 * The two arrays are modelled as two `Buckets` keyed by day, `rec` and `one`.
 */
module Master {
  import opened Wrappers
  import opened Php
  import opened Seqs
  import opened Entities
  import opened Helpers
  import opened Grouping
  import opened Fanout
  import opened Ksort

  /** The normalised `event_date` of an event. */
  function DateOf(cal: Calendar, e: Event): string {
    NormaliseDate(e.rawDate, cal)
  }

  /**
   * The day of a one-time event: the weekday of its normalised date when that
   * date is truthy, lies in the window and parses; otherwise none.
   */
  function OneTimeDays(cal: Calendar, w: Window, e: Event): (r: seq<string>)
    ensures |r| <= 1
    ensures r != [] <==>
      Truthy(DateOf(cal, e)) && InWindow(DateOf(cal, e), w) && cal.parseYmd(DateOf(cal, e)).Some?
    ensures r != [] ==> r[0] == cal.parseYmd(DateOf(cal, e)).value.weekday
  {
    var date := DateOf(cal, e);
    if Truthy(date) && InWindow(date, w) then
      match cal.parseYmd(date)
      case Some(info) => [info.weekday]
      case None => []
    else []
  }

  /** `$days` for an event: its `when` names when recurring, else its one-time day. */
  function MasterDays(cal: Calendar, w: Window, e: Event): seq<string> {
    if e.isRecurring then e.when else OneTimeDays(cal, w, e)
  }

  /** The days a recurring event is filed under in the recurring arrays. */
  function RecDays(cal: Calendar, w: Window, e: Event): seq<string> {
    if e.isRecurring then e.when else []
  }

  /** The days a one-time event is filed under in the one-time arrays. */
  function OneDays(cal: Calendar, w: Window, e: Event): seq<string> {
    if e.isRecurring then [] else OneTimeDays(cal, w, e)
  }

  /**
   * The theme of an event on `day`: the explicit `special_theme`; for a
   * recurring event without one, the next themed date of its first game type
   * on that day within the window.
   */
  function MasterTheme(cat: Catalog, cal: Calendar, w: Window, e: Event, day: string): (r: string)
    ensures Truthy(e.specialTheme) || !e.isRecurring || e.gameTypes == [] ==> r == e.specialTheme
    ensures !Truthy(e.specialTheme) && e.isRecurring && |e.gameTypes| > 0 ==>
      r == NextThemedLabel(cat, cal, e.gameTypes[0].id, day, w)
  {
    if !Truthy(e.specialTheme) && e.isRecurring && |e.gameTypes| > 0 then NextThemedLabel(cat, cal, e.gameTypes[0].id, day, w)
    else e.specialTheme
  }

  /** The append for event `e` on `day`: a plain one when recurring, under its date otherwise. */
  function MasterItem(cat: Catalog, cal: Calendar, w: Window, e: Event, day: string): Item {
    Item(day, EventTypeString(e), MasterTheme(cat, cal, w, e, day), if e.isRecurring then None else Some(DateOf(cal, e)), e)
  }

  /** `MasterItem`, `RecDays` and `OneDays` as function values, for the generic fan-out lemmas. */
  function MasterFn(cat: Catalog, cal: Calendar, w: Window): (Event, string) -> Item {
    (e: Event, d: string) => MasterItem(cat, cal, w, e, d)
  }

  function RecDaysFn(cal: Calendar, w: Window): Event -> seq<string> {
    (e: Event) => RecDays(cal, w, e)
  }

  function OneDaysFn(cal: Calendar, w: Window): Event -> seq<string> {
    (e: Event) => OneDays(cal, w, e)
  }

  function MasterKey(cat: Catalog, cal: Calendar, w: Window, e: Event, day: string): string {
    MasterItem(cat, cal, w, e, day).Key()
  }

  function RecItems(cat: Catalog, cal: Calendar, w: Window, events: seq<Event>): seq<Item> {
    Spread(events, RecDaysFn(cal, w), MasterFn(cat, cal, w))
  }

  function OneItems(cat: Catalog, cal: Calendar, w: Window, events: seq<Event>): seq<Item> {
    Spread(events, OneDaysFn(cal, w), MasterFn(cat, cal, w))
  }

  /** `$events_by_day[$day]['recurring']` for every day, after the loop. */
  function RecBuckets(cat: Catalog, cal: Calendar, w: Window, events: seq<Event>): Buckets {
    PlaceAll(RecItems(cat, cal, w, events))
  }

  /** `$events_by_day[$day]['one_time']` for every day, after the loop. */
  function OneBuckets(cat: Catalog, cal: Calendar, w: Window, events: seq<Event>): Buckets {
    PlaceAll(OneItems(cat, cal, w, events))
  }

  // ── The loop ──────────────────────────────────────────────────────────────

  /** The `$days` list of one event, as the loop builds it. */
  method EventDays(cal: Calendar, w: Window, e: Event) returns (days: seq<string>)
    ensures days == MasterDays(cal, w, e)
  {
    var eventDate := NormaliseDate(e.rawDate, cal);
    days := [];
    if e.isRecurring {
      var j := 0;
      while j < |e.when|
        invariant 0 <= j <= |e.when|
        invariant days == e.when[..j]
      {
        days := days + [e.when[j]];
        j := j + 1;
      }
    } else if Truthy(eventDate) && !StrLess(eventDate, w.start) && !StrLess(w.end, eventDate) {
      var d := cal.parseYmd(eventDate);
      if d.Some? {
        days := days + [d.value.weekday];
      }
    }
  }

  /** One pass of the inner loop up to the append: type, theme and sub-key of `e` on `day`. */
  method MasterAppend(cat: Catalog, cal: Calendar, w: Window, e: Event, day: string) returns (it: Item)
    ensures it == MasterItem(cat, cal, w, e, day)
  {
    var eventDate := NormaliseDate(e.rawDate, cal);
    var eventType := EventTypeString(e);
    var specialTheme := e.specialTheme;
    if !Truthy(specialTheme) && e.isRecurring && |e.gameTypes| > 0 {
      specialTheme := NextThemedDateForDay(cat, cal, e.gameTypes[0].id, day, w);
    }
    if e.isRecurring {
      it := Item(day, eventType, specialTheme, None, e);
    } else {
      it := Item(day, eventType, specialTheme, Some(eventDate), e);
    }
  }

  /** The inner loop over `days`, appending every pair of `e` to one set of arrays. */
  method FileInto(cat: Catalog, cal: Calendar, w: Window, b0: Buckets, e: Event, days: seq<string>)
    returns (b: Buckets)
    ensures b == PlaceFrom(b0, ItemsFor(e, days, MasterFn(cat, cal, w)))
  {
    ghost var f := MasterFn(cat, cal, w);
    b := b0;
    var j := 0;
    while j < |days|
      invariant 0 <= j <= |days|
      invariant b == PlaceFrom(b0, ItemsFor(e, days[..j], f))
    {
      var day := days[j];
      ghost var before := ItemsFor(e, days[..j], f);
      var it := MasterAppend(cat, cal, w, e, day);
      b := Insert(b, it);
      TakeSnoc(days, j);
      ItemsForSnoc(e, days[..j], day, f);
      PlaceFromSnoc(b0, before, f(e, day));
      j := j + 1;
    }
    assert days[..|days|] == days;
  }

  /** The inner loop for one event: its appends go to the recurring or to the one-time arrays. */
  method FileMaster(cat: Catalog, cal: Calendar, w: Window, rec0: Buckets, one0: Buckets, e: Event)
    returns (rec: Buckets, one: Buckets)
    ensures rec == PlaceFrom(rec0, ItemsFor(e, RecDays(cal, w, e), MasterFn(cat, cal, w)))
    ensures one == PlaceFrom(one0, ItemsFor(e, OneDays(cal, w, e), MasterFn(cat, cal, w)))
  {
    var days := EventDays(cal, w, e);
    assert ItemsFor(e, [], MasterFn(cat, cal, w)) == [];
    if e.isRecurring {
      rec := FileInto(cat, cal, w, rec0, e, days);
      one := one0;
    } else {
      one := FileInto(cat, cal, w, one0, e, days);
      rec := rec0;
    }
  }

  /** The grouping loop of `cerrito_master_schedule_shortcode`. */
  method GroupMaster(cat: Catalog, cal: Calendar, w: Window, events: seq<Event>) returns (rec: Buckets, one: Buckets)
    ensures rec == RecBuckets(cat, cal, w, events)
    ensures one == OneBuckets(cat, cal, w, events)
  {
    ghost var recDays := RecDaysFn(cal, w);
    ghost var oneDays := OneDaysFn(cal, w);
    ghost var f := MasterFn(cat, cal, w);
    rec, one := NoBuckets, NoBuckets;
    var i := 0;
    while i < |events|
      invariant 0 <= i <= |events|
      invariant rec == PlaceAll(Spread(events[..i], recDays, f))
      invariant one == PlaceAll(Spread(events[..i], oneDays, f))
    {
      var e := events[i];
      TakeSnoc(events, i);
      SpreadSnoc(events[..i], e, recDays, f);
      SpreadSnoc(events[..i], e, oneDays, f);
      PlaceAllConcat(Spread(events[..i], recDays, f), ItemsFor(e, RecDays(cal, w, e), f));
      PlaceAllConcat(Spread(events[..i], oneDays, f), ItemsFor(e, OneDays(cal, w, e), f));
      rec, one := FileMaster(cat, cal, w, rec, one, e);
      i := i + 1;
    }
    assert events[..|events|] == events;
  }

  // ── What the arrays hold ──────────────────────────────────────────────────

  lemma MasterProper(cat: Catalog, cal: Calendar, w: Window)
    ensures Proper(MasterFn(cat, cal, w))
  {
  }

  /**
   * Recurring pairs go only to the recurring arrays, as plain appends: an event
   * fetched once sits in the recurring group of day `d` under its key for that
   * day once per `when` term named `d`, and a one-time event is never there.
   */
  lemma RecurringPlacement(cat: Catalog, cal: Calendar, w: Window, events: seq<Event>, x: Event, d: string, k: string, sub: Option<string>)
    requires multiset(events)[x] <= 1
    ensures multiset(Slot(RecBuckets(cat, cal, w, events), d, k, sub))[x] ==
      if x in events && x.isRecurring && sub == None && k == MasterKey(cat, cal, w, x, d) then multiset(x.when)[d] else 0
  {
    var days := RecDaysFn(cal, w);
    var f := MasterFn(cat, cal, w);
    MasterProper(cat, cal, w);
    SpreadSlot(events, days, f, d, k, sub);
    ExpectedCount(events, days, f, d, k, sub, x);
  }

  /**
   * One-time pairs go only to the one-time arrays, under the event's own date:
   * an event fetched once sits in the sub-list `dates[date]` of the one-time
   * group of day `d` under its key exactly once when it is a one-time event
   * whose date passes the window and parses to weekday `d`, and nowhere else.
   */
  lemma OneTimePlacement(cat: Catalog, cal: Calendar, w: Window, events: seq<Event>, x: Event, d: string, k: string, sub: Option<string>)
    requires multiset(events)[x] <= 1
    ensures multiset(Slot(OneBuckets(cat, cal, w, events), d, k, sub))[x] ==
      if && x in events && !x.isRecurring && OneTimeDays(cal, w, x) == [d]
         && sub == Some(DateOf(cal, x)) && k == MasterKey(cat, cal, w, x, d)
      then 1 else 0
  {
    var days := OneDaysFn(cal, w);
    var f := MasterFn(cat, cal, w);
    MasterProper(cat, cal, w);
    SpreadSlot(events, days, f, d, k, sub);
    ExpectedCount(events, days, f, d, k, sub, x);
    var ds := OneTimeDays(cal, w, x);
    if ds != [] {
      assert ds == [ds[0]];
      assert multiset(ds)[d] == if ds[0] == d then 1 else 0;
    }
  }

  /** A day has recurring groups exactly when some recurring event has a `when` term with its name. */
  lemma RecurringDays(cat: Catalog, cal: Calendar, w: Window, events: seq<Event>, d: string)
    ensures HasDay(RecBuckets(cat, cal, w, events), d) <==> exists e :: e in events && e.isRecurring && d in e.when
  {
    var items := RecItems(cat, cal, w, events);
    MasterProper(cat, cal, w);
    PlaceAllDescribes(items);
    PlaceAllValid(items);
    SpreadDays(events, RecDaysFn(cal, w), MasterFn(cat, cal, w), d);
  }

  /** A day has one-time groups exactly when some one-time event falls on it within the window. */
  lemma OneTimeDaysShown(cat: Catalog, cal: Calendar, w: Window, events: seq<Event>, d: string)
    ensures HasDay(OneBuckets(cat, cal, w, events), d) <==>
      exists e :: e in events && !e.isRecurring && OneTimeDays(cal, w, e) == [d]
  {
    var items := OneItems(cat, cal, w, events);
    MasterProper(cat, cal, w);
    PlaceAllDescribes(items);
    PlaceAllValid(items);
    SpreadDays(events, OneDaysFn(cal, w), MasterFn(cat, cal, w), d);
    forall e | e in events && !e.isRecurring ensures d in OneDays(cal, w, e) <==> OneTimeDays(cal, w, e) == [d] {
      OneDayIn(cal, w, e, d);
    }
  }

  lemma OneDayIn(cal: Calendar, w: Window, e: Event, d: string)
    ensures d in OneTimeDays(cal, w, e) <==> OneTimeDays(cal, w, e) == [d]
  {
    var ds := OneTimeDays(cal, w, e);
    if ds != [] {
      assert ds == [ds[0]];
    }
  }

  /**
   * First event wins in a recurring group: its type, theme and class are those
   * of its first event, a recurring event whose theme on that day is the
   * explicit one or else the looked-up one.
   */
  lemma RecurringGroupMeta(cat: Catalog, cal: Calendar, w: Window, events: seq<Event>, d: string, k: string)
    requires d in RecBuckets(cat, cal, w, events).byDay && k in RecBuckets(cat, cal, w, events).byDay[d].groups
    ensures var s := Slot(RecBuckets(cat, cal, w, events), d, k, None);
      var grp := RecBuckets(cat, cal, w, events).byDay[d].groups[k];
      && s != [] && s[0].isRecurring
      && grp.typeName == EventTypeString(s[0])
      && grp.theme == MasterTheme(cat, cal, w, s[0], d)
      && grp.cls == EventClass(EventTypeString(s[0]))
  {
    var items := RecItems(cat, cal, w, events);
    var days := RecDaysFn(cal, w);
    var f := MasterFn(cat, cal, w);
    MasterProper(cat, cal, w);
    SpreadShape(events, days, f);
    forall n | 0 <= n < |items| ensures items[n].sub == None {
      assert items[n].day in RecDays(cal, w, items[n].member);
    }
    SlotHead(items, d, k);
    var first := FirstAt(items, d, k);
    var i :| 0 <= i < |items| && items[i] == first && At(first, d, k);
    assert first == f(first.member, d);
    assert d in RecDays(cal, w, first.member);
  }

  /** One-time event `e` is filed on day `d` under key `k`. */
  predicate OneTimeFiled(cat: Catalog, cal: Calendar, w: Window, e: Event, d: string, k: string) {
    !e.isRecurring && OneTimeDays(cal, w, e) == [d] && MasterKey(cat, cal, w, e, d) == k
  }

  /** One-time event `e` is filed on day `d` under key `k`, in the sub-list of date `dt`. */
  predicate OnDate(cat: Catalog, cal: Calendar, w: Window, d: string, k: string, dt: string, e: Event) {
    OneTimeFiled(cat, cal, w, e, d, k) && DateOf(cal, e) == dt
  }

  function OnDateFn(cat: Catalog, cal: Calendar, w: Window, d: string, k: string, dt: string): Event -> bool {
    (e: Event) => OnDate(cat, cal, w, d, k, dt, e)
  }

  lemma OneTimeReaches(cat: Catalog, cal: Calendar, w: Window, e: Event, d: string, k: string)
    ensures Reaches(OneDaysFn(cal, w), MasterFn(cat, cal, w), e, d, k) <==> OneTimeFiled(cat, cal, w, e, d, k)
  {
    var ds := OneTimeDays(cal, w, e);
    if ds != [] {
      assert ds == [ds[0]];
    }
  }

  /**
   * The events of a date sub-list: the one-time events filed on that day, under
   * that key and with that date, in input order.
   */
  lemma {:induction false} ExpectedOnDate(cat: Catalog, cal: Calendar, w: Window, events: seq<Event>, d: string, k: string, dt: string)
    ensures Expected(events, OneDaysFn(cal, w), MasterFn(cat, cal, w), d, k, Some(dt)) == Filter(events, OnDateFn(cat, cal, w, d, k, dt))
    decreases |events|
  {
    if events != [] {
      var front, last := events[..|events| - 1], events[|events| - 1];
      assert events == front + [last];
      ExpectedOnDate(cat, cal, w, front, d, k, dt);
      FilterSnoc(front, last, OnDateFn(cat, cal, w, d, k, dt));
      OnDateStep(cat, cal, w, last, d, k, dt);
    }
  }

  lemma OnDateStep(cat: Catalog, cal: Calendar, w: Window, e: Event, d: string, k: string, dt: string)
    ensures
      var f := MasterFn(cat, cal, w);
      (if f(e, d).Key() == k && f(e, d).sub == Some(dt) then Repeat(e, multiset(OneDaysFn(cal, w)(e))[d]) else [])
      == if OnDate(cat, cal, w, d, k, dt, e) then [e] else []
  {
    var ds := OneDays(cal, w, e);
    if ds != [] {
      assert ds == [ds[0]];
      if ds[0] == d {
        assert Repeat(e, 1) == [e];
      }
    }
  }

  /**
   * `dates[dt]` of one-time group `k` on day `d` lists, in input order, exactly
   * the one-time events filed on `d` under `k` whose normalised date is `dt`.
   */
  lemma OneTimeDateContents(cat: Catalog, cal: Calendar, w: Window, events: seq<Event>, d: string, k: string, dt: string)
    ensures Slot(OneBuckets(cat, cal, w, events), d, k, Some(dt)) == Filter(events, OnDateFn(cat, cal, w, d, k, dt))
  {
    MasterProper(cat, cal, w);
    SpreadSlot(events, OneDaysFn(cal, w), MasterFn(cat, cal, w), d, k, Some(dt));
    ExpectedOnDate(cat, cal, w, events, d, k, dt);
  }

  /**
   * A one-time group's theme is never looked up: its type, theme and class are
   * those of the first event of the input filed in it, a one-time event whose
   * own `special_theme` is the theme, and which heads the sub-list of its date.
   */
  lemma OneTimeGroupMeta(cat: Catalog, cal: Calendar, w: Window, events: seq<Event>, d: string, k: string)
    requires d in OneBuckets(cat, cal, w, events).byDay && k in OneBuckets(cat, cal, w, events).byDay[d].groups
    ensures var grp := OneBuckets(cat, cal, w, events).byDay[d].groups[k];
      exists i ::
        && 0 <= i < |events| && OneTimeFiled(cat, cal, w, events[i], d, k)
        && (forall j :: 0 <= j < i ==> !OneTimeFiled(cat, cal, w, events[j], d, k))
        && DateOf(cal, events[i]) in grp.dates && |grp.dates[DateOf(cal, events[i])]| > 0
        && grp.dates[DateOf(cal, events[i])][0] == events[i]
        && grp.typeName == EventTypeString(events[i])
        && grp.theme == events[i].specialTheme
        && grp.cls == EventClass(EventTypeString(events[i]))
  {
    var items := OneItems(cat, cal, w, events);
    var days := OneDaysFn(cal, w);
    var f := MasterFn(cat, cal, w);
    MasterProper(cat, cal, w);
    GroupMeta(items, d, k);
    SpreadFirst(events, days, f, d, k);
    var i :| && 0 <= i < |events| && Reaches(days, f, events[i], d, k)
      && (forall j :: 0 <= j < i ==> !Reaches(days, f, events[j], d, k))
      && FirstAt(items, d, k) == f(events[i], d);
    OneTimeReaches(cat, cal, w, events[i], d, k);
    forall j | 0 <= j < i ensures !OneTimeFiled(cat, cal, w, events[j], d, k) {
      OneTimeReaches(cat, cal, w, events[j], d, k);
    }
    OneTimeDateHead(cat, cal, w, events, d, k, i);
  }

  /** The first event filed under a key heads the sub-list of its own date. */
  lemma OneTimeDateHead(cat: Catalog, cal: Calendar, w: Window, events: seq<Event>, d: string, k: string, i: nat)
    requires i < |events| && OneTimeFiled(cat, cal, w, events[i], d, k)
    requires forall j :: 0 <= j < i ==> !OneTimeFiled(cat, cal, w, events[j], d, k)
    ensures d in OneBuckets(cat, cal, w, events).byDay && k in OneBuckets(cat, cal, w, events).byDay[d].groups
    ensures var grp := OneBuckets(cat, cal, w, events).byDay[d].groups[k];
      && DateOf(cal, events[i]) in grp.dates && |grp.dates[DateOf(cal, events[i])]| > 0
      && grp.dates[DateOf(cal, events[i])][0] == events[i]
  {
    var dt := DateOf(cal, events[i]);
    var p := OnDateFn(cat, cal, w, d, k, dt);
    OneTimeDateContents(cat, cal, w, events, d, k, dt);
    assert forall j :: 0 <= j < i ==> !p(events[j]);
    FilterFirst(events, i, p);
  }

  // ── Rendering ─────────────────────────────────────────────────────────────

  /**
   * One rendered group card: meta, its events and the `show_date` it carries
   * (None for a recurring card, which has no such entry).
   */
  datatype Card = Card(typeName: string, theme: string, cls: string, events: seq<Event>, showDate: Option<string>)

  /** One rendered day: its name, its "<DAY>S" header, and its two sections. */
  datatype MasterDay = MasterDay(day: string, header: string, recurring: seq<Card>, oneTime: seq<Card>)

  /** `show_date` of a one-time card: `M j` of the date key, or the key itself when it does not parse. */
  function ShowDate(cal: Calendar, date: string): (r: string)
    ensures cal.parseYmd(date).Some? ==> r == cal.parseYmd(date).value.monthDay
    ensures cal.parseYmd(date).None? ==> r == date
  {
    match cal.parseYmd(date)
    case Some(info) => info.monthDay
    case None => date
  }

  /** The recurring cards of a day, in key order, none of them showing a date. */
  function RecurringCards(g: Groups): (r: seq<Card>)
    requires GroupsValid(g)
    ensures |r| == |g.keys|
    ensures forall i :: 0 <= i < |r| ==>
      var grp := g.groups[g.keys[i]];
      r[i] == Card(grp.typeName, grp.theme, grp.cls, grp.events, None)
  {
    seq(|g.keys|, i requires 0 <= i < |g.keys| =>
      var grp := g.groups[g.keys[i]];
      Card(grp.typeName, grp.theme, grp.cls, grp.events, None))
  }

  /** One card per date key of `ds`, in that order. */
  function CardsFor(cal: Calendar, grp: Group, ds: seq<string>): (r: seq<Card>)
    requires forall d :: d in ds ==> d in grp.dates
    ensures |r| == |ds|
    ensures forall i :: 0 <= i < |ds| ==>
      r[i] == Card(grp.typeName, grp.theme, grp.cls, grp.dates[ds[i]], Some(ShowDate(cal, ds[i])))
  {
    seq(|ds|, i requires 0 <= i < |ds| =>
      Card(grp.typeName, grp.theme, grp.cls, grp.dates[ds[i]], Some(ShowDate(cal, ds[i]))))
  }

  /** The cards of one one-time group after `ksort`: one per date key, in ascending key order. */
  ghost function DateCards(cal: Calendar, grp: Group): (r: seq<Card>)
    ensures |r| == |grp.dates|
  {
    CardsFor(cal, grp, SortedSet(grp.dates.Keys))
  }

  /** The one-time cards of a day: each group's date cards, groups in key order. */
  ghost function OneTimeCards(cal: Calendar, groups: seq<Group>): seq<Card>
    decreases |groups|
  {
    if groups == [] then []
    else OneTimeCards(cal, groups[..|groups| - 1]) + DateCards(cal, groups[|groups| - 1])
  }

  /** `empty(recurring) && empty(one_time)` is false for the day. */
  predicate Shown(rec: Buckets, one: Buckets, day: string) {
    HasDay(rec, day) || HasDay(one, day)
  }

  function ShownFn(rec: Buckets, one: Buckets): string -> bool {
    (d: string) => Shown(rec, one, d)
  }

  ghost function DayOf(cal: Calendar, rec: Buckets, one: Buckets, day: string): (r: MasterDay)
    requires BucketsValid(rec) && BucketsValid(one)
  {
    MasterDay(day, StrToUpper(day) + "S",
      if HasDay(rec, day) then RecurringCards(rec.byDay[day]) else [],
      if HasDay(one, day) then OneTimeCards(cal, Ordered(one.byDay[day])) else [])
  }

  ghost function DaysFor(cal: Calendar, rec: Buckets, one: Buckets, days: seq<string>): (r: seq<MasterDay>)
    requires BucketsValid(rec) && BucketsValid(one)
    ensures |r| == |days| && forall i :: 0 <= i < |r| ==> r[i] == DayOf(cal, rec, one, days[i])
  {
    seq(|days|, i requires 0 <= i < |days| => DayOf(cal, rec, one, days[i]))
  }

  /** The days rendered: Monday to Sunday, skipping a day with both sections empty. */
  ghost function Rendered(cal: Calendar, rec: Buckets, one: Buckets): seq<MasterDay>
    requires BucketsValid(rec) && BucketsValid(one)
  {
    DaysFor(cal, rec, one, Filter(DayOrder, ShownFn(rec, one)))
  }

  /** What the shortcode renders for the filtered events. */
  ghost function View(cat: Catalog, cal: Calendar, w: Window, events: seq<Event>): seq<MasterDay> {
    PlaceAllValid(RecItems(cat, cal, w, events));
    PlaceAllValid(OneItems(cat, cal, w, events));
    Rendered(cal, RecBuckets(cat, cal, w, events), OneBuckets(cat, cal, w, events))
  }

  /** `ksort($group['dates'])`, then one card per date. */
  method RenderDateCards(cal: Calendar, grp: Group) returns (cards: seq<Card>)
    ensures cards == DateCards(cal, grp)
  {
    var ds := SortKeys(grp.dates.Keys);
    cards := RenderCards(cal, grp, ds);
  }

  /** One card per date of `ds`, its `show_date` the parsed `M j` or the raw key. */
  method RenderCards(cal: Calendar, grp: Group, ds: seq<string>) returns (cards: seq<Card>)
    requires forall d :: d in ds ==> d in grp.dates
    ensures cards == CardsFor(cal, grp, ds)
  {
    cards := [];
    var i := 0;
    while i < |ds|
      invariant 0 <= i <= |ds|
      invariant cards == CardsFor(cal, grp, ds)[..i]
    {
      var date := ds[i];
      var showDate := date;
      var d := cal.parseYmd(date);
      if d.Some? {
        showDate := d.value.monthDay;
      }
      cards := cards + [Card(grp.typeName, grp.theme, grp.cls, grp.dates[date], Some(showDate))];
      i := i + 1;
    }
  }

  lemma OneTimeCardsSnoc(cal: Calendar, groups: seq<Group>, grp: Group)
    ensures OneTimeCards(cal, groups + [grp]) == OneTimeCards(cal, groups) + DateCards(cal, grp)
  {
    assert (groups + [grp])[..|groups|] == groups;
  }

  lemma OneTimeCardsStep(cal: Calendar, gs: seq<Group>, i: nat)
    requires i < |gs|
    ensures OneTimeCards(cal, gs[..i + 1]) == OneTimeCards(cal, gs[..i]) + DateCards(cal, gs[i])
  {
    TakeSnoc(gs, i);
    OneTimeCardsSnoc(cal, gs[..i], gs[i]);
  }

  /** The "Upcoming" section of a day: every one-time group in key order, date by date. */
  method RenderOneTime(cal: Calendar, g: Groups) returns (cards: seq<Card>)
    requires GroupsValid(g)
    ensures cards == OneTimeCards(cal, Ordered(g))
  {
    ghost var gs := Ordered(g);
    cards := [];
    var i := 0;
    while i < |g.keys|
      invariant 0 <= i <= |g.keys|
      invariant cards == OneTimeCards(cal, gs[..i])
    {
      var grp := g.groups[g.keys[i]];
      var more := RenderDateCards(cal, grp);
      OneTimeCardsStep(cal, gs, i);
      cards := cards + more;
      i := i + 1;
    }
    assert gs[..|g.keys|] == gs;
  }

  lemma DaysForSnoc(cal: Calendar, rec: Buckets, one: Buckets, shown: seq<string>, day: string)
    requires BucketsValid(rec) && BucketsValid(one)
    ensures DaysFor(cal, rec, one, shown + [day]) == DaysFor(cal, rec, one, shown) + [DayOf(cal, rec, one, day)]
  {
  }

  /** One day's two sections, "Every <day>" then "Upcoming". */
  method RenderDay(cal: Calendar, rec: Buckets, one: Buckets, day: string) returns (md: MasterDay)
    requires BucketsValid(rec) && BucketsValid(one)
    ensures md == DayOf(cal, rec, one, day)
  {
    var recurring: seq<Card> := [];
    if day in rec.byDay && rec.byDay[day].keys != [] {
      recurring := RecurringCards(rec.byDay[day]);
    }
    var oneTime: seq<Card> := [];
    if day in one.byDay && one.byDay[day].keys != [] {
      oneTime := RenderOneTime(cal, one.byDay[day]);
    }
    md := MasterDay(day, StrToUpper(day) + "S", recurring, oneTime);
  }

  /** The day loop: Monday to Sunday, skipping a day with nothing in either section. */
  method RenderMaster(cal: Calendar, rec: Buckets, one: Buckets) returns (days: seq<MasterDay>)
    requires BucketsValid(rec) && BucketsValid(one)
    ensures days == Rendered(cal, rec, one)
  {
    days := [];
    var i := 0;
    while i < |DayOrder|
      invariant 0 <= i <= |DayOrder|
      invariant days == DaysFor(cal, rec, one, Filter(DayOrder[..i], ShownFn(rec, one)))
    {
      var day := DayOrder[i];
      ghost var shown := Filter(DayOrder[..i], ShownFn(rec, one));
      TakeSnoc(DayOrder, i);
      FilterSnoc(DayOrder[..i], day, ShownFn(rec, one));
      if (day in rec.byDay && rec.byDay[day].keys != []) || (day in one.byDay && one.byDay[day].keys != []) {
        var md := RenderDay(cal, rec, one, day);
        DaysForSnoc(cal, rec, one, shown, day);
        days := days + [md];
      }
      i := i + 1;
    }
    assert DayOrder[..|DayOrder|] == DayOrder;
  }

  /**
   * `cerrito_master_schedule_shortcode` on all event posts: the attribute
   * filters, the grouping loop, then the day loop.
   */
  method MasterShortcode(cat: Catalog, cal: Calendar, w: Window, posts: seq<Event>, locationId: int, gameType: string)
    returns (days: seq<MasterDay>)
    ensures days == View(cat, cal, w, ApplyFilters(posts, locationId, gameType))
  {
    var events := ApplyFilters(posts, locationId, gameType);
    var rec, one := GroupMaster(cat, cal, w, events);
    PlaceAllValid(RecItems(cat, cal, w, events));
    PlaceAllValid(OneItems(cat, cal, w, events));
    days := RenderMaster(cal, rec, one);
  }

  // ── What is rendered ──────────────────────────────────────────────────────

  /**
   * Within a one-time group, date sub-lists are rendered in strictly ascending
   * date-key order, one card per date key, each card showing `M j` of its date
   * or the raw key.
   */
  lemma DateCardsAscending(cal: Calendar, grp: Group)
    ensures exists ds: seq<string> ::
      && StrictlySorted(ds)
      && (forall x :: x in ds <==> x in grp.dates)
      && |DateCards(cal, grp)| == |ds|
      && forall i :: 0 <= i < |ds| ==>
           && DateCards(cal, grp)[i].events == grp.dates[ds[i]]
           && DateCards(cal, grp)[i].showDate == Some(ShowDate(cal, ds[i]))
  {
    var ds := SortedSet(grp.dates.Keys);
    assert StrictlySorted(ds);
  }

  /** Every one-time card shows a date. */
  lemma {:induction false} OneTimeCardsShowDates(cal: Calendar, groups: seq<Group>)
    ensures forall c :: c in OneTimeCards(cal, groups) ==> c.showDate.Some?
    decreases |groups|
  {
    if groups != [] {
      OneTimeCardsShowDates(cal, groups[..|groups| - 1]);
    }
  }

  /** A one-time card for each date sub-list of each group: the "Upcoming" section is empty only when the day has no one-time groups. */
  lemma {:induction false} OneTimeCardsCount(cal: Calendar, groups: seq<Group>)
    requires forall i :: 0 <= i < |groups| ==> |groups[i].dates| > 0
    ensures OneTimeCards(cal, groups) == [] <==> groups == []
    decreases |groups|
  {
    if groups != [] {
      OneTimeCardsCount(cal, groups[..|groups| - 1]);
    }
  }

  /** Every one-time group has at least one date sub-list. */
  lemma OneTimeGroupsDated(cat: Catalog, cal: Calendar, w: Window, events: seq<Event>, d: string, k: string)
    requires d in OneBuckets(cat, cal, w, events).byDay && k in OneBuckets(cat, cal, w, events).byDay[d].groups
    ensures |OneBuckets(cat, cal, w, events).byDay[d].groups[k].dates| > 0
  {
    OneTimeGroupMeta(cat, cal, w, events, d, k);
  }

  /** The day names of the rendered days, in order. */
  function DayNames(days: seq<MasterDay>): (r: seq<string>)
    ensures |r| == |days| && forall i :: 0 <= i < |r| ==> r[i] == days[i].day
  {
    seq(|days|, i requires 0 <= i < |days| => days[i].day)
  }

  /**
   * Days are rendered Monday to Sunday; a canonical day is rendered exactly
   * when some event contributes it (a `when` term of a recurring event, or the
   * in-window date of a one-time event), and each rendered day is headed
   * "<DAY>S".
   */
  lemma ViewDays(cat: Catalog, cal: Calendar, w: Window, events: seq<Event>, d: string)
    ensures IsSubsequence(DayNames(View(cat, cal, w, events)), DayOrder)
    ensures d in DayNames(View(cat, cal, w, events)) <==>
      d in DayOrder && exists e :: e in events && d in MasterDays(cal, w, e)
    ensures forall i :: 0 <= i < |View(cat, cal, w, events)| ==>
      View(cat, cal, w, events)[i].header == StrToUpper(View(cat, cal, w, events)[i].day) + "S"
  {
    var rec, one := RecBuckets(cat, cal, w, events), OneBuckets(cat, cal, w, events);
    ViewNames(cat, cal, w, events);
    FilterIsSubsequence(DayOrder, ShownFn(rec, one));
    RecurringDays(cat, cal, w, events, d);
    OneTimeDaysShown(cat, cal, w, events, d);
    if exists e :: e in events && d in MasterDays(cal, w, e) {
      var e :| e in events && d in MasterDays(cal, w, e);
      if !e.isRecurring {
        OneDayIn(cal, w, e, d);
      }
    }
  }

  lemma ViewNames(cat: Catalog, cal: Calendar, w: Window, events: seq<Event>)
    ensures DayNames(View(cat, cal, w, events)) ==
      Filter(DayOrder, ShownFn(RecBuckets(cat, cal, w, events), OneBuckets(cat, cal, w, events)))
    ensures forall i :: 0 <= i < |View(cat, cal, w, events)| ==>
      View(cat, cal, w, events)[i].header == StrToUpper(View(cat, cal, w, events)[i].day) + "S"
  {
    var rec, one := RecBuckets(cat, cal, w, events), OneBuckets(cat, cal, w, events);
    PlaceAllValid(RecItems(cat, cal, w, events));
    PlaceAllValid(OneItems(cat, cal, w, events));
    var shown := Filter(DayOrder, ShownFn(rec, one));
    assert View(cat, cal, w, events) == DaysFor(cal, rec, one, shown);
  }

  /**
   * A rendered day's "Every <day>" section is non-empty exactly when a
   * recurring event has a `when` term for it, and holds no dated card; its
   * "Upcoming" section is non-empty exactly when a one-time event falls on it,
   * and every card there shows a date.
   */
  lemma ViewSections(cat: Catalog, cal: Calendar, w: Window, events: seq<Event>, i: nat)
    requires i < |View(cat, cal, w, events)|
    ensures var md := View(cat, cal, w, events)[i];
      && (md.recurring != [] <==> exists e :: e in events && e.isRecurring && md.day in e.when)
      && (forall c :: c in md.recurring ==> c.showDate == None)
      && (md.oneTime != [] <==> exists e :: e in events && !e.isRecurring && OneTimeDays(cal, w, e) == [md.day])
      && (forall c :: c in md.oneTime ==> c.showDate.Some?)
  {
    var rec, one := RecBuckets(cat, cal, w, events), OneBuckets(cat, cal, w, events);
    PlaceAllValid(RecItems(cat, cal, w, events));
    PlaceAllValid(OneItems(cat, cal, w, events));
    var shown := Filter(DayOrder, ShownFn(rec, one));
    var v := View(cat, cal, w, events);
    assert v == DaysFor(cal, rec, one, shown);
    var d := shown[i];
    assert v[i] == DayOf(cal, rec, one, d);
    RecurringDays(cat, cal, w, events, d);
    OneTimeDaysShown(cat, cal, w, events, d);
    if HasDay(one, d) {
      var g := one.byDay[d];
      forall j | 0 <= j < |Ordered(g)| ensures |Ordered(g)[j].dates| > 0 {
        assert g.keys[j] in g.keys;
        OneTimeGroupsDated(cat, cal, w, events, d, g.keys[j]);
      }
      OneTimeCardsCount(cal, Ordered(g));
      OneTimeCardsShowDates(cal, Ordered(g));
    }
  }
}

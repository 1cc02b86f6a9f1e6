/**
 * The loops of the recurring and master schedules append an event once per
 * day it falls on (`foreach ($events as $event) foreach ($days as $day)`).
 * `Spread` is the list of those appends; the lemmas here say, once for both
 * engines, what every slot then holds and which days get a bucket.
 */
module Fanout {
  import opened Wrappers
  import opened Seqs
  import opened Entities
  import opened Grouping

  /** The appends for one event: one per entry of `ds`, the one for day `d` being `f(e, d)`. */
  function ItemsFor(e: Event, ds: seq<string>, f: (Event, string) -> Item): (r: seq<Item>)
    ensures |r| == |ds| && forall j :: 0 <= j < |ds| ==> r[j] == f(e, ds[j])
  {
    seq(|ds|, j requires 0 <= j < |ds| => f(e, ds[j]))
  }

  /** The appends of the nested loop: each event in order, each of its days in order. */
  function Spread(events: seq<Event>, days: Event -> seq<string>, f: (Event, string) -> Item): seq<Item>
    decreases |events|
  {
    if events == [] then []
    else Spread(events[..|events| - 1], days, f) + ItemsFor(events[|events| - 1], days(events[|events| - 1]), f)
  }

  /** An append made for event `e` on day `d` files `e` under `d`. */
  ghost predicate Proper(f: (Event, string) -> Item) {
    forall e, d :: f(e, d).day == d && f(e, d).member == e
  }

  /**
   * Reference definition of a slot: each event, in input order, once for every
   * occurrence of `d` among its days, when its append for `d` has key `k` and
   * sub-key `sub`.
   */
  function Expected(events: seq<Event>, days: Event -> seq<string>, f: (Event, string) -> Item, d: string, k: string, sub: Option<string>): seq<Event>
    decreases |events|
  {
    if events == [] then []
    else
      var last := events[|events| - 1];
      Expected(events[..|events| - 1], days, f, d, k, sub)
        + if f(last, d).Key() == k && f(last, d).sub == sub then Repeat(last, multiset(days(last))[d]) else []
  }

  // ── Steps ─────────────────────────────────────────────────────────────────

  lemma ItemsForSnoc(e: Event, ds: seq<string>, x: string, f: (Event, string) -> Item)
    ensures ItemsFor(e, ds + [x], f) == ItemsFor(e, ds, f) + [f(e, x)]
  {
    assert ItemsFor(e, ds + [x], f)[..|ds|] == ItemsFor(e, ds, f);
  }

  lemma SpreadSnoc(events: seq<Event>, e: Event, days: Event -> seq<string>, f: (Event, string) -> Item)
    ensures Spread(events + [e], days, f) == Spread(events, days, f) + ItemsFor(e, days(e), f)
  {
    assert (events + [e])[..|events|] == events;
  }

  lemma {:induction false} MembersConcat(a: seq<Item>, b: seq<Item>, k: string, sub: Option<string>)
    ensures Members(a + b, k, sub) == Members(a, k, sub) + Members(b, k, sub)
    decreases |b|
  {
    if b == [] {
      assert a + b == a;
    } else {
      var front, last := b[..|b| - 1], b[|b| - 1];
      var tail := if last.Key() == k && last.sub == sub then [last.member] else [];
      MembersConcat(a, front, k, sub);
      assert Members(a + b, k, sub) == Members(a + front, k, sub) + tail by {
        assert a + b == (a + front) + [last];
        MembersSnoc(a + front, last, k, sub);
      }
      assert Members(b, k, sub) == Members(front, k, sub) + tail by {
        assert b == front + [last];
        MembersSnoc(front, last, k, sub);
      }
    }
  }

  lemma OnDayConcat(a: seq<Item>, b: seq<Item>, d: string)
    ensures OnDay(a + b, d) == OnDay(a, d) + OnDay(b, d)
  {
    FilterConcat(a, b, IsOnDay(d));
  }

  /** One event's appends put it under day `d` once per occurrence of `d` among its days. */
  lemma {:induction false} ItemsForMembers(e: Event, ds: seq<string>, f: (Event, string) -> Item, d: string, k: string, sub: Option<string>)
    requires Proper(f)
    ensures Members(OnDay(ItemsFor(e, ds, f), d), k, sub) ==
      if f(e, d).Key() == k && f(e, d).sub == sub then Repeat(e, multiset(ds)[d]) else []
    decreases |ds|
  {
    if ds == [] {
      assert ItemsFor(e, ds, f) == [];
    } else {
      var front, x := ds[..|ds| - 1], ds[|ds| - 1];
      ItemsForMembers(e, front, f, d, k, sub);
      assert ds == front + [x];
      ItemsForMembersStep(e, front, x, f, d, k, sub);
    }
  }

  lemma ItemsForMembersStep(e: Event, front: seq<string>, x: string, f: (Event, string) -> Item, d: string, k: string, sub: Option<string>)
    requires Proper(f)
    requires Members(OnDay(ItemsFor(e, front, f), d), k, sub) ==
      if f(e, d).Key() == k && f(e, d).sub == sub then Repeat(e, multiset(front)[d]) else []
    ensures Members(OnDay(ItemsFor(e, front + [x], f), d), k, sub) ==
      if f(e, d).Key() == k && f(e, d).sub == sub then Repeat(e, multiset(front + [x])[d]) else []
  {
    var on := OnDay(ItemsFor(e, front, f), d);
    ItemsForSnoc(e, front, x, f);
    OnDaySnoc(ItemsFor(e, front, f), f(e, x), d);
    assert multiset(front + [x])[d] == multiset(front)[d] + if x == d then 1 else 0;
    if x == d {
      MembersSnoc(on, f(e, x), k, sub);
      RepeatSnoc(e, multiset(front)[d]);
    }
  }

  /** The members under day `d`, key `k` and sub-key `sub` are exactly `Expected`. */
  lemma {:induction false} SpreadMembers(events: seq<Event>, days: Event -> seq<string>, f: (Event, string) -> Item, d: string, k: string, sub: Option<string>)
    requires Proper(f)
    ensures Members(OnDay(Spread(events, days, f), d), k, sub) == Expected(events, days, f, d, k, sub)
    decreases |events|
  {
    if events != [] {
      var front, last := events[..|events| - 1], events[|events| - 1];
      var a, b := Spread(front, days, f), ItemsFor(last, days(last), f);
      SpreadMembers(front, days, f, d, k, sub);
      OnDayConcat(a, b, d);
      MembersConcat(OnDay(a, d), OnDay(b, d), k, sub);
      ItemsForMembers(last, days(last), f, d, k, sub);
    }
  }

  /** Every slot of the array the nested loop builds holds exactly `Expected`. */
  lemma SpreadSlot(events: seq<Event>, days: Event -> seq<string>, f: (Event, string) -> Item, d: string, k: string, sub: Option<string>)
    requires Proper(f)
    ensures Slot(PlaceAll(Spread(events, days, f)), d, k, sub) == Expected(events, days, f, d, k, sub)
  {
    PlacedSlot(Spread(events, days, f), d, k, sub);
    SpreadMembers(events, days, f, d, k, sub);
  }

  ghost predicate WellSpread(items: seq<Item>, events: seq<Event>, days: Event -> seq<string>, f: (Event, string) -> Item) {
    forall n :: 0 <= n < |items| ==>
      items[n].member in events && items[n].day in days(items[n].member) && items[n] == f(items[n].member, items[n].day)
  }

  /** Each append is the one its event makes for its day, for an event of the input and one of its days. */
  lemma {:induction false} SpreadShape(events: seq<Event>, days: Event -> seq<string>, f: (Event, string) -> Item)
    requires Proper(f)
    ensures WellSpread(Spread(events, days, f), events, days, f)
    decreases |events|
  {
    if events != [] {
      var front, last := events[..|events| - 1], events[|events| - 1];
      SpreadShape(front, days, f);
      var a: seq<Item> := Spread(front, days, f);
      var b: seq<Item> := ItemsFor(last, days(last), f);
      var items: seq<Item> := Spread(events, days, f);
      assert items == a + b;
      forall n | 0 <= n < |items|
        ensures items[n].member in events && items[n].day in days(items[n].member)
          && items[n] == f(items[n].member, items[n].day)
      {
        if n < |a| {
          assert items[n] == a[n];
          assert a[n].member in front;
          assert front <= events;
        } else {
          assert items[n] == b[n - |a|] == f(last, days(last)[n - |a|]);
        }
      }
    }
  }

  lemma DaysOfConcat(a: seq<Item>, b: seq<Item>)
    ensures DaysOf(a + b) == DaysOf(a) + DaysOf(b)
  {
  }

  /** One event's appends fall on exactly its days. */
  lemma ItemsForDays(e: Event, ds: seq<string>, f: (Event, string) -> Item, d: string)
    requires Proper(f)
    ensures d in DaysOf(ItemsFor(e, ds, f)) <==> d in ds
  {
    var b := ItemsFor(e, ds, f);
    if d in ds {
      var j :| 0 <= j < |ds| && ds[j] == d;
      assert DaysOf(b)[j] == f(e, ds[j]).day == d;
    }
    if d in DaysOf(b) {
      var j :| 0 <= j < |b| && DaysOf(b)[j] == d;
      assert f(e, ds[j]).day == ds[j];
    }
  }

  /** A day gets a bucket exactly when some event of the input falls on it. */
  lemma {:induction false} SpreadDays(events: seq<Event>, days: Event -> seq<string>, f: (Event, string) -> Item, d: string)
    requires Proper(f)
    ensures d in DaysOf(Spread(events, days, f)) <==> exists e :: e in events && d in days(e)
    decreases |events|
  {
    if events != [] {
      var front, last := events[..|events| - 1], events[|events| - 1];
      assert events == front + [last];
      SpreadDays(front, days, f, d);
      SpreadSnoc(front, last, days, f);
      DaysOfConcat(Spread(front, days, f), ItemsFor(last, days(last), f));
      ItemsForDays(last, days(last), f, d);
    }
  }

  /**
   * How often an event of the input (a post is fetched once) sits in a slot:
   * once per occurrence of `d` among its days, when its append for `d` has key
   * `k` and sub-key `sub`; never otherwise.
   */
  lemma {:induction false} ExpectedCount(events: seq<Event>, days: Event -> seq<string>, f: (Event, string) -> Item, d: string, k: string, sub: Option<string>, x: Event)
    requires multiset(events)[x] <= 1
    ensures multiset(Expected(events, days, f, d, k, sub))[x] ==
      if x in events && f(x, d).Key() == k && f(x, d).sub == sub then multiset(days(x))[d] else 0
    decreases |events|
  {
    if events != [] {
      var front, last := events[..|events| - 1], events[|events| - 1];
      assert events == front + [last];
      assert multiset(front)[x] <= multiset(events)[x];
      ExpectedCount(front, days, f, d, k, sub, x);
      ExpectedCountStep(front, last, days, f, d, k, sub, x);
    }
  }

  lemma ExpectedCountStep(front: seq<Event>, last: Event, days: Event -> seq<string>, f: (Event, string) -> Item, d: string, k: string, sub: Option<string>, x: Event)
    requires multiset(front + [last])[x] <= 1
    requires multiset(Expected(front, days, f, d, k, sub))[x] ==
      if x in front && f(x, d).Key() == k && f(x, d).sub == sub then multiset(days(x))[d] else 0
    ensures multiset(Expected(front + [last], days, f, d, k, sub))[x] ==
      if x in front + [last] && f(x, d).Key() == k && f(x, d).sub == sub then multiset(days(x))[d] else 0
  {
    var tail := if f(last, d).Key() == k && f(last, d).sub == sub then Repeat(last, multiset(days(last))[d]) else [];
    var a := Expected(front, days, f, d, k, sub);
    assert (front + [last])[..|front|] == front;
    assert Expected(front + [last], days, f, d, k, sub) == a + tail;
    assert multiset(a + tail)[x] == multiset(a)[x] + multiset(tail)[x];
    RepeatCount(last, multiset(days(last))[d], x);
    if last == x {
      assert multiset(front + [last])[x] == multiset(front)[x] + 1;
      assert x !in front;
    }
  }

  // ── The first append of a group ───────────────────────────────────────────

  /** Event `e` makes an append on day `d` under key `k`. */
  predicate Reaches(days: Event -> seq<string>, f: (Event, string) -> Item, e: Event, d: string, k: string) {
    d in days(e) && f(e, d).Key() == k
  }

  /** An event of the input that reaches `(d, k)` leaves an append there. */
  lemma {:induction false} SpreadReached(events: seq<Event>, days: Event -> seq<string>, f: (Event, string) -> Item, e: Event, d: string, k: string)
    requires Proper(f)
    ensures e in events && Reaches(days, f, e, d, k) ==>
      exists n :: 0 <= n < |Spread(events, days, f)| && At(Spread(events, days, f)[n], d, k)
    decreases |events|
  {
    if events != [] && e in events && Reaches(days, f, e, d, k) {
      var front, last := events[..|events| - 1], events[|events| - 1];
      assert events == front + [last];
      var a, b := Spread(front, days, f), ItemsFor(last, days(last), f);
      assert Spread(events, days, f) == a + b;
      if e == last {
        var j :| 0 <= j < |days(last)| && days(last)[j] == d;
        assert (a + b)[|a| + j] == f(last, d);
      } else {
        assert e in front;
        SpreadReached(front, days, f, e, d, k);
        var n :| 0 <= n < |a| && At(a[n], d, k);
        assert (a + b)[n] == a[n];
      }
    }
  }

  /** A first append in `a` stays the first one after more appends. */
  lemma FirstAtPrefix(a: seq<Item>, b: seq<Item>, d: string, k: string)
    requires exists i :: 0 <= i < |a| && At(a[i], d, k)
    ensures exists i :: 0 <= i < |a + b| && At((a + b)[i], d, k)
    ensures FirstAt(a + b, d, k) == FirstAt(a, d, k)
  {
    var ab := a + b;
    assert forall i :: 0 <= i < |a| ==> ab[i] == a[i];
    var r := FirstAt(ab, d, k);
    var i :| 0 <= i < |ab| && ab[i] == r && At(r, d, k) && forall j :: 0 <= j < i ==> !At(ab[j], d, k);
    var r' := FirstAt(a, d, k);
    var i' :| 0 <= i' < |a| && a[i'] == r' && At(r', d, k) && forall j :: 0 <= j < i' ==> !At(a[j], d, k);
    assert !(i' < i);
    assert !(i < i');
  }

  /**
   * The first append under day `d` and key `k` -- the one whose type and theme
   * the group keeps -- is the append of the first event of the input that
   * reaches `(d, k)`.
   */
  lemma {:induction false} SpreadFirst(events: seq<Event>, days: Event -> seq<string>, f: (Event, string) -> Item, d: string, k: string)
    requires Proper(f)
    requires exists n :: 0 <= n < |Spread(events, days, f)| && At(Spread(events, days, f)[n], d, k)
    ensures exists i ::
      && 0 <= i < |events| && Reaches(days, f, events[i], d, k)
      && (forall j :: 0 <= j < i ==> !Reaches(days, f, events[j], d, k))
      && FirstAt(Spread(events, days, f), d, k) == f(events[i], d)
    decreases |events|
  {
    var front, last := events[..|events| - 1], events[|events| - 1];
    assert events == front + [last];
    SpreadSnoc(front, last, days, f);
    if exists n :: 0 <= n < |Spread(front, days, f)| && At(Spread(front, days, f)[n], d, k) {
      SpreadFirst(front, days, f, d, k);
      FirstEarlier(front, last, days, f, d, k);
    } else {
      FirstFromLast(front, last, days, f, d, k);
    }
  }

  lemma FirstEarlier(front: seq<Event>, last: Event, days: Event -> seq<string>, f: (Event, string) -> Item, d: string, k: string)
    requires Spread(front + [last], days, f) == Spread(front, days, f) + ItemsFor(last, days(last), f)
    requires exists n :: 0 <= n < |Spread(front, days, f)| && At(Spread(front, days, f)[n], d, k)
    requires exists i ::
      && 0 <= i < |front| && Reaches(days, f, front[i], d, k)
      && (forall j :: 0 <= j < i ==> !Reaches(days, f, front[j], d, k))
      && FirstAt(Spread(front, days, f), d, k) == f(front[i], d)
    ensures exists n :: 0 <= n < |Spread(front + [last], days, f)| && At(Spread(front + [last], days, f)[n], d, k)
    ensures exists i ::
      && 0 <= i < |front + [last]| && Reaches(days, f, (front + [last])[i], d, k)
      && (forall j :: 0 <= j < i ==> !Reaches(days, f, (front + [last])[j], d, k))
      && FirstAt(Spread(front + [last], days, f), d, k) == f((front + [last])[i], d)
  {
    FirstAtPrefix(Spread(front, days, f), ItemsFor(last, days(last), f), d, k);
    var i :| && 0 <= i < |front| && Reaches(days, f, front[i], d, k)
      && (forall j :: 0 <= j < i ==> !Reaches(days, f, front[j], d, k))
      && FirstAt(Spread(front, days, f), d, k) == f(front[i], d);
    assert forall j :: 0 <= j < |front| ==> (front + [last])[j] == front[j];
  }

  lemma FirstFromLast(front: seq<Event>, last: Event, days: Event -> seq<string>, f: (Event, string) -> Item, d: string, k: string)
    requires Proper(f)
    requires Spread(front + [last], days, f) == Spread(front, days, f) + ItemsFor(last, days(last), f)
    requires exists n :: 0 <= n < |Spread(front + [last], days, f)| && At(Spread(front + [last], days, f)[n], d, k)
    requires !exists n :: 0 <= n < |Spread(front, days, f)| && At(Spread(front, days, f)[n], d, k)
    ensures Reaches(days, f, last, d, k)
    ensures forall j :: 0 <= j < |front| ==> !Reaches(days, f, front[j], d, k)
    ensures FirstAt(Spread(front + [last], days, f), d, k) == f(last, d)
  {
    forall j | 0 <= j < |front| ensures !Reaches(days, f, front[j], d, k) {
      SpreadReached(front, days, f, front[j], d, k);
    }
    var a, b := Spread(front, days, f), ItemsFor(last, days(last), f);
    var items := a + b;
    var r := FirstAt(items, d, k);
    var n :| 0 <= n < |items| && items[n] == r && At(r, d, k);
    assert n >= |a| by {
      assert forall j :: 0 <= j < |a| ==> items[j] == a[j];
    }
    var ds := days(last);
    assert r == b[n - |a|] == f(last, ds[n - |a|]);
    assert ds[n - |a|] == d;
  }
}

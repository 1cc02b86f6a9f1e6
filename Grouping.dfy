/**
 * The nested PHP arrays the grouping shortcodes build by appending,
 * `$by_day[$day][$group_key]['events'][] = $event`, as insertion-ordered maps:
 * a key-order sequence beside a map. Every append is an `Item`; the state after
 * a run of appends is `PlaceAll` (two levels) or `GroupAll` (one level) of the
 * items, and the lemmas here say what that state holds: keys in order of first
 * insertion, the members of each group in append order, and the group's type,
 * theme and class taken from the item that created it.
 */
module Grouping {
  import opened Wrappers
  import opened Php
  import opened Seqs
  import opened Entities
  import Helpers

  /**
   * The group key: the type string, followed by " - " and the theme when the
   * theme is truthy.
   */
  function GroupKey(typeName: string, theme: string): (r: string)
    ensures !Truthy(theme) ==> r == typeName
    ensures Truthy(theme) ==> r == typeName + " - " + theme
  {
    typeName + (if Truthy(theme) then " - " + theme else "")
  }

  /** Two different type/theme pairs can share a key; the group then keeps the first pair. */
  lemma GroupKeyCollision()
    ensures GroupKey("Trivia - Music", "") == GroupKey("Trivia", "Music")
  {
  }

  /**
   * A group card: type, theme and class are fixed when the group is created;
   * `events` receives the plain appends and `dates[d]` the appends under the
   * sub-key `d` (the one-time groups of the master schedule).
   */
  datatype Group = Group(typeName: string, theme: string, cls: string, events: seq<Event>, dates: map<string, seq<Event>>)

  /** An insertion-ordered array from group key to group. */
  datatype Groups = Groups(keys: seq<string>, groups: map<string, Group>)

  /** An insertion-ordered array from day (or date) to its groups. */
  datatype Buckets = Buckets(days: seq<string>, byDay: map<string, Groups>)

  const NoGroups := Groups([], map[])
  const NoBuckets := Buckets([], map[])

  /**
   * One append: `member` goes to the group with key `GroupKey(typeName, theme)`
   * under `day`, into `events` when `sub` is None and into `dates[sub]` otherwise.
   */
  datatype Item = Item(day: string, typeName: string, theme: string, sub: Option<string>, member: Event)
  {
    function Key(): string {
      GroupKey(typeName, theme)
    }
  }

  /** The group an item creates when its key is not set yet. */
  function NewGroup(it: Item): Group {
    Group(it.typeName, it.theme, Helpers.EventClass(it.typeName), [], map[])
  }

  function Append(grp: Group, it: Item): Group {
    match it.sub
    case None => grp.(events := grp.events + [it.member])
    case Some(d) => grp.(dates := grp.dates[d := (if d in grp.dates then grp.dates[d] else []) + [it.member]])
  }

  /** `if (!isset($g[$key])) $g[$key] = new group; append`. */
  function AddItem(g: Groups, it: Item): Groups {
    var k := it.Key();
    if k in g.groups then Groups(g.keys, g.groups[k := Append(g.groups[k], it)])
    else Groups(g.keys + [k], g.groups[k := Append(NewGroup(it), it)])
  }

  function GroupAll(items: seq<Item>): Groups
    decreases |items|
  {
    if items == [] then NoGroups else AddItem(GroupAll(items[..|items| - 1]), items[|items| - 1])
  }

  /** `if (!isset($b[$day])) $b[$day] = []`, then the group append under that day. */
  function Place(b: Buckets, it: Item): Buckets {
    if it.day in b.byDay then Buckets(b.days, b.byDay[it.day := AddItem(b.byDay[it.day], it)])
    else Buckets(b.days + [it.day], b.byDay[it.day := AddItem(NoGroups, it)])
  }

  function PlaceAll(items: seq<Item>): Buckets
    decreases |items|
  {
    if items == [] then NoBuckets else Place(PlaceAll(items[..|items| - 1]), items[|items| - 1])
  }

  // ── Reference definitions ─────────────────────────────────────────────────

  function KeysOf(items: seq<Item>): (r: seq<string>)
    ensures |r| == |items| && forall i :: 0 <= i < |items| ==> r[i] == items[i].Key()
    decreases |items|
  {
    if items == [] then [] else KeysOf(items[..|items| - 1]) + [items[|items| - 1].Key()]
  }

  function DaysOf(items: seq<Item>): (r: seq<string>)
    ensures |r| == |items| && forall i :: 0 <= i < |items| ==> r[i] == items[i].day
    decreases |items|
  {
    if items == [] then [] else DaysOf(items[..|items| - 1]) + [items[|items| - 1].day]
  }

  function IsOnDay(day: string): Item -> bool {
    (it: Item) => it.day == day
  }

  /** The items under `day`, in order. */
  function OnDay(items: seq<Item>, day: string): seq<Item> {
    Filter(items, IsOnDay(day))
  }

  /** The members of the items with key `k` and sub-key `sub`, in order. */
  function Members(items: seq<Item>, k: string, sub: Option<string>): (r: seq<Event>)
    decreases |items|
  {
    if items == [] then []
    else
      var last := items[|items| - 1];
      Members(items[..|items| - 1], k, sub) + if last.Key() == k && last.sub == sub then [last.member] else []
  }

  /** The first item with key `k`: the one whose append created the group. */
  function FirstWithKey(items: seq<Item>, k: string): (r: Item)
    requires k in KeysOf(items)
    ensures exists i :: 0 <= i < |items| && items[i] == r && r.Key() == k && forall j :: 0 <= j < i ==> items[j].Key() != k
  {
    items[IndexOf(KeysOf(items), k)]
  }

  /** What a group built from `items` under key `k` holds. */
  ghost predicate GroupDescribes(grp: Group, items: seq<Item>, k: string)
    requires k in KeysOf(items)
  {
    var first := FirstWithKey(items, k);
    && grp.typeName == first.typeName
    && grp.theme == first.theme
    && grp.cls == Helpers.EventClass(first.typeName)
    && grp.events == Members(items, k, None)
    && (forall d :: d in grp.dates <==> Members(items, k, Some(d)) != [])
    && (forall d :: d in grp.dates ==> grp.dates[d] == Members(items, k, Some(d)))
  }

  /** The one-level array built from `items`. */
  ghost predicate Describes(g: Groups, items: seq<Item>) {
    && g.keys == Dedup(KeysOf(items))
    && (forall k :: k in g.groups <==> k in KeysOf(items))
    && forall k :: k in g.groups ==> k in KeysOf(items) && GroupDescribes(g.groups[k], items, k)
  }

  // ── Lemmas ────────────────────────────────────────────────────────────────

  lemma {:induction false} MembersOfAbsentKey(items: seq<Item>, k: string, sub: Option<string>)
    requires k !in KeysOf(items)
    ensures Members(items, k, sub) == []
    decreases |items|
  {
    if items != [] {
      var front := items[..|items| - 1];
      assert KeysOf(items) == KeysOf(front) + [items[|items| - 1].Key()];
      MembersOfAbsentKey(front, k, sub);
    }
  }

  lemma SnocParts(items: seq<Item>, it: Item)
    ensures (items + [it])[..|items|] == items
    ensures KeysOf(items + [it]) == KeysOf(items) + [it.Key()]
    ensures DaysOf(items + [it]) == DaysOf(items) + [it.day]
  {
    assert (items + [it])[..|items|] == items;
  }

  lemma MembersSnoc(items: seq<Item>, it: Item, k: string, sub: Option<string>)
    ensures Members(items + [it], k, sub) == Members(items, k, sub) + if it.Key() == k && it.sub == sub then [it.member] else []
  {
    assert (items + [it])[..|items|] == items;
  }

  lemma FirstWithKeySnoc(items: seq<Item>, it: Item, k: string)
    requires k in KeysOf(items + [it])
    ensures k in KeysOf(items) ==> FirstWithKey(items + [it], k) == FirstWithKey(items, k)
    ensures k !in KeysOf(items) ==> FirstWithKey(items + [it], k) == it
  {
    SnocParts(items, it);
    if k in KeysOf(items) {
      IndexOfSnoc(KeysOf(items), it.Key(), k);
    } else {
      assert IndexOf(KeysOf(items + [it]), k) == |items|;
    }
  }

  /** An append under another key leaves a group's description intact. */
  lemma OtherKeyStep(g: Groups, items: seq<Item>, it: Item, k: string)
    requires Describes(g, items) && k in g.groups && k != it.Key()
    ensures k in KeysOf(items + [it]) && GroupDescribes(g.groups[k], items + [it], k)
  {
    var items' := items + [it];
    var grp := g.groups[k];
    SnocParts(items, it);
    FirstWithKeySnoc(items, it, k);
    MembersSnoc(items, it, k, None);
    forall d
      ensures (d in grp.dates <==> Members(items', k, Some(d)) != [])
      ensures d in grp.dates ==> grp.dates[d] == Members(items', k, Some(d))
    {
      MembersSnoc(items, it, k, Some(d));
    }
  }

  /** The group under the item's own key after the append. */
  lemma SameKeyStep(g: Groups, items: seq<Item>, it: Item)
    requires Describes(g, items)
    ensures it.Key() in AddItem(g, it).groups
    ensures it.Key() in KeysOf(items + [it]) && GroupDescribes(AddItem(g, it).groups[it.Key()], items + [it], it.Key())
  {
    var k := it.Key();
    var items' := items + [it];
    SnocParts(items, it);
    FirstWithKeySnoc(items, it, k);
    var old_ := if k in g.groups then g.groups[k] else NewGroup(it);
    if k !in g.groups {
      forall sub ensures Members(items, k, sub) == [] {
        MembersOfAbsentKey(items, k, sub);
      }
    }
    assert old_.events == Members(items, k, None);
    assert forall d :: d in old_.dates <==> Members(items, k, Some(d)) != [];
    assert forall d :: d in old_.dates ==> old_.dates[d] == Members(items, k, Some(d));
    var grp := AddItem(g, it).groups[k];
    assert grp == Append(old_, it);
    MembersSnoc(items, it, k, None);
    forall d
      ensures (d in grp.dates <==> Members(items', k, Some(d)) != [])
      ensures d in grp.dates ==> grp.dates[d] == Members(items', k, Some(d))
    {
      MembersSnoc(items, it, k, Some(d));
    }
  }

  /** One append keeps the description: the step of `GroupAllDescribes`. */
  lemma AddItemStep(g: Groups, items: seq<Item>, it: Item)
    requires Describes(g, items)
    ensures Describes(AddItem(g, it), items + [it])
  {
    var g', items', k0 := AddItem(g, it), items + [it], it.Key();
    SnocParts(items, it);
    DedupSnoc(KeysOf(items), k0);
    assert g'.keys == Dedup(KeysOf(items'));
    assert forall k :: k in g'.groups <==> k in KeysOf(items');
    SameKeyStep(g, items, it);
    forall k | k in g'.groups
      ensures k in KeysOf(items') && GroupDescribes(g'.groups[k], items', k)
    {
      if k != k0 {
        assert g'.groups[k] == g.groups[k];
        OtherKeyStep(g, items, it, k);
      }
    }
  }

  /** `GroupAll` builds exactly the array its items describe. */
  lemma {:induction false} GroupAllDescribes(items: seq<Item>)
    ensures Describes(GroupAll(items), items)
    decreases |items|
  {
    if items != [] {
      var front := items[..|items| - 1];
      GroupAllDescribes(front);
      assert items == front + [items[|items| - 1]];
      AddItemStep(GroupAll(front), front, items[|items| - 1]);
    }
  }

  lemma GroupAllSnoc(items: seq<Item>, it: Item)
    ensures GroupAll(items + [it]) == AddItem(GroupAll(items), it)
  {
    assert (items + [it])[..|items|] == items;
  }

  /** A one-level array's group under `k` holds the members appended under `k`, in order. */
  lemma GroupAllEvents(items: seq<Item>, k: string)
    ensures k in GroupAll(items).groups ==> GroupAll(items).groups[k].events == Members(items, k, None)
    ensures k !in GroupAll(items).groups ==> Members(items, k, None) == []
  {
    GroupAllDescribes(items);
    if k !in GroupAll(items).groups {
      MembersOfAbsentKey(items, k, None);
    }
  }

  /** First insert wins in a one-level array: a group's meta is that of the first item with its key. */
  lemma GroupAllMeta(items: seq<Item>, k: string)
    requires k in GroupAll(items).groups
    ensures var grp := GroupAll(items).groups[k];
      exists i ::
        && 0 <= i < |items| && items[i].Key() == k
        && (forall j :: 0 <= j < i ==> items[j].Key() != k)
        && grp.typeName == items[i].typeName && grp.theme == items[i].theme
        && grp.cls == Helpers.EventClass(items[i].typeName)
  {
    GroupAllDescribes(items);
    var grp := GroupAll(items).groups[k];
    assert k in KeysOf(items) && GroupDescribes(grp, items, k);
    var first := FirstWithKey(items, k);
    assert grp.typeName == first.typeName && grp.theme == first.theme && grp.cls == Helpers.EventClass(first.typeName);
  }

  /** What the two-level array built from `items` holds: each day is the one-level array of its items. */
  ghost predicate BucketsDescribe(b: Buckets, items: seq<Item>) {
    && b.days == Dedup(DaysOf(items))
    && (forall d :: d in b.byDay <==> d in DaysOf(items))
    && forall d :: d in b.byDay ==> b.byDay[d] == GroupAll(OnDay(items, d))
  }

  lemma OnDayOfAbsentDay(items: seq<Item>, d: string)
    requires d !in DaysOf(items)
    ensures OnDay(items, d) == []
  {
  }

  /** The items under a day after one more append. */
  lemma OnDaySnocStep(b: Buckets, items: seq<Item>, it: Item, d: string)
    requires BucketsDescribe(b, items) && (d in b.byDay || d == it.day)
    ensures d != it.day ==> OnDay(items + [it], d) == OnDay(items, d)
    ensures d == it.day ==>
      GroupAll(OnDay(items + [it], d)) == AddItem(if d in b.byDay then b.byDay[d] else NoGroups, it)
  {
    FilterSnoc(items, it, (x: Item) => x.day == d);
    if d == it.day {
      if d !in b.byDay {
        OnDayOfAbsentDay(items, d);
      }
      GroupAllSnoc(OnDay(items, d), it);
    }
  }

  /** What `Place` leaves under each day. */
  lemma PlaceAt(b: Buckets, it: Item, d: string)
    requires d in Place(b, it).byDay
    ensures d != it.day ==> d in b.byDay && Place(b, it).byDay[d] == b.byDay[d]
    ensures d == it.day ==> Place(b, it).byDay[d] == AddItem(if d in b.byDay then b.byDay[d] else NoGroups, it)
  {
  }

  lemma PlaceStep(b: Buckets, items: seq<Item>, it: Item)
    requires BucketsDescribe(b, items)
    ensures BucketsDescribe(Place(b, it), items + [it])
  {
    var b', items' := Place(b, it), items + [it];
    SnocParts(items, it);
    DedupSnoc(DaysOf(items), it.day);
    assert b'.days == Dedup(DaysOf(items'));
    assert forall d :: d in b'.byDay <==> d in DaysOf(items');
    forall d | d in b'.byDay ensures b'.byDay[d] == GroupAll(OnDay(items', d)) {
      OnDaySnocStep(b, items, it, d);
      PlaceAt(b, it, d);
    }
  }

  /** `PlaceAll` builds exactly the two-level array its items describe. */
  lemma {:induction false} PlaceAllDescribes(items: seq<Item>)
    ensures BucketsDescribe(PlaceAll(items), items)
    decreases |items|
  {
    if items != [] {
      var front := items[..|items| - 1];
      PlaceAllDescribes(front);
      assert items == front + [items[|items| - 1]];
      PlaceStep(PlaceAll(front), front, items[|items| - 1]);
    }
  }

  /** A value is a member of key `k` and sub-key `sub` exactly when some item appended it there. */
  lemma {:induction false} MembersIn(items: seq<Item>, k: string, sub: Option<string>, x: Event)
    ensures x in Members(items, k, sub) <==> exists i :: 0 <= i < |items| && items[i].Key() == k && items[i].sub == sub && items[i].member == x
    decreases |items|
  {
    if items != [] {
      var front := items[..|items| - 1];
      MembersIn(front, k, sub, x);
      assert forall i :: 0 <= i < |front| ==> front[i] == items[i];
    }
  }

  /** The list the two-level array holds at day `d`, key `k` and sub-key `sub` ([] when unset). */
  function Slot(b: Buckets, d: string, k: string, sub: Option<string>): seq<Event> {
    if d in b.byDay && k in b.byDay[d].groups then
      var grp := b.byDay[d].groups[k];
      match sub
      case None => grp.events
      case Some(s) => if s in grp.dates then grp.dates[s] else []
    else []
  }

  /** Every slot holds exactly the members appended to it, in append order. */
  lemma PlacedSlot(items: seq<Item>, d: string, k: string, sub: Option<string>)
    ensures Slot(PlaceAll(items), d, k, sub) == Members(OnDay(items, d), k, sub)
  {
    PlaceAllDescribes(items);
    var on := OnDay(items, d);
    if d in PlaceAll(items).byDay {
      GroupAllDescribes(on);
      if k !in PlaceAll(items).byDay[d].groups {
        MembersOfAbsentKey(on, k, sub);
      }
    } else {
      OnDayOfAbsentDay(items, d);
    }
  }

  /** Placement: every appended value is in the slot of its day, key and sub-key. */
  lemma SlotHas(items: seq<Item>, i: nat)
    requires i < |items|
    ensures items[i].member in Slot(PlaceAll(items), items[i].day, items[i].Key(), items[i].sub)
  {
    var it := items[i];
    PlacedSlot(items, it.day, it.Key(), it.sub);
    var on := OnDay(items, it.day);
    assert it in on;
    var j :| 0 <= j < |on| && on[j] == it;
    MembersIn(on, it.Key(), it.sub, it.member);
  }

  /** And only there: a value in a slot was appended to that slot. */
  lemma SlotFrom(items: seq<Item>, d: string, k: string, sub: Option<string>, x: Event)
    requires x in Slot(PlaceAll(items), d, k, sub)
    ensures exists i :: 0 <= i < |items| && items[i].day == d && items[i].Key() == k && items[i].sub == sub && items[i].member == x
  {
    PlacedSlot(items, d, k, sub);
    var on := OnDay(items, d);
    MembersIn(on, k, sub, x);
    var j :| 0 <= j < |on| && on[j].Key() == k && on[j].sub == sub && on[j].member == x;
    var it := on[j];
    assert it in on;
    assert it in items && it.day == d;
    var i :| 0 <= i < |items| && items[i] == it;
    assert items[i].day == d && items[i].Key() == k && items[i].sub == sub && items[i].member == x;
  }

  /** The item that lands under day `d` and key `k`. */
  predicate At(it: Item, d: string, k: string) {
    it.day == d && it.Key() == k
  }

  /** The first item under day `d` and key `k`: the append that created that group. */
  function FirstAt(items: seq<Item>, d: string, k: string): (r: Item)
    requires exists i :: 0 <= i < |items| && At(items[i], d, k)
    ensures exists i :: 0 <= i < |items| && items[i] == r && At(r, d, k) && forall j :: 0 <= j < i ==> !At(items[j], d, k)
    decreases |items|
  {
    var front := items[..|items| - 1];
    if exists i :: 0 <= i < |front| && At(front[i], d, k) then
      var r := FirstAt(front, d, k);
      assert forall i :: 0 <= i < |front| ==> front[i] == items[i];
      r
    else
      items[|items| - 1]
  }

  lemma OnDaySnoc(items: seq<Item>, it: Item, d: string)
    ensures OnDay(items + [it], d) == OnDay(items, d) + if it.day == d then [it] else []
  {
    FilterSnoc(items, it, (x: Item) => x.day == d);
  }

  lemma NoKeyOnDay(items: seq<Item>, d: string, k: string)
    requires forall i :: 0 <= i < |items| ==> !At(items[i], d, k)
    ensures k !in KeysOf(OnDay(items, d))
  {
    var on := OnDay(items, d);
    forall j | 0 <= j < |on| ensures KeysOf(on)[j] != k {
      assert on[j] in items;
    }
  }

  lemma {:induction false} FirstWithKeyOnDay(items: seq<Item>, d: string, k: string)
    requires exists i :: 0 <= i < |items| && At(items[i], d, k)
    ensures k in KeysOf(OnDay(items, d))
    ensures FirstWithKey(OnDay(items, d), k) == FirstAt(items, d, k)
    decreases |items|
  {
    var front, last := items[..|items| - 1], items[|items| - 1];
    assert items == front + [last];
    if exists i :: 0 <= i < |front| && At(front[i], d, k) {
      FirstWithKeyOnDay(front, d, k);
      FirstAtEarlier(front, last, d, k);
    } else {
      FirstAtLast(front, last, d, k);
    }
  }

  lemma FirstAtEarlier(front: seq<Item>, last: Item, d: string, k: string)
    requires exists i :: 0 <= i < |front| && At(front[i], d, k)
    requires k in KeysOf(OnDay(front, d)) && FirstWithKey(OnDay(front, d), k) == FirstAt(front, d, k)
    ensures k in KeysOf(OnDay(front + [last], d))
    ensures FirstWithKey(OnDay(front + [last], d), k) == FirstAt(front + [last], d, k)
  {
    var items := front + [last];
    assert items[..|items| - 1] == front;
    assert FirstAt(items, d, k) == FirstAt(front, d, k);
    OnDaySnoc(front, last, d);
    var on := OnDay(front, d);
    if last.day == d {
      SnocParts(on, last);
      FirstWithKeySnoc(on, last, k);
    }
  }

  lemma FirstAtLast(front: seq<Item>, last: Item, d: string, k: string)
    requires exists i :: 0 <= i < |front + [last]| && At((front + [last])[i], d, k)
    requires forall i :: 0 <= i < |front| ==> !At(front[i], d, k)
    ensures k in KeysOf(OnDay(front + [last], d))
    ensures FirstWithKey(OnDay(front + [last], d), k) == FirstAt(front + [last], d, k)
  {
    var items := front + [last];
    assert items[..|items| - 1] == front;
    assert FirstAt(items, d, k) == last;
    assert At(last, d, k) by {
      assert forall i :: 0 <= i < |front| ==> items[i] == front[i];
    }
    OnDaySnoc(front, last, d);
    var on := OnDay(front, d);
    NoKeyOnDay(front, d, k);
    SnocParts(on, last);
    FirstWithKeySnoc(on, last, k);
  }

  /**
   * First insert wins: a group's type, theme and class are those of the first
   * item under its day and key; later items only append.
   */
  lemma GroupMeta(items: seq<Item>, d: string, k: string)
    requires d in PlaceAll(items).byDay && k in PlaceAll(items).byDay[d].groups
    ensures exists i :: 0 <= i < |items| && At(items[i], d, k)
    ensures
      var grp := PlaceAll(items).byDay[d].groups[k];
      var first := FirstAt(items, d, k);
      grp.typeName == first.typeName && grp.theme == first.theme && grp.cls == Helpers.EventClass(first.typeName)
  {
    PlaceAllDescribes(items);
    var on := OnDay(items, d);
    GroupAllDescribes(on);
    var j :| 0 <= j < |on| && KeysOf(on)[j] == k;
    assert on[j] in items;
    var i :| 0 <= i < |items| && items[i] == on[j];
    assert At(items[i], d, k);
    FirstWithKeyOnDay(items, d, k);
  }

  /** The first member under a key is the member of the item that created the group. */
  lemma {:induction false} MembersHead(items: seq<Item>, k: string, sub: Option<string>)
    requires k in KeysOf(items) && FirstWithKey(items, k).sub == sub
    ensures Members(items, k, sub) != [] && Members(items, k, sub)[0] == FirstWithKey(items, k).member
    decreases |items|
  {
    var front, last := items[..|items| - 1], items[|items| - 1];
    assert items == front + [last];
    SnocParts(front, last);
    FirstWithKeySnoc(front, last, k);
    MembersSnoc(front, last, k, sub);
    if k in KeysOf(front) {
      MembersHead(front, k, sub);
    } else {
      MembersOfAbsentKey(front, k, sub);
    }
  }

  /**
   * When every append is a plain one (no sub-key), a group's first member is the
   * member of the item that created it, and the group's meta is that item's.
   */
  lemma SlotHead(items: seq<Item>, d: string, k: string)
    requires d in PlaceAll(items).byDay && k in PlaceAll(items).byDay[d].groups
    requires forall n :: 0 <= n < |items| ==> items[n].sub == None
    ensures exists i :: 0 <= i < |items| && At(items[i], d, k)
    ensures var s := Slot(PlaceAll(items), d, k, None);
      var first := FirstAt(items, d, k);
      var grp := PlaceAll(items).byDay[d].groups[k];
      && s != [] && s[0] == first.member
      && grp.typeName == first.typeName && grp.theme == first.theme && grp.cls == Helpers.EventClass(first.typeName)
  {
    GroupMeta(items, d, k);
    FirstWithKeyOnDay(items, d, k);
    PlacedSlot(items, d, k, None);
    MembersHead(OnDay(items, d), k, None);
  }

  /** Every listed key has its entry: what rendering in key order needs. */
  predicate GroupsValid(g: Groups) {
    forall k :: k in g.keys ==> k in g.groups
  }

  predicate BucketsValid(b: Buckets) {
    && (forall d :: d in b.days ==> d in b.byDay)
    && forall d :: d in b.byDay ==> GroupsValid(b.byDay[d])
  }

  /** `empty($b[$day])` is false: the day is set and has at least one group. */
  predicate HasDay(b: Buckets, day: string) {
    day in b.byDay && b.byDay[day].keys != []
  }

  lemma GroupAllValid(items: seq<Item>)
    ensures GroupsValid(GroupAll(items))
    ensures GroupAll(items).keys == [] <==> items == []
  {
    GroupAllDescribes(items);
    if items != [] {
      assert KeysOf(items)[0] in Dedup(KeysOf(items));
    }
  }

  lemma PlaceAllValid(items: seq<Item>)
    ensures BucketsValid(PlaceAll(items))
    ensures forall d :: d in PlaceAll(items).byDay ==> PlaceAll(items).byDay[d].keys != []
  {
    PlaceAllDescribes(items);
    forall d | d in PlaceAll(items).byDay
      ensures GroupsValid(PlaceAll(items).byDay[d]) && PlaceAll(items).byDay[d].keys != []
    {
      var i :| 0 <= i < |items| && DaysOf(items)[i] == d;
      assert items[i] in OnDay(items, d);
      GroupAllValid(OnDay(items, d));
    }
  }

  /** The groups of a one-level array in key order, as `foreach ($groups as $group)` visits them. */
  function Ordered(g: Groups): (r: seq<Group>)
    requires GroupsValid(g)
    ensures |r| == |g.keys| && forall i :: 0 <= i < |r| ==> r[i] == g.groups[g.keys[i]]
  {
    seq(|g.keys|, i requires 0 <= i < |g.keys| => g.groups[g.keys[i]])
  }

  // ── Loops that append every event once ───────────────────────────────────

  /** The appends of a loop that files each event once, under `f(e)`. */
  function MapItems(events: seq<Event>, f: Event -> Item): (r: seq<Item>)
    ensures |r| == |events| && forall i :: 0 <= i < |events| ==> r[i] == f(events[i])
  {
    seq(|events|, i requires 0 <= i < |events| => f(events[i]))
  }

  lemma MapItemsSnoc(events: seq<Event>, e: Event, f: Event -> Item)
    ensures MapItems(events + [e], f) == MapItems(events, f) + [f(e)]
  {
    assert MapItems(events + [e], f)[..|events|] == MapItems(events, f);
  }

  /** The appends of `items` made on top of an existing array `b`. */
  function PlaceFrom(b: Buckets, items: seq<Item>): Buckets
    decreases |items|
  {
    if items == [] then b else Place(PlaceFrom(b, items[..|items| - 1]), items[|items| - 1])
  }

  lemma PlaceFromSnoc(b: Buckets, items: seq<Item>, it: Item)
    ensures PlaceFrom(b, items + [it]) == Place(PlaceFrom(b, items), it)
  {
    assert (items + [it])[..|items|] == items;
  }

  /** Appending `a` and then `c` is appending `a + c`. */
  lemma {:induction false} PlaceAllConcat(a: seq<Item>, c: seq<Item>)
    ensures PlaceAll(a + c) == PlaceFrom(PlaceAll(a), c)
    decreases |c|
  {
    if c == [] {
      assert a + c == a;
    } else {
      var front, last := c[..|c| - 1], c[|c| - 1];
      PlaceAllConcat(a, front);
      assert a + c == (a + front) + [last];
      PlaceAllSnoc(a + front, last);
      assert c == front + [last];
      PlaceFromSnoc(PlaceAll(a), front, last);
    }
  }

  lemma PlaceAllSnoc(items: seq<Item>, it: Item)
    ensures PlaceAll(items + [it]) == Place(PlaceAll(items), it)
  {
    assert (items + [it])[..|items|] == items;
  }

  /** The events whose append lands at day `d`, key `k` and sub-key `sub`. */
  predicate Lands(f: Event -> Item, e: Event, d: string, k: string, sub: Option<string>) {
    f(e).day == d && f(e).Key() == k && f(e).sub == sub
  }

  function LandsFn(f: Event -> Item, d: string, k: string, sub: Option<string>): Event -> bool {
    (e: Event) => Lands(f, e, d, k, sub)
  }

  /** `items` files each of `events` once, under `f`. */
  ghost predicate FilesEach(events: seq<Event>, items: seq<Item>, f: Event -> Item) {
    && |items| == |events|
    && (forall i :: 0 <= i < |events| ==> items[i] == f(events[i]))
    && forall e :: f(e).member == e
  }

  lemma {:induction false} OneEachMembers(events: seq<Event>, items: seq<Item>, f: Event -> Item, d: string, k: string, sub: Option<string>)
    requires FilesEach(events, items, f)
    ensures Members(OnDay(items, d), k, sub) == Filter(events, LandsFn(f, d, k, sub))
    decreases |events|
  {
    if events != [] {
      var front, last := events[..|events| - 1], events[|events| - 1];
      var itemsFront := items[..|items| - 1];
      assert events == front + [last];
      assert items == itemsFront + [f(last)];
      OneEachMembers(front, itemsFront, f, d, k, sub);
      OnDaySnoc(itemsFront, f(last), d);
      if f(last).day == d {
        MembersSnoc(OnDay(itemsFront, d), f(last), k, sub);
      }
      FilterSnoc(front, last, LandsFn(f, d, k, sub));
    }
  }

  /**
   * In a loop that files each event once, every slot holds exactly the events
   * filed there, in input order.
   */
  lemma OneEachSlot(events: seq<Event>, items: seq<Item>, f: Event -> Item, d: string, k: string, sub: Option<string>)
    requires FilesEach(events, items, f)
    ensures Slot(PlaceAll(items), d, k, sub) == Filter(events, LandsFn(f, d, k, sub))
  {
    PlacedSlot(items, d, k, sub);
    OneEachMembers(events, items, f, d, k, sub);
  }

  /** In a loop that files each event once, a group's type, theme and class come from the first event filed there. */
  lemma OneEachMeta(events: seq<Event>, items: seq<Item>, f: Event -> Item, d: string, k: string)
    requires |items| == |events| && forall i :: 0 <= i < |events| ==> items[i] == f(events[i])
    requires d in PlaceAll(items).byDay && k in PlaceAll(items).byDay[d].groups
    ensures var grp := PlaceAll(items).byDay[d].groups[k];
      exists i ::
        && 0 <= i < |events| && At(f(events[i]), d, k)
        && (forall j :: 0 <= j < i ==> !At(f(events[j]), d, k))
        && grp.typeName == f(events[i]).typeName && grp.theme == f(events[i]).theme
        && grp.cls == Helpers.EventClass(f(events[i]).typeName)
  {
    var grp := PlaceAll(items).byDay[d].groups[k];
    GroupMeta(items, d, k);
    var first := FirstAt(items, d, k);
    var i :| 0 <= i < |items| && items[i] == first && At(first, d, k) && forall j :: 0 <= j < i ==> !At(items[j], d, k);
    assert f(events[i]) == first;
    assert grp.typeName == first.typeName && grp.theme == first.theme && grp.cls == Helpers.EventClass(first.typeName);
  }

  // ── The append, step by step ──────────────────────────────────────────────

  /** The group append as the shortcodes write it, on a one-level array. */
  method InsertGroup(g: Groups, it: Item) returns (r: Groups)
    ensures r == AddItem(g, it)
  {
    var k := it.Key();
    var keys := g.keys;
    var grp: Group;
    if k in g.groups {
      grp := g.groups[k];
    } else {
      grp := Group(it.typeName, it.theme, Helpers.EventClass(it.typeName), [], map[]);
      keys := keys + [k];
    }
    match it.sub {
      case None =>
        grp := grp.(events := grp.events + [it.member]);
      case Some(d) =>
        var list := [];
        if d in grp.dates {
          list := grp.dates[d];
        }
        grp := grp.(dates := grp.dates[d := list + [it.member]]);
    }
    r := Groups(keys, g.groups[k := grp]);
  }

  /** The append under a day: create the day's array if unset, then the group append. */
  method Insert(b: Buckets, it: Item) returns (r: Buckets)
    ensures r == Place(b, it)
  {
    var days := b.days;
    var g := NoGroups;
    if it.day in b.byDay {
      g := b.byDay[it.day];
    } else {
      days := days + [it.day];
    }
    g := InsertGroup(g, it);
    r := Buckets(days, b.byDay[it.day := g]);
  }
}

/**
 * `[cerrito_upcoming_themes_list]`: the themed dates of the selected game
 * types inside the look-ahead window, merged per date and theme, sorted by
 * date, each with the locations and times of the events of its game types
 * on that date.
 */
module UpcomingThemes {
  import opened Wrappers
  import opened Php
  import opened Seqs
  import opened Entities
  import opened Helpers
  import opened Today

  // ── The themed list ───────────────────────────────────────────────────────

  /**
   * The build loop keeps an entry when it has both keys, its date is not
   * before today nor after the end date, and its theme term resolves.
   */
  predicate Kept(cat: Catalog, w: Window, entry: ThemedEntry) {
    && entry.date.Some? && entry.themeId.Some?
    && InWindow(entry.date.value, w)
    && entry.themeId.value in cat.themeNames
  }

  /** A kept entry together with the game type whose meta it came from. */
  datatype Hit = Hit(term: Term, date: string, theme: Theme)

  function HitOf(cat: Catalog, term: Term, entry: ThemedEntry): Hit
    requires entry.date.Some? && entry.themeId.Some? && entry.themeId.value in cat.themeNames
  {
    Hit(term, entry.date.value, ThemeOf(cat, entry))
  }

  /** The kept entries of one game type's meta list, in list order. */
  function EntryHits(cat: Catalog, w: Window, term: Term, entries: seq<ThemedEntry>): seq<Hit>
    decreases |entries|
  {
    if entries == [] then []
    else
      var last := entries[|entries| - 1];
      EntryHits(cat, w, term, entries[..|entries| - 1]) + if Kept(cat, w, last) then [HitOf(cat, term, last)] else []
  }

  lemma {:induction false} EntryHitsMembers(cat: Catalog, w: Window, term: Term, entries: seq<ThemedEntry>)
    ensures forall h :: h in EntryHits(cat, w, term, entries) <==>
      exists e :: e in entries && Kept(cat, w, e) && h == HitOf(cat, term, e)
    decreases |entries|
  {
    if entries != [] {
      var front, last := entries[..|entries| - 1], entries[|entries| - 1];
      assert entries == front + [last];
      EntryHitsMembers(cat, w, term, front);
    }
  }

  /** The kept entries of all game types, game type by game type. */
  function AllHits(cat: Catalog, w: Window, terms: seq<Term>): seq<Hit>
    decreases |terms|
  {
    if terms == [] then []
    else
      var last := terms[|terms| - 1];
      AllHits(cat, w, terms[..|terms| - 1]) + EntryHits(cat, w, last, EntriesOf(cat, last.id))
  }

  /** An entry is listed exactly when it is kept, whichever game type it belongs to. */
  lemma {:induction false} AllHitsMembers(cat: Catalog, w: Window, terms: seq<Term>)
    ensures forall h :: h in AllHits(cat, w, terms) <==>
      exists t, e :: t in terms && e in EntriesOf(cat, t.id) && Kept(cat, w, e) && h == HitOf(cat, t, e)
    decreases |terms|
  {
    if terms != [] {
      var front, last := terms[..|terms| - 1], terms[|terms| - 1];
      assert terms == front + [last];
      AllHitsMembers(cat, w, front);
      EntryHitsMembers(cat, w, last, EntriesOf(cat, last.id));
    }
  }

  /** `$entry['date'] . '_' . $entry['theme_id']`. */
  function ListKey(date: string, themeId: int): string {
    date + "_" + IntToString(themeId)
  }

  function HitKey(h: Hit): string {
    ListKey(h.date, h.theme.id)
  }

  function HitKeys(hits: seq<Hit>): seq<string> {
    seq(|hits|, i requires 0 <= i < |hits| => HitKey(hits[i]))
  }

  lemma HitKeysSnoc(hits: seq<Hit>, h: Hit)
    ensures HitKeys(hits + [h]) == HitKeys(hits) + [HitKey(h)]
  {
  }

  /**
   * The list key determines the date and the theme ID: the rendering of an
   * integer holds no `_`, so the last `_` of a key is the separator.
   */
  lemma ListKeyInjective(d1: string, i1: int, d2: string, i2: int)
    requires ListKey(d1, i1) == ListKey(d2, i2)
    ensures d1 == d2 && i1 == i2
  {
    var s, t1, t2 := ListKey(d1, i1), IntToString(i1), IntToString(i2);
    AfterLastOf(d1, '_', t1);
    AfterLastOf(d2, '_', t2);
    assert d1 + "_" + t1 == d1 + ['_'] + t1 && d2 + "_" + t2 == d2 + ['_'] + t2;
    assert t1 == t2;
    assert s == (d1 + "_") + t1 && s == (d2 + "_") + t2;
    assert d1 == s[..|s| - |t1| - 1] == d2;
    IntToStringInjective(i1, i2);
  }

  /** Two kept entries land in one list item exactly when they share the date and the theme ID. */
  lemma SameItemIffSameDateAndTheme(h1: Hit, h2: Hit)
    ensures HitKey(h1) == HitKey(h2) <==> h1.date == h2.date && h1.theme.id == h2.theme.id
  {
    if HitKey(h1) == HitKey(h2) {
      ListKeyInjective(h1.date, h1.theme.id, h2.date, h2.theme.id);
    }
  }

  /** A `$themed_list` entry: its date, its theme term and the game types that listed it. */
  datatype ThemedItem = ThemedItem(date: string, theme: Theme, gameTypes: seq<Term>)

  /** `$themed_list`: its keys in insertion order and the item under each key. */
  datatype ThemedList = ThemedList(keys: seq<string>, items: map<string, ThemedItem>)

  const NoItems := ThemedList([], map[])

  /** One pass of the inner loop on a kept entry: create the item on first sight, then append the game type. */
  function AddHit(l: ThemedList, h: Hit): ThemedList {
    var k := HitKey(h);
    if k in l.items then ThemedList(l.keys, l.items[k := l.items[k].(gameTypes := l.items[k].gameTypes + [h.term])])
    else ThemedList(l.keys + [k], l.items[k := ThemedItem(h.date, h.theme, [h.term])])
  }

  /** `l` after the kept entries `hits` have been added in order. */
  function AddAll(l: ThemedList, hits: seq<Hit>): ThemedList
    decreases |hits|
  {
    if hits == [] then l else AddHit(AddAll(l, hits[..|hits| - 1]), hits[|hits| - 1])
  }

  lemma AddAllSnoc(l: ThemedList, hits: seq<Hit>, h: Hit)
    ensures AddAll(l, hits + [h]) == AddHit(AddAll(l, hits), h)
  {
    assert (hits + [h])[..|hits|] == hits;
  }

  lemma {:induction false} AddAllConcat(l: ThemedList, a: seq<Hit>, b: seq<Hit>)
    ensures AddAll(l, a + b) == AddAll(AddAll(l, a), b)
    decreases |b|
  {
    if b == [] {
      assert a + b == a;
    } else {
      AddAllConcat(l, a, b[..|b| - 1]);
      assert (a + b)[..|a + b| - 1] == a + b[..|b| - 1];
    }
  }

  /** The game types of the hits filed under key `k`, in order. */
  function TermsUnder(hits: seq<Hit>, k: string): seq<Term>
    decreases |hits|
  {
    if hits == [] then []
    else
      var last := hits[|hits| - 1];
      TermsUnder(hits[..|hits| - 1], k) + if HitKey(last) == k then [last.term] else []
  }

  lemma {:induction false} TermsUnderNone(hits: seq<Hit>, k: string)
    requires k !in HitKeys(hits)
    ensures TermsUnder(hits, k) == []
    decreases |hits|
  {
    if hits != [] {
      var front := hits[..|hits| - 1];
      assert HitKeys(hits) == HitKeys(front) + [HitKey(hits[|hits| - 1])];
      TermsUnderNone(front, k);
    }
  }

  /** `hits[i]` is the first hit filed under `k`. */
  predicate FirstUnder(hits: seq<Hit>, i: int, k: string) {
    0 <= i < |hits| && HitKey(hits[i]) == k && forall j :: 0 <= j < i ==> HitKey(hits[j]) != k
  }

  /**
   * What the build loop leaves: one key per distinct list key in order of first
   * occurrence, each item made from the first hit under its key, listing the
   * game types of all hits under that key.
   */
  ghost predicate ListDescribes(l: ThemedList, hits: seq<Hit>) {
    && l.keys == Dedup(HitKeys(hits))
    && (forall k :: k in l.items <==> k in HitKeys(hits))
    && (forall k :: k in l.items ==> l.items[k].gameTypes == TermsUnder(hits, k))
    && (forall k :: k in l.items ==> exists i ::
          FirstUnder(hits, i, k) && l.items[k].date == hits[i].date && l.items[k].theme == hits[i].theme)
  }

  /** Adding a hit keeps the game-type lists in step with the hits. */
  lemma AddHitTerms(l: ThemedList, front: seq<Hit>, h: Hit)
    requires ListDescribes(l, front)
    ensures forall k' :: k' in AddHit(l, h).items ==> AddHit(l, h).items[k'].gameTypes == TermsUnder(front + [h], k')
  {
    var hits, k := front + [h], HitKey(h);
    assert hits[..|hits| - 1] == front;
    if k !in l.items {
      TermsUnderNone(front, k);
    }
  }

  /** Adding a hit keeps every item made from the first hit under its key. */
  lemma AddHitFirst(l: ThemedList, front: seq<Hit>, h: Hit)
    requires ListDescribes(l, front)
    ensures forall k' :: k' in AddHit(l, h).items ==> exists i ::
      FirstUnder(front + [h], i, k') && AddHit(l, h).items[k'].date == (front + [h])[i].date
        && AddHit(l, h).items[k'].theme == (front + [h])[i].theme
  {
    var hits, k, l' := front + [h], HitKey(h), AddHit(l, h);
    forall k' | k' in l'.items ensures exists i ::
      FirstUnder(hits, i, k') && l'.items[k'].date == hits[i].date && l'.items[k'].theme == hits[i].theme
    {
      if k' in l.items {
        var i :| FirstUnder(front, i, k') && l.items[k'].date == front[i].date && l.items[k'].theme == front[i].theme;
        assert FirstUnder(hits, i, k') by {
          forall j | 0 <= j < i ensures HitKey(hits[j]) != k' {
            assert hits[j] == front[j];
          }
        }
      } else {
        assert FirstUnder(hits, |front|, k) by {
          forall j | 0 <= j < |front| ensures HitKey(hits[j]) != k {
            assert HitKeys(front)[j] == HitKey(hits[j]);
          }
        }
      }
    }
  }

  /** One pass of the build loop keeps the list describing the hits seen so far. */
  lemma AddHitDescribes(l: ThemedList, front: seq<Hit>, h: Hit)
    requires ListDescribes(l, front)
    ensures ListDescribes(AddHit(l, h), front + [h])
  {
    HitKeysSnoc(front, h);
    DedupSnoc(HitKeys(front), HitKey(h));
    AddHitTerms(l, front, h);
    AddHitFirst(l, front, h);
  }

  lemma {:induction false} AddAllDescribes(hits: seq<Hit>)
    ensures ListDescribes(AddAll(NoItems, hits), hits)
    decreases |hits|
  {
    if hits != [] {
      var front, h := hits[..|hits| - 1], hits[|hits| - 1];
      AddAllDescribes(front);
      AddHitDescribes(AddAll(NoItems, front), front, h);
      assert hits == front + [h];
    }
  }

  /** `$themed_list` after the build loop over the game types. */
  function BuiltList(cat: Catalog, w: Window, gameTypes: seq<Term>): ThemedList {
    AddAll(NoItems, AllHits(cat, w, gameTypes))
  }

  /** One pass of the inner loop: the three skips, then create-or-append. */
  method FileEntry(cat: Catalog, w: Window, term: Term, l0: ThemedList, entry: ThemedEntry) returns (l: ThemedList)
    ensures l == if Kept(cat, w, entry) then AddHit(l0, HitOf(cat, term, entry)) else l0
  {
    l := l0;
    if entry.date.None? || entry.themeId.None? {
      return;
    }
    var date := entry.date.value;
    if StrLess(date, w.start) || StrLess(w.end, date) {
      return;
    }
    if entry.themeId.value !in cat.themeNames {
      return;
    }
    var theme := Theme(entry.themeId.value, cat.themeNames[entry.themeId.value]);
    var key := ListKey(date, entry.themeId.value);
    assert HitOf(cat, term, entry) == Hit(term, date, theme);
    assert HitKey(Hit(term, date, theme)) == key;
    ghost var want := AddHit(l, Hit(term, date, theme));
    if key !in l.items {
      l := ThemedList(l.keys + [key], l.items[key := ThemedItem(date, theme, [])]);
      assert [] + [term] == [term];
    }
    l := ThemedList(l.keys, l.items[key := l.items[key].(gameTypes := l.items[key].gameTypes + [term])]);
    assert l == want;
  }

  lemma EntryHitsSnoc(cat: Catalog, w: Window, term: Term, entries: seq<ThemedEntry>, entry: ThemedEntry)
    ensures EntryHits(cat, w, term, entries + [entry]) ==
      EntryHits(cat, w, term, entries) + if Kept(cat, w, entry) then [HitOf(cat, term, entry)] else []
  {
    assert (entries + [entry])[..|entries|] == entries;
  }

  /** One more entry adds its hit to the list exactly when it is kept. */
  lemma FileEntriesStep(cat: Catalog, w: Window, term: Term, l0: ThemedList, entries: seq<ThemedEntry>, entry: ThemedEntry)
    ensures AddAll(l0, EntryHits(cat, w, term, entries + [entry])) ==
      if Kept(cat, w, entry) then AddHit(AddAll(l0, EntryHits(cat, w, term, entries)), HitOf(cat, term, entry))
      else AddAll(l0, EntryHits(cat, w, term, entries))
  {
    EntryHitsSnoc(cat, w, term, entries, entry);
    if Kept(cat, w, entry) {
      AddAllSnoc(l0, EntryHits(cat, w, term, entries), HitOf(cat, term, entry));
    } else {
      assert EntryHits(cat, w, term, entries) + [] == EntryHits(cat, w, term, entries);
    }
  }

  /** The inner loop over one game type's meta list. */
  method FileEntries(cat: Catalog, w: Window, term: Term, l0: ThemedList, entries: seq<ThemedEntry>) returns (l: ThemedList)
    ensures l == AddAll(l0, EntryHits(cat, w, term, entries))
  {
    l := l0;
    var i := 0;
    while i < |entries|
      invariant 0 <= i <= |entries|
      invariant l == AddAll(l0, EntryHits(cat, w, term, entries[..i]))
    {
      var entry := entries[i];
      TakeSnoc(entries, i);
      FileEntriesStep(cat, w, term, l0, entries[..i], entry);
      l := FileEntry(cat, w, term, l, entry);
      i := i + 1;
    }
    assert entries[..|entries|] == entries;
  }

  /** One more game type adds the hits of its meta list after those of the earlier ones. */
  lemma BuildStep(cat: Catalog, w: Window, terms: seq<Term>, term: Term)
    ensures AddAll(NoItems, AllHits(cat, w, terms + [term])) ==
      AddAll(AddAll(NoItems, AllHits(cat, w, terms)), EntryHits(cat, w, term, EntriesOf(cat, term.id)))
  {
    assert (terms + [term])[..|terms|] == terms;
    AddAllConcat(NoItems, AllHits(cat, w, terms), EntryHits(cat, w, term, EntriesOf(cat, term.id)));
  }

  /** One pass of the build loop: a game type whose meta is empty is skipped. */
  method FileGameType(cat: Catalog, w: Window, term: Term, l0: ThemedList) returns (l: ThemedList)
    ensures l == AddAll(l0, EntryHits(cat, w, term, EntriesOf(cat, term.id)))
  {
    if term.id !in cat.themedDates || cat.themedDates[term.id] == [] {
      assert EntriesOf(cat, term.id) == [];
      return l0;
    }
    l := FileEntries(cat, w, term, l0, cat.themedDates[term.id]);
  }

  /** The build loop over the selected game types. */
  method BuildThemedList(cat: Catalog, w: Window, gameTypes: seq<Term>) returns (l: ThemedList)
    ensures l == BuiltList(cat, w, gameTypes)
  {
    l := NoItems;
    var g := 0;
    while g < |gameTypes|
      invariant 0 <= g <= |gameTypes|
      invariant l == AddAll(NoItems, AllHits(cat, w, gameTypes[..g]))
    {
      var term := gameTypes[g];
      TakeSnoc(gameTypes, g);
      BuildStep(cat, w, gameTypes[..g], term);
      l := FileGameType(cat, w, term, l);
      g := g + 1;
    }
    assert gameTypes[..|gameTypes|] == gameTypes;
  }

  /** The items of `l` in key order (what `usort` starts from: it drops the keys). */
  function ListValues(l: ThemedList): seq<ThemedItem>
    requires forall k :: k in l.keys ==> k in l.items
  {
    seq(|l.keys|, i requires 0 <= i < |l.keys| => l.items[l.keys[i]])
  }

  // ── usort by date ─────────────────────────────────────────────────────────

  /** No item has a later date, by `strcmp`, than an item after it. */
  predicate SortedByDate(s: seq<ThemedItem>) {
    forall i, j :: 0 <= i < j < |s| ==> StrLessEq(s[i].date, s[j].date)
  }

  function OnDate(d: string): ThemedItem -> bool {
    (it: ThemedItem) => it.date == d
  }

  /** `x` placed before the first item of `s` whose date is not smaller than its own. */
  function InsertByDate(x: ThemedItem, s: seq<ThemedItem>): (r: seq<ThemedItem>)
    ensures multiset(r) == multiset([x] + s)
    decreases |s|
  {
    if s == [] || !StrLess(s[0].date, x.date) then [x] + s
    else
      assert s == [s[0]] + s[1..];
      [s[0]] + InsertByDate(x, s[1..])
  }

  /**
   * `usort` with `strcmp` on the dates. Since PHP 8.0 the sort is stable, so
   * the result is the stable sort by date, computed here by insertion.
   */
  function SortByDate(s: seq<ThemedItem>): (r: seq<ThemedItem>)
    ensures multiset(r) == multiset(s)
    decreases |s|
  {
    if s == [] then []
    else
      assert s == [s[0]] + s[1..];
      InsertByDate(s[0], SortByDate(s[1..]))
  }

  /** `x` goes in front of a sorted list whose head is not earlier. */
  lemma InsertFrontSorted(x: ThemedItem, s: seq<ThemedItem>)
    requires SortedByDate(s) && s != [] && !StrLess(s[0].date, x.date)
    ensures SortedByDate([x] + s)
  {
    if s[0].date != x.date {
      StrLessTotal(s[0].date, x.date);
    }
    forall j | 0 <= j < |s| ensures StrLessEq(x.date, s[j].date) {
      StrLessEqTransitive(x.date, s[0].date, s[j].date);
    }
    ConsSorted(x, s);
  }

  /** An item no later than every item of a sorted list can go in front of it. */
  lemma ConsSorted(a: ThemedItem, rest: seq<ThemedItem>)
    requires SortedByDate(rest)
    requires forall j :: 0 <= j < |rest| ==> StrLessEq(a.date, rest[j].date)
    ensures SortedByDate([a] + rest)
  {
    var r := [a] + rest;
    forall i, j | 0 <= i < j < |r| ensures StrLessEq(r[i].date, r[j].date) {
      if i == 0 {
        assert r[j] == rest[j - 1];
      } else {
        assert r[i] == rest[i - 1] && r[j] == rest[j - 1];
      }
    }
  }

  /** Inserting a later item into the tail keeps the head no later than every item. */
  lemma InsertBound(x: ThemedItem, s: seq<ThemedItem>)
    requires SortedByDate(s) && s != [] && StrLess(s[0].date, x.date)
    ensures forall j :: 0 <= j < |InsertByDate(x, s[1..])| ==> StrLessEq(s[0].date, InsertByDate(x, s[1..])[j].date)
  {
    var rest := InsertByDate(x, s[1..]);
    forall j | 0 <= j < |rest| ensures StrLessEq(s[0].date, rest[j].date) {
      var y := rest[j];
      assert y in multiset(rest);
      assert y == x || y in s[1..];
    }
  }

  lemma {:induction false} InsertSorted(x: ThemedItem, s: seq<ThemedItem>)
    requires SortedByDate(s)
    ensures SortedByDate(InsertByDate(x, s))
    decreases |s|
  {
    if s != [] {
      if !StrLess(s[0].date, x.date) {
        InsertFrontSorted(x, s);
      } else {
        InsertSorted(x, s[1..]);
        InsertBound(x, s);
        ConsSorted(s[0], InsertByDate(x, s[1..]));
      }
    }
  }

  /** The sorted list is in ascending date order. */
  lemma {:induction false} SortByDateSorted(s: seq<ThemedItem>)
    ensures SortedByDate(SortByDate(s))
    decreases |s|
  {
    if s != [] {
      SortByDateSorted(s[1..]);
      InsertSorted(s[0], SortByDate(s[1..]));
    }
  }

  lemma {:induction false} InsertStable(x: ThemedItem, s: seq<ThemedItem>, d: string)
    ensures Filter(InsertByDate(x, s), OnDate(d)) == Filter([x] + s, OnDate(d))
    decreases |s|
  {
    if s != [] && StrLess(s[0].date, x.date) {
      var p := OnDate(d);
      var s0, tail := s[0], s[1..];
      var ins := InsertByDate(x, tail);
      assert s == [s0] + tail;
      assert InsertByDate(x, s) == [s0] + ins;
      InsertStable(x, tail, d);
      FilterCons(s0, ins, p);
      FilterCons(x, tail, p);
      FilterCons(s0, tail, p);
      FilterCons(x, s, p);
      var rest := Filter(tail, p);
      if p(x) {
        StrLessIrreflexive(x.date);
        assert !p(s0);
        assert Filter(s, p) == rest;
        assert Filter(ins, p) == [x] + rest;
        assert Filter([s0] + ins, p) == [x] + rest;
      } else {
        assert Filter(ins, p) == rest;
        assert Filter([x] + s, p) == Filter(s, p);
      }
    } else {
      assert InsertByDate(x, s) == [x] + s;
    }
  }

  /** Stability: the items of any one date keep their relative order. */
  lemma {:induction false} SortByDateStable(s: seq<ThemedItem>, d: string)
    ensures Filter(SortByDate(s), OnDate(d)) == Filter(s, OnDate(d))
    decreases |s|
  {
    if s != [] {
      SortByDateStable(s[1..], d);
      InsertStable(s[0], SortByDate(s[1..]), d);
      FilterCons(s[0], SortByDate(s[1..]), OnDate(d));
      FilterCons(s[0], s[1..], OnDate(d));
      assert s == [s[0]] + s[1..];
    }
  }

  lemma SortedTail(r: seq<ThemedItem>)
    requires r != [] && SortedByDate(r)
    ensures SortedByDate(r[1..])
  {
    forall i, j | 0 <= i < j < |r| - 1 ensures StrLessEq(r[1..][i].date, r[1..][j].date) {
      assert r[1..][i] == r[i + 1] && r[1..][j] == r[j + 1];
    }
  }

  /** If `q` holds the items of `r`'s first date, `q` starts no later than `r`. */
  lemma HeadDateBound(r: seq<ThemedItem>, q: seq<ThemedItem>)
    requires r != [] && q != [] && SortedByDate(q)
    requires Filter(r, OnDate(r[0].date)) == Filter(q, OnDate(r[0].date))
    ensures StrLessEq(q[0].date, r[0].date)
  {
    assert r[0] in Filter(r, OnDate(r[0].date));
    var j :| 0 <= j < |q| && q[j] == r[0];
  }

  /** The items of a list's first date are its first item followed by those of the rest. */
  lemma FilterHeadDate(r: seq<ThemedItem>)
    requires r != []
    ensures Filter(r, OnDate(r[0].date)) == [r[0]] + Filter(r[1..], OnDate(r[0].date))
  {
    assert r == [r[0]] + r[1..];
    FilterCons(r[0], r[1..], OnDate(r[0].date));
  }

  /** Two date-sorted lists with the same items on every date start with the same item. */
  lemma SortedSameHead(r: seq<ThemedItem>, q: seq<ThemedItem>)
    requires r != [] && q != [] && SortedByDate(r) && SortedByDate(q)
    requires forall d :: Filter(r, OnDate(d)) == Filter(q, OnDate(d))
    ensures r[0] == q[0]
  {
    var d0, e0 := r[0].date, q[0].date;
    HeadDateBound(r, q);
    HeadDateBound(q, r);
    if d0 != e0 {
      StrLessAsymmetric(d0, e0);
    }
    FilterHeadDate(r);
    FilterHeadDate(q);
    assert r[0] == Filter(r, OnDate(d0))[0] == Filter(q, OnDate(d0))[0] == q[0];
  }

  /** Dropping a common first item keeps the items of every date equal. */
  lemma SameTailFilters(r: seq<ThemedItem>, q: seq<ThemedItem>)
    requires r != [] && q != [] && r[0] == q[0]
    requires forall d :: Filter(r, OnDate(d)) == Filter(q, OnDate(d))
    ensures forall d :: Filter(r[1..], OnDate(d)) == Filter(q[1..], OnDate(d))
  {
    assert r == [r[0]] + r[1..] && q == [q[0]] + q[1..];
    forall d ensures Filter(r[1..], OnDate(d)) == Filter(q[1..], OnDate(d)) {
      FilterCons(r[0], r[1..], OnDate(d));
      FilterCons(q[0], q[1..], OnDate(d));
      var head := if OnDate(d)(r[0]) then [r[0]] else [];
      assert (head + Filter(r[1..], OnDate(d)))[|head|..] == Filter(r[1..], OnDate(d));
      assert (head + Filter(q[1..], OnDate(d)))[|head|..] == Filter(q[1..], OnDate(d));
    }
  }

  /**
   * A date-sorted list is fixed by its items of each date in order: every
   * stable sort by date gives `SortByDate`, whatever algorithm it runs.
   */
  lemma {:induction false} SortedByDateUnique(r: seq<ThemedItem>, q: seq<ThemedItem>)
    requires SortedByDate(r) && SortedByDate(q)
    requires forall d :: Filter(r, OnDate(d)) == Filter(q, OnDate(d))
    ensures r == q
    decreases |r|
  {
    if r != [] {
      assert r[0] in Filter(r, OnDate(r[0].date));
      assert r[0] in Filter(q, OnDate(r[0].date));
    }
    if q != [] {
      assert q[0] in Filter(q, OnDate(q[0].date));
      assert q[0] in Filter(r, OnDate(q[0].date));
    }
    if r != [] && q != [] {
      SortedSameHead(r, q);
      SameTailFilters(r, q);
      SortedTail(r);
      SortedTail(q);
      SortedByDateUnique(r[1..], q[1..]);
      assert r == [r[0]] + r[1..] && q == [q[0]] + q[1..];
    }
  }

  /** The items of the built list, in key order. */
  function ThemedItems(cat: Catalog, w: Window, gameTypes: seq<Term>): seq<ThemedItem> {
    AddAllDescribes(AllHits(cat, w, gameTypes));
    ListValues(BuiltList(cat, w, gameTypes))
  }

  /** The list the render loop walks: the built list's items, sorted by date. */
  function SortedThemes(cat: Catalog, w: Window, gameTypes: seq<Term>): seq<ThemedItem> {
    SortByDate(ThemedItems(cat, w, gameTypes))
  }

  /** A kept entry's theme is the `game-theme` term its ID names. */
  lemma HitThemes(cat: Catalog, w: Window, gameTypes: seq<Term>)
    ensures forall h :: h in AllHits(cat, w, gameTypes) ==>
      h.theme.id in cat.themeNames && h.theme == Theme(h.theme.id, cat.themeNames[h.theme.id])
  {
    AllHitsMembers(cat, w, gameTypes);
  }

  /** Each item of the list sits under the key of its own date and theme ID. */
  lemma ValuesKeys(hits: seq<Hit>)
    ensures ListDescribes(AddAll(NoItems, hits), hits)
    ensures var l := AddAll(NoItems, hits);
      && |ListValues(l)| == |Dedup(HitKeys(hits))|
      && forall i :: 0 <= i < |l.keys| ==>
           && ListKey(ListValues(l)[i].date, ListValues(l)[i].theme.id) == l.keys[i]
           && ListValues(l)[i].gameTypes == TermsUnder(hits, l.keys[i])
  {
    AddAllDescribes(hits);
    var l := AddAll(NoItems, hits);
    forall i | 0 <= i < |l.keys| ensures ListKey(ListValues(l)[i].date, ListValues(l)[i].theme.id) == l.keys[i] {
      var k := l.keys[i];
      assert k in l.items;
      var j :| FirstUnder(hits, j, k) && l.items[k].date == hits[j].date && l.items[k].theme == hits[j].theme;
    }
  }

  /** Every hit is represented by the item of its key, when hits with one theme ID carry one theme. */
  lemma ValuesCover(l: ThemedList, hits: seq<Hit>, h: Hit, names: map<int, string>)
    requires ListDescribes(l, hits)
    requires h in hits
    requires forall x :: x in hits ==> x.theme.id in names && x.theme == Theme(x.theme.id, names[x.theme.id])
    ensures forall k :: k in l.keys ==> k in l.items
    ensures var vs := ListValues(l); exists i :: 0 <= i < |vs| && vs[i].date == h.date && vs[i].theme == h.theme
  {
    var n :| 0 <= n < |hits| && hits[n] == h;
    assert HitKeys(hits)[n] == HitKey(h);
    var k := HitKey(h);
    assert k in HitKeys(hits) && k in l.keys;
    var i :| 0 <= i < |l.keys| && l.keys[i] == k;
    var j :| FirstUnder(hits, j, k) && l.items[k].date == hits[j].date && l.items[k].theme == hits[j].theme;
    ListKeyInjective(hits[j].date, hits[j].theme.id, h.date, h.theme.id);
    assert hits[j].theme == h.theme by {
      assert hits[j] in hits;
    }
    var vs := ListValues(l);
    assert vs[i] == l.items[k];
    assert 0 <= i < |vs| && vs[i].date == h.date && vs[i].theme == h.theme;
  }

  /**
   * The built list holds one item per distinct date and theme ID among the
   * kept entries, in order of first occurrence: each with that date and theme,
   * and listing the game type of every kept entry with that date and theme,
   * in order.
   */
  lemma ThemedItemsContents(cat: Catalog, w: Window, gameTypes: seq<Term>)
    ensures var hits, vs := AllHits(cat, w, gameTypes), ThemedItems(cat, w, gameTypes);
      && |vs| == |Dedup(HitKeys(hits))|
      && (forall i :: 0 <= i < |vs| ==> ListKey(vs[i].date, vs[i].theme.id) == Dedup(HitKeys(hits))[i])
      && (forall i :: 0 <= i < |vs| ==> vs[i].gameTypes == TermsUnder(hits, Dedup(HitKeys(hits))[i]))
      && (forall i, j :: 0 <= i < j < |vs| ==> vs[i].date != vs[j].date || vs[i].theme.id != vs[j].theme.id)
      && (forall h :: h in hits ==> exists i :: 0 <= i < |vs| && vs[i].date == h.date && vs[i].theme == h.theme)
  {
    var hits := AllHits(cat, w, gameTypes);
    var vs := ThemedItems(cat, w, gameTypes);
    var keys := Dedup(HitKeys(hits));
    ValuesKeys(hits);
    assert vs == ListValues(AddAll(NoItems, hits));
    forall i, j | 0 <= i < j < |vs| ensures vs[i].date != vs[j].date || vs[i].theme.id != vs[j].theme.id {
      assert keys[i] != keys[j];
    }
    HitThemes(cat, w, gameTypes);
    forall h | h in hits ensures exists i :: 0 <= i < |vs| && vs[i].date == h.date && vs[i].theme == h.theme {
      AddAllDescribes(hits);
      ValuesCover(AddAll(NoItems, hits), hits, h, cat.themeNames);
    }
  }

  /**
   * The render loop walks the built list's items in ascending date order, each
   * exactly once, with items on the same date in their order in the built list.
   */
  lemma SortedThemesShape(cat: Catalog, w: Window, gameTypes: seq<Term>)
    ensures var sorted, vs := SortedThemes(cat, w, gameTypes), ThemedItems(cat, w, gameTypes);
      && SortedByDate(sorted)
      && multiset(sorted) == multiset(vs)
      && forall d :: Filter(sorted, OnDate(d)) == Filter(vs, OnDate(d))
  {
    var vs := ThemedItems(cat, w, gameTypes);
    SortByDateSorted(vs);
    forall d ensures Filter(SortByDate(vs), OnDate(d)) == Filter(vs, OnDate(d)) {
      SortByDateStable(vs, d);
    }
  }

  // ── Locations for a themed date ───────────────────────────────────────────

  /** One entry of the locations list: the location's title, its permalink and the event's time. */
  datatype LocationTime = LocationTime(name: string, url: string, time: string)

  /** The events `get_posts` returns for the item's game types, game type by game type. */
  function PostsOf(gameTypes: seq<Term>, postsFor: int -> seq<Event>): seq<Event>
    decreases |gameTypes|
  {
    if gameTypes == [] then []
    else PostsOf(gameTypes[..|gameTypes| - 1], postsFor) + postsFor(gameTypes[|gameTypes| - 1].id)
  }

  /**
   * The `$matches` test: a recurring event is on the date when one of its
   * `when` names is the date's weekday, a one-time event when its normalised
   * date is the date's `Y-m-d` rendering.
   */
  predicate OnThemedDate(cal: Calendar, info: DateInfo, e: Event) {
    Includes(cal, info.weekday, info.ymd, e)
  }

  function MatchFn(cal: Calendar, info: DateInfo): Event -> bool {
    (e: Event) => OnThemedDate(cal, info, e)
  }

  function Matching(cal: Calendar, info: DateInfo, events: seq<Event>): seq<Event> {
    Filter(events, MatchFn(cal, info))
  }

  /** `$locations`: location IDs in insertion order and the entry under each. */
  datatype LocationTable = LocationTable(ids: seq<int>, rows: map<int, LocationTime>)

  const NoLocations := LocationTable([], map[])

  function RowOf(e: Event): LocationTime
    requires EventLocation(e).Some?
  {
    var loc := EventLocation(e).value;
    LocationTime(loc.title, loc.permalink, e.time)
  }

  /** A matching event: skipped when its location does not resolve, else the first event per location wins. */
  function AddLocation(t: LocationTable, e: Event): LocationTable {
    match EventLocation(e)
    case None => t
    case Some(loc) => if loc.id in t.rows then t else LocationTable(t.ids + [loc.id], t.rows[loc.id := RowOf(e)])
  }

  function AddLocations(t: LocationTable, events: seq<Event>): LocationTable
    decreases |events|
  {
    if events == [] then t else AddLocation(AddLocations(t, events[..|events| - 1]), events[|events| - 1])
  }

  lemma {:induction false} AddLocationsConcat(t: LocationTable, a: seq<Event>, b: seq<Event>)
    ensures AddLocations(t, a + b) == AddLocations(AddLocations(t, a), b)
    decreases |b|
  {
    if b == [] {
      assert a + b == a;
    } else {
      AddLocationsConcat(t, a, b[..|b| - 1]);
      assert (a + b)[..|a + b| - 1] == a + b[..|b| - 1];
    }
  }

  /** The IDs of the locations the events resolve to, skipping those that do not resolve. */
  function LocationIds(events: seq<Event>): seq<int>
    decreases |events|
  {
    if events == [] then []
    else
      var last := events[|events| - 1];
      LocationIds(events[..|events| - 1]) + if EventLocation(last).Some? then [EventLocation(last).value.id] else []
  }

  lemma {:induction false} LocationIdsMembers(events: seq<Event>)
    ensures forall id :: id in LocationIds(events) <==> exists e :: e in events && AtLocation(e, id)
    decreases |events|
  {
    if events != [] {
      var front, last := events[..|events| - 1], events[|events| - 1];
      assert events == front + [last];
      LocationIdsMembers(front);
      forall id ensures id in LocationIds(events) <==> exists e :: e in events && AtLocation(e, id) {
        if id in LocationIds(events) && !(id in LocationIds(front)) {
          assert AtLocation(last, id);
        }
        if exists e :: e in events && AtLocation(e, id) {
          var e :| e in events && AtLocation(e, id);
          if e != last {
            assert e in front;
          }
        }
      }
    }
  }

  /** `events[i]` is the first of `events` at location `id`. */
  predicate FirstAt(events: seq<Event>, i: int, id: int) {
    0 <= i < |events| && AtLocation(events[i], id) && forall j :: 0 <= j < i ==> !AtLocation(events[j], id)
  }

  /**
   * What the event loop leaves: one ID per location of the events, in order of
   * first appearance, with the title, permalink and time of the first event there.
   */
  ghost predicate TableDescribes(t: LocationTable, events: seq<Event>) {
    && t.ids == Dedup(LocationIds(events))
    && (forall id :: id in t.rows <==> id in LocationIds(events))
    && (forall i :: 0 <= i < |t.ids| ==> t.ids[i] in t.rows)
    && (forall id :: id in t.rows ==> exists i :: FirstAt(events, i, id) && t.rows[id] == RowOf(events[i]))
  }

  lemma {:induction false} AddLocationsDescribes(events: seq<Event>)
    ensures TableDescribes(AddLocations(NoLocations, events), events)
    decreases |events|
  {
    if events != [] {
      var front, e := events[..|events| - 1], events[|events| - 1];
      assert events == front + [e];
      AddLocationsDescribes(front);
      var t := AddLocations(NoLocations, front);
      var t' := AddLocation(t, e);
      assert t' == AddLocations(NoLocations, events);
      match EventLocation(e)
      case None =>
        assert LocationIds(events) == LocationIds(front);
        forall id | id in t'.rows ensures exists i :: FirstAt(events, i, id) && t'.rows[id] == RowOf(events[i]) {
          var i :| FirstAt(front, i, id) && t.rows[id] == RowOf(front[i]);
          assert FirstAt(events, i, id) by {
            forall j | 0 <= j < i ensures !AtLocation(events[j], id) {
              assert events[j] == front[j];
            }
          }
        }
      case Some(loc) =>
        assert LocationIds(events) == LocationIds(front) + [loc.id];
        DedupSnoc(LocationIds(front), loc.id);
        forall id | id in t'.rows ensures exists i :: FirstAt(events, i, id) && t'.rows[id] == RowOf(events[i]) {
          if id in t.rows {
            var i :| FirstAt(front, i, id) && t.rows[id] == RowOf(front[i]);
            assert FirstAt(events, i, id) by {
              forall j | 0 <= j < i ensures !AtLocation(events[j], id) {
                assert events[j] == front[j];
              }
            }
          } else {
            assert id == loc.id;
            assert FirstAt(events, |front|, id) by {
              LocationIdsMembers(front);
              forall j | 0 <= j < |front| ensures !AtLocation(events[j], id) {
                assert events[j] == front[j] && front[j] in front;
              }
            }
          }
        }
    }
  }

  /** `array_values($locations)`. */
  function TableValues(t: LocationTable): seq<LocationTime>
    requires forall i :: 0 <= i < |t.ids| ==> t.ids[i] in t.rows
  {
    seq(|t.ids|, i requires 0 <= i < |t.ids| => t.rows[t.ids[i]])
  }

  /** The locations list for a parsed date: the matching events' locations, first event per location. */
  function LocationsOn(cal: Calendar, info: DateInfo, events: seq<Event>): seq<LocationTime> {
    AddLocationsDescribes(Matching(cal, info, events));
    TableValues(AddLocations(NoLocations, Matching(cal, info, events)))
  }

  /**
   * Each location where a matching event resolves appears once, in order of
   * the first such event, with that event's location title, permalink and time.
   */
  lemma LocationsOnShape(cal: Calendar, info: DateInfo, events: seq<Event>)
    ensures var m, locs := Matching(cal, info, events), LocationsOn(cal, info, events);
      && |locs| == |Dedup(LocationIds(m))|
      && (forall id :: id in Dedup(LocationIds(m)) <==> exists e :: e in events && OnThemedDate(cal, info, e) && AtLocation(e, id))
      && forall i :: 0 <= i < |locs| ==> exists j :: FirstAt(m, j, Dedup(LocationIds(m))[i]) && locs[i] == RowOf(m[j])
  {
    var m := Matching(cal, info, events);
    AddLocationsDescribes(m);
    LocationIdsMembers(m);
    var t := AddLocations(NoLocations, m);
    forall i | 0 <= i < |t.ids| ensures exists j :: FirstAt(m, j, t.ids[i]) && TableValues(t)[i] == RowOf(m[j]) {
      assert t.ids[i] in t.rows;
    }
  }

  /** One pass of the event loop: an event off the date or without a resolvable location is skipped. */
  method FileEvent(cal: Calendar, info: DateInfo, t0: LocationTable, e: Event) returns (t: LocationTable)
    ensures t == if OnThemedDate(cal, info, e) then AddLocation(t0, e) else t0
  {
    t := t0;
    var matches := IsIncluded(cal, info.weekday, info.ymd, e);
    if !matches {
      return;
    }
    var location := ResolveLocation(e.location);
    if location.None? {
      return;
    }
    var locId := location.value.id;
    if locId !in t.rows {
      t := LocationTable(t.ids + [locId], t.rows[locId := LocationTime(location.value.title, location.value.permalink, e.time)]);
    }
  }

  lemma MatchingStep(cal: Calendar, info: DateInfo, t0: LocationTable, events: seq<Event>, e: Event)
    ensures AddLocations(t0, Matching(cal, info, events + [e])) ==
      if OnThemedDate(cal, info, e) then AddLocation(AddLocations(t0, Matching(cal, info, events)), e)
      else AddLocations(t0, Matching(cal, info, events))
  {
    var m := Matching(cal, info, events);
    FilterSnoc(events, e, MatchFn(cal, info));
    if OnThemedDate(cal, info, e) {
      assert (m + [e])[..|m|] == m;
    } else {
      assert m + [] == m;
    }
  }

  /** The inner loop of `cerrito_get_locations_for_themed_date` over one game type's events. */
  method FileEvents(cal: Calendar, info: DateInfo, t0: LocationTable, events: seq<Event>) returns (t: LocationTable)
    ensures t == AddLocations(t0, Matching(cal, info, events))
  {
    t := t0;
    var i := 0;
    while i < |events|
      invariant 0 <= i <= |events|
      invariant t == AddLocations(t0, Matching(cal, info, events[..i]))
    {
      var e := events[i];
      TakeSnoc(events, i);
      MatchingStep(cal, info, t0, events[..i], e);
      t := FileEvent(cal, info, t, e);
      i := i + 1;
    }
    assert events[..|events|] == events;
  }

  /** `cerrito_get_locations_for_themed_date` for a parsed date: every game type of the item, then `array_values`. */
  method LocationsForThemedDate(cal: Calendar, info: DateInfo, item: ThemedItem, postsFor: int -> seq<Event>)
    returns (locs: seq<LocationTime>)
    ensures locs == LocationsOn(cal, info, PostsOf(item.gameTypes, postsFor))
  {
    var t := NoLocations;
    var g := 0;
    while g < |item.gameTypes|
      invariant 0 <= g <= |item.gameTypes|
      invariant t == AddLocations(NoLocations, Matching(cal, info, PostsOf(item.gameTypes[..g], postsFor)))
    {
      var term := item.gameTypes[g];
      var events := postsFor(term.id);
      assert item.gameTypes[..g + 1][..g] == item.gameTypes[..g];
      assert PostsOf(item.gameTypes[..g + 1], postsFor) == PostsOf(item.gameTypes[..g], postsFor) + events;
      FilterConcat(PostsOf(item.gameTypes[..g], postsFor), events, MatchFn(cal, info));
      AddLocationsConcat(NoLocations, Matching(cal, info, PostsOf(item.gameTypes[..g], postsFor)), Matching(cal, info, events));
      t := FileEvents(cal, info, t, events);
      g := g + 1;
    }
    assert item.gameTypes[..|item.gameTypes|] == item.gameTypes;
    AddLocationsDescribes(Matching(cal, info, PostsOf(item.gameTypes, postsFor)));
    locs := TableValues(t);
  }

  // ── The rendered list ─────────────────────────────────────────────────────

  /**
   * `cerrito_get_locations_for_themed_date` as the render loop calls it: its
   * second parameter is declared `DateTime`, so when `createFromFormat`
   * returns `false` for a date it cannot parse the call is a TypeError.
   */
  function LocationsAsWritten(cal: Calendar, item: ThemedItem, postsFor: int -> seq<Event>): (r: Result<seq<LocationTime>>)
    ensures r.Failure? <==> cal.parseYmd(item.date).None?
    ensures r.Success? ==> r.value == LocationsOn(cal, cal.parseYmd(item.date).value, PostsOf(item.gameTypes, postsFor))
  {
    match cal.parseYmd(item.date)
    case None => Failure("TypeError: argument #2 ($date_obj) must be of type DateTime, false given")
    case Some(info) => Success(LocationsOn(cal, info, PostsOf(item.gameTypes, postsFor)))
  }

  /** A game type whose one themed date is inside the window but is not a `Y-m-d` date. */
  const ExampleTerm := Term(7, "Trivia", "trivia")
  const ExampleEntry := ThemedEntry(Some("2026-10-1x"), Some(3))
  const ExampleCatalog := Catalog(map[7 := [ExampleEntry]], map[3 := "Pirates"])
  const ExampleWindow := Window("2026-10-14", "2027-01-12")

  /** The malformed date is not before the window's start: `x` sorts after `4`. */
  lemma ExampleAfterStart()
    ensures !StrLess("2026-10-1x", "2026-10-14")
  {
    StrLessAt("2026-10-1x", "2026-10-14", 9);
  }

  /** The malformed date is not after the window's end: `6` sorts before `7`. */
  lemma ExampleBeforeEnd()
    ensures !StrLess("2027-01-12", "2026-10-1x")
  {
    StrLessAt("2027-01-12", "2026-10-1x", 3);
  }

  /** The malformed date compares inside the window, character by character. */
  lemma ExampleInWindow()
    ensures InWindow("2026-10-1x", ExampleWindow)
  {
    ExampleAfterStart();
    ExampleBeforeEnd();
  }

  lemma ExampleHits()
    ensures AllHits(ExampleCatalog, ExampleWindow, [ExampleTerm]) == [ExampleHit]
  {
    var cat, w, term, entry := ExampleCatalog, ExampleWindow, ExampleTerm, ExampleEntry;
    ExampleInWindow();
    assert Kept(cat, w, entry);
    var h := HitOf(cat, term, entry);
    assert h == ExampleHit;
    assert EntryHits(cat, w, term, [entry]) == [h] by {
      assert [entry][..0] == [];
      assert EntryHits(cat, w, term, []) == [];
    }
    assert EntriesOf(cat, 7) == [entry];
    assert AllHits(cat, w, [term]) == AllHits(cat, w, []) + EntryHits(cat, w, term, [entry]) by {
      assert [term][..0] == [];
    }
  }

  /** The one hit of the example and the item built from it. */
  const ExampleHit := Hit(ExampleTerm, "2026-10-1x", Theme(3, "Pirates"))
  const ExampleItem := ThemedItem("2026-10-1x", Theme(3, "Pirates"), [ExampleTerm])

  /** The build loop creates one item for the one kept entry. */
  lemma ExampleBuilt()
    ensures BuiltList(ExampleCatalog, ExampleWindow, [ExampleTerm]) == AddHit(NoItems, ExampleHit)
  {
    ExampleHits();
    AddAllSnoc(NoItems, [], ExampleHit);
    assert [] + [ExampleHit] == [ExampleHit];
  }

  lemma ExampleItems()
    ensures ThemedItems(ExampleCatalog, ExampleWindow, [ExampleTerm]) == [ExampleItem]
  {
    ExampleBuilt();
  }

  lemma ExampleSorted()
    ensures SortedThemes(ExampleCatalog, ExampleWindow, [ExampleTerm]) == [ExampleItem]
  {
    ExampleItems();
    assert [ExampleItem][1..] == [];
  }

  /**
   * The date survives the build loop although `createFromFormat` cannot parse
   * it, so the render loop reaches the fatal call.
   */
  lemma UnparseableDateIsFatal(cal: Calendar, postsFor: int -> seq<Event>)
    requires cal.parseYmd("2026-10-1x").None?
    ensures var sorted := SortedThemes(ExampleCatalog, ExampleWindow, [ExampleTerm]);
      |sorted| == 1 && LocationsAsWritten(cal, sorted[0], postsFor).Failure?
  {
    ExampleSorted();
  }

  /** The corrected call: an item whose date does not parse is shown without locations. */
  function Locations(cal: Calendar, item: ThemedItem, postsFor: int -> seq<Event>): (r: seq<LocationTime>)
    ensures cal.parseYmd(item.date).None? ==> r == []
    ensures LocationsAsWritten(cal, item, postsFor).Success? ==> r == LocationsAsWritten(cal, item, postsFor).value
  {
    match cal.parseYmd(item.date)
    case None => []
    case Some(info) => LocationsOn(cal, info, PostsOf(item.gameTypes, postsFor))
  }

  /** One list item: weekday and `n/j` date (blank and the raw date when it does not parse), emoji, name, locations. */
  datatype ThemeCard = ThemeCard(dayLabel: string, dateNum: string, emoji: string, name: string, locations: seq<LocationTime>)

  /** The card for an item; `emojiOf(id)` is the `theme_emoji` field of theme term `id` ("" when unset). */
  function CardOf(cal: Calendar, emojiOf: int -> string, postsFor: int -> seq<Event>, item: ThemedItem): (c: ThemeCard)
    ensures cal.parseYmd(item.date).None? ==> c.dayLabel == "" && c.dateNum == item.date && c.locations == []
    ensures cal.parseYmd(item.date).Some? ==>
      && c.dayLabel == StrToUpper(cal.parseYmd(item.date).value.weekday)
      && c.dateNum == cal.parseYmd(item.date).value.numeric
    ensures c.name == StrToUpper(item.theme.name) && c.emoji == emojiOf(item.theme.id)
  {
    var dateObj := cal.parseYmd(item.date);
    ThemeCard(
      if dateObj.Some? then StrToUpper(dateObj.value.weekday) else "",
      if dateObj.Some? then dateObj.value.numeric else item.date,
      emojiOf(item.theme.id),
      StrToUpper(item.theme.name),
      Locations(cal, item, postsFor))
  }

  function CardsOf(cal: Calendar, emojiOf: int -> string, postsFor: int -> seq<Event>, items: seq<ThemedItem>): (r: seq<ThemeCard>)
    ensures |r| == |items|
    ensures forall i :: 0 <= i < |items| ==> r[i] == CardOf(cal, emojiOf, postsFor, items[i])
  {
    seq(|items|, i requires 0 <= i < |items| => CardOf(cal, emojiOf, postsFor, items[i]))
  }

  lemma CardsOfStep(cal: Calendar, emojiOf: int -> string, postsFor: int -> seq<Event>, items: seq<ThemedItem>, i: nat)
    requires i < |items|
    ensures CardsOf(cal, emojiOf, postsFor, items[..i + 1]) ==
      CardsOf(cal, emojiOf, postsFor, items[..i]) + [CardOf(cal, emojiOf, postsFor, items[i])]
  {
  }

  datatype ThemesView = NoThemedRoundsScheduled | ThemeCards(cards: seq<ThemeCard>)

  function View(cat: Catalog, cal: Calendar, w: Window, gameTypes: seq<Term>, emojiOf: int -> string, postsFor: int -> seq<Event>): ThemesView {
    var sorted := SortedThemes(cat, w, gameTypes);
    if sorted == [] then NoThemedRoundsScheduled else ThemeCards(CardsOf(cal, emojiOf, postsFor, sorted))
  }

  /** No entry is kept exactly when no game type has an entry that passes the tests. */
  lemma NoHitsIff(cat: Catalog, w: Window, gameTypes: seq<Term>)
    ensures AllHits(cat, w, gameTypes) == [] <==>
      forall t, e :: t in gameTypes && e in EntriesOf(cat, t.id) ==> !Kept(cat, w, e)
  {
    var hits := AllHits(cat, w, gameTypes);
    AllHitsMembers(cat, w, gameTypes);
    forall t, e | t in gameTypes && e in EntriesOf(cat, t.id) && Kept(cat, w, e) ensures HitOf(cat, t, e) in hits {
    }
    if hits != [] {
      assert hits[0] in hits;
    }
  }

  /**
   * The fallback message shows exactly when no game type has a kept entry;
   * otherwise there is one card per distinct date and theme ID among the kept
   * entries.
   */
  lemma ViewShape(cat: Catalog, cal: Calendar, w: Window, gameTypes: seq<Term>, emojiOf: int -> string, postsFor: int -> seq<Event>)
    ensures View(cat, cal, w, gameTypes, emojiOf, postsFor).NoThemedRoundsScheduled? <==>
      forall t, e :: t in gameTypes && e in EntriesOf(cat, t.id) ==> !Kept(cat, w, e)
    ensures View(cat, cal, w, gameTypes, emojiOf, postsFor).ThemeCards? ==>
      |View(cat, cal, w, gameTypes, emojiOf, postsFor).cards| == |Dedup(HitKeys(AllHits(cat, w, gameTypes)))| > 0
  {
    var hits, vs := AllHits(cat, w, gameTypes), ThemedItems(cat, w, gameTypes);
    ThemedItemsContents(cat, w, gameTypes);
    SortedThemesShape(cat, w, gameTypes);
    var sorted := SortedThemes(cat, w, gameTypes);
    assert |sorted| == |multiset(sorted)| == |multiset(vs)| == |vs|;
    if hits != [] {
      assert HitKeys(hits)[0] in Dedup(HitKeys(hits));
      assert hits[0] in hits;
    }
    NoHitsIff(cat, w, gameTypes);
  }

  /** One pass of the render loop, with the corrected locations call. */
  method RenderCard(cal: Calendar, emojiOf: int -> string, postsFor: int -> seq<Event>, item: ThemedItem) returns (c: ThemeCard)
    ensures c == CardOf(cal, emojiOf, postsFor, item)
  {
    var dateObj := cal.parseYmd(item.date);
    var dayLabel := if dateObj.Some? then StrToUpper(dateObj.value.weekday) else "";
    var dateNum := if dateObj.Some? then dateObj.value.numeric else item.date;
    var emoji := emojiOf(item.theme.id);
    var locations: seq<LocationTime> := [];
    if dateObj.Some? {
      locations := LocationsForThemedDate(cal, dateObj.value, item, postsFor);
    }
    c := ThemeCard(dayLabel, dateNum, emoji, StrToUpper(item.theme.name), locations);
  }

  /** The render loop over the sorted items. */
  method RenderCards(cal: Calendar, emojiOf: int -> string, postsFor: int -> seq<Event>, sorted: seq<ThemedItem>) returns (cards: seq<ThemeCard>)
    ensures cards == CardsOf(cal, emojiOf, postsFor, sorted)
  {
    cards := [];
    var i := 0;
    while i < |sorted|
      invariant 0 <= i <= |sorted|
      invariant cards == CardsOf(cal, emojiOf, postsFor, sorted[..i])
    {
      var card := RenderCard(cal, emojiOf, postsFor, sorted[i]);
      CardsOfStep(cal, emojiOf, postsFor, sorted, i);
      cards := cards + [card];
      i := i + 1;
    }
    assert sorted[..|sorted|] == sorted;
  }

  /**
   * `cerrito_upcoming_themes_list_shortcode` on the fetched game types, with
   * the corrected locations call: build, sort, then one card per item.
   */
  method UpcomingThemesShortcode(cat: Catalog, cal: Calendar, w: Window, gameTypes: seq<Term>, emojiOf: int -> string, postsFor: int -> seq<Event>)
    returns (v: ThemesView)
    ensures v == View(cat, cal, w, gameTypes, emojiOf, postsFor)
  {
    var l := BuildThemedList(cat, w, gameTypes);
    AddAllDescribes(AllHits(cat, w, gameTypes));
    var sorted := SortByDate(ListValues(l));
    assert sorted == SortedThemes(cat, w, gameTypes);
    if sorted == [] {
      return NoThemedRoundsScheduled;
    }
    var cards := RenderCards(cal, emojiOf, postsFor, sorted);
    v := ThemeCards(cards);
  }
}

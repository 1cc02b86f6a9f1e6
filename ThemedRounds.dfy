/**
 * `[cerrito_themed_rounds]`: upcoming themed events as compact cards. The
 * events with a manual theme come first; events of the date range that are not
 * among them join when their first game type has a themed date on their own
 * date. Each card then resolves its theme and date, skipping events that have
 * neither or whose date does not parse.
 */
module ThemedRounds {
  import opened Wrappers
  import opened Php
  import opened Seqs
  import opened Entities
  import opened Helpers

  function DateOf(cal: Calendar, e: Event): string {
    NormaliseDate(e.rawDate, cal)
  }

  /** `array_column($manual_theme_events, 'ID')`. */
  function IdsOf(events: seq<Event>): (r: seq<int>)
    ensures |r| == |events| && forall i :: 0 <= i < |events| ==> r[i] == events[i].id
  {
    seq(|events|, i requires 0 <= i < |events| => events[i].id)
  }

  /** The event's first game type has a themed entry on its truthy normalised date. */
  predicate IsAutoThemed(cat: Catalog, cal: Calendar, e: Event) {
    |e.gameTypes| > 0 && Truthy(DateOf(cal, e)) && DatedTheme(cat, e.gameTypes[0].id, DateOf(cal, e)).Some?
  }

  /** A range event the merge appends: not seen among the manual IDs, and auto-themed. */
  predicate Joins(cat: Catalog, cal: Calendar, seenIds: seq<int>, e: Event) {
    e.id !in seenIds && IsAutoThemed(cat, cal, e)
  }

  function JoinsFn(cat: Catalog, cal: Calendar, seenIds: seq<int>): Event -> bool {
    (e: Event) => Joins(cat, cal, seenIds, e)
  }

  /** `$themed_events` after the merge loop. */
  function Merged(cat: Catalog, cal: Calendar, manual: seq<Event>, range: seq<Event>): seq<Event> {
    manual + Filter(range, JoinsFn(cat, cal, IdsOf(manual)))
  }

  /** The body of the merge loop for one range event: skip a seen ID, else look up the automatic theme. */
  method JoinsMerge(cat: Catalog, cal: Calendar, seenIds: seq<int>, e: Event) returns (joins: bool)
    ensures joins == Joins(cat, cal, seenIds, e)
  {
    if e.id in seenIds {
      return false;
    }
    joins := false;
    var eventDate := NormaliseDate(e.rawDate, cal);
    if |e.gameTypes| > 0 && Truthy(eventDate) {
      var auto := GetEventTheme(cat, e.gameTypes[0].id, eventDate);
      joins := auto.Some?;
    }
  }

  /** The merge loop. */
  method MergeThemed(cat: Catalog, cal: Calendar, manual: seq<Event>, range: seq<Event>) returns (themed: seq<Event>)
    ensures themed == Merged(cat, cal, manual, range)
  {
    var seenIds := IdsOf(manual);
    ghost var p := JoinsFn(cat, cal, seenIds);
    themed := manual;
    var i := 0;
    while i < |range|
      invariant 0 <= i <= |range|
      invariant themed == manual + Filter(range[..i], p)
    {
      var e := range[i];
      TakeSnoc(range, i);
      FilterSnoc(range[..i], e, p);
      var joins := JoinsMerge(cat, cal, seenIds, e);
      if joins {
        ConcatAssoc(manual, Filter(range[..i], p), [e]);
        themed := themed + [e];
      } else {
        assert Filter(range[..i], p) + [] == Filter(range[..i], p);
      }
      i := i + 1;
    }
    assert range[..|range|] == range;
  }

  /**
   * The merged list is the manual events in their order, then the range
   * events that join, in range order: none of them carries a manual ID, so no
   * manual event is listed twice, and each of them has an automatic theme.
   */
  lemma MergeShape(cat: Catalog, cal: Calendar, manual: seq<Event>, range: seq<Event>)
    ensures var m := Merged(cat, cal, manual, range);
      && |manual| <= |m| && m[..|manual|] == manual
      && IsSubsequence(m[|manual|..], range)
      && (forall e :: e in m[|manual|..] <==> e in range && e.id !in IdsOf(manual) && IsAutoThemed(cat, cal, e))
      && (forall i, j :: 0 <= i < |manual| <= j < |m| ==> m[i].id != m[j].id)
  {
    var p := JoinsFn(cat, cal, IdsOf(manual));
    var m := Merged(cat, cal, manual, range);
    assert m[|manual|..] == Filter(range, p);
    FilterIsSubsequence(range, p);
    forall i, j | 0 <= i < |manual| <= j < |m| ensures m[i].id != m[j].id {
      assert m[j] in m[|manual|..];
      assert m[i].id == IdsOf(manual)[i];
    }
  }

  /** The events the cards are rendered for: the merged list, filtered by game type when asked. */
  function Candidates(cat: Catalog, cal: Calendar, manual: seq<Event>, range: seq<Event>, gameType: string): (r: seq<Event>)
    ensures forall e :: e in r <==>
      e in Merged(cat, cal, manual, range) && (Truthy(gameType) ==> MatchesGameType(e, gameType))
    ensures IsSubsequence(r, Merged(cat, cal, manual, range))
  {
    var m := Merged(cat, cal, manual, range);
    if Truthy(gameType) then FilterByGameType(m, gameType)
    else
      IsSubsequenceRefl(m);
      m
  }

  // ── Cards ─────────────────────────────────────────────────────────────────

  /** One card: the upper-cased three-letter day, the `n/j` date, the class of the first game type, and the theme. */
  datatype Round = Round(dayName: string, dateNum: string, cls: string, theme: string, event: Event)

  /** The displayed theme: the manual one, else the first game type's theme on the exact date. */
  function RoundTheme(cat: Catalog, cal: Calendar, e: Event): string {
    ExactDateTheme(cat, e, DateOf(cal, e))
  }

  /** The card of one event, or None when the loop skips it. */
  function RoundOf(cat: Catalog, cal: Calendar, e: Event): (r: Option<Round>)
    ensures r.Some? <==>
      Truthy(RoundTheme(cat, cal, e)) && Truthy(DateOf(cal, e)) && cal.parseYmd(DateOf(cal, e)).Some?
    ensures r.Some? ==>
      var info := cal.parseYmd(DateOf(cal, e)).value;
      && r.value.event == e
      && r.value.theme == RoundTheme(cat, cal, e)
      && (Truthy(e.specialTheme) ==> r.value.theme == e.specialTheme)
      && r.value.dayName == StrToUpper(Prefix(info.weekday, 3)) && |r.value.dayName| <= 3
      && r.value.dateNum == info.numeric
      && r.value.cls == (if |e.gameTypes| > 0 then EventClass(e.gameTypes[0].name) else "")
  {
    var date := DateOf(cal, e);
    var theme := RoundTheme(cat, cal, e);
    if !Truthy(theme) || !Truthy(date) then None
    else
      match cal.parseYmd(date)
      case None => None
      case Some(info) =>
        Some(Round(StrToUpper(Prefix(info.weekday, 3)), info.numeric,
          if |e.gameTypes| > 0 then EventClass(e.gameTypes[0].name) else "", theme, e))
  }

  /** The cards one event adds: its card, or none when it is skipped. */
  function CardList(r: Option<Round>): seq<Round> {
    match r
    case Some(c) => [c]
    case None => []
  }

  /** The cards of the render loop, in event order. */
  function RoundsOf(cat: Catalog, cal: Calendar, events: seq<Event>): seq<Round>
    decreases |events|
  {
    if events == [] then []
    else
      var last := events[|events| - 1];
      RoundsOf(cat, cal, events[..|events| - 1]) + CardList(RoundOf(cat, cal, last))
  }

  lemma RoundsOfSnoc(cat: Catalog, cal: Calendar, events: seq<Event>, e: Event)
    ensures RoundsOf(cat, cal, events + [e]) ==
      RoundsOf(cat, cal, events) + CardList(RoundOf(cat, cal, e))
  {
    assert (events + [e])[..|events|] == events;
  }

  /** The event of each card. */
  function RoundEvents(rounds: seq<Round>): (r: seq<Event>)
    ensures |r| == |rounds| && forall i :: 0 <= i < |r| ==> r[i] == rounds[i].event
  {
    seq(|rounds|, i requires 0 <= i < |rounds| => rounds[i].event)
  }

  /** The events that get a card. */
  function HasCard(cat: Catalog, cal: Calendar): Event -> bool {
    (e: Event) => RoundOf(cat, cal, e).Some?
  }

  lemma RoundEventsSnoc(a: seq<Round>, r: Round)
    ensures RoundEvents(a + [r]) == RoundEvents(a) + [r.event]
  {
  }

  /** A carded last event appends itself to both sides. */
  lemma CardedStep(cat: Catalog, cal: Calendar, events: seq<Event>, r: Round)
    requires events != []
    requires RoundEvents(RoundsOf(cat, cal, events[..|events| - 1])) == Filter(events[..|events| - 1], HasCard(cat, cal))
    requires RoundOf(cat, cal, events[|events| - 1]) == Some(r)
    ensures RoundEvents(RoundsOf(cat, cal, events)) == Filter(events, HasCard(cat, cal))
  {
    var front, last := events[..|events| - 1], events[|events| - 1];
    var p, a := HasCard(cat, cal), RoundsOf(cat, cal, front);
    assert p(last);
    assert Filter(events, p) == Filter(front, p) + [last];
    assert RoundsOf(cat, cal, events) == a + [r];
    RoundEventsSnoc(a, r);
  }

  /** A skipped last event changes neither side. */
  lemma SkippedStep(cat: Catalog, cal: Calendar, events: seq<Event>)
    requires events != []
    requires RoundEvents(RoundsOf(cat, cal, events[..|events| - 1])) == Filter(events[..|events| - 1], HasCard(cat, cal))
    requires RoundOf(cat, cal, events[|events| - 1]) == None
    ensures RoundEvents(RoundsOf(cat, cal, events)) == Filter(events, HasCard(cat, cal))
  {
    var front := events[..|events| - 1];
    var a := RoundsOf(cat, cal, front);
    assert RoundsOf(cat, cal, events) == a + [];
    assert a + [] == a;
  }

  /**
   * One card per event that is not skipped, in event order: the carded events
   * are exactly the events whose card resolves.
   */
  lemma {:induction false} RoundsFollowEvents(cat: Catalog, cal: Calendar, events: seq<Event>)
    ensures RoundEvents(RoundsOf(cat, cal, events)) == Filter(events, HasCard(cat, cal))
    decreases |events|
  {
    if events != [] {
      var last := events[|events| - 1];
      RoundsFollowEvents(cat, cal, events[..|events| - 1]);
      if RoundOf(cat, cal, last).Some? {
        CardedStep(cat, cal, events, RoundOf(cat, cal, last).value);
      } else {
        SkippedStep(cat, cal, events);
      }
    }
  }

  /** Each card is the card of its event. */
  lemma {:induction false} RoundsAreCards(cat: Catalog, cal: Calendar, events: seq<Event>)
    ensures forall r :: r in RoundsOf(cat, cal, events) ==> RoundOf(cat, cal, r.event) == Some(r)
    decreases |events|
  {
    if events != [] {
      RoundsAreCards(cat, cal, events[..|events| - 1]);
    }
  }

  /** The body of the render loop for one event: resolve the theme, skip, or build the card. */
  method RenderRound(cat: Catalog, cal: Calendar, e: Event) returns (r: Option<Round>)
    ensures r == RoundOf(cat, cal, e)
  {
    var eventDate := NormaliseDate(e.rawDate, cal);
    var specialTheme := e.specialTheme;
    if !Truthy(specialTheme) && Truthy(eventDate) && |e.gameTypes| > 0 {
      var auto := GetEventTheme(cat, e.gameTypes[0].id, eventDate);
      if auto.Some? {
        specialTheme := auto.value.name;
      }
    }
    if !Truthy(specialTheme) || !Truthy(eventDate) {
      return None;
    }
    var d := cal.parseYmd(eventDate);
    if d.None? {
      return None;
    }
    var dayName := StrToUpper(Prefix(d.value.weekday, 3));
    var dateNum := d.value.numeric;
    var cls := "";
    if |e.gameTypes| > 0 {
      cls := EventClass(e.gameTypes[0].name);
    }
    r := Some(Round(dayName, dateNum, cls, specialTheme, e));
  }

  /** The render loop. */
  method RenderRounds(cat: Catalog, cal: Calendar, events: seq<Event>) returns (rounds: seq<Round>)
    ensures rounds == RoundsOf(cat, cal, events)
  {
    rounds := [];
    var i := 0;
    while i < |events|
      invariant 0 <= i <= |events|
      invariant rounds == RoundsOf(cat, cal, events[..i])
    {
      var e := events[i];
      TakeSnoc(events, i);
      RoundsOfSnoc(cat, cal, events[..i], e);
      var r := RenderRound(cat, cal, e);
      rounds := rounds + CardList(r);
      i := i + 1;
    }
    assert events[..|events|] == events;
  }

  datatype ThemedView = NoThemedRounds | Rounds(rounds: seq<Round>)

  /** What the shortcode renders: the empty message when no candidate is left, else the cards. */
  function View(cat: Catalog, cal: Calendar, manual: seq<Event>, range: seq<Event>, gameType: string): ThemedView {
    var events := Candidates(cat, cal, manual, range, gameType);
    if events == [] then NoThemedRounds else Rounds(RoundsOf(cat, cal, events))
  }

  /**
   * The empty message shows exactly when the merge and the game-type filter
   * leave no event; a non-empty list can still render no card when every
   * event is skipped.
   */
  lemma ViewShape(cat: Catalog, cal: Calendar, manual: seq<Event>, range: seq<Event>, gameType: string)
    ensures View(cat, cal, manual, range, gameType).NoThemedRounds? <==>
      forall e :: e in Merged(cat, cal, manual, range) ==> Truthy(gameType) && !MatchesGameType(e, gameType)
  {
    var events := Candidates(cat, cal, manual, range, gameType);
    if events != [] {
      assert events[0] in events;
    }
  }

  /**
   * `cerrito_themed_rounds_shortcode` on the two date-range queries' results:
   * the manual-theme events and all range events.
   */
  method ThemedRoundsShortcode(cat: Catalog, cal: Calendar, manual: seq<Event>, range: seq<Event>, gameType: string)
    returns (v: ThemedView)
    ensures v == View(cat, cal, manual, range, gameType)
  {
    var themed := MergeThemed(cat, cal, manual, range);
    if Truthy(gameType) {
      themed := FilterByGameType(themed, gameType);
    }
    if themed == [] {
      return NoThemedRounds;
    }
    var rounds := RenderRounds(cat, cal, themed);
    v := Rounds(rounds);
  }
}

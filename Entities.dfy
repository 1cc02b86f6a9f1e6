/**
 * The data the shortcodes read from WordPress and ACF, passed in as plain
 * values: event posts with their fields and terms, the `themed_dates` term meta
 * of each game type, the names of the theme terms, and the calendar (date
 * parsing and formatting) the host provides.
 */
module Entities {
  import opened Wrappers

  /** A taxonomy term as `get_the_terms` returns it (game_type terms). */
  datatype Term = Term(id: int, name: string, slug: string)

  /** A location post: its ID, `post_title` and permalink. */
  datatype Location = Location(id: int, title: string, permalink: string)

  /**
   * The raw value of the `event_location` ACF relationship field: a post, a
   * list of values, or anything else (false, null, an ID).
   */
  datatype FieldValue = PostValue(post: Location) | ListValue(items: seq<FieldValue>) | OtherValue

  /**
   * An event post. `rawDate` is the `event_date` field as stored ("" when
   * missing), `when` the names of its `when` terms in the order `get_the_terms`
   * gives them ([] when it has none), `gameTypes` its `game_type` terms,
   * `specialTheme` the `special_theme` field ("" when missing).
   */
  datatype Event = Event(
    id: int,
    isRecurring: bool,
    rawDate: string,
    when: seq<string>,
    gameTypes: seq<Term>,
    specialTheme: string,
    location: FieldValue,
    time: string)

  /** One row of a game type's `themed_dates` meta; an absent key is None. */
  datatype ThemedEntry = ThemedEntry(date: Option<string>, themeId: Option<int>)

  /**
   * The term data the theme lookups read: `themedDates[t]` is the meta list of
   * game-type term `t` (no key: the meta is empty or not an array), and
   * `themeNames[i]` the name of `game-theme` term `i` (no key: `get_term` fails).
   */
  datatype Catalog = Catalog(themedDates: map<int, seq<ThemedEntry>>, themeNames: map<int, string>)

  /**
   * What the source reads off a parsed date: `format('Y-m-d')`, `format('l')`
   * (weekday name), `format('M j')`, `format('n/j')` and `format('M j, Y')`.
   */
  datatype DateInfo = DateInfo(ymd: string, weekday: string, monthDay: string, numeric: string, long: string)

  /**
   * The host's date parsing: `parseYmd(s)` is `DateTime::createFromFormat('Y-m-d', s)`
   * (None for false), `parseMdY(s)` the `Y-m-d` rendering of
   * `DateTime::createFromFormat('m/d/Y', s)`.
   */
  datatype Calendar = Calendar(parseYmd: string -> Option<DateInfo>, parseMdY: string -> Option<string>)

  /** A date range compared as strings: `start` is today, `end` today plus the look-ahead. */
  datatype Window = Window(start: string, end: string)

  /** The canonical weekday order the schedules render in. */
  const DayOrder: seq<string> := ["Monday", "Tuesday", "Wednesday", "Thursday", "Friday", "Saturday", "Sunday"]
}

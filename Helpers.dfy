/**
 * The shared helpers of the schedule shortcodes: date normalisation, CSS
 * class, address flattening, image and location resolution, the two theme
 * lookups over a game type's `themed_dates`, and the game-type and location
 * filters.
 */
module Helpers {
  import opened Wrappers
  import opened Php
  import opened Seqs
  import opened Entities

  // ── Location helpers ──────────────────────────────────────────────────────

  /**
   * `cerrito_resolve_location`: a non-empty list is replaced by its first
   * element; the result is that value when it is a post, else nothing.
   */
  function ResolveLocation(v: FieldValue): (r: Option<Location>)
    ensures v.PostValue? ==> r == Some(v.post)
    ensures v.ListValue? && |v.items| > 0 ==> r == (if v.items[0].PostValue? then Some(v.items[0].post) else None)
    ensures v.OtherValue? || v == ListValue([]) ==> r == None
  {
    var w := if v.ListValue? && |v.items| > 0 then v.items[0] else v;
    if w.PostValue? then Some(w.post) else None
  }

  /** The location an event is at, as every shortcode reads it. */
  function EventLocation(e: Event): Option<Location> {
    ResolveLocation(e.location)
  }

  // ── Game type helpers ─────────────────────────────────────────────────────

  /**
   * `cerrito_get_event_class`: "trivia" when the lower-cased name contains
   * "trivia", else "bingo" when it contains "bingo", else "".
   */
  function EventClass(eventType: string): (r: string)
    ensures r == "trivia" || r == "bingo" || r == ""
    ensures r == "trivia" <==> StrContains(StrToLower(eventType), "trivia")
    ensures r == "bingo" <==> !StrContains(StrToLower(eventType), "trivia") && StrContains(StrToLower(eventType), "bingo")
  {
    var lower := StrToLower(eventType);
    if StrContains(lower, "trivia") then "trivia"
    else if StrContains(lower, "bingo") then "bingo"
    else ""
  }

  /** The class does not depend on letter case: upper-casing the name changes nothing. */
  lemma EventClassIgnoresCase(eventType: string)
    ensures EventClass(StrToUpper(eventType)) == EventClass(eventType)
  {
    var u := StrToUpper(eventType);
    forall i | 0 <= i < |eventType| ensures StrToLower(u)[i] == StrToLower(eventType)[i] {
      assert LowerChar(UpperChar(eventType[i])) == LowerChar(eventType[i]);
    }
    assert StrToLower(u) == StrToLower(eventType);
  }

  lemma EventClassTriviaExample()
    ensures EventClass("Pub Trivia") == "trivia"
  {
    assert StrToLower("Pub Trivia") == "pub trivia";
    StrContainsAt("pub trivia", "trivia", 4);
  }

  lemma EventClassBingoExample()
    ensures EventClass("BINGO") == "bingo"
  {
    assert StrToLower("BINGO") == "bingo";
    NoSuchLetter("bingo", "trivia", 't');
    assert StrContains("bingo", "bingo");
  }

  lemma EventClassOtherExample()
    ensures EventClass("Karaoke") == ""
  {
    assert StrToLower("Karaoke") == "karaoke";
    NoSuchLetter("karaoke", "trivia", 't');
    NoSuchLetter("karaoke", "bingo", 'b');
  }

  /** A needle occurring at position `i` is contained. */
  lemma {:induction false} StrContainsAt(hay: string, needle: string, i: nat)
    requires i <= |hay| && needle <= hay[i..]
    ensures StrContains(hay, needle)
    decreases i
  {
    if i > 0 {
      assert hay[1..][i - 1..] == hay[i..];
      StrContainsAt(hay[1..], needle, i - 1);
    }
  }

  /** A needle holding a character the haystack lacks does not occur in it. */
  lemma {:induction false} NoSuchLetter(hay: string, needle: string, c: char)
    requires c in needle && c !in hay
    ensures !StrContains(hay, needle)
    decreases |hay|
  {
    if |hay| > 0 {
      NoSuchLetter(hay[1..], needle, c);
    }
  }

  /** `implode($sep, $parts)`. */
  function Implode(sep: string, parts: seq<string>): string
    decreases |parts|
  {
    if |parts| == 0 then ""
    else if |parts| == 1 then parts[0]
    else Implode(sep, parts[..|parts| - 1]) + sep + parts[|parts| - 1]
  }

  /** `cerrito_get_event_type_string`: the names of the event's game types joined by ", ". */
  function EventTypeString(e: Event): (r: string)
    ensures e.gameTypes == [] ==> r == ""
    ensures |e.gameTypes| == 1 ==> r == e.gameTypes[0].name
  {
    Implode(", ", seq(|e.gameTypes|, i requires 0 <= i < |e.gameTypes| => e.gameTypes[i].name))
  }

  // ── Image helpers ─────────────────────────────────────────────────────────

  /** An ACF image field: an array (with its "url" key, if any), an attachment ID, a string, or nothing. */
  datatype ImageField = ImageArray(url: Option<string>) | ImageId(id: int) | ImageText(text: string) | ImageNone

  /** `(string) ($url ?: '')`: a falsy or missing attachment URL reads as "". */
  function AttachmentUrlOrEmpty(u: Option<string>): string {
    if u.Some? && Truthy(u.value) then u.value else ""
  }

  /**
   * `cerrito_resolve_image_url`. `attachmentUrl` stands for
   * `wp_get_attachment_url` (None for false).
   */
  function ResolveImageUrl(field: ImageField, attachmentUrl: int -> Option<string>): (r: string)
    ensures field.ImageArray? ==> r == field.url.GetOr("")
    ensures field.ImageId? ==> r == AttachmentUrlOrEmpty(attachmentUrl(field.id))
    ensures field.ImageText? && IsNumeric(field.text) ==> r == AttachmentUrlOrEmpty(attachmentUrl(IntVal(field.text)))
    ensures field.ImageText? && !IsNumeric(field.text) ==> r == field.text
    ensures field.ImageNone? ==> r == ""
    ensures !field.ImageArray? && !(field.ImageText? && !IsNumeric(field.text)) ==> r == "" || Truthy(r)
  {
    match field
    case ImageArray(url) => url.GetOr("")
    case ImageId(id) => AttachmentUrlOrEmpty(attachmentUrl(id))
    case ImageText(text) =>
      if IsNumeric(text) then AttachmentUrlOrEmpty(attachmentUrl(IntVal(text)))
      else if text != "" then text
      else ""
    case ImageNone => ""
  }

  /** An attachment ID (a PHP integer) resolves the same whether the field holds it as a number or as its decimal string. */
  lemma ResolveImageIdAsText(id: int, attachmentUrl: int -> Option<string>)
    requires LongMin <= id <= LongMax
    ensures ResolveImageUrl(ImageText(IntToString(id)), attachmentUrl) == ResolveImageUrl(ImageId(id), attachmentUrl)
  {
    IntToStringIsNumeric(id);
    IntValOfIntToString(id);
  }

  /** A numeric string in exponent notation names the attachment of its integer value: "1e3" is attachment 1000. */
  lemma ResolveImageExponentText(attachmentUrl: int -> Option<string>)
    ensures ResolveImageUrl(ImageText("1e3"), attachmentUrl) == AttachmentUrlOrEmpty(attachmentUrl(1000))
  {
    ExponentIsNumeric();
    IntValExponent();
  }

  lemma ExponentIsNumeric()
    ensures IsNumeric("1e3")
  {
    var t := "1e3";
    assert SkipDigits(t, 0) == 1 && SkipDigits(t, 2) == 3;
    assert NumberLiteral(t[0..3]);
  }

  // ── Date helpers ──────────────────────────────────────────────────────────

  /** The stored `Ymd` shape: eight decimal digits. */
  predicate IsCompactDate(s: string) {
    |s| == 8 && CtypeDigit(s)
  }

  /** The `Y-m-d` shape: four digits, '-', two digits, '-', two digits. */
  predicate IsIsoShape(s: string) {
    && |s| == 10 && s[4] == '-' && s[7] == '-'
    && forall i :: 0 <= i < 10 && i != 4 && i != 7 ==> IsDigit(s[i])
  }

  /**
   * `cerrito_normalise_date`: a falsy string gives ""; eight digits are read
   * positionally as `YYYYMMDD`; a string with '/' is parsed as `m/d/Y` and
   * kept as it is when that fails; anything else passes through.
   */
  function NormaliseDate(date: string, cal: Calendar): (r: string)
    ensures !Truthy(date) ==> r == ""
    ensures IsCompactDate(date) ==>
      && IsIsoShape(r)
      && r[0..4] == date[0..4] && r[5..7] == date[4..6] && r[8..10] == date[6..8]
    ensures Truthy(date) && !IsCompactDate(date) && '/' in date ==> r == cal.parseMdY(date).GetOr(date)
    ensures Truthy(date) && !IsCompactDate(date) && '/' !in date ==> r == date
  {
    if !Truthy(date) then ""
    else if IsCompactDate(date) then date[0..4] + "-" + date[4..6] + "-" + date[6..8]
    else if '/' in date then cal.parseMdY(date).GetOr(date)
    else date
  }

  /** A `Y-m-d` string is a fixed point of normalisation. */
  lemma NormaliseIsoFixedPoint(date: string, cal: Calendar)
    requires IsIsoShape(date)
    ensures NormaliseDate(date, cal) == date
  {
    assert date != "0" && date != "";
    assert '/' !in date by {
      forall i | 0 <= i < |date| ensures date[i] != '/' {
        assert i == 4 || i == 7 || IsDigit(date[i]);
      }
    }
  }

  /** Normalising twice is normalising once, on every input outside the `m/d/Y` branch. */
  lemma NormaliseIdempotent(date: string, cal: Calendar)
    requires '/' !in date || IsCompactDate(date) || !Truthy(date)
    ensures NormaliseDate(NormaliseDate(date, cal), cal) == NormaliseDate(date, cal)
  {
    if Truthy(date) && IsCompactDate(date) {
      NormaliseIsoFixedPoint(NormaliseDate(date, cal), cal);
    }
  }

  lemma NormaliseExamples(cal: Calendar)
    ensures NormaliseDate("20250219", cal) == "2025-02-19"
    ensures NormaliseDate("2025-02-19", cal) == "2025-02-19"
    ensures NormaliseDate("", cal) == ""
    ensures NormaliseDate("0", cal) == ""
  {
    assert IsCompactDate("20250219");
    NormaliseIsoFixedPoint("2025-02-19", cal);
  }

  // ── String helpers ────────────────────────────────────────────────────────

  predicate IsLineBreak(c: char) {
    c == '\n' || c == '\r'
  }

  /** `str_replace("\r\n", ' ', $s)`: pairs are replaced left to right, without overlap. */
  function ReplaceCrLf(s: string): string
    decreases |s|
  {
    if |s| >= 2 && s[0] == '\r' && s[1] == '\n' then " " + ReplaceCrLf(s[2..])
    else if s == [] then []
    else [s[0]] + ReplaceCrLf(s[1..])
  }

  /** `str_replace($c, ' ', $s)` for a single character `c`. */
  function ReplaceChar(s: string, c: char): string {
    seq(|s|, i requires 0 <= i < |s| => if s[i] == c then ' ' else s[i])
  }

  /**
   * `cerrito_flatten_address`: `str_replace` with the search list
   * ["\r\n", "\n", "\r"], which applies the three replacements one after the other.
   */
  function FlattenAddress(address: string): (r: string)
    ensures forall i :: 0 <= i < |r| ==> !IsLineBreak(r[i])
    ensures (forall i :: 0 <= i < |address| ==> !IsLineBreak(address[i])) ==> r == address
  {
    FlattenAddressIsCollapseBreaks(address);
    CollapseBreaksClean(address);
    CollapseFixed(address);
    ReplaceChar(ReplaceChar(ReplaceCrLf(address), '\n'), '\r')
  }

  /**
   * The intended reading of flattening, in one pass: each "\r\n" pair becomes one
   * space, each other CR or LF one space, and every other character stays.
   */
  function CollapseBreaks(s: string): (r: string)
    decreases |s|
  {
    if s == [] then []
    else if |s| >= 2 && s[0] == '\r' && s[1] == '\n' then " " + CollapseBreaks(s[2..])
    else (if IsLineBreak(s[0]) then " " else [s[0]]) + CollapseBreaks(s[1..])
  }

  lemma ReplaceCharConcat(a: string, b: string, c: char)
    ensures ReplaceChar(a + b, c) == ReplaceChar(a, c) + ReplaceChar(b, c)
  {
  }

  lemma ReplaceBothConcat(a: string, b: string)
    ensures ReplaceChar(ReplaceChar(a + b, '\n'), '\r') ==
      ReplaceChar(ReplaceChar(a, '\n'), '\r') + ReplaceChar(ReplaceChar(b, '\n'), '\r')
  {
    ReplaceCharConcat(a, b, '\n');
    ReplaceCharConcat(ReplaceChar(a, '\n'), ReplaceChar(b, '\n'), '\r');
  }

  /** The three sequential replacements are the single pass `CollapseBreaks`. */
  lemma {:induction false} FlattenAddressIsCollapseBreaks(s: string)
    ensures ReplaceChar(ReplaceChar(ReplaceCrLf(s), '\n'), '\r') == CollapseBreaks(s)
    decreases |s|
  {
    if s == [] {
    } else if |s| >= 2 && s[0] == '\r' && s[1] == '\n' {
      FlattenAddressIsCollapseBreaks(s[2..]);
      assert ReplaceCrLf(s) == " " + ReplaceCrLf(s[2..]);
      ReplaceBothConcat(" ", ReplaceCrLf(s[2..]));
      assert ReplaceChar(ReplaceChar(" ", '\n'), '\r') == " ";
      assert CollapseBreaks(s) == " " + CollapseBreaks(s[2..]);
    } else {
      FlattenAddressIsCollapseBreaks(s[1..]);
      var head := [s[0]];
      assert ReplaceCrLf(s) == head + ReplaceCrLf(s[1..]);
      ReplaceBothConcat(head, ReplaceCrLf(s[1..]));
      assert ReplaceChar(ReplaceChar(head, '\n'), '\r') == if IsLineBreak(s[0]) then " " else head;
      assert CollapseBreaks(s) == (if IsLineBreak(s[0]) then " " else head) + CollapseBreaks(s[1..]);
    }
  }

  /** The single pass leaves no CR or LF. */
  lemma {:induction false} CollapseBreaksClean(s: string)
    ensures forall i :: 0 <= i < |CollapseBreaks(s)| ==> !IsLineBreak(CollapseBreaks(s)[i])
    decreases |s|
  {
    if s == [] {
    } else if |s| >= 2 && s[0] == '\r' && s[1] == '\n' {
      CollapseBreaksClean(s[2..]);
    } else {
      CollapseBreaksClean(s[1..]);
    }
  }

  lemma FlattenAddressExample()
    ensures FlattenAddress("Elm\r\nKy") == "Elm Ky"
  {
    var s := "Elm\r\nKy";
    FlattenAddressIsCollapseBreaks(s);
    assert FlattenAddress(s) == CollapseBreaks(s);
    assert s == "Elm" + "\r\nKy";
    CollapseNoBreaks("Elm", "\r\nKy");
    var t := "\r\nKy";
    assert t[2..] == "Ky";
    assert CollapseBreaks(t) == " " + CollapseBreaks("Ky");
    assert "Ky" == "Ky" + [];
    CollapseNoBreaks("Ky", []);
  }

  /** Text without line breaks is its own single pass. */
  lemma CollapseFixed(s: string)
    ensures (forall i :: 0 <= i < |s| ==> !IsLineBreak(s[i])) ==> CollapseBreaks(s) == s
  {
    if forall i :: 0 <= i < |s| ==> !IsLineBreak(s[i]) {
      CollapseNoBreaks(s, []);
      assert s + [] == s;
    }
  }

  lemma CollapseCons(c: char, t: string)
    requires !IsLineBreak(c)
    ensures CollapseBreaks([c] + t) == [c] + CollapseBreaks(t)
  {
    assert ([c] + t)[1..] == t;
  }

  /** Text without line breaks passes through the single pass unchanged. */
  lemma {:induction false} CollapseNoBreaks(a: string, b: string)
    requires forall i :: 0 <= i < |a| ==> !IsLineBreak(a[i])
    ensures CollapseBreaks(a + b) == a + CollapseBreaks(b)
    decreases |a|
  {
    if a == [] {
      assert a + b == b;
    } else {
      var c, rest := a[0], a[1..];
      assert a + b == [c] + (rest + b);
      CollapseCons(c, rest + b);
      assert forall i :: 0 <= i < |rest| ==> !IsLineBreak(rest[i]) by {
        forall i | 0 <= i < |rest| ensures !IsLineBreak(rest[i]) {
          assert rest[i] == a[i + 1];
        }
      }
      CollapseNoBreaks(rest, b);
      assert [c] + (rest + CollapseBreaks(b)) == a + CollapseBreaks(b);
    }
  }

  // ── Theme helpers ─────────────────────────────────────────────────────────

  /** A theme term as the lookups return it. */
  datatype Theme = Theme(id: int, name: string)

  /** The `themed_dates` list of a game-type term ([] when it has none or it is not an array). */
  function EntriesOf(cat: Catalog, termId: int): seq<ThemedEntry> {
    if termId in cat.themedDates then cat.themedDates[termId] else []
  }

  /** An entry that has both keys, is on `date` exactly, and whose theme term resolves. */
  predicate IsDatedEntry(cat: Catalog, entry: ThemedEntry, date: string) {
    entry.date == Some(date) && entry.themeId.Some? && entry.themeId.value in cat.themeNames
  }

  function ThemeOf(cat: Catalog, entry: ThemedEntry): Theme
    requires entry.themeId.Some? && entry.themeId.value in cat.themeNames
  {
    Theme(entry.themeId.value, cat.themeNames[entry.themeId.value])
  }

  /** The theme of the first entry, in list order, that is on `date` and resolves. */
  function FirstDatedTheme(cat: Catalog, entries: seq<ThemedEntry>, date: string): (r: Option<Theme>)
    ensures r.None? <==> forall i :: 0 <= i < |entries| ==> !IsDatedEntry(cat, entries[i], date)
    ensures r.Some? ==> exists i ::
      && 0 <= i < |entries| && IsDatedEntry(cat, entries[i], date) && r.value == ThemeOf(cat, entries[i])
      && forall j :: 0 <= j < i ==> !IsDatedEntry(cat, entries[j], date)
    decreases |entries|
  {
    if entries == [] then None
    else if IsDatedEntry(cat, entries[0], date) then Some(ThemeOf(cat, entries[0]))
    else
      var r := FirstDatedTheme(cat, entries[1..], date);
      assert forall i :: 1 <= i < |entries| ==> entries[i] == entries[1..][i - 1];
      r
  }

  lemma FirstDatedThemeStep(cat: Catalog, entries: seq<ThemedEntry>, date: string, i: nat)
    requires i < |entries|
    ensures FirstDatedTheme(cat, entries[i..], date) ==
      if IsDatedEntry(cat, entries[i], date) then Some(ThemeOf(cat, entries[i]))
      else FirstDatedTheme(cat, entries[i + 1..], date)
  {
    assert entries[i..][1..] == entries[i + 1..];
  }

  /** The theme `cerrito_get_event_theme` finds for game type `termId` on `date`. */
  function DatedTheme(cat: Catalog, termId: int, date: string): Option<Theme> {
    FirstDatedTheme(cat, EntriesOf(cat, termId), date)
  }

  /**
   * `cerrito_get_event_theme`: scans the term's `themed_dates` in order,
   * skipping entries without both keys, on another date, or whose theme term
   * does not resolve, and returns the first theme found.
   */
  method GetEventTheme(cat: Catalog, termId: int, date: string) returns (r: Option<Theme>)
    ensures r == DatedTheme(cat, termId, date)
    ensures r.Some? ==> exists i ::
      && 0 <= i < |EntriesOf(cat, termId)| && IsDatedEntry(cat, EntriesOf(cat, termId)[i], date)
      && r.value.name == cat.themeNames[EntriesOf(cat, termId)[i].themeId.value]
      && forall j :: 0 <= j < i ==> !IsDatedEntry(cat, EntriesOf(cat, termId)[j], date)
    ensures termId !in cat.themedDates || cat.themedDates[termId] == [] ==> r == None
  {
    if termId !in cat.themedDates || cat.themedDates[termId] == [] {
      return None;
    }
    var entries := cat.themedDates[termId];
    var i := 0;
    while i < |entries|
      invariant 0 <= i <= |entries|
      invariant FirstDatedTheme(cat, entries, date) == FirstDatedTheme(cat, entries[i..], date)
    {
      var entry := entries[i];
      FirstDatedThemeStep(cat, entries, date, i);
      if entry.date.None? || entry.themeId.None? {
        i := i + 1;
        continue;
      }
      if entry.date.value != date {
        i := i + 1;
        continue;
      }
      if entry.themeId.value in cat.themeNames {
        return Some(Theme(entry.themeId.value, cat.themeNames[entry.themeId.value]));
      }
      i := i + 1;
    }
    return None;
  }

  /**
   * The fallback the schedule and themed-rounds shortcodes share: an event's
   * own `special_theme` stays unless it is empty and the date is set, and then
   * the theme of its first game type on that exact date, if there is one,
   * takes its place.
   */
  function ExactDateTheme(cat: Catalog, e: Event, date: string): (r: string)
    ensures Truthy(e.specialTheme) ==> r == e.specialTheme
    ensures !Truthy(e.specialTheme) && Truthy(date) && |e.gameTypes| > 0 && DatedTheme(cat, e.gameTypes[0].id, date).Some? ==>
      r == DatedTheme(cat, e.gameTypes[0].id, date).value.name
    ensures (!Truthy(date) || e.gameTypes == [] || DatedTheme(cat, e.gameTypes[0].id, date).None?) ==> r == e.specialTheme
  {
    if !Truthy(e.specialTheme) && Truthy(date) && |e.gameTypes| > 0 then
      match DatedTheme(cat, e.gameTypes[0].id, date)
      case Some(t) => t.name
      case None => e.specialTheme
    else e.specialTheme
  }

  /** `$a < $start || $a > $end` is false: the string lies in the window. */
  predicate InWindow(s: string, w: Window) {
    !StrLess(s, w.start) && !StrLess(w.end, s)
  }

  /** The window test is the closed range `start <= s <= end` in string order. */
  lemma InWindowIsRange(s: string, w: Window)
    ensures InWindow(s, w) <==> StrLessEq(w.start, s) && StrLessEq(s, w.end)
  {
    if s != w.start {
      StrLessTotal(s, w.start);
    }
    if s != w.end {
      StrLessTotal(s, w.end);
    }
    if StrLess(w.start, s) {
      StrLessAsymmetric(w.start, s);
    }
    if StrLess(s, w.end) {
      StrLessAsymmetric(s, w.end);
    }
    StrLessIrreflexive(s);
  }

  /**
   * An entry `cerrito_get_next_themed_date_for_day` accepts: both keys, a date
   * inside the window that parses and falls on `dayName`, and a theme that
   * resolves.
   */
  predicate IsDayEntry(cat: Catalog, cal: Calendar, entry: ThemedEntry, dayName: string, w: Window) {
    && entry.date.Some? && entry.themeId.Some?
    && InWindow(entry.date.value, w)
    && cal.parseYmd(entry.date.value).Some?
    && cal.parseYmd(entry.date.value).value.weekday == dayName
    && entry.themeId.value in cat.themeNames
  }

  /** "Theme name (M j)" for an accepted entry. */
  function DayLabel(cat: Catalog, cal: Calendar, entry: ThemedEntry): string
    requires entry.date.Some? && entry.themeId.Some? && entry.themeId.value in cat.themeNames
    requires cal.parseYmd(entry.date.value).Some?
  {
    cat.themeNames[entry.themeId.value] + " (" + cal.parseYmd(entry.date.value).value.monthDay + ")"
  }

  /** The label of the first accepted entry in list order, or "". */
  function FirstDayLabel(cat: Catalog, cal: Calendar, entries: seq<ThemedEntry>, dayName: string, w: Window): string
    decreases |entries|
  {
    if entries == [] then ""
    else if IsDayEntry(cat, cal, entries[0], dayName, w) then DayLabel(cat, cal, entries[0])
    else FirstDayLabel(cat, cal, entries[1..], dayName, w)
  }

  /**
   * The label is "" when no entry is accepted; otherwise it is the label of the
   * first accepted entry.
   */
  lemma {:induction false} FirstDayLabelFirst(cat: Catalog, cal: Calendar, entries: seq<ThemedEntry>, dayName: string, w: Window)
    ensures var r := FirstDayLabel(cat, cal, entries, dayName, w);
      && ((forall i :: 0 <= i < |entries| ==> !IsDayEntry(cat, cal, entries[i], dayName, w)) ==> r == "")
      && ((exists i :: 0 <= i < |entries| && IsDayEntry(cat, cal, entries[i], dayName, w)) ==> exists i ::
        && 0 <= i < |entries| && IsDayEntry(cat, cal, entries[i], dayName, w)
        && r == DayLabel(cat, cal, entries[i])
        && forall j :: 0 <= j < i ==> !IsDayEntry(cat, cal, entries[j], dayName, w))
    decreases |entries|
  {
    if entries != [] && !IsDayEntry(cat, cal, entries[0], dayName, w) {
      FirstDayLabelFirst(cat, cal, entries[1..], dayName, w);
      assert forall i :: 1 <= i < |entries| ==> entries[i] == entries[1..][i - 1];
    }
  }

  lemma FirstDayLabelStep(cat: Catalog, cal: Calendar, entries: seq<ThemedEntry>, dayName: string, w: Window, i: nat)
    requires i < |entries|
    ensures FirstDayLabel(cat, cal, entries[i..], dayName, w) ==
      if IsDayEntry(cat, cal, entries[i], dayName, w) then DayLabel(cat, cal, entries[i])
      else FirstDayLabel(cat, cal, entries[i + 1..], dayName, w)
  {
    assert entries[i..][1..] == entries[i + 1..];
  }

  /** What `cerrito_get_next_themed_date_for_day` returns for game type `termId`. */
  function NextThemedLabel(cat: Catalog, cal: Calendar, termId: int, dayName: string, w: Window): string {
    FirstDayLabel(cat, cal, EntriesOf(cat, termId), dayName, w)
  }

  /** A label is only found for an entry of the game type that falls on the day. */
  lemma NextThemedLabelFound(cat: Catalog, cal: Calendar, termId: int, dayName: string, w: Window)
    ensures NextThemedLabel(cat, cal, termId, dayName, w) != "" ==>
      exists i :: 0 <= i < |EntriesOf(cat, termId)| && IsDayEntry(cat, cal, EntriesOf(cat, termId)[i], dayName, w)
  {
    FirstDayLabelFirst(cat, cal, EntriesOf(cat, termId), dayName, w);
  }

  /**
   * `cerrito_get_next_themed_date_for_day`, with today and today plus the
   * look-ahead passed in as the window.
   */
  method NextThemedDateForDay(cat: Catalog, cal: Calendar, termId: int, dayName: string, w: Window) returns (r: string)
    ensures r == NextThemedLabel(cat, cal, termId, dayName, w)
    ensures r != "" ==> exists i :: 0 <= i < |EntriesOf(cat, termId)| && IsDayEntry(cat, cal, EntriesOf(cat, termId)[i], dayName, w)
  {
    NextThemedLabelFound(cat, cal, termId, dayName, w);
    if termId !in cat.themedDates || cat.themedDates[termId] == [] {
      return "";
    }
    var entries := cat.themedDates[termId];
    var i := 0;
    while i < |entries|
      invariant 0 <= i <= |entries|
      invariant FirstDayLabel(cat, cal, entries, dayName, w) == FirstDayLabel(cat, cal, entries[i..], dayName, w)
    {
      var entry := entries[i];
      FirstDayLabelStep(cat, cal, entries, dayName, w, i);
      if entry.date.None? || entry.themeId.None? {
        i := i + 1;
        continue;
      }
      if StrLess(entry.date.value, w.start) || StrLess(w.end, entry.date.value) {
        i := i + 1;
        continue;
      }
      var d := cal.parseYmd(entry.date.value);
      if d.Some? && d.value.weekday == dayName {
        if entry.themeId.value in cat.themeNames {
          return cat.themeNames[entry.themeId.value] + " (" + d.value.monthDay + ")";
        }
      }
      i := i + 1;
    }
    return "";
  }

  // ── Query helpers ─────────────────────────────────────────────────────────

  /** Some game-type term of the event has slug `gameType`, or its name equals it ignoring case. */
  predicate MatchesGameType(e: Event, gameType: string) {
    exists i :: 0 <= i < |e.gameTypes| &&
      (e.gameTypes[i].slug == gameType || StrToLower(e.gameTypes[i].name) == StrToLower(gameType))
  }

  /** `cerrito_filter_by_game_type`. */
  function FilterByGameType(events: seq<Event>, gameType: string): (r: seq<Event>)
    ensures forall e :: e in r <==> e in events && MatchesGameType(e, gameType)
    ensures IsSubsequence(r, events)
  {
    FilterIsSubsequence(events, (e: Event) => MatchesGameType(e, gameType));
    Filter(events, (e: Event) => MatchesGameType(e, gameType))
  }

  /** The event's location resolves and has ID `locationId`. */
  predicate AtLocation(e: Event, locationId: int) {
    EventLocation(e).Some? && EventLocation(e).value.id == locationId
  }

  /** `cerrito_filter_by_location`. */
  function FilterByLocation(events: seq<Event>, locationId: int): (r: seq<Event>)
    ensures forall e :: e in r <==> e in events && AtLocation(e, locationId)
    ensures IsSubsequence(r, events)
  {
    FilterIsSubsequence(events, (e: Event) => AtLocation(e, locationId));
    Filter(events, (e: Event) => AtLocation(e, locationId))
  }

  /**
   * The shortcode attribute filters as the schedule, recurring and master
   * shortcodes apply them to the posts they fetched: by location when the
   * resolved location ID is non-zero, then by game type when that attribute is
   * truthy. `locationId` is the result of `cerrito_resolve_location_id` (0 when
   * no location was given or it did not resolve).
   */
  function ApplyFilters(posts: seq<Event>, locationId: int, gameType: string): (r: seq<Event>)
    ensures forall e :: e in r <==>
      && e in posts
      && (locationId != 0 ==> AtLocation(e, locationId))
      && (Truthy(gameType) ==> MatchesGameType(e, gameType))
    ensures locationId == 0 && !Truthy(gameType) ==> r == posts
    ensures IsSubsequence(r, posts)
  {
    var byLocation := if locationId != 0 then FilterByLocation(posts, locationId) else posts;
    IsSubsequenceRefl(posts);
    var r := if Truthy(gameType) then FilterByGameType(byLocation, gameType) else byLocation;
    IsSubsequenceRefl(r);
    IsSubsequenceTrans(r, byLocation, posts);
    r
  }
}

# Cerrito Schedule — a verified model of the scheduling core

Cerrito Schedule is a WordPress plugin. It shows a bar-games company's trivia and bingo events through shortcodes:

- a dated schedule;
- the weekly recurring schedule with a "coming soon" list;
- a master schedule per weekday;
- today's events;
- compact themed-round cards;
- a list of upcoming themes with their venues.

It also adds an admin list screen for the `event` post type and a self-updater that reads GitHub releases.

This project models the logic behind those screens in Dafny:

- the date and string helpers;
- the two theme lookups over a game type's `themed_dates` meta;
- the grouping pass of every shortcode;
- the themed-round merge;
- the themed-list build, merge and sort;
- the updater's memo/cache/fetch state machine and its filters;
- the admin column, sorting and filter logic.

WordPress and ACF calls become plain input data (`Entities`):

- event posts with their fields and terms;
- each game type's `themed_dates` rows;
- the names of the theme terms;
- a `Calendar` standing for `DateTime::createFromFormat` with the `Y-m-d` and `m/d/Y` formats;
- a `Window` holding today and the end date as `Y-m-d` strings.

PHP's insertion-ordered arrays are modelled as a key-order sequence beside a map. This lets "first inserted wins" and "rendered in insertion order" be stated directly (`Grouping`, `Admin.StrArray`). PHP details are written out in `Php`:

- truthiness: `""` and `"0"` are falsy;
- `strtolower`/`strtoupper` on ASCII;
- byte-wise `strcmp` ordering;
- `ctype_digit`, `is_numeric` and `ltrim`;
- `intval` and `(int)` on a string, as PHP 8 reads it: leading whitespace is skipped, then the longest numeric prefix (sign, digits, fraction, exponent) is taken. The value is truncated toward zero and capped at `PHP_INT_MIN`/`PHP_INT_MAX`. A prefix that overflows a double gives 0, and no prefix gives 0.

Each shortcode is a method that runs its loops over this data. The method is proved equal to a specification function, and lemmas state what that function guarantees. The update checker is a class: its memo, cache and plugin-data fields are updated in place.

Where the code and the design text disagree, the model follows the code:

- `normalize_version` strips every leading `v`/`V` (`ltrim`), not a single one (`Updater.NormalizeVersion`).
- The admin date column tests `is_numeric`, not `ctype_digit`, so it splits `"+2025021"` although the helper `cerrito_normalise_date` would not (`Admin.ColumnDateDiffers`).

## Model

| member | source | states |
|---|---|---|
| Helpers.ResolveLocation | includes/helpers.php:15-20 | A post value is returned as is. From a list, the first element is returned when it is a post. Anything else, including an empty list, gives none. |
| Helpers.EventClass | includes/helpers.php:94-99 | The result is only "trivia", "bingo" or "". It is "trivia" iff the lower-cased name contains "trivia", so a name with both words is trivia. It is "bingo" iff the name contains "bingo" but not "trivia". |
| Helpers.EventClassIgnoresCase | includes/helpers.php:94-99 | Upper-casing the type name does not change its class. |
| Helpers.EventTypeString | includes/helpers.php:104-108 | No game type gives "". One game type gives its name. |
| Helpers.ResolveImageUrl | includes/helpers.php:175-180 | An array field gives its url or "". An ID gives the attachment URL or "". A numeric string is read by `(int)` as an attachment ID. Any other string is returned unchanged. Nothing gives "". |
| Helpers.ResolveImageIdAsText | includes/helpers.php:175-180 | An attachment ID written as decimal text resolves like the ID itself. |
| Helpers.NormaliseDate | includes/helpers.php:188-203 | A falsy date gives "". Eight digits YYYYMMDD give YYYY-MM-DD: length 10, dashes at 4 and 7, digits in order. A date containing "/" is reparsed as m/d/Y, and kept when that fails. Every other input is returned unchanged. |
| Helpers.NormaliseIsoFixedPoint | includes/helpers.php:197-202 | Every Y-m-d shaped string is a fixed point of normalisation. |
| Helpers.NormaliseIdempotent | includes/helpers.php:188-203 | Normalising twice equals normalising once, on the empty, Ymd and passthrough branches. |
| Helpers.FlattenAddress | includes/helpers.php:210-212 | The result holds no CR or LF. Text without line breaks is unchanged. |
| Helpers.FlattenAddressIsCollapseBreaks | includes/helpers.php:210-212 | The three `str_replace` passes equal a single left-to-right pass: each CR LF becomes one space, and each other lone CR or LF becomes one space. |
| Helpers.FirstDatedTheme | includes/helpers.php:126-138 | There is no result iff no row has both keys, the exact date and a resolvable theme. Otherwise the result is the theme of the first such row; earlier rows fail one of the tests. |
| Helpers.GetEventTheme | includes/helpers.php:120-139 | The search loop returns the first matching row's theme. It returns false when the game type's meta is empty or absent. |
| Helpers.ExactDateTheme | includes/shortcode-schedule.php:67-76 | An explicit special theme wins. Otherwise, when the date is truthy, the first game type's theme on that exact date is used when there is one. In every other case the special theme is kept. |
| Helpers.InWindowIsRange | includes/helpers.php:156 | The window test is `start <= date <= end` under byte-wise string order. |
| Helpers.FirstDayLabelFirst | includes/helpers.php:152-167 | The result is "" when no row is in the window, on the given weekday, with a resolvable theme. Otherwise it is `name (M j)` of the first such row. |
| Helpers.NextThemedDateForDay | includes/helpers.php:147-168 | The search loop returns that first label. A non-empty result implies a qualifying row exists. |
| Helpers.FilterByGameType | includes/helpers.php:219-230 | The kept events are exactly those with a term whose slug equals the filter or whose name equals it case-insensitively. They are kept in input order. |
| Helpers.FilterByLocation | includes/helpers.php:235-240 | The kept events are exactly those whose resolved location has the given ID. They are kept in input order. |
| Helpers.ApplyFilters | includes/shortcode-schedule.php:50-57 | An event survives iff it passes every filter that was given. Without filters the list is unchanged. The survivors keep their input order. |
| Helpers.ResolveImageExponentText | includes/helpers.php:177 | The numeric string "1e3" names attachment 1000. |
| Grouping.GroupKey | includes/shortcode-schedule.php:78 | The key is the type string alone when the theme is falsy. Otherwise it is `type - theme`. |
| Grouping.GroupKeyCollision | includes/shortcode-schedule.php:78 | Two different type/theme pairs can produce the same key. |
| Grouping.PlaceAllDescribes | includes/shortcode-schedule.php:80-89 | After any run of appends, the bucket keys are in first-insertion order, and each group holds exactly its appends in order. |
| Grouping.GroupMeta | includes/shortcode-schedule.php:80-87 | A group's type, theme and class are those of the first append that created it. |
| Grouping.Insert | includes/shortcode-schedule.php:80-89 | One in-place append, `$by_day[$day][$key][...][] = $event`, equals the specification step `Place`. |
| Fanout.SpreadDays | includes/shortcode-recurring.php:57-81 | In the nested event/day loop, a day gets a bucket iff some event falls on it. |
| Fanout.ExpectedCount | includes/shortcode-recurring.php:57-81 | An event is appended to a slot once per occurrence of that day among its days, when its key matches. Otherwise it is never appended. |
| Fanout.SpreadFirst | includes/shortcode-recurring.php:57-81 | In the nested event/day loop, the first append under a day and key (the one that creates the group) is made by the first event of the input that reaches that day and key. |
| Schedule.GroupByDate | includes/shortcode-schedule.php:64-90 | The grouping loop equals the specification fold `ByDate`. |
| Schedule.ScheduleDays | includes/shortcode-schedule.php:64-92 | Date sections are the distinct normalised dates, in first-occurrence order. |
| Schedule.ScheduleGroupContents | includes/shortcode-schedule.php:78-89 | The group under (date, key) holds exactly the events with that date and key, in input order. |
| Schedule.ScheduleExactlyOnce | includes/shortcode-schedule.php:64-90 | Each event appears in its own group as many times as in the input, and in no other group. |
| Schedule.ScheduleGroupMeta | includes/shortcode-schedule.php:80-87 | A group's type, theme and class come from its first event. |
| Schedule.DateHeader | includes/shortcode-schedule.php:93-94 | An unparseable date gives the upper-cased raw date as the header. Otherwise the header is the formatted date. |
| Schedule.RenderSections | includes/shortcode-schedule.php:92-139 | The section loop renders one section per date, in bucket order. |
| Schedule.ViewShape | includes/shortcode-schedule.php:140-142 | The "No upcoming events" message shows iff there are no events. Otherwise there is one section per distinct normalised date, in first-occurrence order, and each section has at least one group. |
| Schedule.ScheduleShortcode | includes/shortcode-schedule.php:50-142 | The whole shortcode equals the view of the filtered posts. |
| Recurring.RecurringTheme | includes/shortcode-recurring.php:62-68 | An explicit special theme wins. Otherwise the theme is the next themed date for that day from the first game type. |
| Recurring.GroupByWhen | includes/shortcode-recurring.php:54-86 | The nested loop equals the specification buckets and the coming-soon list. |
| Recurring.RecurringPlacement | includes/shortcode-recurring.php:57-81 | An event is appended to day d's group once per `when` term d, under its key. An event without `when` terms is in no day bucket. |
| Recurring.ComingSoonExactlyOnce | includes/shortcode-recurring.php:83-85 | Coming-soon holds exactly the events without `when` terms, each once, in input order. |
| Recurring.RecurringDays | includes/shortcode-recurring.php:54-81 | A day bucket exists iff some event has that `when` term. |
| Recurring.RecurringGroupMeta | includes/shortcode-recurring.php:72-79 | A group's type, theme and class are fixed by its first event. |
| Recurring.ShownDays | includes/shortcode-recurring.php:89-90 | Rendered days are the non-empty buckets whose name is in Monday…Sunday, in that order. |
| Recurring.RenderDays | includes/shortcode-recurring.php:89-117 | The render loop equals the specification sections. |
| Recurring.ViewShape | includes/shortcode-recurring.php:129-131 | The "No recurring events" message shows iff the list is empty. Otherwise the sections are the shown days. |
| Recurring.RecurringShortcode | includes/shortcode-recurring.php:38-131 | The whole shortcode equals the view of the filtered posts. |
| Master.OneTimeDays | includes/shortcode-master.php:61-64 | A one-time event contributes at most one day: the weekday of its normalised date. It does so iff the date is truthy, inside [today, end] and parses. |
| Master.EventDays | includes/shortcode-master.php:55-65 | The per-event loop builds recurring events' `when` days, or the one-time day. |
| Master.MasterTheme | includes/shortcode-master.php:72-80 | The auto-theme lookup runs only for recurring events without a special theme. Otherwise the special theme is kept. |
| Master.FileMaster | includes/shortcode-master.php:67-105 | The inner loop over one event's days places every (event, day) pair in the recurring arrays when the event is recurring, or in the one-time arrays otherwise. The other arrays are unchanged. |
| Master.GroupMaster | includes/shortcode-master.php:52-106 | The bucketing loop equals the specification recurring and one-time buckets. |
| Master.RecurringPlacement | includes/shortcode-master.php:84-93 | A recurring (event, day) pair is placed once, in that day's recurring group `events`, and never in a dated sub-list. |
| Master.OneTimePlacement | includes/shortcode-master.php:94-104 | A one-time pair is placed once, under `dates[eventDate]` of its one-time group, and nowhere else. |
| Master.RecurringDays | includes/shortcode-master.php:55-60 | A recurring bucket exists for d iff some recurring event has `when` term d. |
| Master.OneTimeDaysShown | includes/shortcode-master.php:61-64 | A one-time bucket exists for d iff some one-time event has an in-window parseable date on weekday d. |
| Master.RecurringGroupMeta | includes/shortcode-master.php:84-93 | A recurring group's type, theme and class come from its first event. |
| Master.OneTimeGroupMeta | includes/shortcode-master.php:94-104 | A one-time group's type, theme and class come from the first event of the input filed under that day and key. That event heads the sub-list of its own date. |
| Master.OneTimeDateContents | includes/shortcode-master.php:94-104 | The sub-list of date `dt` holds exactly the one-time events filed under that day and key with date `dt`, in input order. |
| Master.ShowDate | includes/shortcode-master.php:133-137 | A card shows `M j` of a parseable date, else the raw date. |
| Master.RecurringCards | includes/shortcode-master.php:118-125 | One card per recurring group, in key order. None shows a date. |
| Master.DateCardsAscending | includes/shortcode-master.php:131-137 | A one-time group's date cards follow its date keys in ascending order, one per key. |
| Master.OneTimeCardsShowDates | includes/shortcode-master.php:133-137 | Every one-time card carries a date. |
| Master.RenderDay | includes/shortcode-master.php:115-141 | A rendered day carries the header `<DAY>S`, its recurring cards when it has recurring groups, and its one-time cards when it has one-time groups. |
| Master.RenderMaster | includes/shortcode-master.php:110-144 | The day loop equals the specification days. |
| Master.ViewDays | includes/shortcode-master.php:110-116 | Rendered days are a subsequence of Monday…Sunday. A canonical day is rendered iff some event contributes it: a `when` term of a recurring event, or the in-window weekday of a one-time event. Each rendered day is headed `<DAY>S`. |
| Master.ViewSections | includes/shortcode-master.php:116-141 | Each rendered day holds its recurring cards, then its one-time cards. |
| Master.MasterShortcode | includes/shortcode-master.php:41-144 | The whole shortcode equals the view of the filtered posts. |
| Ksort.SortKeys | includes/shortcode-master.php:131 | `ksort` on the date keys gives them in ascending order, each exactly once. |
| Ksort.SortedUnique | includes/shortcode-master.php:131 | Only one sequence of a key set is strictly ascending. |
| Today.IsIncluded | includes/shortcode-today.php:33-46 | A recurring event is included iff a `when` name equals today's weekday. A one-time event is included iff its normalised date equals today's Y-m-d. |
| Today.GroupToday | includes/shortcode-today.php:31-61 | The grouping loop equals the specification fold over the included events. |
| Today.TodayGroupContents | includes/shortcode-today.php:48-60 | A group holds exactly the included events with its type and explicit-theme key, in order. No auto theme is looked up. |
| Today.TodayExactlyOnce | includes/shortcode-today.php:48-60 | Each included event is in exactly its own group. |
| Today.TodayOrder | includes/shortcode-today.php:52-58 | Groups are emitted in first-insertion order. |
| Today.TodayGroupMeta | includes/shortcode-today.php:52-58 | A group's type, theme and class come from its first event. |
| Today.ViewShape | includes/shortcode-today.php:77-85 | The empty-day message shows iff no event is included. |
| Today.TodayShortcode | includes/shortcode-today.php:31-85 | The whole shortcode equals the view. |
| ThemedRounds.MergeThemed | includes/shortcode-themed-rounds.php:57-69 | The merge loop equals the specification merge. |
| ThemedRounds.MergeShape | includes/shortcode-themed-rounds.php:57-69 | The manual events come first, in order. The appended events are a subsequence of the range: exactly those not among the manual IDs and auto-themed on their truthy date. No manual ID is listed again. |
| ThemedRounds.Candidates | includes/shortcode-themed-rounds.php:71-73 | The game-type filter keeps exactly the matching merged events, in order. |
| ThemedRounds.RoundOf | includes/shortcode-themed-rounds.php:79-106 | A card exists iff the theme resolves, with the special theme winning, and the date is truthy and parses. The card shows the upper-cased three-letter weekday, the `n/j` date and the class of the first game type. |
| ThemedRounds.RoundsFollowEvents | includes/shortcode-themed-rounds.php:77-125 | There is one card per non-skipped event, in event order. |
| ThemedRounds.RoundsAreCards | includes/shortcode-themed-rounds.php:77-125 | Each card is the card of its event. |
| ThemedRounds.RenderRounds | includes/shortcode-themed-rounds.php:77-125 | The render loop equals the specification cards. |
| ThemedRounds.ViewShape | includes/shortcode-themed-rounds.php:126-128 | The empty message shows iff every merged event is filtered out by game type. |
| ThemedRounds.ThemedRoundsShortcode | includes/shortcode-themed-rounds.php:57-128 | The whole shortcode equals the view. |
| UpcomingThemes.EntryHitsMembers | includes/shortcode-upcoming-themes.php:41-46 | A row is kept iff it has both keys, is within [today, end] and its theme resolves. |
| UpcomingThemes.BuildThemedList | includes/shortcode-upcoming-themes.php:35-58 | The build loop equals the specification fold. |
| UpcomingThemes.SameItemIffSameDateAndTheme | includes/shortcode-upcoming-themes.php:48 | Two rows share a list key iff they share date and theme ID. |
| UpcomingThemes.ThemedItemsContents | includes/shortcode-upcoming-themes.php:48-56 | There is one item per distinct (date, theme ID), in first-occurrence order. Each item lists the game types of all its rows, in encounter order, and every kept row is covered. |
| UpcomingThemes.SortByDateStable | includes/shortcode-upcoming-themes.php:61 | The stable sort keeps the relative order of items on the same date. |
| UpcomingThemes.SortedThemesShape | includes/shortcode-upcoming-themes.php:61 | The rendered list is sorted ascending by date and is a permutation of the built list. Items with equal dates keep their order. |
| UpcomingThemes.SortedByDateUnique | includes/shortcode-upcoming-themes.php:61 | Any two date-sorted lists with the same per-date order are equal. |
| UpcomingThemes.LocationsOnShape | includes/shortcode-upcoming-themes.php:142-172 | Each location of a matching event appears once, in order of the first matching event there. Its name, URL and time come from that event. Events without a location are skipped. |
| UpcomingThemes.LocationsForThemedDate | includes/shortcode-upcoming-themes.php:125-173 | The lookup loops equal the specification table. |
| UpcomingThemes.LocationsAsWritten | includes/shortcode-upcoming-themes.php:66-74 | The call as written fails iff the item's date does not parse. |
| UpcomingThemes.UnparseableDateIsFatal | includes/shortcode-upcoming-themes.php:41-74 | A kept row dated "2026-10-1x" reaches the failing call. |
| UpcomingThemes.Locations | includes/shortcode-upcoming-themes.php:66-74 | An unparseable date gives no locations. Otherwise the result agrees with the call as written. |
| UpcomingThemes.CardOf | includes/shortcode-upcoming-themes.php:66-75 | An unparseable date gives a blank weekday and the raw date. A parseable one gives the upper-cased weekday and `n/j`. The card also carries the upper-cased theme name and its emoji. |
| UpcomingThemes.ViewShape | includes/shortcode-upcoming-themes.php:112-114 | The fallback message shows iff no row is kept. Otherwise there is one card per distinct (date, theme). |
| UpcomingThemes.UpcomingThemesShortcode | includes/shortcode-upcoming-themes.php:35-114 | The whole shortcode equals the view. The view looks up locations through the corrected `Locations`: the code as written raises a TypeError on an in-window date that does not parse (see Findings). |
| Updater.Fetched | includes/class-updater.php:86-96 | A fetch yields a release iff the status is 200 and the decoded body has a truthy `tag_name`. |
| Updater.Resolve | includes/class-updater.php:64-100 | The memo wins. Otherwise the cache wins and also sets the memo. Otherwise a successful fetch sets both. A failed lookup changes neither. |
| Updater.ResolveStable | includes/class-updater.php:64-100 | Once a release is resolved, the next lookup returns it unchanged, whatever the network does. |
| Updater.ResolveWithoutNetwork | includes/class-updater.php:64-75 | With a memo or cache set, the fetch result is irrelevant. |
| Updater.CerritoUpdater.GetGithubRelease | includes/class-updater.php:64-100 | The method's memo, cache and result follow `Resolve`. Plugin data is untouched. |
| Updater.NormalizeVersion | includes/class-updater.php:125-127 | The result is a suffix of the tag. Every removed character is v or V, and the result does not start with one. |
| Updater.NormalizeVersionIdempotent | includes/class-updater.php:125-127 | Normalising twice equals normalising once. |
| Updater.NormalizeVersionExamples | includes/class-updater.php:125-127 | "vV6.3" gives "6.3", and "6.3" is unchanged. |
| Updater.FirstZipUrlAt | includes/class-updater.php:108-117 | The URL is that of the first asset whose lower-cased extension is "zip". |
| Updater.FirstZipUrlNone | includes/class-updater.php:108-117 | Without a zip asset, the tag-archive URL is used. |
| Updater.CerritoUpdater.GetDownloadUrl | includes/class-updater.php:108-117 | The asset loop equals `DownloadUrl`. |
| Updater.ExtensionOf | includes/class-updater.php:111 | The extension of `stem.ext` is `ext`. |
| Updater.JoinSplit | includes/class-updater.php:149 | Splitting a version at dots and joining back gives it unchanged. |
| Updater.VersionGreaterStrictOrder | includes/class-updater.php:149 | On dotted numeric versions, "greater" is irreflexive, asymmetric, transitive and total on distinct part lists. |
| Updater.VersionGreaterExamples | includes/class-updater.php:149 | 6.3 > 4.5, 4.5 is not greater than itself, and 6.10 > 6.9. |
| Updater.WithUpdate | includes/class-updater.php:145-162 | Only `response[slug]` can change. It changes only when a release exists and its normalised tag is strictly greater than the installed version. |
| Updater.WithUpdateIdempotent | includes/class-updater.php:145-162 | Applying the update offer twice equals applying it once. |
| Updater.CerritoUpdater.CheckForUpdate | includes/class-updater.php:135-163 | An empty `checked` leaves everything unchanged. Otherwise the release is resolved, and the transient becomes `WithUpdate`. |
| Updater.DetailsFor | includes/class-updater.php:189-203 | The details carry the normalised version, the download URL, the changelog or its fallback, the formatted date, and the requires/tested versions. |
| Updater.CerritoUpdater.PluginInfo | includes/class-updater.php:173-204 | The result passes through unless the action is `plugin_information`, the slug is the folder, and a release resolves. |
| Updater.CerritoUpdater.AfterInstall | includes/class-updater.php:214-228 | The destination is moved iff `hook_extra['plugin']` is this plugin's slug. Every other key is unchanged. |
| Updater.CerritoUpdater.ListsPlugin | includes/class-updater.php:242-246 | The loop finds the slug iff the plugins list contains it. |
| Updater.CerritoUpdater.PurgeCache | includes/class-updater.php:236-249 | The cache is cleared iff the action is update, the type is plugin and the list contains the slug. Nothing else changes. |
| Updater.CerritoUpdater.constructor | includes/class-updater.php:38-47 | The slug and folder are derived from the plugin file. Memo and plugin data start empty. |
| Updater.Dirname | includes/class-updater.php:41 | The folder is the part before the last "/", or "." when there is none. |
| Admin.WithEventColumns | cerrito-events-admin.php:17-29 | "date" is gone. The five event columns map to Date, Time, Location, Recurring and Type. Every other column is unchanged, and the key order is the old one without "date", then the new keys. |
| Admin.EventColumns | cerrito-events-admin.php:17-29 | The unset and five assignments equal `WithEventColumns`. |
| Admin.PutAllKeys | cerrito-events-admin.php:22-26 | Assigning distinct keys appends only the keys not already present, in order. |
| Admin.PutAllValues | cerrito-events-admin.php:22-26 | Each assigned key holds its value, and all other keys are untouched. |
| Admin.SortableColumnsShape | cerrito-events-admin.php:129-136 | Four distinct sortable keys, all among the added columns. `game_type` is not sortable. |
| Admin.EventSortableColumns | cerrito-events-admin.php:129-136 | Exactly the four keys are added, each mapped to itself. Other keys are unchanged. |
| Admin.OrderbyVars | cerrito-events-admin.php:143-169 | Outside the admin or the main query, nothing changes. For one of the four columns, `meta_key` becomes that column and `orderby` becomes `meta_value`. Any other orderby is untouched. |
| Admin.OrderbyIdempotent | cerrito-events-admin.php:143-169 | Rewriting twice equals rewriting once. |
| Admin.EventOrderby | cerrito-events-admin.php:143-169 | The four `if`s on the query equal `OrderbyVars`. |
| Admin.LocationClause | cerrito-events-admin.php:225-235 | A LIKE clause on `event_location`. Its value is the canonical decimal of `intval` of the filter, in double quotes, and reads back as that integer. |
| Php.IntValOfIntToString | cerrito-events-admin.php:226 | `intval` reads back every 64-bit integer from its decimal text. |
| Php.IntValExponent | includes/helpers.php:177 | `intval("1e3")` is 1000: an exponent is honoured. |
| Php.IntValFraction | cerrito-events-admin.php:226 | `intval(" -7.9px")` is -7: whitespace is skipped, the fraction is truncated and trailing text is ignored. |
| Php.IntValCapped | cerrito-events-admin.php:226 | `intval("1e19")` is `PHP_INT_MAX`. |
| Php.IntValNoNumber | cerrito-events-admin.php:226 | A string with no numeric prefix gives 0. |
| Admin.FilterMetaQuery | cerrito-events-admin.php:225-255 | "yes" gives `is_recurring = 1` and "no" gives NOT EXISTS. Either replaces a location clause (last write wins). Any other value leaves the location clause, if any. |
| Admin.OtherRecurringValueIgnored | cerrito-events-admin.php:238-255 | A recurring value other than yes/no acts as no recurring filter. |
| Admin.EventFilterQuery | cerrito-events-admin.php:219-257 | On the event list's main query, `meta_query` is set to the selected clauses. Otherwise the query is unchanged. |
| Admin.ColumnDate | cerrito-events-admin.php:41-56 | An 8-character numeric date is split as YYYY-MM-DD. A "/" date is reparsed as m/d/Y. Any other date is kept. |
| Admin.DateColumnText | cerrito-events-admin.php:38-66 | A falsy date prints "—". Otherwise the text is `M j, Y` of the normalised date, or that date itself. |
| Admin.ColumnDateAgrees | cerrito-events-admin.php:41-56 | On every truthy date except 8-character numeric non-digit strings, the column agrees with `cerrito_normalise_date`. |
| Admin.ColumnDateDiffers | cerrito-events-admin.php:43-48 | "+2025021" is split by the column but kept by the helper. |

## Left out

- HTML output: `ob_start`, `echo`, the `cerrito_render_*` functions, `esc_*` and `wp_kses_post`. The model stops at the grouped and selected data each screen prints.
- Calls into WordPress and ACF become input data rather than being modelled:
  - `get_posts` with its meta/tax queries (`BETWEEN`, `LIKE`) run in the database, so the posts arrive already queried;
  - `get_field`, `get_the_terms`, `get_term`, `get_term_meta`, `get_permalink` and `wp_get_attachment_url`.
- `cerrito_resolve_location_id` is not part of this model. Events carry the resolved relationship value instead.
- These lookups only feed presentation and are not part of this model: the location logo, address, game emoji, logo and description (`includes/helpers.php:34-92`).
- `DateTime::createFromFormat` leniency and formatting are the abstract `Calendar`. `strtotime('+N days')`, `date` and `wp_date` become the `Window` and today parameters. Timezones are not modelled.
- `version_compare` is modelled only for dotted numeric versions, by numeric parts. Other version strings go to a comparison passed in as a parameter.
- Updater I/O is not modelled. The HTTP request and JSON decoding are a `FetchResult` input. The transient's 6-hour expiry is not modelled: the cache slot holds a release until purged. `$wp_filesystem->move` and `activate_plugin` are left out.
- Hook registration (`add_filter`, `add_action`, `add_shortcode`), `cerrito_enqueue_styles` and the bootstrap in `cerrito-schedule.php` are not modelled.
- In `cerrito_event_column_content`, only the date column is modelled. The time, location, recurring and type columns print field values with no logic beyond formatting.
- The `cerrito_event_filters` dropdowns are not modelled. They are HTML built from a location query.
- PHP turns numeric-string array keys into integers. `Admin.StrArray` keeps every key a string. None of the column keys involved is numeric.
- Php.IntVal: a prefix with a fraction, an exponent or too many digits goes through a double in PHP. The model uses its exact value, so it can differ from PHP where the double rounds (beyond 2^53).
- Helpers.ResolveImageIdAsText requires the ID to be a PHP integer (64-bit), as `(int)` always gives one.
- Helpers.EventTypeString: the contract states the zero- and one-type cases only. The `", "`-joined list of several names is given by its definition.
- Updater.CerritoUpdater.CheckForUpdate: the `plugin_data` headers are given at construction. `get_plugin_data`'s file read is not modelled.

## Findings

| source | as written | input that shows it | evidently intended | confidence | as-written member | corrected member |
|---|---|---|---|---|---|---|
| includes/shortcode-upcoming-themes.php:66-74,125 | The build loop keeps any row whose date string lies between today and the end date. The render loop then passes `DateTime::createFromFormat('Y-m-d', $date)` to `cerrito_get_locations_for_themed_date( array, DateTime )` even when that parse returned false, which raises a TypeError. | A themed_dates row dated "2026-10-1x" with a resolvable theme, in a window from "2026-10-14" to "2027-01-12" | Show the item without locations, as the day label and date number beside it already do for an unparseable date | not executed | UpcomingThemes.UnparseableDateIsFatal | UpcomingThemes.Locations |

# Tony's SportsPress Enhancements — a verified model of the plugin's core logic

This project models, in Dafny, the four pieces of logic that the WordPress plugin
"Tony's SportsPress Enhancements" runs inside its hook handlers. It proves properties
about each of them.

- **Head-to-head image** (`includes/featured-image-generator.php`).
  - Each team's primary colour is validated, falling back to `#FFFFFF`, and decoded into
    RGB channels.
  - The preview is a 1200×628 canvas split along a slanted edge. Each team logo is shrunk
    to fit a 480 × 502.4 box, keeping its aspect ratio, and centred at (300, 314) or
    (900, 314).
  - The image is cached under the key
    `team_image_<id1>_<modified1>-<id2>_<modified2>`. The cache is a transient store (key
    to file path) and a set of files. Module `FeaturedImage`, class `ImageCache`.
  - The guard on the requested post uses `&&`, so it rejects only a missing post. The
    model keeps this: lemma `PostTypeIgnored` proves that the post's type is never read.
- **Admin week filter** (`includes/sp-event-admin-week-filter.php`).
  - A strict `YYYY-Www` parser.
  - The Monday-to-Sunday range of an ISO week (section 4.1.4 of ISO 8601:2004), computed
    on proleptic-Gregorian day numbers.
  - Appending one inclusive date clause to the events list query. Module `WeekFilter`,
    class `EventListQuery`; calendar arithmetic in module `Calendar`.
- **Quick Edit officials** (`includes/sp-event-quick-edit-officials.php`).
  - The save handler's guard chain.
  - The loop that cleans the posted duty → officials array into distinct positive keys,
    each with a non-empty, duplicate-free list of positive ids.
  - The hidden per-row data, and the Quick Edit field that is printed once per request.
    Module `QuickEditOfficials`, classes `EventOfficialsMeta` and `QuickEditField`.
- **Open Graph tags** (`includes/open-graph-tags.php`).
  - The event title built from nested team values.
  - The short and long date texts.
  - The postponed / cancelled / TBD prefixes and the future-event suffix.
  - The result title with its first-match forfeit mark.
  - The five `<meta>` tags. Module `OpenGraph`.

Shared modules:

- `Text`: decimal and hexadecimal digits, PHP's integer-to-string conversion, zero-padded
  numbers, `implode`, `strtoupper`, `empty()` on strings.
- `Seqs`: `array_unique` and `array_reverse` on ordered arrays.
- `Wrappers`: `Option`.

WordPress and SportsPress lookups are passed in as plain values. These include posts,
post meta, options, terms, short names, outcome pages, the nonce verdict, the capability
check and the upload path.

PHP's integer form of request values is taken as given. `(int)` and `absint` are applied
to integers, not parsed from strings.

Three behaviours of the code are modelled as written:

- The colour check `/^#[a-fA-F0-9]{6}$/` has no `D` modifier, so PCRE also accepts a
  valid colour followed by one newline. The image handler (`ImageRequest`,
  `ImageCache.HandleImageRequest`) uses this check as written (`TeamColorAsWritten`).
  `ImageRequestUnder(AnchoredAtEnd, …)` is the same handler with the intended check
  (`TeamColor`); lemma `ReadingsAgree` proves the two agree unless a primary colour ends
  in such a newline. See "## Findings".
- In the Open Graph result loop, `$the_outcome` is not reset between rows. A row without
  outcome slugs reports the outcome of the row before it (lemma `StaleOutcome`).
- With a single data row, the second team's fields print as empty text.

## Model

| member | source | states |
|---|---|---|
| FeaturedImage.TeamColorAsWritten | includes/featured-image-generator.php:151-157 | the colour the handler uses, as written: a primary colour that matches the pattern as PCRE reads it (which also admits `#RRGGBB` followed by one newline) is kept; a missing, empty or non-matching one becomes `#FFFFFF` |
| FeaturedImage.ColorCheckAdmitsTrailingNewline | includes/featured-image-generator.php:156-157 | the check as written keeps `"#ABCDEF\n"`, which is not `#` plus six hex digits, and the generator paints it as (171, 205, 239) |
| FeaturedImage.TeamColor | includes/featured-image-generator.php:151-157 | the colour is always `#` plus exactly six hex digits; a valid primary colour is kept, a missing, empty (`""`/`"0"`) or malformed one becomes `#FFFFFF` |
| FeaturedImage.ColorChecksAgree | includes/featured-image-generator.php:156-157 | the check as written and the intended check give different colours exactly for a valid colour followed by one newline |
| FeaturedImage.DecodeColor | includes/featured-image-generator.php:17-18 | each channel read from a colour that passes the check is in 0..255; a trailing newline is not read |
| FeaturedImage.EncodeColor | includes/featured-image-generator.php:17-18 | the `#RRGGBB` text of any valid RGB triple is a valid colour |
| FeaturedImage.DecodeEncode | includes/featured-image-generator.php:17-18 | decoding the text of a colour gives the three channels back, in order |
| FeaturedImage.EncodeDecode | includes/featured-image-generator.php:17-18 | re-encoding a decoded colour gives its text back up to letter case, so the channels are exactly the three hex pairs |
| FeaturedImage.CanvasConstants | includes/featured-image-generator.php:10-13 | the logo box is 480 × 502.4; the logo centres are x = 300 and x = 900, with y = 314 |
| FeaturedImage.FitLogo | includes/featured-image-generator.php:45-60 | a logo that fits keeps its size; every drawn size is positive, within the box, never larger than the source, and has the source aspect ratio; an oversized logo reaches the box in one dimension |
| FeaturedImage.ShrinkToWidth | includes/featured-image-generator.php:53-55 | when the width overflows more, the width becomes 480 and the height stays within 502.4, with the aspect ratio kept |
| FeaturedImage.ShrinkToHeight | includes/featured-image-generator.php:56-58 | otherwise the height becomes 502.4 and the width stays within 480, with the aspect ratio kept |
| FeaturedImage.PlaceLogo | includes/featured-image-generator.php:41-65 | the resize-and-centre steps copy the logo at its fitted size, centred on (centre x, 314) |
| FeaturedImage.GenerateBisectedImage | includes/featured-image-generator.php:9-97 | the canvas is 1200×628: the left and right regions are filled with the decoded colours, then each logo with a non-empty path is drawn fitted and centred at (300, 314) or (900, 314); an empty path draws nothing |
| FeaturedImage.KeyParts | includes/featured-image-generator.php:139 | a key built from four digit runs determines each of them |
| FeaturedImage.CacheKeyInjective | includes/featured-image-generator.php:136-139 | for non-negative ids and timestamps, equal keys mean equal team ids and equal timestamps |
| FeaturedImage.NewTimestampNewKey | includes/featured-image-generator.php:136-139 | changing either team's modification time changes the key |
| FeaturedImage.ImageCache.SaveImageToCache | includes/featured-image-generator.php:199-206 | the image is written to `upload path/key.png`, that path is returned, and no other file changes |
| FeaturedImage.ImageCache.HandleImageRequest | includes/featured-image-generator.php:116-197 | the new transients, files and response are those of `ImageRequest`: the handler as written, with the colour check as PCRE reads it and each check in the handler's order |
| FeaturedImage.EarlyReturnsTouchNothing | includes/featured-image-generator.php:117-165 | no `post` parameter, a missing post, fewer than two teams, or no usable cached file and two teams with default colour and no featured image: nothing is sent and neither transients nor files change |
| FeaturedImage.PostTypeIgnored | includes/featured-image-generator.php:123 | the guard rejects only a missing post: changing the post's type never changes the outcome |
| FeaturedImage.CacheHitServesStoredFile | includes/featured-image-generator.php:140-145 | a transient naming an existing file serves that file with status 200 and changes nothing |
| FeaturedImage.CacheMissWritesFile | includes/featured-image-generator.php:159-177 | with no usable cached file and something to draw (a team with a non-default colour or a featured image), the 1200×628 image is written to `upload path/key.png`, the key maps to that path for 30 days, nothing else changes, and the new file is served; the stored image is the bisected image of the two teams' checked colours and their attached logos |
| FeaturedImage.RepeatedRequestServesSame | includes/featured-image-generator.php:139-177 | repeating a request changes nothing and returns the same response: a newly cached image is served from the cache |
| FeaturedImage.ReadingsAgree | includes/featured-image-generator.php:151-177 | when no post has a primary colour ending in a newline after a valid colour, the handler as written and the handler with the intended check give the same state and response |
| FeaturedImage.WhiteWithNewlineIsDrawn | includes/featured-image-generator.php:156-177 | two teams with primary colour `"#FFFFFF\n"` and no featured image: the handler as written generates, stores and serves an image, while the intended check finds nothing to draw |
| WeekFilter.ParseWeekFilter | includes/sp-event-admin-week-filter.php:18-35 | a year and week are returned exactly when the value matches the anchored pattern; year is in 0..9999 and week in 1..53 |
| WeekFilter.FormatThenParse | includes/sp-event-admin-week-filter.php:24-34 | every valid week, printed as `%04d-W%02d`, parses back to itself |
| WeekFilter.ParseThenFormat | includes/sp-event-admin-week-filter.php:24-34 | an accepted value is the printed form of its result, apart from the one trailing newline that `$` admits (a newline the sanitised request value cannot hold) |
| WeekFilter.ParseRejectsExamples | includes/sp-event-admin-week-filter.php:19-26 | `2026-W00`, `2026-W54`, `2026-W7`, trailing text, an empty value and a missing value give null |
| WeekFilter.WeekOneIsoDefinition | includes/sp-event-admin-week-filter.php:146-149 | 4 January minus (its weekday − 1) days is a Monday; its week contains 4 January, and its Thursday lies in the year's first seven days |
| WeekFilter.MondayOnOrBefore | includes/sp-event-admin-week-filter.php:147-149 | stepping back (weekday − 1) days, with Sunday as 7, lands on a Monday at most six days earlier |
| WeekFilter.WeekdayAfterWeeks | includes/sp-event-admin-week-filter.php:152 | adding whole weeks keeps the weekday |
| WeekFilter.WeekRange | includes/sp-event-admin-week-filter.php:195-197 | week w runs from week-1 Monday + 7(w−1) days, which is a Monday, to six days later, which is a Sunday; both are valid dates |
| WeekFilter.WeekClause | includes/sp-event-admin-week-filter.php:204-216 | the clause for week w is an inclusive range from the valid date whose day number is that week's Monday (week-1 Monday + 7(w−1)) to the valid Sunday six days later |
| WeekFilter.EventListQuery.ApplyAdminWeekFilter | includes/sp-event-admin-week-filter.php:180-219 | the query changes only on the admin main query for `sp_event` with a week that parses; then exactly one clause is appended, earlier clauses are kept in order, and a non-array `date_query` becomes an empty list first |
| Calendar.DateOfDay | includes/sp-event-admin-week-filter.php:206-213 | the (Y, n, j) of a day number is a valid date with that day number |
| Calendar.DateOfDayNumber | includes/sp-event-admin-week-filter.php:206-213 | converting a valid date to its day number and back gives the same date |
| QuickEditOfficials.AbsAll | includes/sp-event-quick-edit-officials.php:164 | each id becomes its absolute value, position by position |
| QuickEditOfficials.NonZero | includes/sp-event-quick-edit-officials.php:165 | the result holds exactly the non-zero values of the input |
| QuickEditOfficials.NonZeroConcat | includes/sp-event-quick-edit-officials.php:165 | `array_filter` keeps order and multiplicity: filtering a concatenation is concatenating the filtered parts, and a single value is kept exactly when it is not 0 |
| QuickEditOfficials.NonZeroKeepsFirstOrder | includes/sp-event-quick-edit-officials.php:165 | two non-zero values first occur in the filtered list in the same order as in the input |
| QuickEditOfficials.CleanIds | includes/sp-event-quick-edit-officials.php:164-166 | the cleaned list is positive and duplicate-free, holds exactly the non-zero `absint` values, and is ordered by first occurrence in the `absint` values of the input |
| QuickEditOfficials.DedupeNonZeroOrder | includes/sp-event-quick-edit-officials.php:165-166 | after `array_filter` and `array_unique`, the values are ordered by their first occurrence in the unfiltered list |
| Seqs.DedupeSpec | includes/sp-event-quick-edit-officials.php:166 | `array_unique` keeps exactly the input's values, each once, ordered by first occurrence |
| Seqs.DedupeOfDistinct | includes/sp-event-quick-edit-officials.php:166 | a list without repeats is unchanged by `array_unique` |
| QuickEditOfficials.PutSpec | includes/sp-event-quick-edit-officials.php:169 | a keyed assignment sets that key, leaves other keys alone, overwrites in place or appends, and keeps the map well formed |
| QuickEditOfficials.ContributionWellFormed | includes/sp-event-quick-edit-officials.php:159-170 | what an entry contributes has a positive key and a non-empty list of distinct positive ids |
| QuickEditOfficials.CleanWellFormed | includes/sp-event-quick-edit-officials.php:157-171 | whatever is posted, the cleaned array has distinct positive keys, each with a non-empty list of distinct positive ids |
| QuickEditOfficials.CleanLastContributionWins | includes/sp-event-quick-edit-officials.php:158-170 | the last entry that contributes to a duty decides its list, so a later key with the same `absint` overwrites an earlier one |
| QuickEditOfficials.CleanKeyHasSource | includes/sp-event-quick-edit-officials.php:158-170 | every stored duty comes from a posted entry, so bad keys, non-arrays and all-zero lists are dropped |
| QuickEditOfficials.PositiveIdsUnchanged | includes/sp-event-quick-edit-officials.php:164-165 | positive ids pass `absint` and the filter unchanged |
| QuickEditOfficials.ContributionOfCleanEntry | includes/sp-event-quick-edit-officials.php:159-170 | a well-formed entry, posted back, contributes itself |
| QuickEditOfficials.CleanIdempotent | includes/sp-event-quick-edit-officials.php:157-171 | cleaning an already clean array returns it unchanged |
| QuickEditOfficials.HiddenZeroIgnored | includes/sp-event-quick-edit-officials.php:164-168 | the hidden `0` posted before each duty's checkboxes changes nothing, and a duty with only zeros is dropped |
| QuickEditOfficials.CleanOfficials | includes/sp-event-quick-edit-officials.php:157-171 | the `foreach` with `continue` builds the cleaned array, which is well formed |
| QuickEditOfficials.EventOfficialsMeta.SaveQuickEditOfficials | includes/sp-event-quick-edit-officials.php:127-174 | meta is untouched for an empty POST, a revision or autosave, a non-event, no edit capability, or a missing or invalid nonce; otherwise `sp_officials` is overwritten with the cleaned array, even an empty one |
| QuickEditOfficials.RowData | includes/sp-event-quick-edit-officials.php:16-24 | row data is produced only for the `sp_team` column; a non-array meta value shows as an empty array |
| QuickEditOfficials.QuickEditField.Render | includes/sp-event-quick-edit-officials.php:41-119 | the field is printed at most once per request, only for the `sp_team` column of events; with no duties or officials only the nonce is printed; otherwise there is one group per duty with a hidden 0 and every official |
| QuickEditOfficials.SubmittedFieldSaved | includes/sp-event-quick-edit-officials.php:94-115 | saving the rendered field stores each duty's ticked officials without repeats, and nothing for a duty with none ticked |
| OpenGraph.Truthies | includes/open-graph-tags.php:21 | `array_filter` keeps exactly the truthy team values |
| OpenGraph.TruthiesConcat | includes/open-graph-tags.php:21 | `array_filter` keeps order and multiplicity: filtering a concatenation is concatenating the filtered parts |
| OpenGraph.TruthiesOne | includes/open-graph-tags.php:21 | a single team value is kept exactly when it is truthy |
| OpenGraph.Flatten | includes/open-graph-tags.php:25-27 | unwrapping a team value ends in a non-zero id or null, never a list |
| OpenGraph.FlattenTakesFirstTruthy | includes/open-graph-tags.php:25-27 | a list is unwrapped through its first truthy element, the one after only falsy ones |
| OpenGraph.FlattenTeam | includes/open-graph-tags.php:25-27 | the `while` loop takes the first truthy element until the value is no longer a list |
| OpenGraph.EventTitleCases | includes/open-graph-tags.php:13-41 | a missing or non-event post gets the page title; an event's title is some list of names joined with `' ' + delimiter + ' '` (delimiter `vs` by default), where the names are distinct, are exactly the short names of its teams with a positive id, and are in first-occurrence order, reversed exactly when the reverse option is `yes` |
| OpenGraph.CollectTeamNames | includes/open-graph-tags.php:23-31 | the `foreach` collects the short name of each value that flattens to a positive id |
| OpenGraph.BuildEventTitle | includes/open-graph-tags.php:20-41 | the title is the de-duplicated, optionally reversed names joined with the delimiter |
| OpenGraph.NamesFromPositiveIds | includes/open-graph-tags.php:28-30 | every collected name belongs to a value that flattens to a positive id |
| OpenGraph.PositiveIdsNamed | includes/open-graph-tags.php:28-30 | every value that flattens to a positive id contributes its name |
| OpenGraph.TitleNamesSpec | includes/open-graph-tags.php:33-37 | the shown names are exactly the collected names, each once; they are in first-occurrence order, reversed exactly when the option is `yes` |
| OpenGraph.TwoTeamTitle | includes/open-graph-tags.php:33-41 | two different teams with default options give "A vs B", or "B vs A" when reversed |
| OpenGraph.Hour12 | includes/open-graph-tags.php:52-54 | the `g` hour is in 1..12 |
| OpenGraph.TwelveHourClock | includes/open-graph-tags.php:52-54 | the `g` hour and the `A` meridiem together give back the hour of the day |
| OpenGraph.MinutesShownUnlessOnTheHour | includes/open-graph-tags.php:51-55 | the time is `gA` exactly when the minutes are zero, otherwise `g:iA` |
| OpenGraph.ShortTimeInjective | includes/open-graph-tags.php:51-56 | the short time text determines the hour and the minute |
| OpenGraph.ShortDateExamples | includes/open-graph-tags.php:44-57 | 9 Feb 2026 19:00 gives `Mon 2/9/26 7PM`, 19:05 gives `Mon 2/9/26 7:05PM`, and without time only `Mon 2/9/26` |
| OpenGraph.DataRows | includes/open-graph-tags.php:93-98 | after removing key 0 and the empty rows, exactly the non-empty team rows remain |
| OpenGraph.DataRowsConcat | includes/open-graph-tags.php:93-98 | the filter keeps order and multiplicity: filtering a concatenation is concatenating the filtered parts |
| OpenGraph.DataRowsOne | includes/open-graph-tags.php:93-98 | a single row is kept exactly when its key is not 0 and it is a non-empty row |
| OpenGraph.LookUpOutcomes | includes/open-graph-tags.php:123-128 | after the inner loop, `$the_outcome` is the page of the last slug, or is unchanged when there are no slugs |
| OpenGraph.BuildTeamRecords | includes/open-graph-tags.php:117-150 | the loop builds one record per row, carrying `$the_outcome` from row to row |
| OpenGraph.OwnOutcome | includes/open-graph-tags.php:123-143 | a row with outcome slugs reports the page of its own last slug |
| OpenGraph.StaleOutcome | includes/open-graph-tags.php:117-143 | a row without slugs reports the previous row's outcome |
| OpenGraph.SuffixOf | includes/open-graph-tags.php:157-171 | a matched abbreviation always yields a non-empty suffix |
| OpenGraph.ForfeitSuffixFirstMatch | includes/open-graph-tags.php:156-172 | there is no suffix exactly when no team's upper-cased abbreviation is TF-W, TF-L, F-W or F-L; otherwise it is that of the earliest such team |
| OpenGraph.SuffixOfFirstForfeit | includes/open-graph-tags.php:156-172 | the suffix is that of the first team whose outcome calls for one |
| OpenGraph.FindForfeitSuffix | includes/open-graph-tags.php:153-172 | the break-on-first-match loop gives the first-match suffix |
| OpenGraph.ForfeitMark | includes/open-graph-tags.php:174 | `(abbr)` is appended, with no space, exactly when some team calls for a suffix, and it is the first such team's abbreviation |
| OpenGraph.EmitOpenGraphTags | includes/open-graph-tags.php:60-186 | the handler's steps produce the output of `OpenGraphTags` |
| OpenGraph.TagsEmitted | includes/open-graph-tags.php:177-183 | nothing is printed off single event pages; `false` is returned exactly for a finished event with no data rows; otherwise five tags are printed: type, image (site URL + `/head-to-head?post=ID`), title, description, url |
| OpenGraph.HeldStatusPrefix | includes/open-graph-tags.php:74-86 | a postponed, cancelled or TBD event has its upper-cased status and ` — ` in front of its description, and in front of its title unless the title is a result; without a result, the title is `STATUS — teams — short date — venue`, with ` — short date — venue` appended a second time for a future event, and the description is `STATUS — long date at venue.` followed by the post content |
| OpenGraph.FutureTitle | includes/open-graph-tags.php:83-86 | a future event that is not held is titled with its teams, short date and time, and venue (default `Venue TBD`) |
| OpenGraph.ResultTitleOfFinishedEvent | includes/open-graph-tags.php:88-175 | a finished event is titled `name0 r0-r1 name1 — date`, followed by the first forfeit mark if any team has one |

## Left out

- Pixels and PNG bytes. GD's `imagecreatetruecolor`, `imagefilledpolygon`,
  `imagecopyresampled`, `imagepng` and `imagecreatefrompng` are foreign library calls. An
  image is the list of drawing calls with their numbers.
- A logo file that is not a decodable PNG. Every existing logo is assumed to decode to
  an image of positive size.
- Floating-point rounding. The margins and sizes are exact `real`s, and the integer
  truncation inside `imagecopyresampled` is not modelled.
- HTTP plumbing: `header`, `status_header`, output buffering, `readfile`, `exit` and
  `die`. A response is a value.
- The hook and endpoint registrations (`add_action`, `add_rewrite_endpoint`).
- Transient expiry. The 30-day lifetime is stored but no clock runs.
- A failing `file_put_contents`.
- Two requests writing the same cache file at once (concurrency).
- `get_post` of an id that is not a post's id, such as 0, is treated as a missing post. WordPress's `get_post(0)` instead falls back to the global `$post`, which the model does not hold.
- Team ids are integers; their PHP string form and `strtotime`'s parsing are not
  modelled. A team's modification time is given as its timestamp.
- The week filter's rendered control, its summary label and the week-input JavaScript,
  beyond the week-1 algorithm. These are echoed HTML, CSS and JS.
- The week filter's time zone and the 00:00:00 / 23:59:59 times. Only the dates of the
  clause are modelled.
- `sanitize_text_field` and `wp_unslash`. The parsed value is the sanitised one. Sanitising strips line breaks, so the trailing newline that the week pattern admits cannot come from the request. The parser keeps it so that it matches the regular expression exactly.
- The Quick Edit prefill JavaScript.
- The JSON encoding and HTML escaping of the row data. The row data is the array
  itself.
- The order in which `get_terms` and `get_posts` return duties and officials. The lists
  are given.
- The string-to-integer casts of posted keys and ids.
- The nonce. It is modelled only as the sanitised field plus `wp_verify_nonce`'s verdict.
- The Open Graph `$outcomes` list and `$team_abbreviation`. Both are computed and never
  used.
- The `is_numeric($post)` branch of `asc_generate_sp_event_title`. The model takes the
  post itself.
- Localised day and month names, time zones and `wp_date`. Dates are English and given
  as local (Y, M, D, h, m).
- HTML escaping of the tag contents. The source does none.
- `get_permalink` and `get_site_url`. Both are inputs.
- tonys-sportspress-enhancements.php holds only the `require_once` lines that load
  these files. includes/sp-event-permalink.php, which it also loads, is not part of
  this model.

## Findings

| source | as written | input that shows it | evidently intended | confidence | as-written member | corrected member |
|---|---|---|---|---|---|---|
| includes/featured-image-generator.php:156-157 | `preg_match('/^#[a-fA-F0-9]{6}$/', …)` without the `D` modifier: `$` also matches before a final newline | a primary colour of `"#ABCDEF\n"` passes the "security check" and is handed to the generator (lemma `FeaturedImage.ColorCheckAdmitsTrailingNewline`) | only `#` followed by exactly six hex digits passes; anything else becomes `#FFFFFF` | high that the input passes; not executed | FeaturedImage.TeamColorAsWritten | FeaturedImage.TeamColor |
| includes/featured-image-generator.php:156-177 | the handler runs the colour check above, so its newline case reaches the drawing and "nothing to draw" steps | both teams with primary colour `"#FFFFFF\n"` and no featured image: an image is generated, stored and served, and `"#ABCDEF\n"` is painted as (171, 205, 239) (lemmas `FeaturedImage.WhiteWithNewlineIsDrawn`, `FeaturedImage.ColorCheckAdmitsTrailingNewline`) | such a team counts as white, so nothing is drawn and nothing is sent | high; not executed | FeaturedImage.ImageRequest | FeaturedImage.ImageRequestUnder |

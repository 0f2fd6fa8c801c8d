# VibeCheck front end — a Dafny model of its page logic

VibeCheck collects how students feel about a class. A teacher opens a check-in
for a class (the check-in page); each student picks one of nine emotion emojis
(the emoji page), and the teacher's dashboard counts the recorded emotions per
period — per day, per month or per week of the year — and lets them export the
counts as text.

This project models the logic inside those three React pages, without React,
the network or the browser:

- **Dashboard** (`Dashboard`, `Periods`, `Grouping`, `Calendar`, `StableSort`):
  the class and record-type filters, splitting each record's `data` text
  ("dd/MM/yyyy HH:mm") into a period label, dropping unknown emotion codes,
  counting per label and emotion, ordering the periods with `sortKey` under
  the stable `Array.prototype.sort`, the failed-load path, the list of
  emotions shown in the legend, and the text export.
- **Check-in page** (`ClassList`): which classes are listed and in what order,
  the search box, the submit, rename and delete handlers over the page state,
  and `clearError`.
- **Emoji page** (`EmojiPage`, `Emotions`): `getCookie`, the emoji table and
  what the submit button does.

Shared pieces: `Basics` (`Option`, `Result`), `Seqs` (filter, count, sum,
deduplication, subsequence), `Text` (JavaScript `trim`, ASCII `toLowerCase`,
`includes`, `split`, decimal number text, `parseInt`).

Server answers are parameters: `accepted` says whether a request succeeded,
and a missing (`None`) response stands for a failed fetch. The locale
comparison `localeCompare` is a parameter `le` that must be a total preorder.

## Model

| member | source | states |
|---|---|---|
| Emotions.EmotionLabel | src/app/dashboard/page.jsx:32-42 | an emotion code has a label exactly when it is 1 to 9, and the label is one of the nine table entries |
| Emotions.EmotionLabelInjective | src/app/dashboard/page.jsx:32-42 | no two codes share a label, so a label identifies its code |
| Calendar.WeekNumber | src/app/dashboard/page.jsx:44-48 | the week number is between 1 and 54 and is the ceiling, in whole weeks, of the time since January 1st plus that day's weekday plus one day |
| Calendar.NextJan1Weekday | src/app/dashboard/page.jsx:45 | the weekday of January 1st advances by the length of the previous year, modulo 7 |
| Calendar.Jan1Weekday | src/app/dashboard/page.jsx:44-47 | the weekday `getDay()` gives January 1st of a year is between 0 and 6; NextJan1Weekday and Jan1Of2024 pin which one |
| Calendar.Jan1Of2024 | src/app/dashboard/page.jsx:45 | the weekday computation puts January 1st, 2024 on a Monday |
| Calendar.TimeOfDayCrossesWeek | src/app/dashboard/page.jsx:46-47 | on a day whose day count is a multiple of seven, midnight belongs to that week and any later time of the day to the next one |
| Calendar.ParseLocal | src/app/dashboard/page.jsx:133 | a date-time text that parses yields a valid calendar date and time with a four-digit year; ParseFormatMinutes and ParseFormat show that the text of a valid date-time, in either form, is read back as that date-time |
| Calendar.ParseFormat | src/app/dashboard/page.jsx:133 | parsing the `yyyy-MM-ddTHH:mm:ss` text of a valid date-time gives that date-time back |
| Calendar.ParseFormatMinutes | src/app/dashboard/page.jsx:133 | parsing the `yyyy-MM-ddTHH:mm` text of a valid date-time at a whole minute, the form the dashboard builds, gives that date-time back |
| Calendar.June1Of2024Week | src/app/dashboard/page.jsx:44-47 | June 1st, 2024 at 10:00 is in week 23 |
| Dashboard.LoadClassList | src/app/dashboard/page.jsx:69-85 | a failed fetch keeps the previous class list; otherwise the list holds exactly the valid classes of the answer, in the answer's order, every occurrence of a valid class kept (its length is the number of valid classes in the answer) |
| ClassList.KeepValid | src/app/checkin/page.jsx:98-100 | a class is kept exactly when its id is not 0 and its name is not "string" in any letter case; the kept classes keep their order and every occurrence, so the length is the number of valid classes |
| Dashboard.FindName | src/app/dashboard/page.jsx:119 | no name exactly when no class id prints as the selection; otherwise the name of the first class whose id does |
| Dashboard.ClassNameOf | src/app/dashboard/page.jsx:116-119 | no name exactly when "all" is selected or no listed class has the selected id; otherwise the first such class's name (an empty name, like no name, then restricts nothing) |
| Dashboard.NoneSelectsNoClass | src/app/dashboard/page.jsx:116-119 | the "none" option, which no class id prints as, restricts nothing |
| Dashboard.NoClassRestriction | src/app/dashboard/page.jsx:116-125 | when no listed class has the selected id, only the type filter applies |
| Dashboard.KeptMembers | src/app/dashboard/page.jsx:121-125 | a record is kept exactly when it is in the answer, its class matches the selected class name (an absent or empty name matches all), and its type matches unless "all" |
| Dashboard.Kept | src/app/dashboard/page.jsx:121-125 | the kept records are a subsequence of the answer, and their number is the number of answer records that pass the class and type tests (KeptMembers says which those are) |
| Periods.ReadStamp | src/app/dashboard/page.jsx:131-132 | reading the date text fails exactly when it has fewer than two slashes |
| Periods.ReadStampOfWritten | src/app/dashboard/page.jsx:130-132 | the pieces of a text written as `dia/mes/ano hora` are read back unchanged |
| Periods.WeekLabel | src/app/dashboard/page.jsx:137-138 | a week label is "Semana " followed by something; WeekLabelKey shows that its sort key is the week number |
| Periods.PeriodLabel | src/app/dashboard/page.jsx:135-148 | the label of a record for the chosen range (day/month, month/year, or the week label for "week" and any other range); it has no contract of its own, and PeriodLabelKey states how it ranks |
| Periods.SortKey | src/app/dashboard/page.jsx:159-173 | the sort key of a label; it has no contract of its own. WeekLabelKey and PeriodLabelKey state its value on week labels, on month and day labels built from zero-padded pieces, and on month and day labels whose first piece is one character wide (0) |
| Periods.WeekLabelKey | src/app/dashboard/page.jsx:159-163 | the label "Semana n" ranks as n |
| Periods.PeriodLabelKey | src/app/dashboard/page.jsx:135-173 | a week label ranks as its week number (0 for an invalid date), a month label as year*100+month and a day label as month*100+day when the pieces have the expected widths, and a month or day label whose first piece is one character wide (such as "6/2024") as 0 |
| Periods.UnpaddedKey | src/app/dashboard/page.jsx:159-173 | a label whose first piece is one character wide matches neither "Semana" nor either slashed pattern, so it ranks as 0 |
| Periods.ReadWritten | src/app/dashboard/page.jsx:130-132 | a record written as "dd/MM/yyyy HH:mm" for a valid date-time is read back into its zero-padded pieces |
| Periods.WrittenLabels | src/app/dashboard/page.jsx:130-148 | for a record written for a valid date-time at a whole minute, the week label carries that date-time's week number, the month label ranks as year*100+month and the day label as month*100+day |
| Dashboard.EventLabel | src/app/dashboard/page.jsx:129-148 | computing a record's label fails exactly when its date text is malformed |
| Dashboard.WrittenRecordLabel | src/app/dashboard/page.jsx:129-148 | a record whose date text is written for a valid date-time at a whole minute is labelled "Semana " with that date-time's week number, and its month and day labels rank by year then month and by month then day |
| Dashboard.Entries | src/app/dashboard/page.jsx:129-155 | labelling the kept records can fail only with the split TypeError's message; EntriesFail, EntriesCount and EntriesLength say when it fails and what it yields |
| Dashboard.EntriesFail | src/app/dashboard/page.jsx:129-155 | labelling the kept records fails exactly when one of them is malformed, whatever its emotion code |
| Dashboard.EntriesCount | src/app/dashboard/page.jsx:150-154 | the number of (label, emotion) entries equals the number of kept records with that label and a known code mapping to that emotion |
| Dashboard.EntriesLength | src/app/dashboard/page.jsx:150-151 | records with unknown emotion codes are dropped and every other record gives one entry |
| Grouping.AddCount | src/app/dashboard/page.jsx:153-154 | adding one entry raises that label and emotion's count by one and changes no other count |
| Grouping.AddWeeks | src/app/dashboard/page.jsx:153 | adding an entry appends its label at the end of the labels when it is new and otherwise keeps them |
| Grouping.BumpFacts | src/app/dashboard/page.jsx:154 | one more record of an emotion raises its count by one, keeps every other count, keeps counts positive, and adds the emotion as a key only when it was missing |
| Grouping.Bump | src/app/dashboard/page.jsx:154 | one more record of an emotion within a point; it has no contract of its own, and BumpFacts states its effect |
| Grouping.Add | src/app/dashboard/page.jsx:153-154 | one iteration of the grouping loop; it has no contract of its own, and AddCount and AddWeeks state its effect |
| Grouping.Group | src/app/dashboard/page.jsx:153-157 | the grouping of all entries in order; it has no contract of its own, and GroupCount, GroupWeeks, GroupWellFormed and GroupSum state what it holds |
| Grouping.GroupCount | src/app/dashboard/page.jsx:153-154 | each count in the grouping is the number of entries with that label and emotion |
| Grouping.GroupWeeks | src/app/dashboard/page.jsx:153-157 | the grouping's labels are the entries' labels without repeats, in first-seen order |
| Grouping.GroupWellFormed | src/app/dashboard/page.jsx:153-157 | labels are distinct, every group names each emotion at most once, and every count is positive |
| Grouping.GroupSum | src/app/dashboard/page.jsx:153-154 | the counts add up to the number of entries |
| StableSort.Sort | src/app/dashboard/page.jsx:175 | the result is ordered by the comparator and is a permutation of the input |
| StableSort.SortIsStable | src/app/dashboard/page.jsx:175 | elements that compare equal keep their input order |
| StableSort.SortSum | src/app/dashboard/page.jsx:175 | sorting keeps any sum over the elements |
| Dashboard.AggregateFails | src/app/dashboard/page.jsx:116-180 | loading fails exactly when a kept record's date text is malformed, and the failure carries the split TypeError's message |
| Dashboard.Aggregate | src/app/dashboard/page.jsx:116-175 | an aggregation that fails carries the split TypeError's message; the Aggregate lemmas below state what a successful one holds |
| Dashboard.AggregateSorted | src/app/dashboard/page.jsx:157-175 | the periods come in non-decreasing `sortKey` order |
| Dashboard.AggregateStable | src/app/dashboard/page.jsx:157-175 | periods with equal `sortKey` keep the order in which their labels first appeared among the kept records |
| Dashboard.AggregateWellFormed | src/app/dashboard/page.jsx:150-175 | period labels are distinct, each period names each emotion once, and counts are positive |
| Dashboard.AggregateCount | src/app/dashboard/page.jsx:150-154 | each period's count for an emotion is the number of kept records with that label and that emotion |
| Dashboard.AggregateCountOverRecords | src/app/dashboard/page.jsx:121-154 | the same count stated over the raw answer: the number of answer records that pass the filters and are counted under that label and emotion |
| Dashboard.AggregateLabels | src/app/dashboard/page.jsx:150-157 | a label is a period exactly when some kept record with a known emotion has that label |
| Dashboard.AggregateTotal | src/app/dashboard/page.jsx:150-157 | the counts of all periods add up to the number of kept records with a known emotion |
| Dashboard.Reload | src/app/dashboard/page.jsx:103-184 | the error is cleared exactly when the fetch and the processing succeed, which sets the processed periods; a failure keeps the previous data; a failed fetch reports its own message |
| Dashboard.MalformedRecordFailsLoad | src/app/dashboard/page.jsx:131-132 | one malformed kept record makes the load report the split TypeError and leaves the data as it was |
| Dashboard.AvailableEmotions | src/app/dashboard/page.jsx:194-197 | the legend lists no emotion twice and is empty when no data was ever loaded |
| Dashboard.AvailableEmotionsMembers | src/app/dashboard/page.jsx:195-197 | an emotion is in the legend exactly when some period counts it |
| Dashboard.AvailableEmotionsOfAggregate | src/app/dashboard/page.jsx:150-197 | after a successful load, an emotion is in the legend exactly when some kept, well-dated record has a code with that label |
| Dashboard.ExportData | src/app/dashboard/page.jsx:201-214 | exporting warns exactly when there is no data or it is empty; otherwise it downloads the report under the fixed file name |
| Dashboard.ReportAppend | src/app/dashboard/page.jsx:207-214 | the report of two runs of periods is the first's report followed by the second's, so periods are written in order |
| Dashboard.ReportTextLines | src/app/dashboard/page.jsx:207-214 | the report is its lines, each ended by a newline: per period its label with a colon, one indented line per emotion and a blank line |
| Dashboard.ReportText | src/app/dashboard/page.jsx:207-214 | the exported text built point by point; it has no contract of its own, and ReportTextLines and ReportAppend state its shape |
| Dashboard.ExportLines | src/app/dashboard/page.jsx:201-214 | when no label or emotion contains a newline, splitting the exported text at newlines gives back exactly the report's lines and a final empty piece |
| ClassList.LoadClasses | src/app/checkin/page.jsx:98-101 | the listed classes are exactly the valid classes of the answer, as a permutation, ordered by name |
| ClassList.Search | src/app/checkin/page.jsx:165 | the shown classes are exactly those whose lower-cased name contains the lower-cased query, in list order, every occurrence kept (the length is the number of matching classes) |
| ClassList.SearchEmptyQuery | src/app/checkin/page.jsx:165 | an empty search box shows every class |
| ClassList.SearchIgnoresQueryCase | src/app/checkin/page.jsx:165 | the letter case of the query does not change the result |
| ClassList.ClearError | src/app/checkin/page.jsx:79-87 | a field holding a non-empty message is removed and nothing else changes; otherwise the map is unchanged |
| ClassList.ClearErrorIdempotent | src/app/checkin/page.jsx:79-87 | clearing a field twice is clearing it once |
| ClassList.Submit | src/app/checkin/page.jsx:135-163 | a blank class name sets only the class-name error and sends nothing; otherwise the check-in request carries the untrimmed name, and success clears the box and the errors while failure sets only the general error |
| ClassList.Shown | src/app/checkin/page.jsx:165-169 | a list position names a class exactly when it is inside the shown list, and that class is in the full list |
| ClassList.StartEdit | src/app/checkin/page.jsx:167-171 | starting an edit selects the shown class at that position and puts its name in the edit box, leaving the rest of the page alone |
| ClassList.EditUnchangedKeepsName | src/app/checkin/page.jsx:167-188 | confirming an edit right after starting it asks to rename the chosen class to its own name |
| ClassList.RenameById | src/app/checkin/page.jsx:187 | only classes with the given id change, and only their name |
| ClassList.ConfirmEdit | src/app/checkin/page.jsx:173-197 | a blank name only sets the name error; otherwise the rename request is for the shown class at the edit position with the untrimmed text; an accepted rename stores the trimmed name, re-sorts by name, clears the edit state and leaves the class-name box and the delete position alone; any other outcome sets only the general error |
| ClassList.RemoveById | src/app/checkin/page.jsx:220 | exactly the classes with another id remain, in order |
| ClassList.RenameThenRemove | src/app/checkin/page.jsx:187-220 | renaming a class and then deleting it leaves the same list as deleting it |
| ClassList.ConfirmDelete | src/app/checkin/page.jsx:212-233 | the delete request is for the shown class at the delete position; an accepted delete removes every class with its id, clears the errors, empties the box if it held that name and leaves the edit position and edit text alone; otherwise only the general error is set; the delete position is always reset |
| ClassList.DeleteIndexIsIntoSearchedList | src/app/checkin/page.jsx:214 | with the query "b", position 0 deletes class "B", not the first class of the full list |
| EmojiPage.StripLeadingSpaces | src/app/emoji/page.jsx:19-21 | only leading spaces are removed, and the result starts with something other than a space |
| EmojiPage.DropSpaces | src/app/emoji/page.jsx:19-21 | the inner loop removes the leading spaces of a cookie entry |
| EmojiPage.FirstValue | src/app/emoji/page.jsx:17-26 | the value of the first entry that starts with `name=` after its spaces, or "" when none does |
| EmojiPage.CookieValue | src/app/emoji/page.jsx:16-26 | the value `getCookie` returns, as the first-match definition over the `;`-separated entries; it has no contract of its own, and GetCookie is proved to return it |
| EmojiPage.GetCookie | src/app/emoji/page.jsx:13-27 | the loop returns the first matching entry's value, or "" |
| EmojiPage.LongerNameDoesNotMatch | src/app/emoji/page.jsx:14-22 | an entry whose name is longer than the looked-up name never matches |
| EmojiPage.PrefixOfAnotherName | src/app/emoji/page.jsx:14-22 | looking up "ab" in "abc=1" finds nothing |
| EmojiPage.TabIsNotStripped | src/app/emoji/page.jsx:19-22 | an entry indented by a tab does not match |
| EmojiPage.FirstMatchWins | src/app/emoji/page.jsx:16-24 | with two entries for the same name, the first one's value is returned |
| Emotions.EmojiTableMatchesLabels | src/app/emoji/page.jsx:51-61 | each of the nine emoji ids is one digit that `parseInt` reads as its position plus one, and the dashboard labels that code with the emoji's label |
| Emotions.EmojiIdsDistinct | src/app/emoji/page.jsx:51-61 | no two emojis share an id |
| EmojiPage.SubmitEmotion | src/app/emoji/page.jsx:64-81 | no selection does nothing; a selection without a code cookie asks for the code; otherwise the registration carries the cookie's code and the `parseInt` of the selected id |
| EmojiPage.RegisteredCodeIsKnown | src/app/emoji/page.jsx:51-81 | submitting any offered emoji with a code present registers a code that the dashboard shows under that emoji's label |
| Text.Trim | src/app/checkin/page.jsx:139 | the trimmed text is the piece of the text that starts at its first non-white-space character and is followed by white space only; it is empty exactly when the text is blank, and otherwise neither starts nor ends with white space |
| Text.SkipBlanks | src/app/checkin/page.jsx:139 | the position of the first character at or after a start position that is not white space, everything skipped being white space |
| Text.BackBlanks | src/app/checkin/page.jsx:139 | the position after the last character before an end position that is not white space, everything dropped being white space |
| Text.Lower | src/app/checkin/page.jsx:165 | lower-casing keeps the length, turns every ASCII capital into its own small letter, leaves no ASCII capital and keeps every other character; LowerIdempotent shows that doing it twice changes nothing |
| Text.Contains | src/app/checkin/page.jsx:165 | `includes` holds exactly when the needle occurs at some position |
| Text.Split | src/app/emoji/page.jsx:16 | `split` gives one more piece than there are separators, no piece contains the separator, and joining the pieces gives the text back |
| Text.NatToStringRoundTrip | src/app/dashboard/page.jsx:138 | the decimal text of a number reads back as that number |
| Text.NumberOf | src/app/dashboard/page.jsx:161-162 | `Number` of a trimmed text reads a plain decimal numeral as its value and the empty text as 0; any text it reads is empty or all digits |
| Text.ParseInt | src/app/emoji/page.jsx:81 | `parseInt` of a plain decimal numeral is its value |

## Left out

- Date parsing: only the strict `yyyy-MM-ddTHH:mm` and `yyyy-MM-ddTHH:mm:ss` forms are read. The engine's lenient fallback formats, fractional seconds, "24:00", time zones and daylight-saving shifts are left out. Any other text is an Invalid Date, which gives "Semana NaN".
- Calendar.WeekNumber: does not model that `new Date(y, 0, 1)` reads years 0 to 99 as 1900 to 1999. It counts whole seconds rather than floating-point milliseconds.
- Text.ParseInt: does not model hexadecimal prefixes or the engine's other numeric syntaxes. `Number()` on the text after "Semana" likewise only reads the empty text and plain digits; anything else counts as NaN (key 0).
- Text.Lower: folds only ASCII letters, not the full Unicode `toLowerCase`.
- Text lengths: a character is one Unicode scalar value, so a character outside the Basic Multilingual Plane (an emoji, say) counts as one character here but as two UTF-16 code units in JavaScript. No modelled page logic depends on such lengths or positions.
- `decodeURIComponent` of the cookie text is left out; the cookie is taken already decoded. Setting and removing cookies are left out too.
- Network and browser: HTTP, JSON decoding, navigation, alerts, the loading flags, the chart, its colours and the modal and list-open flags are left out. Server answers are the `accepted` and `response` parameters.
- Failed fetches: a failed dashboard fetch is modelled as the message of the non-OK answer. A network failure's own message is not modelled.
- `localeCompare` is an abstract total preorder `le`; the ICU collation is not modelled.
- Other handlers: `codigoGerado`, `cancelarEdicao`, `cancelarExclusao`, `abrirModalExcluir` (it only stores an index), logout, and the check, confirmation and landing pages are not part of this model.
- ClassList.StartEdit: requires a position inside the shown list, as the page only offers the action on its rows. An out-of-range position would throw in the source.
- Dashboard.Reload: on a failed load the code keeps the previous `data` (it never calls `setData`). The model follows the code, not "no data".
- Property order: the grouped objects keep insertion order because no label or emotion name is an array index. The model uses sequences in insertion order.

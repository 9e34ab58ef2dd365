# Canteen offers parser and Stud.IP events, modelled in Dafny

This is a model of two parts of the Stud.IP timetable app for the University of Bremen.

**The canteen scraper, `StwParser`.** It downloads the menu pages of the Studierendenwerk Bremen and stores their offers as four kinds of records: canteens, dates, categories and items. It works in four steps:

- It resets its four surrogate-key counters (`dateId`, `canteenId`, `categoryId`, `itemId`).
- It clears every stored offer.
- It walks each page: the canteen name, then every day plan with its normalised date, then every food category, then every table row of that category as an item.
- It increments a counter after each record it completes.

Each item carries three things:

- its title: the inner HTML of the second cell, with `&amp;`, `&gt;` and `&lt;` decoded in that order;
- its price: the text of the third cell, or `""` when that cell is missing;
- ten dietary flags: a flag is set when the row's food-types fragment shows that flag's pictogram.

**The event type, `StudIPEvent`.** It is a value type for one course event:

- its time range is read from two six-entry tables of slot times;
- `equals` and `hashCode` look only at the title and the lecturers.

Module layout:

| module | models |
|---|---|
| `Document` | the fetched page, reduced to the lists the parser indexes into |
| `Offers` | the records and the repository, seen as a log of its clear and insert calls (`AppRepository` is a class with a `log` field) |
| `StwHelpers` | `monthToNumber`, the date label, `getFilteredText`, `getTextOrEmpty`, `isDietaryPreferenceMet` and the ten pictogram addresses |
| `Text` | the Kotlin `replace` and `split` the helpers use |
| `StwSpec` | what each stretch of parsing does, as functions: the records it appends, the counters afterwards and the failure that stops it |
| `StwParser` | the class with the four counter fields, and its methods `Parse` and `ParseFromPage`. The nested loops of `parseFromPage` become one method per level. The model proves each method against the `StwSpec` function of its level. |
| `StwProperties` | key discipline: every kind of record is keyed consecutively, the clear comes first, and the counts at the end of a run |
| `StwReferences` | every category names the open date and canteen, and every item the open category |
| `StwSuccess` | exactly when parsing gets through |
| `StwRun` | what one call of `Parse` guarantees, stated on its log and counters |
| `StudIPEvents` | `StudIPEvent`: the timeslot, equality and the JVM hash code |

**Failures.** A lookup the Kotlin code makes by position on a Jsoup list throws when the position is missing. These lookups are `[1]` on the pane titles, `[0]` on the tabs, `[dateId]` on the tab dates, `[0]` on the category names, on the table bodies and on the food types, `[1]` on the cells, and `[1]` on the parts of the split tab label (`rawDate[1]`, a `MalformedDate`). Each one is an explicit `Failure`. The exception aborts the whole `parse`, so the records inserted before it stay stored. The counters stop where they were, and the completion callback is not reached.

## Model

All StwParser.kt paths are `app/src/main/java/com/denizk0461/studip/data/StwParser.kt`, and StudIPEvent.kt paths are `app/src/main/java/com/denizk0461/studip/data/StudIPEvent.kt`.

| member | source | states |
|---|---|---|
| StwHelpers.MonthToNumber | app/src/main/java/com/denizk0461/studip/data/StwParser.kt:240-254 | always yields two characters, and anything that is not one of the twelve abbreviations yields "00" |
| StwHelpers.MonthFrom | app/src/main/java/com/denizk0461/studip/data/StwParser.kt:240-254 | the branches of the `when`, tried in order from the k-th month on: two characters, and "00" for a string not among the remaining months |
| StwHelpers.MonthsDistinct | app/src/main/java/com/denizk0461/studip/data/StwParser.kt:241-252 | no month abbreviation appears twice, so no branch shadows another |
| StwHelpers.MonthHasNoSpace | app/src/main/java/com/denizk0461/studip/data/StwParser.kt:241-252 | no month abbreviation contains a space, so each is a single token of a date label |
| StwHelpers.MonthNumbersDigits | app/src/main/java/com/denizk0461/studip/data/StwParser.kt:241-252 | the k-th result string is the two-digit decimal spelling of k + 1 |
| StwHelpers.MonthFromFinds | app/src/main/java/com/denizk0461/studip/data/StwParser.kt:240-254 | the k-th abbreviation reaches its own branch and yields the k-th number |
| StwHelpers.MonthToNumberTable | app/src/main/java/com/denizk0461/studip/data/StwParser.kt:240-254 | Jan, Feb, Mar, Apr, Mai, Jun, Jul, Aug, Sep, Okt, Nov, Dez map in that order to the two-digit numbers 01 to 12 |
| StwHelpers.MonthToNumberRecognises | app/src/main/java/com/denizk0461/studip/data/StwParser.kt:240-254 | the result is "00" exactly when the string is not a month abbreviation (both directions) |
| StwHelpers.NormalizeDateTwoTokens | app/src/main/java/com/denizk0461/studip/data/StwParser.kt:108-117 | a label d + " " + m with no space in either part is stored as d, then the month number of m, then "." |
| StwHelpers.NormalizeDate | app/src/main/java/com/denizk0461/studip/data/StwParser.kt:108-117 | the date cannot be formed (`rawDate[1]` is missing) exactly when the label has no space; a date that is formed ends in "." after at least two characters |
| StwHelpers.NormalizeDateMonth | app/src/main/java/com/denizk0461/studip/data/StwParser.kt:108-117 | a label d + " " + the k-th abbreviation is stored as d, then the two digits of k + 1, then "." |
| StwHelpers.NormalizeDateExampleApr | app/src/main/java/com/denizk0461/studip/data/StwParser.kt:103-117 | the documented example: "24. Apr" is stored as "24.04." |
| StwHelpers.NormalizeDateExampleUnknown | app/src/main/java/com/denizk0461/studip/data/StwParser.kt:108-117 | an unknown month falls back: "5. Xyz" is stored as "5.00." |
| StwHelpers.FilteredText | app/src/main/java/com/denizk0461/studip/data/StwParser.kt:200-217 | a title with no "&" is returned unchanged, and filtering never makes a title longer |
| StwHelpers.FilteredTextAmpersand | app/src/main/java/com/denizk0461/studip/data/StwParser.kt:200-217 | an "&amp;" between entity-free text followed by a space becomes a plain "&", and the rest of the text is kept |
| StwHelpers.FilteredTextExample | app/src/main/java/com/denizk0461/studip/data/StwParser.kt:194-217 | "Chicken &amp; Rice" becomes "Chicken & Rice" |
| StwHelpers.AmpersandKept | app/src/main/java/com/denizk0461/studip/data/StwParser.kt:204-205 | the later replacements leave a lone "&" followed by a space alone |
| StwHelpers.FilteredTextDecodesTwice | app/src/main/java/com/denizk0461/studip/data/StwParser.kt:202-205 | the replacements are chained in the order &amp;, &gt;, &lt;, so "&amp;lt;" becomes "<" |
| StwHelpers.IsDietaryPreferenceMet | app/src/main/java/com/denizk0461/studip/data/StwParser.kt:190-191 | a preference is met when its pictogram address is among the `src` values of the fragment |
| StwHelpers.Markers | app/src/main/java/com/denizk0461/studip/data/StwParser.kt:257-266 | the ten pictogram addresses, one per dietary flag |
| StwHelpers.Flags | app/src/main/java/com/denizk0461/studip/data/StwParser.kt:146-157 | the ten dietary flags in the order of the constructor call |
| StwHelpers.DietaryPrefs | app/src/main/java/com/denizk0461/studip/data/StwParser.kt:146-157 | the ten flags of an item, each read from the fragment with its own pictogram address |
| StwHelpers.DietaryPrefsExact | app/src/main/java/com/denizk0461/studip/data/StwParser.kt:146-157 | DietaryPrefs: flag k is set exactly when the k-th pictogram address is among the `src` values of the food-types fragment |
| StwHelpers.StwPictogramsDistinct | app/src/main/java/com/denizk0461/studip/data/StwParser.kt:257-266 | the ten image-link constants are pairwise different |
| StwHelpers.DietaryPrefsIndependent | app/src/main/java/com/denizk0461/studip/data/StwParser.kt:146-157 | with the canteen's pictograms, every one of the 1024 flag combinations is read back from the fragment that shows exactly its pictograms |
| Text.ReplaceAll | app/src/main/java/com/denizk0461/studip/data/StwParser.kt:202-205 | `replace` changes nothing when the pattern's first character does not occur, and replacing by something no longer than the pattern never makes the string longer |
| Text.ReplaceAllSkips | app/src/main/java/com/denizk0461/studip/data/StwParser.kt:202-205 | `replace` leaves a prefix alone when the pattern's first character does not occur in it |
| Text.ReplaceAllFirstOccurrence | app/src/main/java/com/denizk0461/studip/data/StwParser.kt:202-205 | `replace` substitutes the first occurrence of the pattern, wherever it is (no occurrence starts earlier), and scanning goes on after it, so occurrences never overlap |
| Text.Split | app/src/main/java/com/denizk0461/studip/data/StwParser.kt:109 | `split(" ")` always yields at least one part, no part holds the separator, and there are two or more parts exactly when the string holds the separator |
| Text.JoinSplit | app/src/main/java/com/denizk0461/studip/data/StwParser.kt:109 | joining the parts of `split(" ")` with the separator gives back the label |
| Text.JoinPrepend | app/src/main/java/com/denizk0461/studip/data/StwParser.kt:109 | a character put in front of the first part is put in front of the join |
| Text.SplitWithoutSeparator | app/src/main/java/com/denizk0461/studip/data/StwParser.kt:109 | a label without a space splits into itself alone |
| Text.SplitFirstPart | app/src/main/java/com/denizk0461/studip/data/StwParser.kt:109 | a part without a separator, followed by a separator and the rest, splits into that part followed by the parts of the rest |
| Text.SplitJoin | app/src/main/java/com/denizk0461/studip/data/StwParser.kt:109 | splitting the join of separator-free parts gives back the parts |
| Offers.AppRepository.constructor | app/src/main/java/com/denizk0461/studip/data/StwParser.kt:85-87 | a repository starts with nothing logged |
| Offers.AppRepository.NukeOffers | app/src/main/java/com/denizk0461/studip/data/StwParser.kt:61 | the clear is appended to the log, and the log is not otherwise changed |
| Offers.AppRepository.Insert | app/src/main/java/com/denizk0461/studip/data/StwParser.kt:98 | the insert of the given record is appended to the log, and the log is not otherwise changed |
| Offers.Stored | app/src/main/java/com/denizk0461/studip/data/StwParser.kt:60-61 | what is stored after replaying a log has at most one offer per call |
| Offers.InsertedOffers | app/src/main/java/com/denizk0461/studip/data/StwParser.kt:98 | the offers inserted by a log, at most one per call |
| Offers.StoredAfterClear | app/src/main/java/com/denizk0461/studip/data/StwParser.kt:60-61 | after a clear followed by inserts only, what is stored is exactly what was inserted since, whatever was stored before |
| StwSpec.ParseItem | app/src/main/java/com/denizk0461/studip/data/StwParser.kt:139-168 | a row yields its item exactly when it has a food-types fragment and a title cell; the food types are looked up first; the item is keyed with the current itemId and names the current categoryId |
| StwSpec.RowEffect | app/src/main/java/com/denizk0461/studip/data/StwParser.kt:137-172 | a row changes only itemId, and by at most one |
| StwSpec.RowWithoutPrice | app/src/main/java/com/denizk0461/studip/data/StwParser.kt:227-231 | a row with only two cells cannot give `tableRows[2]`; its item is stored with the price "" and all else as usual, then itemId is incremented |
| StwSpec.RowWithPrice | app/src/main/java/com/denizk0461/studip/data/StwParser.kt:160-168 | a row with a third cell stores the item with the current keys, the filtered title, that cell's text as its price and the pictogram flags, then increments itemId |
| StwSpec.RowsEffect | app/src/main/java/com/denizk0461/studip/data/StwParser.kt:135-172 | the rows of a table body change only itemId, and never decrease it |
| StwSpec.CategoryEffect | app/src/main/java/com/denizk0461/studip/data/StwParser.kt:127-175 | a category keeps dateId and canteenId, raises categoryId by at most one and never lowers itemId |
| StwSpec.CategoriesEffect | app/src/main/java/com/denizk0461/studip/data/StwParser.kt:127-175 | the categories of a day keep dateId and canteenId and never lower categoryId or itemId |
| StwSpec.DateOf | app/src/main/java/com/denizk0461/studip/data/StwParser.kt:108-117 | the date of day plan dateId is found exactly when there is a tabs element with a label at that position that holds a space; with no tabs element the failure is the missing tabs |
| StwSpec.DayEffect | app/src/main/java/com/denizk0461/studip/data/StwParser.kt:101-178 | a day plan keeps canteenId, raises dateId by at most one and never lowers the other counters |
| StwSpec.DatedDayEffect | app/src/main/java/com/denizk0461/studip/data/StwParser.kt:117-178 | the same, once the date has been looked up |
| StwSpec.DaysEffect | app/src/main/java/com/denizk0461/studip/data/StwParser.kt:101-178 | the day plans of a page keep canteenId and never lower the other counters |
| StwSpec.PageEffect | app/src/main/java/com/denizk0461/studip/data/StwParser.kt:87-181 | a page raises canteenId by at most one, leaves dateId non-negative and never lowers categoryId or itemId |
| StwSpec.RunEffect | app/src/main/java/com/denizk0461/studip/data/StwParser.kt:71-75 | a run over the pages never lowers canteenId, categoryId or itemId |
| StwSpec.RowsStep | app/src/main/java/com/denizk0461/studip/data/StwParser.kt:137 | one more row continues from where the rows before it left off |
| StwSpec.CategoriesStep | app/src/main/java/com/denizk0461/studip/data/StwParser.kt:127 | one more category continues from where the categories before it left off |
| StwSpec.DaysStep | app/src/main/java/com/denizk0461/studip/data/StwParser.kt:101 | one more day plan continues from where the day plans before it left off |
| StwSpec.RunStep | app/src/main/java/com/denizk0461/studip/data/StwParser.kt:71 | one more page continues from where the pages before it left off |
| StwSpec.RowsStopAtFailure | app/src/main/java/com/denizk0461/studip/data/StwParser.kt:137-172 | once a row has thrown, the rows after it change nothing |
| StwSpec.CategoriesStopAtFailure | app/src/main/java/com/denizk0461/studip/data/StwParser.kt:127-175 | once a category has thrown, the categories after it change nothing |
| StwSpec.DaysStopAtFailure | app/src/main/java/com/denizk0461/studip/data/StwParser.kt:101-178 | once a day plan has thrown, the day plans after it change nothing |
| StwSpec.RunStopsAtFailure | app/src/main/java/com/denizk0461/studip/data/StwParser.kt:71-75 | once a page has thrown, the pages after it change nothing |
| StwParser.StwParser.constructor | app/src/main/java/com/denizk0461/studip/data/StwParser.kt:13-25 | a new parser has all four counters at 0, and the pictogram table is the ten image-link constants |
| StwParser.StwParser.Parse | app/src/main/java/com/denizk0461/studip/data/StwParser.kt:34-79 | the counters are reset, a clear is logged and then every record of the run over the canteen pages; the counters end where the run leaves them; the completion callback is reached exactly when no page failed |
| StwParser.StwParser.ParseFromPage | app/src/main/java/com/denizk0461/studip/data/StwParser.kt:87-181 | dateId restarts at 0; the page's records are logged (canteen under the second pane title, then its day plans); the counters and the failure are those of PageEffect |
| StwParser.StwParser.ParseDayPlans | app/src/main/java/com/denizk0461/studip/data/StwParser.kt:101-178 | the day plans, in page order, up to the first failure: the log, the counters and the failure are those of DaysEffect |
| StwParser.StwParser.ParseDayPlan | app/src/main/java/com/denizk0461/studip/data/StwParser.kt:103-177 | the date at position dateId, then the day's categories, then dateId + 1: the log, the counters and the failure are those of DayEffect |
| StwParser.StwParser.ParseCategories | app/src/main/java/com/denizk0461/studip/data/StwParser.kt:127-175 | the categories of a day, in order, up to the first failure: the log, the counters and the failure are those of CategoriesEffect |
| StwParser.StwParser.ParseCategory | app/src/main/java/com/denizk0461/studip/data/StwParser.kt:129-174 | the category record with the current dateId and canteenId, its rows, then categoryId + 1: the log, the counters and the failure are those of CategoryEffect |
| StwParser.StwParser.ParseRows | app/src/main/java/com/denizk0461/studip/data/StwParser.kt:135-172 | one item per row with the current itemId and categoryId, then itemId + 1, up to the first malformed row: the log, the counters and the failure are those of RowsEffect |
| StwProperties.IdsOf | app/src/main/java/com/denizk0461/studip/data/StwParser.kt:98-168 | the keys of one kind of record in a log, at most one per call |
| StwProperties.IdsOfAppend | app/src/main/java/com/denizk0461/studip/data/StwParser.kt:98-168 | the keys of a concatenated log are those of its parts, in order |
| StwProperties.InsertsFromAppend | app/src/main/java/com/denizk0461/studip/data/StwParser.kt:98-168 | two logs that insert at a level or deeper do so together |
| StwProperties.InsertsFromWiden | app/src/main/java/com/denizk0461/studip/data/StwParser.kt:98-168 | what inserts at a level or deeper also inserts at any shallower bound |
| StwProperties.InsertsFromHeader | app/src/main/java/com/denizk0461/studip/data/StwParser.kt:98-168 | a header record followed by deeper records inserts at the header's level |
| StwProperties.InsertsFromNeverClears | app/src/main/java/com/denizk0461/studip/data/StwParser.kt:61 | a log of inserts holds no clear |
| StwProperties.NoIdsAbove | app/src/main/java/com/denizk0461/studip/data/StwParser.kt:98-168 | a log that inserts only deeper records holds no keys of a shallower kind |
| StwProperties.Range | app/src/main/java/com/denizk0461/studip/data/StwParser.kt:171-180 | the consecutive keys from lo below hi: hi - lo of them, none when hi < lo |
| StwProperties.RangeAt | app/src/main/java/com/denizk0461/studip/data/StwParser.kt:171-180 | the i-th key of a range is lo + i |
| StwProperties.RangeAppend | app/src/main/java/com/denizk0461/studip/data/StwParser.kt:171-180 | consecutive ranges join into one |
| StwProperties.RangeStrictlyIncreasing | app/src/main/java/com/denizk0461/studip/data/StwParser.kt:171-180 | later keys of a range are larger, so no key repeats |
| StwProperties.NumberedThen | app/src/main/java/com/denizk0461/studip/data/StwParser.kt:170-180 | two consecutively numbered stretches, the first successful, are numbered together |
| StwProperties.NumberedHeader | app/src/main/java/com/denizk0461/studip/data/StwParser.kt:98-168 | a header record contributes its own key, of its own kind only, before the keys of the rest |
| StwProperties.RowShape | app/src/main/java/com/denizk0461/studip/data/StwParser.kt:137-172 | a row inserts at most one item, keyed with the current itemId; a failure in it is an item-level failure |
| StwProperties.RowsShape | app/src/main/java/com/denizk0461/studip/data/StwParser.kt:135-172 | the rows insert only items, keyed consecutively from itemId; without a failure itemId rises by the number of rows |
| StwProperties.CategoryShape | app/src/main/java/com/denizk0461/studip/data/StwParser.kt:127-175 | a category inserts nothing above category level; without a failure itemId rises by its row count and categoryId by one |
| StwProperties.CategoryNumbered | app/src/main/java/com/denizk0461/studip/data/StwParser.kt:129-174 | a category's category and item keys run consecutively on from the counters it starts with |
| StwProperties.CategoryWithoutBody | app/src/main/java/com/denizk0461/studip/data/StwParser.kt:132-136 | a category without a table body inserts only its header, keyed with the current categoryId |
| StwProperties.CategoryHeaderKey | app/src/main/java/com/denizk0461/studip/data/StwParser.kt:132-174 | a category record keyed categoryId, then items, numbers categories from categoryId |
| StwProperties.CategoryItemKeys | app/src/main/java/com/denizk0461/studip/data/StwParser.kt:132-172 | the header does not disturb the consecutive numbering of the items below it |
| StwProperties.CategoriesShape | app/src/main/java/com/denizk0461/studip/data/StwParser.kt:127-175 | the categories of a day insert nothing above category level; without a failure categoryId rises by their number and itemId by their rows |
| StwProperties.CategoriesNumbered | app/src/main/java/com/denizk0461/studip/data/StwParser.kt:127-175 | category and item keys run consecutively through the categories of a day |
| StwProperties.DayShape | app/src/main/java/com/denizk0461/studip/data/StwParser.kt:101-178 | a day plan inserts nothing above date level; without a failure dateId rises by one, and categoryId and itemId by the day's totals |
| StwProperties.DatedDayShape | app/src/main/java/com/denizk0461/studip/data/StwParser.kt:117-178 | the same, once the date has been looked up |
| StwProperties.DayNumbered | app/src/main/java/com/denizk0461/studip/data/StwParser.kt:124-177 | a day plan's date, category and item keys run on from the counters it starts with |
| StwProperties.DatedDayNumbered | app/src/main/java/com/denizk0461/studip/data/StwParser.kt:124-177 | the same, once the date has been looked up |
| StwProperties.DaysShape | app/src/main/java/com/denizk0461/studip/data/StwParser.kt:101-178 | the day plans insert nothing above date level; without a failure dateId rises by their number, and categoryId and itemId by their totals |
| StwProperties.DaysNumbered | app/src/main/java/com/denizk0461/studip/data/StwParser.kt:101-178 | date, category and item keys run consecutively through the day plans |
| StwProperties.PageShape | app/src/main/java/com/denizk0461/studip/data/StwParser.kt:87-181 | a page inserts only records; a page that gets through was fetched, ends with dateId equal to its number of day plans and raises canteenId by one |
| StwProperties.PageOfDays | app/src/main/java/com/denizk0461/studip/data/StwParser.kt:92-181 | a fetched page with a second pane title logs its canteen record, then its day plans from dateId 0 |
| StwProperties.PageNumbered | app/src/main/java/com/denizk0461/studip/data/StwParser.kt:92-180 | on a page, dates are keyed 0, 1, … by position, so the date key of a day plan is its position; the canteen and the other kinds are numbered on from the counters |
| StwProperties.RunShape | app/src/main/java/com/denizk0461/studip/data/StwParser.kt:39-79 | a run inserts only records; without a failure the counters rise by the total rows, the total categories and the number of pages |
| StwProperties.RunNumbered | app/src/main/java/com/denizk0461/studip/data/StwParser.kt:39-79 | canteens, categories and items are keyed consecutively across all pages of a run |
| StwReferences.ReplayAppend | app/src/main/java/com/denizk0461/studip/data/StwParser.kt:98-168 | replaying a concatenated log replays its parts in turn |
| StwReferences.ReplayOne | app/src/main/java/com/denizk0461/studip/data/StwParser.kt:98-168 | replaying one call is one step |
| StwReferences.ReplayHeader | app/src/main/java/com/denizk0461/studip/data/StwParser.kt:98-168 | a header record opens its scope for the records after it |
| StwReferences.ReplayAfterClear | app/src/main/java/com/denizk0461/studip/data/StwParser.kt:61 | whatever was logged before, a clear starts the replay afresh |
| StwReferences.RowsReferences | app/src/main/java/com/denizk0461/studip/data/StwParser.kt:160-168 | every item of a table body names the open category, the one keyed with the current categoryId |
| StwReferences.CategoryReferences | app/src/main/java/com/denizk0461/studip/data/StwParser.kt:132-172 | a category record names the open date and canteen, and its items name it |
| StwReferences.CategoriesReferences | app/src/main/java/com/denizk0461/studip/data/StwParser.kt:127-175 | every category of a day names the open date and canteen |
| StwReferences.DayReferences | app/src/main/java/com/denizk0461/studip/data/StwParser.kt:101-178 | a day plan's date comes inside the open canteen, and its categories name that date |
| StwReferences.DatedDayReferences | app/src/main/java/com/denizk0461/studip/data/StwParser.kt:117-178 | the same, once the date has been looked up |
| StwReferences.DaysReferences | app/src/main/java/com/denizk0461/studip/data/StwParser.kt:101-178 | every day plan of a page fits the open canteen |
| StwReferences.PageReferences | app/src/main/java/com/denizk0461/studip/data/StwParser.kt:87-181 | a page's canteen record comes before its dates, categories and items, and all of them fit |
| StwReferences.RunReferences | app/src/main/java/com/denizk0461/studip/data/StwParser.kt:71-75 | every record of a run fits the scope of the records before it |
| StwSuccess.RowSucceeds | app/src/main/java/com/denizk0461/studip/data/StwParser.kt:139-165 | a row gets through exactly when it has a food-types fragment and a title cell; a missing price cell does not abort it |
| StwSuccess.RowsSucceed | app/src/main/java/com/denizk0461/studip/data/StwParser.kt:135-172 | a table body gets through exactly when every row does |
| StwSuccess.CategorySucceeds | app/src/main/java/com/denizk0461/studip/data/StwParser.kt:127-175 | a category gets through exactly when it has a name, a table body and rows that get through |
| StwSuccess.CategoriesSucceed | app/src/main/java/com/denizk0461/studip/data/StwParser.kt:127-175 | the categories of a day get through exactly when each one does |
| StwSuccess.DaySucceeds | app/src/main/java/com/denizk0461/studip/data/StwParser.kt:101-178 | a day plan gets through exactly when its date is found and its categories get through |
| StwSuccess.DaysSucceed | app/src/main/java/com/denizk0461/studip/data/StwParser.kt:101-178 | the day plans get through exactly when each finds its date at its own position and parses |
| StwSuccess.PageSucceeds | app/src/main/java/com/denizk0461/studip/data/StwParser.kt:87-181 | a page gets through exactly when it is fetched, has at least two pane titles and all its day plans parse |
| StwSuccess.RunSucceeds | app/src/main/java/com/denizk0461/studip/data/StwParser.kt:71-78 | a run gets through exactly when every page does |
| StwSuccess.PageNeedsDates | app/src/main/java/com/denizk0461/studip/data/StwParser.kt:98-109 | a page that parses has at least as many tab dates as day plans, each with a space |
| StwSuccess.DaysParsableAt | app/src/main/java/com/denizk0461/studip/data/StwParser.kt:108-109 | the i-th day plan of a parsable sequence finds its date at position from + i |
| StwRun.ParseClearsFirst | app/src/main/java/com/denizk0461/studip/data/StwParser.kt:60-75 | after `parse` the clear precedes every insert of the run, so exactly the run's records are stored |
| StwRun.ParseNumbersKeys | app/src/main/java/com/denizk0461/studip/data/StwParser.kt:39-180 | after `parse` the item, category and canteen keys are 0, 1, 2, … in insertion order; a header inserted just before a failure keeps the key its counter still holds |
| StwRun.ParseKeysUnique | app/src/main/java/com/denizk0461/studip/data/StwParser.kt:39-180 | no two items, categories or canteens of one run share a key: later ones have larger keys |
| StwRun.ParseReferences | app/src/main/java/com/denizk0461/studip/data/StwParser.kt:61-168 | after the clear every date follows an inserted canteen, every category names the date and canteen inserted last before it, and every item the category inserted last before it |
| StwRun.ParseFinishes | app/src/main/java/com/denizk0461/studip/data/StwParser.kt:39-180 | `onFinish` is reached exactly when every page parses; then itemId is the total row count, categoryId the total category count and canteenId the number of pages |
| StudIPEvents.TimeslotAsWritten | app/src/main/java/com/denizk0461/studip/data/StudIPEvent.kt:12-16 | the timeslot as written, start[timeslotStart] + " – " + end[timeslots - 1], is defined exactly when 0 <= timeslotStart < 6 and 1 <= timeslots <= 6 |
| StudIPEvents.Timeslot | app/src/main/java/com/denizk0461/studip/data/StudIPEvent.kt:8-16 | the intended timeslot, ending at the end of the last slot, is defined exactly when the slots lie within the six of the day |
| StudIPEvents.SlotLasts90 | app/src/main/java/com/denizk0461/studip/data/StudIPEvent.kt:8-13 | each end time is 90 minutes after the start time at the same index, and slot k starts at 08:15 + 2k hours |
| StudIPEvents.TimeslotSpansSlots | app/src/main/java/com/denizk0461/studip/data/StudIPEvent.kt:8-16 | the intended range reads "HH:MM – HH:MM": it starts when the first slot starts, and it lasts k slots of 90 minutes plus the k - 1 breaks of 30 minutes between them |
| StudIPEvents.TimeslotAsWrittenRightOnlyFromFirstSlot | app/src/main/java/com/denizk0461/studip/data/StudIPEvent.kt:15-16 | the computed range is the intended one exactly for events that start in the first slot |
| StudIPEvents.TimeslotAsWrittenEndsBeforeStart | app/src/main/java/com/denizk0461/studip/data/StudIPEvent.kt:15-16 | a one-slot event starting at 10:15 is shown as "10:15 – 09:45", ending before it starts |
| StudIPEvents.Equals | app/src/main/java/com/denizk0461/studip/data/StudIPEvent.kt:18-28 | two events are equal exactly when their titles are equal and their lecturer arrays hold the same strings in the same order |
| StudIPEvents.EqualsAny | app/src/main/java/com/denizk0461/studip/data/StudIPEvent.kt:18-28 | `equals` on an arbitrary argument: true exactly when it is an event with the same title and lecturers (null and other classes are unequal) |
| StudIPEvents.EqualsIsEquivalence | app/src/main/java/com/denizk0461/studip/data/StudIPEvent.kt:18-28 | equality is reflexive, symmetric and transitive |
| StudIPEvents.EqualsIgnoresPlace | app/src/main/java/com/denizk0461/studip/data/StudIPEvent.kt:18-28 | room, day, timeslotStart and timeslots play no part in equality |
| StudIPEvents.EqualsIgnoresNothingElse | app/src/main/java/com/denizk0461/studip/data/StudIPEvent.kt:18-28 | a different title or different lecturers make events unequal, also when compared as an arbitrary object |
| StudIPEvents.Int32 | app/src/main/java/com/denizk0461/studip/data/StudIPEvent.kt:29-33 | Kotlin Int arithmetic: the value in [-2^31, 2^31) that is congruent modulo 2^32 |
| StudIPEvents.Int32Congruent | app/src/main/java/com/denizk0461/studip/data/StudIPEvent.kt:29-33 | values that differ by a multiple of 2^32 wrap to the same Int |
| StudIPEvents.CodeUnits | app/src/main/java/com/denizk0461/studip/data/StudIPEvent.kt:30 | a character is one or two UTF-16 code units, each below 2^16 |
| StudIPEvents.StringHashes | app/src/main/java/com/denizk0461/studip/data/StudIPEvent.kt:31 | one hash per lecturer |
| StudIPEvents.HashFoldIsWrappedHorner | app/src/main/java/com/denizk0461/studip/data/StudIPEvent.kt:29-33 | wrapping after every step of the hash loop equals wrapping the exact base-31 value once |
| StudIPEvents.StringHash | app/src/main/java/com/denizk0461/studip/data/StudIPEvent.kt:29-33 | String.hashCode: the base-31 value of the UTF-16 code units, as an Int |
| StudIPEvents.ArrayContentHash | app/src/main/java/com/denizk0461/studip/data/StudIPEvent.kt:29-33 | contentHashCode of the lecturer array: the base-31 value of the element hashes after a leading 1, as an Int |
| StudIPEvents.HashCode | app/src/main/java/com/denizk0461/studip/data/StudIPEvent.kt:29-33 | hashCode is 31 * h(title) + h(lecturer), wrapped once to an Int, where h(title) is the base-31 value of the title's UTF-16 units and h(lecturer) that of the element hashes with a leading 1 |
| StudIPEvents.EqualEventsEqualHashes | app/src/main/java/com/denizk0461/studip/data/StudIPEvent.kt:18-33 | equal events have equal hash codes |

## Left out

- Fetching a page (`Jsoup.connect(url).get()`) is network I/O. It is the parameter `fetch`, and `None` stands for a page that could not be fetched.
- Jsoup's element lookup, `text()` and `html()` are foreign code. The `Document` datatype holds, for each lookup the parser makes, the list that lookup returns.
- One lookup is simplified. The model reads the food-types fragment as the set of the `src` values inside it, and `isDietaryPreferenceMet` is membership in that set.
- `DietaryPrefObject.deconstruct()` is not part of this model, because its definition is not available. The item keeps the ten flags as a record.
- The storage engine behind `AppRepository` is not part of this model. The repository appears only as the log of the `nukeOffers` and `insert` calls it receives.
- `onRefreshUpdate` has no effect in the source and is left out. `onFinish` is the boolean `finished` that `Parse` returns.
- Only `urlUniMensa` is added to `links`; the other nine URL constants are unused, so they are left out. `Links` holds the one page that is fetched.
- The commented-out `<sup>` stripping is left out, because it is not code.
- The counters are Kotlin `Int`s. Their wrap-around after 2^31 records is not modelled, because no run inserts that many records.
- The record types come from the `model` package, which is not part of this model. Their fields are taken from the constructor calls in the parser. An `OfferDate` therefore carries only its key and its date, with no canteen.
- The `when` in `monthToNumber` is written as a walk over the month table in branch order. The results are the same, and MonthToNumberTable, MonthToNumberRecognises and MonthFromFinds state them.
- The Android fragments, the time picker, the settings keys and the view model are UI and background threading. They are not part of this model.
- The identity test `this === other` in `equals` is not modelled. An object is always equal to itself under the field comparison too, so the test changes no result.
- The `javaClass` test in `equals` is folded into the datatype: `EqualsAny` takes `None` for null or an object of another class.

## Findings

| source | as written | input that shows it | evidently intended | confidence | as-written member | corrected member |
|---|---|---|---|---|---|---|
| app/src/main/java/com/denizk0461/studip/data/StudIPEvent.kt:15-16 | the end time is `timeSlotEndTimes[timeslots - 1]`, which indexes the end table by the number of slots alone | timeslotStart = 1, timeslots = 1 gives "10:15 – 09:45" | the end of the last slot the event takes, `timeSlotEndTimes[timeslotStart + timeslots - 1]` | high; not executed | StudIPEvents.TimeslotAsWrittenEndsBeforeStart | StudIPEvents.TimeslotSpansSlots |

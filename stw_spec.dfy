/**
 * What parsing does, as functions of the fetched pages and of the counters it starts with.
 * Every stretch of parsing is described by an Effect: the entries it appends to the
 * repository's log, the counters afterwards and the failure that stopped it, if any. A
 * failure aborts everything above it, so the entries appended before it stay in the log.
 * Sequences are folded from the back, the way a loop over them grows its done part.
 */
module StwSpec {
  import opened Wrappers
  import opened Document
  import opened StwHelpers
  import opened Offers

  /** The four surrogate-key counters of the parser. */
  datatype Counters = Counters(dateId: int, canteenId: int, categoryId: int, itemId: int)

  const Zero := Counters(0, 0, 0, 0)

  /** Why parsing stops: the page could not be fetched, or a position the parser looks up is missing. */
  datatype Failure =
    | FetchFailed(url: string)
    | MissingPaneTitle
    | MissingTabs
    | MissingTabDate(index: int)
    | MalformedDate(tabLabel: string)
    | MissingCategoryName
    | MissingTableBody
    | MissingFoodTypes
    | MissingTitleCell

  datatype Effect = Effect(records: seq<Entry>, next: Counters, error: Option<Failure>)

  /** The canteen pages that are fetched, in order. */
  const UrlUniMensa := "https://www.stw-bremen.de/de/mensa/uni-mensa"

  const Links: seq<string> := [UrlUniMensa]

  /**
   * The item of one table row: the food-types fragment must exist and so must the title
   * cell (index 1); the price cell (index 2) may be missing.
   */
  function ParseItem(row: Row, c: Counters, links: PictogramLinks): (r: Result<OfferItem, Failure>)
    ensures r.Ok? <==> |row.foodTypes| > 0 && |row.cells| >= 2
    ensures |row.foodTypes| == 0 ==> r == Err(MissingFoodTypes)
    ensures r.Ok? ==> r.value.id == c.itemId && r.value.categoryId == c.categoryId
  {
    if |row.foodTypes| == 0 then Err(MissingFoodTypes)
    else if |row.cells| < 2 then Err(MissingTitleCell)
    else Ok(OfferItem(c.itemId, c.categoryId, FilteredText(row.cells[1].html), TextOrEmpty(row.cells, 2),
                      DietaryPrefs(row.foodTypes[0], links)))
  }

  /** The records, counters and outcome of `next` run after a successful `prev`. */
  function Then(prev: Effect, next: Effect): Effect
  {
    Effect(prev.records + next.records, next.next, next.error)
  }

  /** One table row: its item record, then an increment of itemId. */
  function RowEffect(row: Row, c: Counters, links: PictogramLinks): (e: Effect)
    ensures e.next == c.(itemId := e.next.itemId) && c.itemId <= e.next.itemId <= c.itemId + 1
  {
    match ParseItem(row, c, links)
    case Err(f) => Effect([], c, Some(f))
    case Ok(item) => Effect([Inserted(ItemOffer(item))], c.(itemId := c.itemId + 1), None)
  }

  /** The rows of a category's table, in order, until the first malformed one. */
  function RowsEffect(rows: seq<Row>, c: Counters, links: PictogramLinks): (e: Effect)
    ensures e.next == c.(itemId := e.next.itemId) && c.itemId <= e.next.itemId
    decreases |rows|
  {
    if rows == [] then Effect([], c, None)
    else
      var prev := RowsEffect(rows[..|rows| - 1], c, links);
      if prev.error.Some? then prev
      else Then(prev, RowEffect(rows[|rows| - 1], prev.next, links))
  }

  /** A category: its record, the rows of its first table body, then an increment of categoryId. */
  function CategoryEffect(cat: Category, c: Counters, links: PictogramLinks): (e: Effect)
    ensures e.next.dateId == c.dateId && e.next.canteenId == c.canteenId
    ensures c.categoryId <= e.next.categoryId <= c.categoryId + 1 && c.itemId <= e.next.itemId
  {
    if |cat.names| == 0 then Effect([], c, Some(MissingCategoryName))
    else
      var header := [Inserted(CategoryOffer(OfferCategory(c.categoryId, c.dateId, c.canteenId, cat.names[0])))];
      if |cat.bodies| == 0 then Effect(header, c, Some(MissingTableBody))
      else
        var rows := RowsEffect(cat.bodies[0], c, links);
        if rows.error.Some? then Effect(header + rows.records, rows.next, rows.error)
        else Effect(header + rows.records, rows.next.(categoryId := c.categoryId + 1), None)
  }

  function CategoriesEffect(cats: seq<Category>, c: Counters, links: PictogramLinks): (e: Effect)
    ensures e.next.dateId == c.dateId && e.next.canteenId == c.canteenId
    ensures c.categoryId <= e.next.categoryId && c.itemId <= e.next.itemId
    decreases |cats|
  {
    if cats == [] then Effect([], c, None)
    else
      var prev := CategoriesEffect(cats[..|cats| - 1], c, links);
      if prev.error.Some? then prev
      else
        Then(prev, CategoryEffect(cats[|cats| - 1], prev.next, links))
  }

  /**
   * The stored date of the day plan with number `dateId`: the tab-date of that position in
   * the first "tabs" element, normalised.
   */
  function DateOf(page: Page, dateId: int): (r: Result<string, Failure>)
    ensures r.Ok? <==> |page.tabs| > 0 && 0 <= dateId < |page.tabs[0]| && ' ' in page.tabs[0][dateId]
    ensures |page.tabs| == 0 ==> r == Err(MissingTabs)
  {
    if |page.tabs| == 0 then Err(MissingTabs)
    else if !(0 <= dateId < |page.tabs[0]|) then Err(MissingTabDate(dateId))
    else match NormalizeDate(page.tabs[0][dateId])
      case None => Err(MalformedDate(page.tabs[0][dateId]))
      case Some(date) => Ok(date)
  }

  /** A day plan: its date record, its categories, then an increment of dateId. */
  function DayEffect(page: Page, day: DayPlan, c: Counters, links: PictogramLinks): (e: Effect)
    ensures e.next.canteenId == c.canteenId && c.dateId <= e.next.dateId <= c.dateId + 1
    ensures c.categoryId <= e.next.categoryId && c.itemId <= e.next.itemId
  {
    DatedDayEffect(DateOf(page, c.dateId), day, c, links)
  }

  /** A day plan once its date has been looked up. */
  function DatedDayEffect(date: Result<string, Failure>, day: DayPlan, c: Counters, links: PictogramLinks): (e: Effect)
    ensures e.next.canteenId == c.canteenId && c.dateId <= e.next.dateId <= c.dateId + 1
    ensures c.categoryId <= e.next.categoryId && c.itemId <= e.next.itemId
  {
    match date
    case Err(f) => Effect([], c, Some(f))
    case Ok(date) =>
      var header := [Inserted(DateOffer(OfferDate(c.dateId, date)))];
      var cats := CategoriesEffect(day.categories, c, links);
      if cats.error.Some? then Effect(header + cats.records, cats.next, cats.error)
      else Effect(header + cats.records, cats.next.(dateId := c.dateId + 1), None)
  }

  function DaysEffect(page: Page, days: seq<DayPlan>, c: Counters, links: PictogramLinks): (e: Effect)
    ensures e.next.canteenId == c.canteenId && c.dateId <= e.next.dateId
    ensures c.categoryId <= e.next.categoryId && c.itemId <= e.next.itemId
    decreases |days|
  {
    if days == [] then Effect([], c, None)
    else
      var prev := DaysEffect(page, days[..|days| - 1], c, links);
      if prev.error.Some? then prev
      else
        Then(prev, DayEffect(page, days[|days| - 1], prev.next, links))
  }

  /**
   * One canteen page: dateId restarts at 0, the page is fetched, the canteen record is
   * inserted under the second pane title, the day plans follow, then canteenId is incremented.
   */
  function PageEffect(url: string, fetched: Option<Page>, c: Counters, links: PictogramLinks): (e: Effect)
    ensures c.canteenId <= e.next.canteenId <= c.canteenId + 1 && 0 <= e.next.dateId
    ensures c.categoryId <= e.next.categoryId && c.itemId <= e.next.itemId
  {
    var start := c.(dateId := 0);
    match fetched
    case None => Effect([], start, Some(FetchFailed(url)))
    case Some(page) =>
      if |page.paneTitles| < 2 then Effect([], start, Some(MissingPaneTitle))
      else
        var header := [Inserted(CanteenOffer(OfferCanteen(c.canteenId, page.paneTitles[1])))];
        var days := DaysEffect(page, page.dayPlans, start, links);
        if days.error.Some? then Effect(header + days.records, days.next, days.error)
        else Effect(header + days.records, days.next.(canteenId := c.canteenId + 1), None)
  }

  /** The pages behind `urls`, in order, each fetched with `fetch`, until the first failure. */
  function RunEffect(urls: seq<string>, fetch: string -> Option<Page>, c: Counters, links: PictogramLinks): (e: Effect)
    ensures c.canteenId <= e.next.canteenId && c.categoryId <= e.next.categoryId && c.itemId <= e.next.itemId
    decreases |urls|
  {
    if urls == [] then Effect([], c, None)
    else
      var prev := RunEffect(urls[..|urls| - 1], fetch, c, links);
      if prev.error.Some? then prev
      else
        var url := urls[|urls| - 1];
        Then(prev, PageEffect(url, fetch(url), prev.next, links))
  }

  lemma AppendAssoc<T>(a: seq<T>, b: seq<T>, c: seq<T>)
    ensures a + b + c == a + (b + c)
  {
  }

  /** A row of two cells has no price cell: its item is stored with an empty price. */
  lemma RowWithoutPrice(row: Row, c: Counters, links: PictogramLinks)
    requires |row.foodTypes| > 0 && |row.cells| == 2
    ensures RowEffect(row, c, links)
         == Effect([Inserted(ItemOffer(OfferItem(c.itemId, c.categoryId, FilteredText(row.cells[1].html), "",
                                                 DietaryPrefs(row.foodTypes[0], links))))],
                   c.(itemId := c.itemId + 1), None)
  {
  }

  /** A row with a third cell stores that cell's text as the price. */
  lemma RowWithPrice(row: Row, c: Counters, links: PictogramLinks)
    requires |row.foodTypes| > 0 && |row.cells| >= 3
    ensures RowEffect(row, c, links)
         == Effect([Inserted(ItemOffer(OfferItem(c.itemId, c.categoryId, FilteredText(row.cells[1].html), row.cells[2].text,
                                                 DietaryPrefs(row.foodTypes[0], links))))],
                   c.(itemId := c.itemId + 1), None)
  {
  }

  // One more element: each fold goes on from where the shorter one left off.

  lemma RowsStep(rows: seq<Row>, i: nat, c: Counters, links: PictogramLinks)
    requires i < |rows| && RowsEffect(rows[..i], c, links).error.None?
    ensures RowsEffect(rows[..i + 1], c, links)
         == Then(RowsEffect(rows[..i], c, links), RowEffect(rows[i], RowsEffect(rows[..i], c, links).next, links))
  {
    assert rows[..i + 1][..i] == rows[..i];
  }

  lemma CategoriesStep(cats: seq<Category>, i: nat, c: Counters, links: PictogramLinks)
    requires i < |cats| && CategoriesEffect(cats[..i], c, links).error.None?
    ensures CategoriesEffect(cats[..i + 1], c, links)
         == Then(CategoriesEffect(cats[..i], c, links), CategoryEffect(cats[i], CategoriesEffect(cats[..i], c, links).next, links))
  {
    assert cats[..i + 1][..i] == cats[..i];
  }

  lemma DaysStep(page: Page, days: seq<DayPlan>, i: nat, c: Counters, links: PictogramLinks)
    requires i < |days| && DaysEffect(page, days[..i], c, links).error.None?
    ensures DaysEffect(page, days[..i + 1], c, links)
         == Then(DaysEffect(page, days[..i], c, links), DayEffect(page, days[i], DaysEffect(page, days[..i], c, links).next, links))
  {
    assert days[..i + 1][..i] == days[..i];
  }

  lemma RunStep(urls: seq<string>, i: nat, fetch: string -> Option<Page>, c: Counters, links: PictogramLinks)
    requires i < |urls| && RunEffect(urls[..i], fetch, c, links).error.None?
    ensures RunEffect(urls[..i + 1], fetch, c, links)
         == Then(RunEffect(urls[..i], fetch, c, links), PageEffect(urls[i], fetch(urls[i]), RunEffect(urls[..i], fetch, c, links).next, links))
  {
    assert urls[..i + 1][..i] == urls[..i];
  }

  // Once a fold has failed, the elements after the failure change nothing.

  lemma {:induction false} RowsStopAtFailure(rows: seq<Row>, i: nat, c: Counters, links: PictogramLinks)
    requires i <= |rows| && RowsEffect(rows[..i], c, links).error.Some?
    ensures RowsEffect(rows, c, links) == RowsEffect(rows[..i], c, links)
    decreases |rows| - i
  {
    if i < |rows| {
      var init := rows[..|rows| - 1];
      assert init[..i] == rows[..i];
      RowsStopAtFailure(init, i, c, links);
    } else {
      assert rows[..i] == rows;
    }
  }

  lemma {:induction false} CategoriesStopAtFailure(cats: seq<Category>, i: nat, c: Counters, links: PictogramLinks)
    requires i <= |cats| && CategoriesEffect(cats[..i], c, links).error.Some?
    ensures CategoriesEffect(cats, c, links) == CategoriesEffect(cats[..i], c, links)
    decreases |cats| - i
  {
    if i < |cats| {
      var init := cats[..|cats| - 1];
      assert init[..i] == cats[..i];
      CategoriesStopAtFailure(init, i, c, links);
    } else {
      assert cats[..i] == cats;
    }
  }

  lemma {:induction false} DaysStopAtFailure(page: Page, days: seq<DayPlan>, i: nat, c: Counters, links: PictogramLinks)
    requires i <= |days| && DaysEffect(page, days[..i], c, links).error.Some?
    ensures DaysEffect(page, days, c, links) == DaysEffect(page, days[..i], c, links)
    decreases |days| - i
  {
    if i < |days| {
      var init := days[..|days| - 1];
      assert init[..i] == days[..i];
      DaysStopAtFailure(page, init, i, c, links);
    } else {
      assert days[..i] == days;
    }
  }

  lemma {:induction false} RunStopsAtFailure(urls: seq<string>, i: nat, fetch: string -> Option<Page>, c: Counters, links: PictogramLinks)
    requires i <= |urls| && RunEffect(urls[..i], fetch, c, links).error.Some?
    ensures RunEffect(urls, fetch, c, links) == RunEffect(urls[..i], fetch, c, links)
    decreases |urls| - i
  {
    if i < |urls| {
      var init := urls[..|urls| - 1];
      assert init[..i] == urls[..i];
      RunStopsAtFailure(init, i, fetch, c, links);
    } else {
      assert urls[..i] == urls;
    }
  }
}

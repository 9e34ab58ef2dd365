/**
 * The canteen parser: it clears the stored offers, then walks each canteen page and inserts
 * one record per canteen, day, category and row, numbering them with four counters it keeps
 * in its fields. Each method is proved to do what the matching function of StwSpec says.
 */
module StwParser {
  import opened Wrappers
  import opened Document
  import opened Offers
  import opened StwHelpers
  import opened StwSpec

  class StwParser {
    // Surrogate keys of the next date, canteen, category and item.
    var dateId: int
    var canteenId: int
    var categoryId: int
    var itemId: int
    // The pictogram addresses that mark the dietary preferences.
    const pictograms: PictogramLinks

    function Keys(): Counters
      reads this
    {
      Counters(dateId, canteenId, categoryId, itemId)
    }

    constructor ()
      ensures Keys() == Zero && pictograms == StwPictograms
    {
      dateId, canteenId, categoryId, itemId := 0, 0, 0, 0;
      pictograms := StwPictograms;
    }

    /**
     * Resets all counters, clears the stored offers and parses every canteen page in turn.
     * `fetch` stands for downloading a page; `finished` says whether the completion callback
     * is reached, which happens only when no page failed.
     */
    method Parse(fetch: string -> Option<Page>, repo: AppRepository) returns (finished: bool)
      modifies this, repo
      ensures repo.log == old(repo.log) + [Cleared] + RunEffect(Links, fetch, Zero, pictograms).records
      ensures Keys() == RunEffect(Links, fetch, Zero, pictograms).next
      ensures finished <==> RunEffect(Links, fetch, Zero, pictograms).error.None?
    {
      dateId, canteenId, categoryId, itemId := 0, 0, 0, 0;
      var links: seq<string> := [];
      links := links + [UrlUniMensa];
      repo.NukeOffers();
      ghost var cleared := repo.log;
      var k := 0;
      while k < |links|
        invariant links == Links && 0 <= k <= |links|
        invariant RunEffect(links[..k], fetch, Zero, pictograms).error.None?
        invariant Keys() == RunEffect(links[..k], fetch, Zero, pictograms).next
        invariant repo.log == cleared + RunEffect(links[..k], fetch, Zero, pictograms).records
      {
        ghost var prev := RunEffect(links[..k], fetch, Zero, pictograms);
        var error := ParseFromPage(links[k], fetch, repo);
        RunStep(links, k, fetch, Zero, pictograms);
        AppendAssoc(cleared, prev.records, PageEffect(links[k], fetch(links[k]), prev.next, pictograms).records);
        if error.Some? {
          RunStopsAtFailure(links, k + 1, fetch, Zero, pictograms);
          return false;
        }
        k := k + 1;
      }
      assert links[..k] == links;
      finished := true;
    }

    /** Fetches and parses one canteen page. */
    method ParseFromPage(url: string, fetch: string -> Option<Page>, repo: AppRepository) returns (error: Option<Failure>)
      modifies this, repo
      ensures repo.log == old(repo.log) + PageEffect(url, fetch(url), old(Keys()), pictograms).records
      ensures Keys() == PageEffect(url, fetch(url), old(Keys()), pictograms).next
      ensures error == PageEffect(url, fetch(url), old(Keys()), pictograms).error
    {
      dateId := 0;
      var fetched := fetch(url);
      if fetched.None? {
        return Some(FetchFailed(url));
      }
      var page := fetched.value;
      if |page.paneTitles| < 2 {
        return Some(MissingPaneTitle);
      }
      ghost var before := repo.log;
      var canteen := CanteenOffer(OfferCanteen(canteenId, page.paneTitles[1]));
      repo.Insert(canteen);
      error := ParseDayPlans(page, repo);
      AppendAssoc(before, [Inserted(canteen)], DaysEffect(page, page.dayPlans, old(Keys()).(dateId := 0), pictograms).records);
      if error.None? {
        canteenId := canteenId + 1;
      }
    }

    /** The loop of ParseFromPage over the day plans of a page, left at the first failure. */
    method ParseDayPlans(page: Page, repo: AppRepository) returns (error: Option<Failure>)
      modifies this, repo
      ensures repo.log == old(repo.log) + DaysEffect(page, page.dayPlans, old(Keys()), pictograms).records
      ensures Keys() == DaysEffect(page, page.dayPlans, old(Keys()), pictograms).next
      ensures error == DaysEffect(page, page.dayPlans, old(Keys()), pictograms).error
    {
      ghost var start := Keys();
      ghost var before := repo.log;
      var days := page.dayPlans;
      var i := 0;
      error := None;
      while i < |days| && error.None?
        invariant 0 <= i <= |days|
        invariant error == DaysEffect(page, days[..i], start, pictograms).error
        invariant Keys() == DaysEffect(page, days[..i], start, pictograms).next
        invariant repo.log == before + DaysEffect(page, days[..i], start, pictograms).records
      {
        ghost var prev := DaysEffect(page, days[..i], start, pictograms);
        error := ParseDayPlan(page, days[i], repo);
        DaysStep(page, days, i, start, pictograms);
        AppendAssoc(before, prev.records, DayEffect(page, days[i], prev.next, pictograms).records);
        i := i + 1;
      }
      if error.Some? {
        DaysStopAtFailure(page, days, i, start, pictograms);
      } else {
        assert days[..i] == days;
      }
    }

    /** Parses the day plan whose number is the current dateId. */
    method ParseDayPlan(page: Page, dayPlan: DayPlan, repo: AppRepository) returns (error: Option<Failure>)
      modifies this, repo
      ensures repo.log == old(repo.log) + DayEffect(page, dayPlan, old(Keys()), pictograms).records
      ensures Keys() == DayEffect(page, dayPlan, old(Keys()), pictograms).next
      ensures error == DayEffect(page, dayPlan, old(Keys()), pictograms).error
    {
      var date := DateOf(page, dateId);
      if date.Err? {
        return Some(date.error);
      }
      ghost var before := repo.log;
      var offerDate := DateOffer(OfferDate(dateId, date.value));
      repo.Insert(offerDate);
      error := ParseCategories(dayPlan.categories, repo);
      AppendAssoc(before, [Inserted(offerDate)], CategoriesEffect(dayPlan.categories, old(Keys()), pictograms).records);
      if error.None? {
        dateId := dateId + 1;
      }
    }

    /** The loop over the categories of a day plan, left at the first failure. */
    method ParseCategories(categories: seq<Category>, repo: AppRepository) returns (error: Option<Failure>)
      modifies this, repo
      ensures repo.log == old(repo.log) + CategoriesEffect(categories, old(Keys()), pictograms).records
      ensures Keys() == CategoriesEffect(categories, old(Keys()), pictograms).next
      ensures error == CategoriesEffect(categories, old(Keys()), pictograms).error
    {
      ghost var start := Keys();
      ghost var before := repo.log;
      var j := 0;
      error := None;
      while j < |categories| && error.None?
        invariant 0 <= j <= |categories|
        invariant error == CategoriesEffect(categories[..j], start, pictograms).error
        invariant Keys() == CategoriesEffect(categories[..j], start, pictograms).next
        invariant repo.log == before + CategoriesEffect(categories[..j], start, pictograms).records
      {
        ghost var prev := CategoriesEffect(categories[..j], start, pictograms);
        error := ParseCategory(categories[j], repo);
        CategoriesStep(categories, j, start, pictograms);
        AppendAssoc(before, prev.records, CategoryEffect(categories[j], prev.next, pictograms).records);
        j := j + 1;
      }
      if error.Some? {
        CategoriesStopAtFailure(categories, j, start, pictograms);
      } else {
        assert categories[..j] == categories;
      }
    }

    /** Parses one category: its header record, then the rows of its first table body. */
    method ParseCategory(category: Category, repo: AppRepository) returns (error: Option<Failure>)
      modifies this, repo
      ensures repo.log == old(repo.log) + CategoryEffect(category, old(Keys()), pictograms).records
      ensures Keys() == CategoryEffect(category, old(Keys()), pictograms).next
      ensures error == CategoryEffect(category, old(Keys()), pictograms).error
    {
      if |category.names| == 0 {
        return Some(MissingCategoryName);
      }
      ghost var before := repo.log;
      var header := CategoryOffer(OfferCategory(categoryId, dateId, canteenId, category.names[0]));
      repo.Insert(header);
      if |category.bodies| == 0 {
        return Some(MissingTableBody);
      }
      error := ParseRows(category.bodies[0], repo);
      AppendAssoc(before, [Inserted(header)], RowsEffect(category.bodies[0], old(Keys()), pictograms).records);
      if error.None? {
        categoryId := categoryId + 1;
      }
    }

    /** The loop over the rows of a table body: one item record per row, left at the first malformed row. */
    method ParseRows(rows: seq<Row>, repo: AppRepository) returns (error: Option<Failure>)
      modifies this, repo
      ensures repo.log == old(repo.log) + RowsEffect(rows, old(Keys()), pictograms).records
      ensures Keys() == RowsEffect(rows, old(Keys()), pictograms).next
      ensures error == RowsEffect(rows, old(Keys()), pictograms).error
    {
      ghost var start := Keys();
      ghost var before := repo.log;
      var r := 0;
      error := None;
      while r < |rows| && error.None?
        invariant 0 <= r <= |rows|
        invariant error == RowsEffect(rows[..r], start, pictograms).error
        invariant Keys() == RowsEffect(rows[..r], start, pictograms).next
        invariant repo.log == before + RowsEffect(rows[..r], start, pictograms).records
      {
        RowsStep(rows, r, start, pictograms);
        var item := ParseItem(rows[r], Keys(), pictograms);
        if item.Err? {
          error := Some(item.error);
        } else {
          repo.Insert(ItemOffer(item.value));
          itemId := itemId + 1;
        }
        r := r + 1;
      }
      if error.Some? {
        RowsStopAtFailure(rows, r, start, pictograms);
      } else {
        assert rows[..r] == rows;
      }
    }
  }
}

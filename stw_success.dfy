/**
 * When parsing gets through: exactly when every position the parser looks up exists. A run
 * finishes iff every page was fetched, has a second pane title, has a tab date with a space
 * for the position of each day plan, and every category has a name and a table body whose
 * rows each have a food-types fragment and a title cell.
 */
module StwSuccess {
  import opened Wrappers
  import opened Document
  import opened StwHelpers
  import opened StwSpec
  import opened StwProperties

  predicate RowParsable(row: Row)
  {
    |row.foodTypes| > 0 && |row.cells| >= 2
  }

  predicate RowsParsable(rows: seq<Row>)
  {
    forall i | 0 <= i < |rows| :: RowParsable(rows[i])
  }

  predicate CategoryParsable(cat: Category)
  {
    |cat.names| > 0 && |cat.bodies| > 0 && RowsParsable(cat.bodies[0])
  }

  predicate CategoriesParsable(cats: seq<Category>)
  {
    forall j | 0 <= j < |cats| :: CategoryParsable(cats[j])
  }

  /** The first tab list has a label with a space at position `dateId`. */
  predicate HasDate(page: Page, dateId: int)
  {
    |page.tabs| > 0 && 0 <= dateId < |page.tabs[0]| && ' ' in page.tabs[0][dateId]
  }

  /** The day plans, the first at position `from`, each find their date and parse. */
  predicate DaysParsable(page: Page, days: seq<DayPlan>, from: int)
  {
    days == [] ||
      (var last := |days| - 1;
       DaysParsable(page, days[..last], from) && HasDate(page, from + last) && CategoriesParsable(days[last].categories))
  }

  predicate PageParsable(page: Page)
  {
    |page.paneTitles| >= 2 && DaysParsable(page, page.dayPlans, 0)
  }

  /** Every page of the run, in order, is fetched and parses. */
  predicate RunParsable(urls: seq<string>, fetch: string -> Option<Page>)
  {
    urls == [] ||
      (var url := urls[|urls| - 1];
       RunParsable(urls[..|urls| - 1], fetch) && fetch(url).Some? && PageParsable(fetch(url).value))
  }

  // ---------------------------------------------------------------------------

  lemma RowSucceeds(row: Row, c: Counters, links: PictogramLinks)
    ensures RowEffect(row, c, links).error.None? <==> RowParsable(row)
  {
  }

  lemma {:induction false} RowsSucceed(rows: seq<Row>, c: Counters, links: PictogramLinks)
    ensures RowsEffect(rows, c, links).error.None? <==> RowsParsable(rows)
    decreases |rows|
  {
    if rows != [] {
      var init := rows[..|rows| - 1];
      RowsSucceed(init, c, links);
      RowSucceeds(rows[|rows| - 1], RowsEffect(init, c, links).next, links);
      assert RowsParsable(rows) <==> RowsParsable(init) && RowParsable(rows[|rows| - 1]) by {
        assert forall i | 0 <= i < |init| :: init[i] == rows[i];
      }
    }
  }

  lemma {:induction false} CategorySucceeds(cat: Category, c: Counters, links: PictogramLinks)
    ensures CategoryEffect(cat, c, links).error.None? <==> CategoryParsable(cat)
  {
    if |cat.names| > 0 && |cat.bodies| > 0 {
      RowsSucceed(cat.bodies[0], c, links);
    }
  }

  lemma {:induction false} CategoriesSucceed(cats: seq<Category>, c: Counters, links: PictogramLinks)
    ensures CategoriesEffect(cats, c, links).error.None? <==> CategoriesParsable(cats)
    decreases |cats|
  {
    if cats != [] {
      var init := cats[..|cats| - 1];
      CategoriesSucceed(init, c, links);
      CategorySucceeds(cats[|cats| - 1], CategoriesEffect(init, c, links).next, links);
      assert CategoriesParsable(cats) <==> CategoriesParsable(init) && CategoryParsable(cats[|cats| - 1]) by {
        assert forall j | 0 <= j < |init| :: init[j] == cats[j];
      }
    }
  }

  lemma {:induction false} DaySucceeds(page: Page, day: DayPlan, c: Counters, links: PictogramLinks)
    ensures DayEffect(page, day, c, links).error.None?
        <==> HasDate(page, c.dateId) && CategoriesParsable(day.categories)
  {
    CategoriesSucceed(day.categories, c, links);
  }

  lemma {:induction false} DaysSucceed(page: Page, days: seq<DayPlan>, c: Counters, links: PictogramLinks)
    ensures DaysEffect(page, days, c, links).error.None? <==> DaysParsable(page, days, c.dateId)
    decreases |days|
  {
    if days != [] {
      var init := days[..|days| - 1];
      var prev := DaysEffect(page, init, c, links);
      DaysSucceed(page, init, c, links);
      DaysShape(page, init, c, links);
      DaySucceeds(page, days[|days| - 1], prev.next, links);
      assert DaysEffect(page, days, c, links).error
          == if prev.error.Some? then prev.error else DayEffect(page, days[|days| - 1], prev.next, links).error;
    }
  }

  lemma {:induction false} PageSucceeds(url: string, fetched: Option<Page>, c: Counters, links: PictogramLinks)
    ensures PageEffect(url, fetched, c, links).error.None? <==> fetched.Some? && PageParsable(fetched.value)
  {
    if fetched.Some? && |fetched.value.paneTitles| >= 2 {
      DaysSucceed(fetched.value, fetched.value.dayPlans, c.(dateId := 0), links);
    }
  }

  /** A run finishes exactly when every page is fetched and parsable. */
  lemma {:induction false} RunSucceeds(urls: seq<string>, fetch: string -> Option<Page>, c: Counters, links: PictogramLinks)
    ensures RunEffect(urls, fetch, c, links).error.None? <==> RunParsable(urls, fetch)
    decreases |urls|
  {
    if urls != [] {
      var init := urls[..|urls| - 1];
      var url := urls[|urls| - 1];
      RunSucceeds(init, fetch, c, links);
      PageSucceeds(url, fetch(url), RunEffect(init, fetch, c, links).next, links);
    }
  }

  /**
   * A page parses only if its first tab list has a date for every day plan: at least as
   * many labels as there are day plans, each with a space.
   */
  lemma PageNeedsDates(page: Page)
    requires PageParsable(page) && |page.dayPlans| > 0
    ensures |page.tabs| > 0 && |page.tabs[0]| >= |page.dayPlans|
    ensures forall i | 0 <= i < |page.dayPlans| :: ' ' in page.tabs[0][i]
  {
    forall i | 0 <= i < |page.dayPlans|
      ensures ' ' in page.tabs[0][i]
    {
      DaysParsableAt(page, page.dayPlans, 0, i);
    }
  }

  /** Each day plan finds its date at its own position. */
  lemma {:induction false} DaysParsableAt(page: Page, days: seq<DayPlan>, from: int, i: int)
    requires DaysParsable(page, days, from) && 0 <= i < |days|
    ensures HasDate(page, from + i) && CategoriesParsable(days[i].categories)
    decreases |days|
  {
    if i < |days| - 1 {
      DaysParsableAt(page, days[..|days| - 1], from, i);
    }
  }
}

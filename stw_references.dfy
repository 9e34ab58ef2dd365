/**
 * The references between the records a run inserts. Replaying the log keeps the scope of
 * the most recent canteen, date and category since the last clear; a date needs an open
 * canteen, a category must name the open date and canteen, and an item the open category.
 * A record that does not fit its scope makes the replay fail.
 */
module StwReferences {
  import opened Wrappers
  import opened Document
  import opened StwHelpers
  import opened Offers
  import opened StwSpec

  /** The keys of the canteen, date and category whose records were inserted last. */
  datatype Scope = Scope(canteen: Option<int>, date: Option<int>, category: Option<int>)

  const Closed := Scope(None, None, None)

  /** One call replayed: a clear closes every scope; an insert must fit the open one. */
  function Step(scope: Option<Scope>, entry: Entry): Option<Scope>
  {
    match entry
    case Cleared => Some(Closed)
    case Inserted(offer) =>
      if scope.None? then None
      else
        var s := scope.value;
        match offer
        case CanteenOffer(canteen) => Some(Scope(Some(canteen.id), None, None))
        case DateOffer(date) =>
          if s.canteen.Some? then Some(s.(date := Some(date.id), category := None)) else None
        case CategoryOffer(category) =>
          if s.canteen == Some(category.canteenId) && s.date == Some(category.dateId)
          then Some(s.(category := Some(category.id)))
          else None
        case ItemOffer(item) =>
          if s.category == Some(item.categoryId) then scope else None
  }

  /** The scope after replaying a log, or None when some record does not fit. */
  function Replay(log: seq<Entry>, from: Option<Scope>): Option<Scope>
  {
    if log == [] then from else Step(Replay(log[..|log| - 1], from), log[|log| - 1])
  }

  lemma {:induction false} ReplayAppend(a: seq<Entry>, b: seq<Entry>, from: Option<Scope>)
    ensures Replay(a + b, from) == Replay(b, Replay(a, from))
    decreases |b|
  {
    if b == [] {
      assert a + b == a;
    } else {
      ReplayAppend(a, b[..|b| - 1], from);
      assert (a + b)[..|a + b| - 1] == a + b[..|b| - 1];
    }
  }

  /** A single call replayed. */
  lemma ReplayOne(entry: Entry, from: Option<Scope>)
    ensures Replay([entry], from) == Step(from, entry)
  {
    assert [entry][..0] == [];
  }

  /** A header followed by the records under it. */
  lemma ReplayHeader(header: Entry, rest: seq<Entry>, from: Option<Scope>)
    ensures Replay([header] + rest, from) == Replay(rest, Step(from, header))
  {
    ReplayAppend([header], rest, from);
    ReplayOne(header, from);
  }

  /** Whatever came before, a clear starts a fresh replay. */
  lemma ReplayAfterClear(before: seq<Entry>, since: seq<Entry>, from: Option<Scope>)
    ensures Replay(before + [Cleared] + since, from) == Replay(since, Some(Closed))
  {
    ReplayAppend(before + [Cleared], since, from);
    ReplayAppend(before, [Cleared], from);
    ReplayOne(Cleared, Replay(before, from));
  }

  // ---------------------------------------------------------------------------
  // Level by level

  /** Every item of the rows names the category whose key is the current categoryId. */
  lemma {:induction false} RowsReferences(rows: seq<Row>, c: Counters, links: PictogramLinks, scope: Scope)
    requires scope.category == Some(c.categoryId)
    ensures Replay(RowsEffect(rows, c, links).records, Some(scope)) == Some(scope)
    decreases |rows|
  {
    if rows != [] {
      var init := rows[..|rows| - 1];
      var prev := RowsEffect(init, c, links);
      RowsReferences(init, c, links, scope);
      if prev.error.None? {
        ReplayAppend(prev.records, RowEffect(rows[|rows| - 1], prev.next, links).records, Some(scope));
        RowReference(rows[|rows| - 1], prev.next, links, scope);
      }
    }
  }

  /** The item of one row names the open category. */
  lemma RowReference(row: Row, c: Counters, links: PictogramLinks, scope: Scope)
    requires scope.category == Some(c.categoryId)
    ensures Replay(RowEffect(row, c, links).records, Some(scope)) == Some(scope)
  {
    var parsed := ParseItem(row, c, links);
    if parsed.Ok? {
      var entry := Inserted(ItemOffer(parsed.value));
      assert RowEffect(row, c, links).records == [entry];
      ReplayOne(entry, Some(scope));
    }
  }

  /** A category names the open date and canteen and leaves them open. */
  lemma {:induction false} CategoryReferences(cat: Category, c: Counters, links: PictogramLinks, scope: Scope)
    requires scope.canteen == Some(c.canteenId) && scope.date == Some(c.dateId)
    ensures var r := Replay(CategoryEffect(cat, c, links).records, Some(scope));
      r.Some? && r.value.canteen == scope.canteen && r.value.date == scope.date
  {
    if |cat.names| > 0 {
      var header := Inserted(CategoryOffer(OfferCategory(c.categoryId, c.dateId, c.canteenId, cat.names[0])));
      var open := scope.(category := Some(c.categoryId));
      var rows := if |cat.bodies| > 0 then RowsEffect(cat.bodies[0], c, links).records else [];
      assert CategoryEffect(cat, c, links).records == [header] + rows;
      ReplayHeader(header, rows, Some(scope));
      if |cat.bodies| > 0 {
        RowsReferences(cat.bodies[0], c, links, open);
      }
    }
  }

  lemma {:induction false} CategoriesReferences(cats: seq<Category>, c: Counters, links: PictogramLinks, scope: Scope)
    requires scope.canteen == Some(c.canteenId) && scope.date == Some(c.dateId)
    ensures var r := Replay(CategoriesEffect(cats, c, links).records, Some(scope));
      r.Some? && r.value.canteen == scope.canteen && r.value.date == scope.date
    decreases |cats|
  {
    if cats != [] {
      var init := cats[..|cats| - 1];
      var prev := CategoriesEffect(init, c, links);
      CategoriesReferences(init, c, links, scope);
      if prev.error.None? {
        var mid := Replay(prev.records, Some(scope)).value;
        CategoryReferences(cats[|cats| - 1], prev.next, links, mid);
        ReplayAppend(prev.records, CategoryEffect(cats[|cats| - 1], prev.next, links).records, Some(scope));
      }
    }
  }

  /** A day plan opens its date within the open canteen. */
  lemma DayReferences(page: Page, day: DayPlan, c: Counters, links: PictogramLinks, scope: Scope)
    requires scope.canteen == Some(c.canteenId)
    ensures var r := Replay(DayEffect(page, day, c, links).records, Some(scope));
      r.Some? && r.value.canteen == scope.canteen
  {
    DatedDayReferences(DateOf(page, c.dateId), day, c, links, scope);
  }

  lemma DatedDayReferences(date: Result<string, Failure>, day: DayPlan, c: Counters, links: PictogramLinks, scope: Scope)
    requires scope.canteen == Some(c.canteenId)
    ensures var r := Replay(DatedDayEffect(date, day, c, links).records, Some(scope));
      r.Some? && r.value.canteen == scope.canteen
  {
    if date.Ok? {
      var header := Inserted(DateOffer(OfferDate(c.dateId, date.value)));
      var cats := CategoriesEffect(day.categories, c, links).records;
      assert DatedDayEffect(date, day, c, links).records == [header] + cats;
      ReplayHeader(header, cats, Some(scope));
      CategoriesReferences(day.categories, c, links, scope.(date := Some(c.dateId), category := None));
    }
  }

  lemma {:induction false} DaysReferences(page: Page, days: seq<DayPlan>, c: Counters, links: PictogramLinks, scope: Scope)
    requires scope.canteen == Some(c.canteenId)
    ensures var r := Replay(DaysEffect(page, days, c, links).records, Some(scope));
      r.Some? && r.value.canteen == scope.canteen
    decreases |days|
  {
    if days != [] {
      var init := days[..|days| - 1];
      var prev := DaysEffect(page, init, c, links);
      DaysReferences(page, init, c, links, scope);
      if prev.error.None? {
        var mid := Replay(prev.records, Some(scope)).value;
        DayReferences(page, days[|days| - 1], prev.next, links, mid);
        ReplayAppend(prev.records, DayEffect(page, days[|days| - 1], prev.next, links).records, Some(scope));
      }
    }
  }

  /** A page opens its canteen before anything under it, whatever scope was open. */
  lemma PageReferences(url: string, fetched: Option<Page>, c: Counters, links: PictogramLinks, scope: Scope)
    ensures Replay(PageEffect(url, fetched, c, links).records, Some(scope)).Some?
  {
    if fetched.Some? && |fetched.value.paneTitles| >= 2 {
      var page := fetched.value;
      var header := Inserted(CanteenOffer(OfferCanteen(c.canteenId, page.paneTitles[1])));
      var days := DaysEffect(page, page.dayPlans, c.(dateId := 0), links).records;
      assert PageEffect(url, fetched, c, links).records == [header] + days;
      ReplayHeader(header, days, Some(scope));
      DaysReferences(page, page.dayPlans, c.(dateId := 0), links, Scope(Some(c.canteenId), None, None));
    }
  }

  lemma {:induction false} RunReferences(urls: seq<string>, fetch: string -> Option<Page>, c: Counters, links: PictogramLinks, scope: Scope)
    ensures Replay(RunEffect(urls, fetch, c, links).records, Some(scope)).Some?
    decreases |urls|
  {
    if urls != [] {
      var init := urls[..|urls| - 1];
      var prev := RunEffect(init, fetch, c, links);
      RunReferences(init, fetch, c, links, scope);
      if prev.error.None? {
        var url := urls[|urls| - 1];
        PageReferences(url, fetch(url), prev.next, links, Replay(prev.records, Some(scope)).value);
        ReplayAppend(prev.records, PageEffect(url, fetch(url), prev.next, links).records, Some(scope));
      }
    }
  }
}

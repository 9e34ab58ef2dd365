/**
 * What the parser's effects guarantee: the four kinds of surrogate keys are handed out
 * consecutively, every record refers to the records around it, the stored offers are
 * those of the last run, and a run fails exactly when some page lacks a position the
 * parser looks up.
 */
module StwProperties {
  import opened Wrappers
  import opened Document
  import opened StwHelpers
  import opened Offers
  import opened StwSpec

  // ---------------------------------------------------------------------------
  // Record kinds, their ids, and ranges of ids

  datatype Kind = CanteenKind | DateKind | CategoryKind | ItemKind

  function KindOf(offer: Offer): Kind
  {
    match offer
    case CanteenOffer(_) => CanteenKind
    case DateOffer(_) => DateKind
    case CategoryOffer(_) => CategoryKind
    case ItemOffer(_) => ItemKind
  }

  /** The surrogate key of a record. */
  function IdOf(offer: Offer): int
  {
    match offer
    case CanteenOffer(canteen) => canteen.id
    case DateOffer(date) => date.id
    case CategoryOffer(category) => category.id
    case ItemOffer(item) => item.id
  }

  /** The keys of the records of one kind a log inserts, in insertion order. */
  function IdsOf(log: seq<Entry>, kind: Kind): (ids: seq<int>)
    ensures |ids| <= |log|
  {
    if log == [] then []
    else
      var ids := IdsOf(log[..|log| - 1], kind);
      var last := log[|log| - 1];
      if last.Inserted? && KindOf(last.offer) == kind then ids + [IdOf(last.offer)] else ids
  }

  lemma {:induction false} IdsOfAppend(a: seq<Entry>, b: seq<Entry>, kind: Kind)
    ensures IdsOf(a + b, kind) == IdsOf(a, kind) + IdsOf(b, kind)
    decreases |b|
  {
    if b == [] {
      assert a + b == a;
    } else {
      IdsOfAppend(a, b[..|b| - 1], kind);
      assert (a + b)[..|a + b| - 1] == a + b[..|b| - 1];
    }
  }

  /** How deep a kind of record sits: canteens enclose dates, which enclose categories, which enclose items. */
  function Level(kind: Kind): nat
  {
    match kind
    case CanteenKind => 0
    case DateKind => 1
    case CategoryKind => 2
    case ItemKind => 3
  }

  /** The log only inserts, and only records at `level` or deeper. */
  predicate InsertsFrom(log: seq<Entry>, level: nat)
  {
    log == [] || (InsertsFrom(log[..|log| - 1], level) && log[|log| - 1].Inserted? && Level(KindOf(log[|log| - 1].offer)) >= level)
  }

  lemma {:induction false} InsertsFromAppend(a: seq<Entry>, b: seq<Entry>, level: nat)
    requires InsertsFrom(a, level) && InsertsFrom(b, level)
    ensures InsertsFrom(a + b, level)
    decreases |b|
  {
    if b == [] {
      assert a + b == a;
    } else {
      InsertsFromAppend(a, b[..|b| - 1], level);
      assert (a + b)[..|a + b| - 1] == a + b[..|b| - 1];
    }
  }

  lemma {:induction false} InsertsFromWiden(log: seq<Entry>, level: nat, lower: nat)
    requires InsertsFrom(log, level) && lower <= level
    ensures InsertsFrom(log, lower)
    decreases |log|
  {
    if log != [] {
      InsertsFromWiden(log[..|log| - 1], level, lower);
    }
  }

  /** A header record followed by records below it. */
  lemma InsertsFromHeader(offer: Offer, rest: seq<Entry>, level: nat)
    requires Level(KindOf(offer)) == level && InsertsFrom(rest, level + 1)
    ensures InsertsFrom([Inserted(offer)] + rest, level)
  {
    assert [Inserted(offer)][..0] == [];
    InsertsFromWiden(rest, level + 1, level);
    InsertsFromAppend([Inserted(offer)], rest, level);
  }

  lemma {:induction false} InsertsFromNeverClears(log: seq<Entry>, level: nat)
    requires InsertsFrom(log, level)
    ensures Cleared !in log
    decreases |log|
  {
    if log != [] {
      InsertsFromNeverClears(log[..|log| - 1], level);
      assert log == log[..|log| - 1] + [log[|log| - 1]];
    }
  }

  lemma {:induction false} NoIdsAbove(log: seq<Entry>, level: nat, kind: Kind)
    requires InsertsFrom(log, level) && Level(kind) < level
    ensures IdsOf(log, kind) == []
    decreases |log|
  {
    if log != [] {
      NoIdsAbove(log[..|log| - 1], level, kind);
    }
  }

  /** lo, lo + 1, …, hi - 1. */
  function Range(lo: int, hi: int): (r: seq<int>)
    ensures |r| == if lo <= hi then hi - lo else 0
    decreases hi - lo
  {
    if hi <= lo then [] else Range(lo, hi - 1) + [hi - 1]
  }

  /** The i-th key of a range. */
  lemma {:induction false} RangeAt(lo: int, hi: int, i: int)
    requires 0 <= i < |Range(lo, hi)|
    ensures Range(lo, hi)[i] == lo + i
    decreases hi - lo
  {
    if i < hi - 1 - lo {
      RangeAt(lo, hi - 1, i);
    }
  }

  lemma {:induction false} RangeAppend(lo: int, mid: int, hi: int)
    requires lo <= mid <= hi
    ensures Range(lo, mid) + Range(mid, hi) == Range(lo, hi)
    decreases hi - mid
  {
    if mid < hi {
      RangeAppend(lo, mid, hi - 1);
      assert Range(lo, mid) + Range(mid, hi) == Range(lo, mid) + Range(mid, hi - 1) + [hi - 1];
    }
  }

  /** Ranges never repeat a key: later keys are larger. */
  lemma RangeStrictlyIncreasing(lo: int, hi: int, i: int, j: int)
    requires 0 <= i < j < |Range(lo, hi)|
    ensures Range(lo, hi)[i] < Range(lo, hi)[j]
  {
    RangeAt(lo, hi, i);
    RangeAt(lo, hi, j);
  }

  /**
   * How many of the enclosing headers the failing step had already inserted: the canteen
   * (1), the date (2) and the category (3).
   */
  function Depth(f: Failure): (d: nat)
    ensures d <= 3
  {
    match f
    case FetchFailed(_) => 0
    case MissingPaneTitle => 0
    case MissingTabs => 1
    case MissingTabDate(_) => 1
    case MalformedDate(_) => 1
    case MissingCategoryName => 2
    case MissingTableBody => 3
    case MissingFoodTypes => 3
    case MissingTitleCell => 3
  }

  /** 1 when a failure left a header of the given depth inserted but its counter not incremented. */
  function Open(error: Option<Failure>, depth: nat): nat
  {
    if error.Some? && Depth(error.value) >= depth then 1 else 0
  }

  // ---------------------------------------------------------------------------
  // Document sizes

  function RowsOf(cat: Category): nat
  {
    if |cat.bodies| == 0 then 0 else |cat.bodies[0]|
  }

  function RowsInCategories(cats: seq<Category>): nat
  {
    if cats == [] then 0 else RowsInCategories(cats[..|cats| - 1]) + RowsOf(cats[|cats| - 1])
  }

  function RowsInDays(days: seq<DayPlan>): nat
  {
    if days == [] then 0 else RowsInDays(days[..|days| - 1]) + RowsInCategories(days[|days| - 1].categories)
  }

  function CategoriesInDays(days: seq<DayPlan>): nat
  {
    if days == [] then 0 else CategoriesInDays(days[..|days| - 1]) + |days[|days| - 1].categories|
  }

  function RowsInRun(urls: seq<string>, fetch: string -> Option<Page>): nat
  {
    if urls == [] then 0
    else
      var fetched := fetch(urls[|urls| - 1]);
      RowsInRun(urls[..|urls| - 1], fetch) + (if fetched.Some? then RowsInDays(fetched.value.dayPlans) else 0)
  }

  function CategoriesInRun(urls: seq<string>, fetch: string -> Option<Page>): nat
  {
    if urls == [] then 0
    else
      var fetched := fetch(urls[|urls| - 1]);
      CategoriesInRun(urls[..|urls| - 1], fetch) + (if fetched.Some? then CategoriesInDays(fetched.value.dayPlans) else 0)
  }

  // ---------------------------------------------------------------------------
  // Surrogate keys, level by level

  /** The counter that numbers records of a kind. */
  function Counter(c: Counters, kind: Kind): int
  {
    match kind
    case CanteenKind => c.canteenId
    case DateKind => c.dateId
    case CategoryKind => c.categoryId
    case ItemKind => c.itemId
  }

  /**
   * One past the last key of a kind that a stretch of parsing used: the counter afterwards,
   * or one more when the stretch failed after inserting a header of that kind.
   */
  function Stop(e: Effect, kind: Kind): int
  {
    Counter(e.next, kind) + Open(e.error, Level(kind) + 1)
  }

  /** The records of a kind that a stretch inserted are keyed from, consecutively, `from` up to Stop(e, kind). */
  predicate Numbered(e: Effect, from: int, kind: Kind)
  {
    IdsOf(e.records, kind) == Range(from, Stop(e, kind))
  }

  /** Two stretches, the first successful, that are each numbered on from where the previous stopped. */
  lemma NumberedThen(prev: Effect, next: Effect, from: int, kind: Kind)
    requires prev.error.None? && Numbered(prev, from, kind) && Numbered(next, Counter(prev.next, kind), kind)
    requires from <= Counter(prev.next, kind) <= Stop(next, kind)
    ensures Numbered(Then(prev, next), from, kind)
  {
    IdsOfAppend(prev.records, next.records, kind);
    RangeAppend(from, Counter(prev.next, kind), Stop(next, kind));
  }

  /** A header record keyed `from`, followed by records of other kinds only. */
  lemma NumberedHeader(offer: Offer, rest: seq<Entry>, kind: Kind)
    ensures IdsOf([Inserted(offer)] + rest, kind)
         == (if KindOf(offer) == kind then [IdOf(offer)] else []) + IdsOf(rest, kind)
  {
    var header := [Inserted(offer)];
    assert header[..0] == [];
    assert IdsOf(header[..0], kind) == [];
    IdsOfAppend(header, rest, kind);
  }

  // --- Rows

  /** A row inserts at most its own item, keyed c.itemId. */
  lemma RowShape(row: Row, c: Counters, links: PictogramLinks)
    ensures var e := RowEffect(row, c, links);
      && InsertsFrom(e.records, 3)
      && Numbered(e, c.itemId, ItemKind)
      && (e.error.None? ==> e.next.itemId == c.itemId + 1)
      && (e.error.Some? ==> Depth(e.error.value) == 3)
  {
    match ParseItem(row, c, links)
    case Err(f) =>
    case Ok(item) =>
      var log := [Inserted(ItemOffer(item))];
      assert log[..0] == [];
      assert IdsOf(log[..0], ItemKind) == [];
      assert Range(c.itemId, c.itemId + 1) == Range(c.itemId, c.itemId) + [c.itemId];
      assert InsertsFrom(log[..0], 3);
  }

  /** The rows insert items only, keyed on from c.itemId, one per row when nothing fails. */
  lemma {:induction false} RowsShape(rows: seq<Row>, c: Counters, links: PictogramLinks)
    ensures var e := RowsEffect(rows, c, links);
      && InsertsFrom(e.records, 3)
      && Numbered(e, c.itemId, ItemKind)
      && (e.error.None? ==> e.next.itemId == c.itemId + |rows|)
      && (e.error.Some? ==> Depth(e.error.value) == 3)
    decreases |rows|
  {
    if rows != [] {
      var init := rows[..|rows| - 1];
      var prev := RowsEffect(init, c, links);
      RowsShape(init, c, links);
      if prev.error.None? {
        var last := RowEffect(rows[|rows| - 1], prev.next, links);
        RowShape(rows[|rows| - 1], prev.next, links);
        InsertsFromAppend(prev.records, last.records, 3);
        NumberedThen(prev, last, c.itemId, ItemKind);
      }
    }
  }

  // --- Categories

  lemma CategoryShape(cat: Category, c: Counters, links: PictogramLinks)
    ensures var e := CategoryEffect(cat, c, links);
      && InsertsFrom(e.records, 2)
      && (e.error.None? ==> e.next.itemId == c.itemId + RowsOf(cat) && e.next.categoryId == c.categoryId + 1)
      && (e.error.Some? ==> Depth(e.error.value) >= 2)
  {
    if |cat.names| > 0 {
      var offer := CategoryOffer(OfferCategory(c.categoryId, c.dateId, c.canteenId, cat.names[0]));
      if |cat.bodies| > 0 {
        RowsShape(cat.bodies[0], c, links);
        InsertsFromHeader(offer, RowsEffect(cat.bodies[0], c, links).records, 2);
      } else {
        InsertsFromHeader(offer, [], 2);
        assert [Inserted(offer)] + [] == [Inserted(offer)];
      }
    }
  }

  /** A category inserts its header, keyed c.categoryId, then its rows' items. */
  lemma CategoryNumbered(cat: Category, c: Counters, links: PictogramLinks, kind: Kind)
    requires Level(kind) >= 2
    ensures Numbered(CategoryEffect(cat, c, links), Counter(c, kind), kind)
  {
    if |cat.names| > 0 && |cat.bodies| == 0 {
      CategoryWithoutBody(cat, c, links, kind);
    } else if |cat.names| > 0 {
      var header := [Inserted(CategoryOffer(OfferCategory(c.categoryId, c.dateId, c.canteenId, cat.names[0])))];
      var rows := RowsEffect(cat.bodies[0], c, links);
      var e := CategoryEffect(cat, c, links);
      assert e.records == header + rows.records && e.error == rows.error;
      RowsShape(cat.bodies[0], c, links);
      if kind == CategoryKind {
        CategoryHeaderKey(header, rows, e, c);
      } else {
        CategoryItemKeys(header, rows, e, c);
      }
    }
  }

  /** A category without a table body inserts only its header. */
  lemma CategoryWithoutBody(cat: Category, c: Counters, links: PictogramLinks, kind: Kind)
    requires |cat.names| > 0 && |cat.bodies| == 0 && Level(kind) >= 2
    ensures Numbered(CategoryEffect(cat, c, links), Counter(c, kind), kind)
  {
    var offer := CategoryOffer(OfferCategory(c.categoryId, c.dateId, c.canteenId, cat.names[0]));
    NumberedHeader(offer, [], kind);
    assert [Inserted(offer)] + [] == [Inserted(offer)];
    if kind == CategoryKind {
      assert Range(c.categoryId, c.categoryId + 1) == Range(c.categoryId, c.categoryId) + [c.categoryId];
    }
  }

  lemma CategoryHeaderKey(header: seq<Entry>, rows: Effect, e: Effect, c: Counters)
    requires |header| == 1 && header[0].Inserted? && header[0].offer.CategoryOffer? && header[0].offer.category.id == c.categoryId
    requires InsertsFrom(rows.records, 3) && e.records == header + rows.records && e.error == rows.error
    requires e.next.categoryId == c.categoryId + (if e.error.None? then 1 else 0)
    requires rows.error.Some? ==> Depth(rows.error.value) == 3
    ensures Numbered(e, c.categoryId, CategoryKind)
  {
    assert header == [Inserted(header[0].offer)];
    NumberedHeader(header[0].offer, rows.records, CategoryKind);
    NoIdsAbove(rows.records, 3, CategoryKind);
    assert Range(c.categoryId, c.categoryId + 1) == Range(c.categoryId, c.categoryId) + [c.categoryId];
  }

  lemma CategoryItemKeys(header: seq<Entry>, rows: Effect, e: Effect, c: Counters)
    requires Numbered(rows, c.itemId, ItemKind)
    requires |header| == 1 && header[0].Inserted? && header[0].offer.CategoryOffer?
    requires e.records == header + rows.records && e.error == rows.error && e.next.itemId == rows.next.itemId
    ensures Numbered(e, c.itemId, ItemKind)
  {
    assert header == [Inserted(header[0].offer)];
    NumberedHeader(header[0].offer, rows.records, ItemKind);
  }

  lemma {:induction false} CategoriesShape(cats: seq<Category>, c: Counters, links: PictogramLinks)
    ensures var e := CategoriesEffect(cats, c, links);
      && InsertsFrom(e.records, 2)
      && (e.error.None? ==> e.next.itemId == c.itemId + RowsInCategories(cats) && e.next.categoryId == c.categoryId + |cats|)
      && (e.error.Some? ==> Depth(e.error.value) >= 2)
    decreases |cats|
  {
    if cats != [] {
      var init := cats[..|cats| - 1];
      var prev := CategoriesEffect(init, c, links);
      CategoriesShape(init, c, links);
      if prev.error.None? {
        CategoryShape(cats[|cats| - 1], prev.next, links);
        InsertsFromAppend(prev.records, CategoryEffect(cats[|cats| - 1], prev.next, links).records, 2);
      }
    }
  }

  lemma {:induction false} CategoriesNumbered(cats: seq<Category>, c: Counters, links: PictogramLinks, kind: Kind)
    requires Level(kind) >= 2
    ensures Numbered(CategoriesEffect(cats, c, links), Counter(c, kind), kind)
    decreases |cats|
  {
    if cats != [] {
      var init := cats[..|cats| - 1];
      var prev := CategoriesEffect(init, c, links);
      CategoriesNumbered(init, c, links, kind);
      if prev.error.None? {
        var last := CategoryEffect(cats[|cats| - 1], prev.next, links);
        CategoryNumbered(cats[|cats| - 1], prev.next, links, kind);
        NumberedThen(prev, last, Counter(c, kind), kind);
      }
    }
  }

  // --- Day plans

  lemma DayShape(page: Page, day: DayPlan, c: Counters, links: PictogramLinks)
    ensures var e := DayEffect(page, day, c, links);
      && InsertsFrom(e.records, 1)
      && (e.error.None? ==> && e.next.itemId == c.itemId + RowsInCategories(day.categories)
                            && e.next.categoryId == c.categoryId + |day.categories|
                            && e.next.dateId == c.dateId + 1)
      && (e.error.Some? ==> Depth(e.error.value) >= 1)
  {
    DatedDayShape(DateOf(page, c.dateId), day, c, links);
  }

  lemma DatedDayShape(date: Result<string, Failure>, day: DayPlan, c: Counters, links: PictogramLinks)
    requires date.Err? ==> Depth(date.error) == 1
    ensures var e := DatedDayEffect(date, day, c, links);
      && InsertsFrom(e.records, 1)
      && (e.error.None? ==> && e.next.itemId == c.itemId + RowsInCategories(day.categories)
                            && e.next.categoryId == c.categoryId + |day.categories|
                            && e.next.dateId == c.dateId + 1)
      && (e.error.Some? ==> Depth(e.error.value) >= 1)
  {
    if date.Ok? {
      CategoriesShape(day.categories, c, links);
      InsertsFromHeader(DateOffer(OfferDate(c.dateId, date.value)), CategoriesEffect(day.categories, c, links).records, 1);
    }
  }

  /** A day plan inserts its date, keyed c.dateId, then its categories. */
  lemma DayNumbered(page: Page, day: DayPlan, c: Counters, links: PictogramLinks, kind: Kind)
    requires Level(kind) >= 1
    ensures Numbered(DayEffect(page, day, c, links), Counter(c, kind), kind)
  {
    DatedDayNumbered(DateOf(page, c.dateId), day, c, links, kind);
  }

  lemma DatedDayNumbered(date: Result<string, Failure>, day: DayPlan, c: Counters, links: PictogramLinks, kind: Kind)
    requires Level(kind) >= 1 && (date.Err? ==> Depth(date.error) == 1)
    ensures Numbered(DatedDayEffect(date, day, c, links), Counter(c, kind), kind)
  {
    if date.Ok? {
      var offer := DateOffer(OfferDate(c.dateId, date.value));
      var header := [Inserted(offer)];
      var cats := CategoriesEffect(day.categories, c, links);
      var e := DatedDayEffect(date, day, c, links);
      assert e.records == header + cats.records && e.error == cats.error;
      NumberedHeader(offer, cats.records, kind);
      CategoriesShape(day.categories, c, links);
      if kind == DateKind {
        NoIdsAbove(cats.records, 2, DateKind);
        assert Stop(e, DateKind) == c.dateId + 1;
        assert Range(c.dateId, c.dateId + 1) == Range(c.dateId, c.dateId) + [c.dateId];
      } else {
        CategoriesNumbered(day.categories, c, links, kind);
        assert Stop(e, kind) == Stop(cats, kind);
      }
    }
  }

  lemma {:induction false} DaysShape(page: Page, days: seq<DayPlan>, c: Counters, links: PictogramLinks)
    ensures var e := DaysEffect(page, days, c, links);
      && InsertsFrom(e.records, 1)
      && (e.error.None? ==> && e.next.itemId == c.itemId + RowsInDays(days)
                            && e.next.categoryId == c.categoryId + CategoriesInDays(days)
                            && e.next.dateId == c.dateId + |days|)
      && (e.error.Some? ==> Depth(e.error.value) >= 1)
    decreases |days|
  {
    if days != [] {
      var init := days[..|days| - 1];
      var prev := DaysEffect(page, init, c, links);
      DaysShape(page, init, c, links);
      if prev.error.None? {
        DayShape(page, days[|days| - 1], prev.next, links);
        InsertsFromAppend(prev.records, DayEffect(page, days[|days| - 1], prev.next, links).records, 1);
      }
    }
  }

  lemma {:induction false} DaysNumbered(page: Page, days: seq<DayPlan>, c: Counters, links: PictogramLinks, kind: Kind)
    requires Level(kind) >= 1
    ensures Numbered(DaysEffect(page, days, c, links), Counter(c, kind), kind)
    decreases |days|
  {
    if days != [] {
      var init := days[..|days| - 1];
      var prev := DaysEffect(page, init, c, links);
      DaysNumbered(page, init, c, links, kind);
      if prev.error.None? {
        var last := DayEffect(page, days[|days| - 1], prev.next, links);
        DayNumbered(page, days[|days| - 1], prev.next, links, kind);
        NumberedThen(prev, last, Counter(c, kind), kind);
      }
    }
  }

  // --- Pages and the run

  lemma PageShape(url: string, fetched: Option<Page>, c: Counters, links: PictogramLinks)
    ensures var e := PageEffect(url, fetched, c, links);
      && InsertsFrom(e.records, 0)
      && (e.error.None? ==> && fetched.Some?
                            && e.next.itemId == c.itemId + RowsInDays(fetched.value.dayPlans)
                            && e.next.categoryId == c.categoryId + CategoriesInDays(fetched.value.dayPlans)
                            && e.next.dateId == |fetched.value.dayPlans|
                            && e.next.canteenId == c.canteenId + 1)
  {
    if fetched.Some? && |fetched.value.paneTitles| >= 2 {
      var page := fetched.value;
      var offer := CanteenOffer(OfferCanteen(c.canteenId, page.paneTitles[1]));
      var days := DaysEffect(page, page.dayPlans, c.(dateId := 0), links);
      DaysShape(page, page.dayPlans, c.(dateId := 0), links);
      PageOfDays(url, page, offer, days, c, links);
      InsertsFromHeader(offer, days.records, 0);
    } else {
      assert PageEffect(url, fetched, c, links).records == [];
    }
  }

  /** What a fetched page with a pane title does, in terms of its day plans. */
  lemma PageOfDays(url: string, page: Page, offer: Offer, days: Effect, c: Counters, links: PictogramLinks)
    requires |page.paneTitles| >= 2 && offer == CanteenOffer(OfferCanteen(c.canteenId, page.paneTitles[1]))
    requires days == DaysEffect(page, page.dayPlans, c.(dateId := 0), links)
    ensures PageEffect(url, Some(page), c, links)
         == if days.error.Some? then Effect([Inserted(offer)] + days.records, days.next, days.error)
            else Effect([Inserted(offer)] + days.records, days.next.(canteenId := c.canteenId + 1), None)
  {
  }

  /**
   * A page inserts its canteen, keyed c.canteenId, then its day plans, whose dates are
   * keyed 0, 1, … by their position on the page.
   */
  lemma PageNumbered(url: string, fetched: Option<Page>, c: Counters, links: PictogramLinks, kind: Kind)
    ensures Numbered(PageEffect(url, fetched, c, links), Counter(c.(dateId := 0), kind), kind)
  {
    if fetched.Some? && |fetched.value.paneTitles| >= 2 {
      var page := fetched.value;
      var offer := CanteenOffer(OfferCanteen(c.canteenId, page.paneTitles[1]));
      var header := [Inserted(offer)];
      var days := DaysEffect(page, page.dayPlans, c.(dateId := 0), links);
      var e := PageEffect(url, fetched, c, links);
      assert e.records == header + days.records && e.error == days.error;
      NumberedHeader(offer, days.records, kind);
      DaysShape(page, page.dayPlans, c.(dateId := 0), links);
      if kind == CanteenKind {
        NoIdsAbove(days.records, 1, CanteenKind);
        assert Stop(e, CanteenKind) == c.canteenId + 1;
        assert Range(c.canteenId, c.canteenId + 1) == Range(c.canteenId, c.canteenId) + [c.canteenId];
      } else {
        DaysNumbered(page, page.dayPlans, c.(dateId := 0), links, kind);
        assert Stop(e, kind) == Stop(days, kind);
      }
    }
  }

  lemma {:induction false} RunShape(urls: seq<string>, fetch: string -> Option<Page>, c: Counters, links: PictogramLinks)
    ensures var e := RunEffect(urls, fetch, c, links);
      && InsertsFrom(e.records, 0)
      && (e.error.None? ==> && e.next.itemId == c.itemId + RowsInRun(urls, fetch)
                            && e.next.categoryId == c.categoryId + CategoriesInRun(urls, fetch)
                            && e.next.canteenId == c.canteenId + |urls|)
    decreases |urls|
  {
    if urls != [] {
      var init := urls[..|urls| - 1];
      var prev := RunEffect(init, fetch, c, links);
      RunShape(init, fetch, c, links);
      if prev.error.None? {
        var url := urls[|urls| - 1];
        PageShape(url, fetch(url), prev.next, links);
        InsertsFromAppend(prev.records, PageEffect(url, fetch(url), prev.next, links).records, 0);
      }
    }
  }

  /** A run keys canteens, categories and items consecutively across all its pages. */
  lemma {:induction false} RunNumbered(urls: seq<string>, fetch: string -> Option<Page>, c: Counters, links: PictogramLinks, kind: Kind)
    requires kind != DateKind
    ensures Numbered(RunEffect(urls, fetch, c, links), Counter(c, kind), kind)
    decreases |urls|
  {
    if urls != [] {
      var init := urls[..|urls| - 1];
      var prev := RunEffect(init, fetch, c, links);
      RunNumbered(init, fetch, c, links, kind);
      if prev.error.None? {
        var url := urls[|urls| - 1];
        var last := PageEffect(url, fetch(url), prev.next, links);
        PageNumbered(url, fetch(url), prev.next, links, kind);
        NumberedThen(prev, last, Counter(c, kind), kind);
      }
    }
  }
}

/**
 * What one call of StwParser.Parse leaves behind, for any pages the fetch returns: by the
 * method's contract the log grows by a clear followed by RunEffect(Links, fetch, Zero, _).records,
 * and these lemmas state what that log guarantees.
 */
module StwRun {
  import opened Wrappers
  import opened Document
  import opened StwHelpers
  import opened Offers
  import opened StwSpec
  import opened StwProperties
  import opened StwReferences
  import opened StwSuccess

  /** The log after a run of the canteen pages. */
  function LogAfterParse(before: seq<Entry>, fetch: string -> Option<Page>, links: PictogramLinks): seq<Entry>
  {
    before + [Cleared] + RunEffect(Links, fetch, Zero, links).records
  }

  /**
   * The clear comes before every insert of the run, so what is stored afterwards is exactly
   * what the run inserted, whatever was stored before.
   */
  lemma ParseClearsFirst(before: seq<Entry>, fetch: string -> Option<Page>, links: PictogramLinks)
    ensures Cleared !in RunEffect(Links, fetch, Zero, links).records
    ensures Stored(LogAfterParse(before, fetch, links)) == InsertedOffers(RunEffect(Links, fetch, Zero, links).records)
  {
    var e := RunEffect(Links, fetch, Zero, links);
    RunShape(Links, fetch, Zero, links);
    InsertsFromNeverClears(e.records, 0);
    StoredAfterClear(before, e.records);
  }

  /**
   * Items, categories and canteens are keyed 0, 1, 2, … in insertion order; a header
   * inserted just before a failure keeps the key its counter still holds.
   */
  lemma ParseNumbersKeys(fetch: string -> Option<Page>, links: PictogramLinks, e: Effect)
    requires e == RunEffect(Links, fetch, Zero, links)
    ensures IdsOf(e.records, ItemKind) == Range(0, e.next.itemId)
    ensures IdsOf(e.records, CategoryKind) == Range(0, e.next.categoryId + Open(e.error, 3))
    ensures IdsOf(e.records, CanteenKind) == Range(0, e.next.canteenId + Open(e.error, 1))
  {
    RunNumbered(Links, fetch, Zero, links, ItemKind);
    RunNumbered(Links, fetch, Zero, links, CategoryKind);
    RunNumbered(Links, fetch, Zero, links, CanteenKind);
  }

  /** No two items, and no two categories, of one run share a key. */
  lemma ParseKeysUnique(fetch: string -> Option<Page>, links: PictogramLinks, kind: Kind, i: int, j: int)
    requires kind != DateKind
    requires 0 <= i < j < |IdsOf(RunEffect(Links, fetch, Zero, links).records, kind)|
    ensures IdsOf(RunEffect(Links, fetch, Zero, links).records, kind)[i]
          < IdsOf(RunEffect(Links, fetch, Zero, links).records, kind)[j]
  {
    var e := RunEffect(Links, fetch, Zero, links);
    RunNumbered(Links, fetch, Zero, links, kind);
    RangeStrictlyIncreasing(Counter(Zero, kind), Stop(e, kind), i, j);
  }

  /**
   * Every date, category and item of the log since the clear names the canteen, date and
   * category inserted last before it.
   */
  lemma ParseReferences(before: seq<Entry>, fetch: string -> Option<Page>, links: PictogramLinks, from: Option<Scope>)
    ensures Replay(LogAfterParse(before, fetch, links), from).Some?
  {
    ReplayAfterClear(before, RunEffect(Links, fetch, Zero, links).records, from);
    RunReferences(Links, fetch, Zero, links, Closed);
  }

  /**
   * The completion callback is reached exactly when every page parses; then there are as
   * many items as rows and as many categories as category blocks on the pages.
   */
  lemma ParseFinishes(fetch: string -> Option<Page>, links: PictogramLinks)
    ensures var e := RunEffect(Links, fetch, Zero, links);
      && (e.error.None? <==> RunParsable(Links, fetch))
      && (e.error.None? ==> && e.next.itemId == RowsInRun(Links, fetch)
                            && e.next.categoryId == CategoriesInRun(Links, fetch)
                            && e.next.canteenId == |Links|)
  {
    RunSucceeds(Links, fetch, Zero, links);
    RunShape(Links, fetch, Zero, links);
  }
}

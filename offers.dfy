/**
 * The records the parser hands to persistent storage, and the storage itself reduced to
 * the log of calls it receives: one clear of all offers, then inserts.
 */
module Offers {
  import opened StwHelpers

  datatype OfferCanteen = OfferCanteen(id: int, name: string)

  /** A day's date as "DD.MM."; the record carries no canteen. */
  datatype OfferDate = OfferDate(id: int, date: string)

  datatype OfferCategory = OfferCategory(id: int, dateId: int, canteenId: int, category: string)

  datatype OfferItem = OfferItem(id: int, categoryId: int, title: string, price: string, dietaryPreferences: DietaryPrefObject)

  datatype Offer =
    | CanteenOffer(canteen: OfferCanteen)
    | DateOffer(date: OfferDate)
    | CategoryOffer(category: OfferCategory)
    | ItemOffer(item: OfferItem)

  /** One call on the repository: the clear of all offers, or an insert. */
  datatype Entry = Cleared | Inserted(offer: Offer)

  /** The repository, seen through the calls the parser makes on it. */
  class AppRepository {
    var log: seq<Entry>

    constructor ()
      ensures log == []
    {
      log := [];
    }

    /** Delete every stored offer. */
    method NukeOffers()
      modifies this
      ensures log == old(log) + [Cleared]
    {
      log := log + [Cleared];
    }

    method Insert(offer: Offer)
      modifies this
      ensures log == old(log) + [Inserted(offer)]
    {
      log := log + [Inserted(offer)];
    }
  }

  /** The offers that are stored after replaying a log: those inserted since the last clear. */
  function Stored(log: seq<Entry>): (offers: seq<Offer>)
    ensures |offers| <= |log|
  {
    if log == [] then []
    else match log[|log| - 1]
      case Cleared => []
      case Inserted(offer) => Stored(log[..|log| - 1]) + [offer]
  }

  /** The offers inserted by a log, in order. */
  function InsertedOffers(log: seq<Entry>): (offers: seq<Offer>)
    ensures |offers| <= |log|
  {
    if log == [] then []
    else match log[|log| - 1]
      case Cleared => InsertedOffers(log[..|log| - 1])
      case Inserted(offer) => InsertedOffers(log[..|log| - 1]) + [offer]
  }

  /** After a clear, what is stored is exactly what was inserted since, whatever was stored before. */
  lemma {:induction false} StoredAfterClear(before: seq<Entry>, since: seq<Entry>)
    requires Cleared !in since
    ensures Stored(before + [Cleared] + since) == InsertedOffers(since)
    decreases |since|
  {
    var log := before + [Cleared] + since;
    if since == [] {
      assert log[..|log| - 1] == before;
    } else {
      var last := since[|since| - 1];
      assert log[|log| - 1] == last;
      assert log[..|log| - 1] == before + [Cleared] + since[..|since| - 1];
      assert last in since;
      StoredAfterClear(before, since[..|since| - 1]);
    }
  }
}

/**
 * The pure helpers of the canteen parser: month names, date labels, entity filtering of
 * titles, the optional price cell and the dietary pictograms.
 */
module StwHelpers {
  import opened Wrappers
  import opened Text
  import opened Document

  /** The month abbreviations shown on the canteen pages, January first. */
  const Months: seq<string> := ["Jan", "Feb", "Mar", "Apr", "Mai", "Jun", "Jul", "Aug", "Sep", "Okt", "Nov", "Dez"]

  /** The value of a decimal digit character. */
  function DigitValue(c: char): int
  {
    c as int - '0' as int
  }

  /** `s` is written with exactly two decimal digits and denotes `n`. */
  predicate IsTwoDigits(s: string, n: int)
  {
    |s| == 2 && '0' <= s[0] <= '9' && '0' <= s[1] <= '9' && DigitValue(s[0]) * 10 + DigitValue(s[1]) == n
  }

  /** The two-digit month numbers, in the order of Months. */
  const MonthNumbers: seq<string> := ["01", "02", "03", "04", "05", "06", "07", "08", "09", "10", "11", "12"]

  /**
   * A month abbreviation as a two-digit month number; anything else becomes "00". The
   * branches are tried in calendar order, which MonthFrom walks one by one.
   */
  function MonthToNumber(month: string): (number: string)
    ensures |number| == 2
    ensures month !in Months ==> number == "00"
  {
    MonthFrom(month, 0)
  }

  /** The branches from the k-th month on. */
  function MonthFrom(month: string, k: nat): (number: string)
    requires k <= |Months|
    ensures |number| == 2
    ensures month !in Months[k..] ==> number == "00"
    decreases |Months| - k
  {
    if k == |Months| then "00"
    else if month == Months[k] then MonthNumbers[k]
    else MonthFrom(month, k + 1)
  }

  /** No abbreviation is listed twice. */
  lemma MonthsDistinct(j: nat, k: nat)
    requires j < k < |Months|
    ensures Months[j] != Months[k]
  {
    var a := Months[j];
    var b := Months[k];
    assert a[0] != b[0] || a[1] != b[1] || a[2] != b[2];
  }

  /** Every abbreviation is one token. */
  lemma MonthHasNoSpace(k: nat)
    requires k < |Months|
    ensures ' ' !in Months[k]
  {
    var m := Months[k];
    assert |m| == 3 && m[0] != ' ' && m[1] != ' ' && m[2] != ' ';
    assert m == [m[0], m[1], m[2]];
  }

  /** Every month number reads as its position plus one. */
  lemma MonthNumbersDigits(k: nat)
    requires k < |MonthNumbers|
    ensures IsTwoDigits(MonthNumbers[k], k + 1)
  {
  }

  /** The branches from j on map the k-th month to its number. */
  lemma {:induction false} MonthFromFinds(j: nat, k: nat)
    requires j <= k < |Months|
    ensures MonthFrom(Months[k], j) == MonthNumbers[k]
    decreases k - j
  {
    if j < k {
      MonthsDistinct(j, k);
      MonthFromFinds(j + 1, k);
    }
  }

  /** The k-th month abbreviation maps to the number k + 1, written with two digits. */
  lemma MonthToNumberTable(k: nat)
    requires k < |Months|
    ensures IsTwoDigits(MonthToNumber(Months[k]), k + 1)
  {
    MonthFromFinds(0, k);
    MonthNumbersDigits(k);
  }

  /** The lenient fallback "00" is returned exactly for strings that are not a month. */
  lemma MonthToNumberRecognises(month: string)
    ensures MonthToNumber(month) != "00" <==> month in Months
  {
    if month in Months {
      var k :| 0 <= k < |Months| && Months[k] == month;
      MonthToNumberTable(k);
    }
  }

  /**
   * A tab tabLabel such as "24. Apr" as the stored date "24.04.": the tabLabel is split at every
   * space, and the first part, the month number of the second part and a final "." are
   * concatenated. A tabLabel with no space has no second part, and the lookup fails.
   */
  function NormalizeDate(tabLabel: string): (date: Option<string>)
    ensures date.None? <==> ' ' !in tabLabel
    ensures date.Some? ==> |date.value| >= 3 && date.value[|date.value| - 1] == '.'
  {
    var parts := Split(tabLabel, ' ');
    if |parts| < 2 then None else Some(parts[0] + MonthToNumber(parts[1]) + ".")
  }

  /** A two-token tabLabel "d m" is stored as d, the month number of m, and ".". */
  lemma NormalizeDateTwoTokens(d: string, m: string)
    requires ' ' !in d && ' ' !in m
    ensures NormalizeDate(d + " " + m) == Some(d + MonthToNumber(m) + ".")
  {
    assert Join([d, m], ' ') == d + " " + m by {
      assert Join([d, m][1..], ' ') == m;
    }
    SplitJoin([d, m], ' ');
  }

  /** A label "d m" whose second token is the k-th month is stored as d, the number k + 1 and ".". */
  lemma NormalizeDateMonth(d: string, k: nat)
    requires ' ' !in d && k < |Months|
    ensures NormalizeDate(d + " " + Months[k]) == Some(d + MonthNumbers[k] + ".")
    ensures IsTwoDigits(MonthNumbers[k], k + 1)
  {
    MonthFromFinds(0, k);
    MonthNumbersDigits(k);
    MonthHasNoSpace(k);
    NormalizeDateTwoTokens(d, Months[k]);
  }

  lemma NormalizeDateExampleApr()
    ensures NormalizeDate("24. Apr") == Some("24.04.")
  {
    var d := "24.";
    AprilIsFourth();
    assert d + " " + "Apr" == "24. Apr" && d + "04" + "." == "24.04.";
    NormalizeDateMonth(d, 3);
  }

  lemma AprilIsFourth()
    ensures Months[3] == "Apr" && MonthNumbers[3] == "04"
  {
  }

  lemma NormalizeDateExampleUnknown()
    ensures NormalizeDate("5. Xyz") == Some("5.00.")
  {
    var d, m := "5.", "Xyz";
    NotAMonth(m);
    MonthToNumberRecognises(m);
    assert "5. Xyz" == d + " " + m && d + "00" + "." == "5.00.";
    NormalizeDateTwoTokens(d, m);
  }

  lemma NotAMonth(m: string)
    requires |m| > 0 && m[0] == 'X'
    ensures m !in Months
  {
    assert forall k | 0 <= k < |Months| :: Months[k][0] != 'X';
  }

  /** The item title: "&amp;", then "&gt;", then "&lt;" are replaced in the cell's inner HTML. */
  function FilteredText(html: string): (text: string)
    ensures '&' !in html ==> text == html
    ensures |text| <= |html|
  {
    ReplaceAll(ReplaceAll(ReplaceAll(html, "&amp;", "&"), "&gt;", ">"), "&lt;", "<")
  }

  /** An escaped ampersand between entity-free text decodes to a plain "&". */
  lemma FilteredTextAmpersand(head: string, tail: string)
    requires '&' !in head && '&' !in tail && |tail| > 0 && tail[0] == ' '
    ensures FilteredText(head + "&amp;" + tail) == head + "&" + tail
  {
    NoOccurrenceIn(head, "&amp;" + tail, "&amp;");
    assert head + ("&amp;" + tail) == head + "&amp;" + tail;
    ReplaceAllFirstOccurrence(head, tail, "&amp;", "&");
    AmpersandKept(head, tail, "&gt;", ">");
    AmpersandKept(head, tail, "&lt;", "<");
  }

  lemma FilteredTextExample()
    ensures FilteredText("Chicken &amp; Rice") == "Chicken & Rice"
  {
    var head, tail := "Chicken ", " Rice";
    assert "Chicken &amp; Rice" == head + "&amp;" + tail && head + "&" + tail == "Chicken & Rice";
    FilteredTextAmpersand(head, tail);
  }

  /** A lone "&" followed by a space is not the start of an entity. */
  lemma AmpersandKept(head: string, tail: string, pat: string, rep: string)
    requires |pat| == 4 && pat[0] == '&' && pat[1] != ' '
    requires '&' !in head && '&' !in tail && |tail| > 0 && tail[0] == ' '
    ensures ReplaceAll(head + "&" + tail, pat, rep) == head + "&" + tail
  {
    assert head + "&" + tail == head + ("&" + tail);
    ReplaceAllSkips(head, "&" + tail, pat, rep);
    var s := "&" + tail;
    assert s[1] == ' ';
    assert |s| >= |pat| ==> s[..|pat|][1] != pat[1];
    assert s[1..] == tail;
  }

  /** The replacements are chained, so an escaped entity is decoded twice. */
  lemma FilteredTextDecodesTwice()
    ensures FilteredText("&amp;lt;") == "<"
  {
    AmpersandOfLt();
    GtKeepsLt();
    assert "&lt;" == "" + "&lt;" + "";
    ReplaceAllFirstOccurrence("", "", "&lt;", "<");
  }

  lemma AmpersandOfLt()
    ensures ReplaceAll("&amp;lt;", "&amp;", "&") == "&lt;"
  {
    assert "&amp;lt;" == "" + "&amp;" + "lt;";
    ReplaceAllFirstOccurrence("", "lt;", "&amp;", "&");
    assert "" + "&" + "lt;" == "&lt;";
  }

  lemma GtKeepsLt()
    ensures ReplaceAll("&lt;", "&gt;", ">") == "&lt;"
  {
    var s := "&lt;";
    assert s[..4][1] != "&gt;"[1];
    assert s[1..] == "lt;";
  }

  /** The text of cell `index`, or "" when there is no such cell. */
  function TextOrEmpty(cells: seq<Cell>, index: int): string
  {
    if 0 <= index < |cells| then cells[index].text else ""
  }

  // Pictogram addresses of the dietary preferences.
  const ImageLinkPrefFair := "https://www.stw-bremen.de/sites/default/files/images/pictograms/at_small.png"
  const ImageLinkPrefFish := "https://www.stw-bremen.de/sites/default/files/images/pictograms/fisch.png"
  const ImageLinkPrefPoultry := "https://www.stw-bremen.de/sites/default/files/images/pictograms/geflugel.png"
  const ImageLinkPrefLamb := "https://www.stw-bremen.de/sites/default/files/images/pictograms/lamm.png"
  const ImageLinkPrefVital := "https://www.stw-bremen.de/sites/default/files/images/pictograms/mensa_vital.png"
  const ImageLinkPrefBeef := "https://www.stw-bremen.de/sites/default/files/images/pictograms/rindfleisch.png"
  const ImageLinkPrefPork := "https://www.stw-bremen.de/sites/default/files/images/pictograms/schwein.png"
  const ImageLinkPrefVegan := "https://www.stw-bremen.de/sites/default/files/images/pictograms/mensa_vegan.png"
  const ImageLinkPrefVegetarian := "https://www.stw-bremen.de/sites/default/files/images/pictograms/vegetarisch.png"
  const ImageLinkPrefGame := "https://www.stw-bremen.de/sites/default/files/images/pictograms/wild.png"

  /** The pictogram address of each of the ten dietary preferences. */
  datatype PictogramLinks = PictogramLinks(
    fair: string, fish: string, poultry: string, lamb: string, vital: string,
    beef: string, pork: string, vegan: string, vegetarian: string, game: string)

  /** The addresses the canteen pages use. */
  const StwPictograms := PictogramLinks(
    ImageLinkPrefFair, ImageLinkPrefFish, ImageLinkPrefPoultry, ImageLinkPrefLamb, ImageLinkPrefVital,
    ImageLinkPrefBeef, ImageLinkPrefPork, ImageLinkPrefVegan, ImageLinkPrefVegetarian, ImageLinkPrefGame)

  /** The addresses in the order of the preference flags. */
  function Markers(links: PictogramLinks): (markers: seq<string>)
    ensures |markers| == 10
  {
    [links.fair, links.fish, links.poultry, links.lamb, links.vital,
     links.beef, links.pork, links.vegan, links.vegetarian, links.game]
  }

  /** The ten dietary preferences of an item. */
  datatype DietaryPrefObject = DietaryPrefObject(
    isFair: bool, isFish: bool, isPoultry: bool, isLamb: bool, isVital: bool,
    isBeef: bool, isPork: bool, isVegan: bool, isVegetarian: bool, isGame: bool)

  /** The flags in their fixed order: fair, fish, poultry, lamb, vital, beef, pork, vegan, vegetarian, game. */
  function Flags(p: DietaryPrefObject): (flags: seq<bool>)
    ensures |flags| == 10
  {
    [p.isFair, p.isFish, p.isPoultry, p.isLamb, p.isVital, p.isBeef, p.isPork, p.isVegan, p.isVegetarian, p.isGame]
  }

  /** Some element of the fragment has exactly `preference` as its `src`. */
  function IsDietaryPreferenceMet(fragment: set<string>, preference: string): bool
  {
    preference in fragment
  }

  /** The preferences an item meets, read from the `src` values of its food-types fragment. */
  function DietaryPrefs(fragment: set<string>, links: PictogramLinks): DietaryPrefObject
  {
    DietaryPrefObject(
      isFair := IsDietaryPreferenceMet(fragment, links.fair),
      isFish := IsDietaryPreferenceMet(fragment, links.fish),
      isPoultry := IsDietaryPreferenceMet(fragment, links.poultry),
      isLamb := IsDietaryPreferenceMet(fragment, links.lamb),
      isVital := IsDietaryPreferenceMet(fragment, links.vital),
      isBeef := IsDietaryPreferenceMet(fragment, links.beef),
      isPork := IsDietaryPreferenceMet(fragment, links.pork),
      isVegan := IsDietaryPreferenceMet(fragment, links.vegan),
      isVegetarian := IsDietaryPreferenceMet(fragment, links.vegetarian),
      isGame := IsDietaryPreferenceMet(fragment, links.game))
  }

  /** Flag k is set exactly when pictogram k is shown in the fragment. */
  lemma DietaryPrefsExact(fragment: set<string>, links: PictogramLinks, k: nat)
    requires k < 10
    ensures Flags(DietaryPrefs(fragment, links))[k] <==> Markers(links)[k] in fragment
  {
  }

  /** The ten pictogram addresses of the canteen pages are pairwise different. */
  lemma StwPictogramsDistinct(i: nat, j: nat)
    requires i < j < 10
    ensures Markers(StwPictograms)[i] != Markers(StwPictograms)[j]
  {
    var a, b := Markers(StwPictograms)[i], Markers(StwPictograms)[j];
    if a[64] == b[64] {
      assert a[64] == 'm' && a[71] != b[71];
    }
  }

  /** The fragment showing exactly the pictograms of the set flags of `p`. */
  function FragmentShowing(p: DietaryPrefObject, links: PictogramLinks): set<string>
  {
    set k | 0 <= k < 10 && Flags(p)[k] :: Markers(links)[k]
  }

  /** With the canteen's pictograms the flags are independent: every one of the 1024 combinations is read from some fragment. */
  lemma DietaryPrefsIndependent(p: DietaryPrefObject)
    ensures DietaryPrefs(FragmentShowing(p, StwPictograms), StwPictograms) == p
  {
    var fragment := FragmentShowing(p, StwPictograms);
    var markers := Markers(StwPictograms);
    forall k | 0 <= k < 10
      ensures Flags(DietaryPrefs(fragment, StwPictograms))[k] == Flags(p)[k]
    {
      DietaryPrefsExact(fragment, StwPictograms, k);
      if markers[k] in fragment {
        var j :| 0 <= j < 10 && Flags(p)[j] && markers[j] == markers[k];
        if j < k { StwPictogramsDistinct(j, k); }
        if k < j { StwPictogramsDistinct(k, j); }
      }
    }
    assert Flags(DietaryPrefs(fragment, StwPictograms)) == Flags(p);
  }
}

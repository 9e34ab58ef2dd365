/**
 * The fetched canteen page, reduced to what the parser reads from it. Every lookup the
 * parser makes by class or tag name yields a list, and the parser then takes a fixed
 * position of it; those lists are kept as sequences so that a missing position is visible.
 */
module Document {

  /** A `td` cell: what its `text()` and its inner `html()` return. */
  datatype Cell = Cell(text: string, html: string)

  /**
   * A `tr` row of a category's table: its `td` cells in order, and, for every element of
   * class "field field-name-field-food-types" in the row, the `src` values of the elements
   * inside it (the dietary pictograms).
   */
  datatype Row = Row(cells: seq<Cell>, foodTypes: seq<set<string>>)

  /**
   * A "food-category" block: the texts of its "category-name" elements and, for every
   * `tbody` in it, the rows of that table body.
   */
  datatype Category = Category(names: seq<string>, bodies: seq<seq<Row>>)

  /** A "food-plan" block: the offers of one day. */
  datatype DayPlan = DayPlan(categories: seq<Category>)

  /**
   * One canteen page: the texts of its "pane-title" elements, for every "tabs" element the
   * texts of the "tab-date" elements inside it, and its "food-plan" blocks in document order.
   */
  datatype Page = Page(paneTitles: seq<string>, tabs: seq<seq<string>>, dayPlans: seq<DayPlan>)
}

/** The filter pipeline applied to the table of a search before it is shown:
    by business type, by category and by distance. */
module Filters {
  import opened Rows
  import opened Seqs

  /** The category option that switches the category filter off. */
  const AllCategories: string := "All Categories"

  /** The state of the filter widgets: the selected types, the selected
      categories and the search radius in whole miles. */
  datatype Selection = Selection(types: seq<Kind>, categories: seq<string>, radiusMiles: int)

  predicate TypeFilterActive(sel: Selection)
  {
    sel.types != []
  }

  predicate CategoryFilterActive(sel: Selection)
  {
    sel.categories != [] && AllCategories !in sel.categories
  }

  function TypeTest(sel: Selection): Row -> bool
  {
    (r: Row) => !TypeFilterActive(sel) || r.kind in sel.types
  }

  function CategoryTest(sel: Selection): Row -> bool
  {
    (r: Row) => !CategoryFilterActive(sel) || r.category in sel.categories
  }

  /** Distances are in hundredths of a mile, the radius in miles. */
  function DistanceTest(sel: Selection): Row -> bool
  {
    (r: Row) => r.distance <= 100 * sel.radiusMiles
  }

  /** A row is shown when it passes every filter that is switched on. */
  predicate Passes(sel: Selection, r: Row)
  {
    TypeTest(sel)(r) && CategoryTest(sel)(r) && DistanceTest(sel)(r)
  }

  function PassesTest(sel: Selection): Row -> bool
  {
    (r: Row) => Passes(sel, r)
  }

  /** The rows the pipeline keeps. */
  function Visible(rows: seq<Row>, sel: Selection): seq<Row>
  {
    Filter(rows, PassesTest(sel))
  }

  /** The three selections in turn; the type and category selections are
      skipped when their filter is off. */
  method ApplyFilters(rows: seq<Row>, sel: Selection) returns (shown: seq<Row>)
    ensures shown == Visible(rows, sel)
    ensures IsSubsequence(shown, rows)
    ensures forall r <- shown ::
      && (TypeFilterActive(sel) ==> r.kind in sel.types)
      && (CategoryFilterActive(sel) ==> r.category in sel.categories)
      && r.distance <= 100 * sel.radiusMiles
    ensures forall r <- rows :: Passes(sel, r) ==> r in shown
  {
    shown := rows;
    if sel.types != [] {
      shown := Filter(shown, TypeTest(sel));
    } else {
      FilterAll(rows, TypeTest(sel));
    }
    ghost var byType := shown;
    if sel.categories != [] && AllCategories !in sel.categories {
      shown := Filter(shown, CategoryTest(sel));
    } else {
      FilterAll(byType, CategoryTest(sel));
    }
    ghost var byCategory := shown;
    shown := Filter(shown, DistanceTest(sel));
    var typeAndCategory := (r: Row) => TypeTest(sel)(r) && CategoryTest(sel)(r);
    FilterFilter(rows, TypeTest(sel), CategoryTest(sel), typeAndCategory);
    FilterFilter(rows, typeAndCategory, DistanceTest(sel), PassesTest(sel));
    FilterIsSubsequence(rows, PassesTest(sel));
  }

  /** Filtering an already filtered table changes nothing. */
  lemma VisibleIdempotent(rows: seq<Row>, sel: Selection)
    ensures Visible(Visible(rows, sel), sel) == Visible(rows, sel)
  {
    FilterIdempotent(rows, PassesTest(sel));
  }

  /** Selecting no type shows the same rows as selecting both. */
  lemma EmptyTypeSelectionKeepsAllTypes(rows: seq<Row>, sel: Selection)
    ensures Visible(rows, sel.(types := [])) == Visible(rows, sel.(types := [Store, Restaurant]))
  {
    forall r: Row
      ensures PassesTest(sel.(types := []))(r) == PassesTest(sel.(types := [Store, Restaurant]))(r)
    {
      assert r.kind == Store || r.kind == Restaurant;
    }
    FilterExtensional(rows, PassesTest(sel.(types := [])), PassesTest(sel.(types := [Store, Restaurant])));
  }

  /** Selecting "All Categories", alone or with others, is the same as
      selecting no category: the category filter is off. */
  lemma AllCategoriesSwitchesCategoryFilterOff(rows: seq<Row>, sel: Selection)
    requires AllCategories in sel.categories
    ensures Visible(rows, sel) == Visible(rows, sel.(categories := []))
  {
    FilterExtensional(rows, PassesTest(sel), PassesTest(sel.(categories := [])));
  }

  /** A larger radius shows every row a smaller one shows, in the same order. */
  lemma VisibleMonotoneInRadius(rows: seq<Row>, sel: Selection, larger: int)
    requires sel.radiusMiles <= larger
    ensures IsSubsequence(Visible(rows, sel), Visible(rows, sel.(radiusMiles := larger)))
  {
    var wide := sel.(radiusMiles := larger);
    FilterFilter(rows, PassesTest(wide), PassesTest(sel), PassesTest(sel));
    FilterIsSubsequence(Visible(rows, wide), PassesTest(sel));
  }
}

/** The list view of the filtered table: the stores and the restaurants, each
    ordered by distance, and the whole table ordered by distance. */
module ListView {
  import opened Rows
  import opened Seqs
  import opened Filters

  ghost predicate SortedByDistance(s: seq<Row>)
  {
    forall i, j :: 0 <= i < j < |s| ==> s[i].distance <= s[j].distance
  }

  /** `x` placed before the first row of `s` that is at least as far away. */
  function Insert(x: Row, s: seq<Row>): seq<Row>
  {
    if s == [] then [x]
    else if x.distance <= s[0].distance then [x] + s
    else [s[0]] + Insert(x, s[1..])
  }

  /** `sort_values("Distance (miles)")`. */
  function SortByDistance(s: seq<Row>): seq<Row>
  {
    if s == [] then [] else Insert(s[0], SortByDistance(s[1..]))
  }

  lemma {:induction false} InsertKeepsRows(x: Row, s: seq<Row>)
    ensures multiset(Insert(x, s)) == multiset(s) + multiset{x}
  {
    if s != [] {
      assert s == [s[0]] + s[1..];
      if x.distance > s[0].distance {
        InsertKeepsRows(x, s[1..]);
      }
    }
  }

  lemma {:induction false} InsertCorrect(x: Row, s: seq<Row>)
    requires SortedByDistance(s)
    ensures SortedByDistance(Insert(x, s))
    ensures multiset(Insert(x, s)) == multiset(s) + multiset{x}
  {
    InsertKeepsRows(x, s);
    if s != [] && x.distance > s[0].distance {
      var rest := Insert(x, s[1..]);
      InsertCorrect(x, s[1..]);
      forall k | 0 <= k < |rest|
        ensures s[0].distance <= rest[k].distance
      {
        assert rest[k] in multiset(rest);
        if rest[k] != x {
          assert rest[k] in multiset(s[1..]);
          var j :| 1 <= j < |s| && s[j] == rest[k] by {
            assert rest[k] in s[1..];
          }
        }
      }
      assert Insert(x, s) == [s[0]] + rest;
    }
  }

  /** Sorting orders the rows by non-decreasing distance and keeps every row
      exactly as often as it occurs. */
  lemma {:induction false} SortByDistanceCorrect(s: seq<Row>)
    ensures SortedByDistance(SortByDistance(s))
    ensures multiset(SortByDistance(s)) == multiset(s)
  {
    if s != [] {
      SortByDistanceCorrect(s[1..]);
      InsertCorrect(s[0], SortByDistance(s[1..]));
      assert s == [s[0]] + s[1..];
    }
  }

  function Stores(rows: seq<Row>): seq<Row>
  {
    SortByDistance(Filter(rows, IsStore))
  }

  function Restaurants(rows: seq<Row>): seq<Row>
  {
    SortByDistance(Filter(rows, IsRestaurant))
  }

  /** Two sequences with the same multiset of rows hold the same rows. */
  lemma SameRows(a: seq<Row>, b: seq<Row>)
    requires multiset(a) == multiset(b)
    ensures forall r :: r in a <==> r in b
  {
    forall r
      ensures r in a <==> r in b
    {
      assert r in a <==> r in multiset(a);
      assert r in b <==> r in multiset(b);
    }
  }

  /** The Stores list holds exactly the store rows and the Restaurants list
      exactly the restaurant rows, each sorted by distance; together they hold
      every row once. */
  lemma ListSplit(rows: seq<Row>)
    ensures SortedByDistance(Stores(rows)) && SortedByDistance(Restaurants(rows))
    ensures multiset(Stores(rows)) == multiset(Filter(rows, IsStore))
    ensures multiset(Restaurants(rows)) == multiset(Filter(rows, IsRestaurant))
    ensures forall r :: r in Stores(rows) <==> r in rows && r.kind == Store
    ensures forall r :: r in Restaurants(rows) <==> r in rows && r.kind == Restaurant
    ensures multiset(Stores(rows)) + multiset(Restaurants(rows)) == multiset(rows)
  {
    var stores, restaurants := Filter(rows, IsStore), Filter(rows, IsRestaurant);
    SortByDistanceCorrect(stores);
    SortByDistanceCorrect(restaurants);
    FilterPartition(rows, IsStore, IsRestaurant);
    SameRows(Stores(rows), stores);
    SameRows(Restaurants(rows), restaurants);
  }

  /** What the results area shows for a stored search table. */
  datatype View =
    | NoMatches  // the "No businesses found" warning
    | Listing(count: nat, stores: seq<Row>, restaurants: seq<Row>, table: seq<Row>)

  function Display(results: seq<Row>, sel: Selection): (v: View)
    ensures v.NoMatches? <==> forall r <- results :: !Passes(sel, r)
    ensures v.Listing? ==> v.count == |Visible(results, sel)| > 0
    ensures v.Listing? ==> v.stores == Stores(Visible(results, sel))
    ensures v.Listing? ==> v.restaurants == Restaurants(Visible(results, sel))
    ensures v.Listing? ==> multiset(v.table) == multiset(Visible(results, sel)) && SortedByDistance(v.table)
  {
    var shown := Visible(results, sel);
    if |shown| > 0 then
      SortByDistanceCorrect(shown);
      Listing(|shown|, Stores(shown), Restaurants(shown), SortByDistance(shown))
    else
      assert forall r <- results :: PassesTest(sel)(r) ==> r in shown;
      NoMatches
  }
}

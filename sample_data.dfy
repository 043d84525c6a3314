/** The built-in sample dataset: twelve fixed businesses placed at fixed
    offsets around the searched location (`get_sample_businesses`). */
module SampleData {
  import opened Wrappers
  import opened Rows
  import opened Seqs

  datatype Template = Template(
    name: string,
    kind: Kind,
    category: string,
    latOffset: real,
    lonOffset: real,
    street: string)

  const Templates: seq<Template> := [
    Template("Target", Store, "Department Store", 0.02, 0.01, "Main St"),
    Template("Walmart Supercenter", Store, "Supermarket", -0.01, 0.03, "Commerce Blvd"),
    Template("Whole Foods Market", Store, "Grocery", 0.03, -0.02, "Oak Avenue"),
    Template("Best Buy", Store, "Electronics", -0.02, -0.01, "Technology Way"),
    Template("CVS Pharmacy", Store, "Pharmacy", 0.01, 0.02, "Park Street"),
    Template("The Olive Garden", Restaurant, "Italian", 0.015, 0.015, "Restaurant Row"),
    Template("Chipotle Mexican Grill", Restaurant, "Mexican", -0.015, 0.02, "Market Street"),
    Template("Starbucks", Restaurant, "Coffee Shop", 0.025, -0.015, "Center Avenue"),
    Template("McDonald's", Restaurant, "Fast Food", -0.025, -0.025, "Highway 101"),
    Template("Panera Bread", Restaurant, "Bakery Cafe", 0.005, -0.03, "Plaza Drive"),
    Template("Red Lobster", Restaurant, "Seafood", -0.03, 0.01, "Waterfront Way"),
    Template("Buffalo Wild Wings", Restaurant, "American", 0.02, 0.025, "Stadium Boulevard")
  ]

  function SampleAddress(street: string): (a: string)
    ensures |a| == |street| + 17
    ensures a[..4] == "123 " && a[|a| - 13..] == ", Nearby City"
    ensures a[4..|a| - 13] == street
  {
    "123 " + street + ", Nearby City"
  }

  /** The row one template gives around `center`. */
  function SampleRow(center: Point, t: Template, geodesic: Geodesic): Row
  {
    var position := Point(center.lat + t.latOffset, center.lon + t.lonOffset);
    Row(
      name := t.name,
      kind := t.kind,
      category := t.category,
      address := SampleAddress(t.street),
      lat := position.lat,
      lon := position.lon,
      distance := geodesic(center, position),
      contact := None)
  }

  /** The sample table: one row per template, in template order. */
  function SampleBusinesses(center: Point, geodesic: Geodesic): (rows: seq<Row>)
  {
    seq(|Templates|, i requires 0 <= i < |Templates| => SampleRow(center, Templates[i], geodesic))
  }

  /** Twelve rows, each copying its template's name, type and category, with
      the template's street in a fixed address form, its offset position and
      none of the columns that only real rows have. */
  lemma SampleBusinessesShape(center: Point, geodesic: Geodesic)
    ensures var rows := SampleBusinesses(center, geodesic);
      && |rows| == 12
      && forall i :: 0 <= i < 12 ==>
        && rows[i].name == Templates[i].name
        && rows[i].kind == Templates[i].kind
        && rows[i].category == Templates[i].category
        && rows[i].address == "123 " + Templates[i].street + ", Nearby City"
        && rows[i].lat == center.lat + Templates[i].latOffset
        && rows[i].lon == center.lon + Templates[i].lonOffset
        && rows[i].distance == geodesic(center, Point(rows[i].lat, rows[i].lon))
        && rows[i].contact.None?
  {
  }

  /** The first five rows are stores and the other seven restaurants. */
  lemma SampleKinds(center: Point, geodesic: Geodesic)
    ensures var rows := SampleBusinesses(center, geodesic);
      forall i :: 0 <= i < |rows| ==> (rows[i].kind == Store <==> i < 5)
  {
  }

  /** Five stores and seven restaurants. */
  lemma SampleKindCounts(center: Point, geodesic: Geodesic)
    ensures |Filter(SampleBusinesses(center, geodesic), IsStore)| == 5
    ensures |Filter(SampleBusinesses(center, geodesic), IsRestaurant)| == 7
  {
    var rows := SampleBusinesses(center, geodesic);
    SampleKinds(center, geodesic);
    FilterPrefixCount(rows, 5, IsStore);
    FilterPartition(rows, IsStore, IsRestaurant);
    assert |multiset(rows)| == 12;
  }

  /** `get_sample_businesses`: one row appended per template. */
  method GetSampleBusinesses(center: Point, geodesic: Geodesic) returns (rows: seq<Row>)
    ensures rows == SampleBusinesses(center, geodesic)
  {
    rows := [];
    for i := 0 to |Templates|
      invariant |rows| == i
      invariant forall k :: 0 <= k < i ==> rows[k] == SampleRow(center, Templates[k], geodesic)
    {
      var t := Templates[i];
      var lat := center.lat + t.latOffset;
      var lon := center.lon + t.lonOffset;
      var address := "123 " + t.street + ", Nearby City";
      var distance := geodesic(center, Point(lat, lon));
      rows := rows + [Row(t.name, t.kind, t.category, address, lat, lon, distance, None)];
    }
  }
}

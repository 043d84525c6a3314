/** Turning the replies of the places service into table rows: the body of
    `get_real_businesses`. The service itself (nearby search and place
    details) is a pair of function parameters. */
module Places {
  import opened Wrappers
  import opened Rows
  import opened Text

  /** The `opening_hours` object; an absent object reads as `OpeningHours(false, None)`. */
  datatype OpeningHours = OpeningHours(openNow: bool, weekdayText: Option<seq<string>>)

  /** The `result` object of a place-details reply. Absent keys are `None`;
      absent `types` is the empty list; a reply without `result` is a value
      with every key absent. */
  datatype Details = Details(
    name: Option<string>,
    address: Option<string>,
    lat: Option<real>,
    lng: Option<real>,
    rating: Option<real>,
    openingHours: OpeningHours,
    phone: Option<string>,
    types: seq<string>)

  /** The places service. `nearby(center, radiusMeters, placeType)` gives the
      `place_id` of each entry of `results` (absent `results` is the empty
      list); `place(placeId)` gives the details of one place. Either may raise. */
  datatype PlacesClient = PlacesClient(
    nearby: (Point, real, string) -> Reply<seq<Option<string>>>,
    place: Option<string> -> Reply<Details>)

  /** The two nearby searches, in the order they are made. */
  const PlaceTypes: seq<string> := ["store", "restaurant"]

  const MetersPerMile: real := 1609.34

  /** Python truthiness of a coordinate: present and non-zero. */
  predicate Truthy(v: Option<real>)
  {
    v.Some? && v.value != 0.0
  }

  /** Python truthiness of an API key: present and non-empty. */
  predicate KeyPresent(key: Option<string>)
  {
    key.Some? && key.value != ""
  }

  function Classify(types: seq<string>): Kind
  {
    if "restaurant" in types then Restaurant else Store
  }

  /** The "Category" column: the first place type with underscores turned into
      spaces and then title-cased, or "General" when there is no type. */
  function CategoryOf(types: seq<string>): (r: string)
    ensures types == [] ==> r == "General"
    ensures types != [] ==> |r| == |types[0]| && '_' !in r
    ensures types != [] ==> forall i :: 0 <= i < |r| ==>
      r[i] == if types[0][i] == '_' then ' ' else TitleCharAt(types[0], i)
  {
    if types == [] then "General"
    else
      var t := types[0];
      var spaced := ReplaceChar(t, '_', ' ');
      TitleSpec(spaced);
      assert forall i :: 0 <= i < |t| ==> (IsLetter(spaced[i]) <==> IsLetter(t[i]));
      Title(spaced)
  }

  /** The "Hours" column. A `weekday_text` list, when present, wins over `open_now`. */
  function HoursText(h: OpeningHours): (r: string)
    ensures h.weekdayText.None? && h.openNow ==> r == "Open now"
    ensures h.weekdayText.None? && !h.openNow ==> r == "Closed"
    ensures h.weekdayText.Some? && |h.weekdayText.value| == 0 ==> r == ""
    ensures h.weekdayText.Some? && |h.weekdayText.value| == 1 ==> r == h.weekdayText.value[0]
    ensures h.weekdayText.Some? && |h.weekdayText.value| >= 2 ==>
      r == h.weekdayText.value[0] + "; " + h.weekdayText.value[1]
  {
    match h.weekdayText
    case Some(w) =>
      var first := Take(w, 2);
      if |first| >= 2 then
        assert first[1..] == [first[1]];
        assert Join("; ", first[1..]) == first[1];
        Join("; ", first)
      else Join("; ", first)
    case None => if h.openNow then "Open now" else "Closed"
  }

  /** One place as a table row, or nothing when its latitude or longitude is
      missing or zero. */
  function ShapePlace(center: Point, d: Details, geodesic: Geodesic): (r: Option<Row>)
    ensures r.Some? <==> Truthy(d.lat) && Truthy(d.lng)
    ensures r.Some? ==> r.value.lat == d.lat.value && r.value.lon == d.lng.value
    ensures r.Some? ==> r.value.distance == geodesic(center, Point(d.lat.value, d.lng.value))
    ensures r.Some? ==> (r.value.kind == Restaurant <==> "restaurant" in d.types)
    ensures r.Some? ==> r.value.category == CategoryOf(d.types)
    ensures r.Some? ==> r.value.name == (if d.name.Some? then d.name.value else "Unknown")
    ensures r.Some? ==> r.value.address == (if d.address.Some? then d.address.value else "N/A")
    ensures r.Some? ==> r.value.contact.Some?
    ensures r.Some? ==> r.value.contact.value.phone == (if d.phone.Some? then d.phone.value else "N/A")
    ensures r.Some? ==> r.value.contact.value.rating == (if d.rating.Some? then Stars(d.rating.value) else NotAvailable)
    ensures r.Some? ==> r.value.contact.value.hours == HoursText(d.openingHours)
  {
    if Truthy(d.lat) && Truthy(d.lng) then
      var lat, lon := d.lat.value, d.lng.value;
      Some(Row(
        name := d.name.GetOr("Unknown"),
        kind := Classify(d.types),
        category := CategoryOf(d.types),
        address := d.address.GetOr("N/A"),
        lat := lat,
        lon := lon,
        distance := geodesic(center, Point(lat, lon)),
        contact := Some(Contact(
          rating := if d.rating.Some? then Stars(d.rating.value) else NotAvailable,
          phone := d.phone.GetOr("N/A"),
          hours := HoursText(d.openingHours)))))
    else None
  }

  /** The details of every place id, in order, or `None` when a lookup raises. */
  function Lookups(ids: seq<Option<string>>, place: Option<string> -> Reply<Details>): (r: Option<seq<Details>>)
    ensures r.Some? ==> |r.value| == |ids|
    ensures r.Some? ==> forall i :: 0 <= i < |ids| ==> place(ids[i]) == Returned(r.value[i])
    ensures r.None? <==> exists i :: 0 <= i < |ids| && place(ids[i]).Raised?
  {
    if ids == [] then Some([])
    else
      var init := ids[..|ids| - 1];
      assert forall i :: 0 <= i < |init| ==> init[i] == ids[i];
      match Lookups(init, place)
      case None => None
      case Some(ds) =>
        match place(ids[|ids| - 1])
        case Raised => None
        case Returned(d) => Some(ds + [d])
  }

  /** The rows the places of one query contribute, in the order of the query. */
  function Emitted(center: Point, ds: seq<Details>, geodesic: Geodesic): (rows: seq<Row>)
    ensures |rows| <= |ds|
    ensures forall r <- rows :: r.lat != 0.0 && r.lon != 0.0 && r.contact.Some?
  {
    if ds == [] then []
    else
      Emitted(center, ds[..|ds| - 1], geodesic) +
      match ShapePlace(center, ds[|ds| - 1], geodesic)
      case Some(r) => [r]
      case None => []
  }

  /** Emitting the details of two consecutive stretches of results one after
      the other gives the rows of the first stretch, then those of the second. */
  lemma {:induction false} EmittedAppend(center: Point, a: seq<Details>, b: seq<Details>, geodesic: Geodesic)
    ensures Emitted(center, a + b, geodesic) == Emitted(center, a, geodesic) + Emitted(center, b, geodesic)
    decreases |b|
  {
    if b == [] {
      assert a + b == a;
    } else {
      var b' := b[..|b| - 1];
      var last := match ShapePlace(center, b[|b| - 1], geodesic) case Some(r) => [r] case None => [];
      assert (a + b)[..|a + b| - 1] == a + b';
      assert (a + b)[|a + b| - 1] == b[|b| - 1];
      assert Emitted(center, a + b, geodesic) == Emitted(center, a + b', geodesic) + last;
      assert Emitted(center, b, geodesic) == Emitted(center, b', geodesic) + last;
      EmittedAppend(center, a, b', geodesic);
    }
  }

  /** Every emitted row is the row of one of the places. */
  lemma {:induction false} EmittedOrigin(center: Point, ds: seq<Details>, geodesic: Geodesic)
    ensures forall r <- Emitted(center, ds, geodesic) ::
      exists i :: 0 <= i < |ds| && ShapePlace(center, ds[i], geodesic) == Some(r)
  {
    if ds != [] {
      var init := ds[..|ds| - 1];
      EmittedOrigin(center, init, geodesic);
      forall r <- Emitted(center, ds, geodesic)
        ensures exists i :: 0 <= i < |ds| && ShapePlace(center, ds[i], geodesic) == Some(r)
      {
        if r in Emitted(center, init, geodesic) {
          var i :| 0 <= i < |init| && ShapePlace(center, init[i], geodesic) == Some(r);
          assert ds[i] == init[i];
        } else {
          assert ShapePlace(center, ds[|ds| - 1], geodesic) == Some(r);
        }
      }
    }
  }

  /** No place with a usable position is skipped. */
  lemma {:induction false} EmittedComplete(center: Point, ds: seq<Details>, geodesic: Geodesic, i: nat)
    requires i < |ds| && Truthy(ds[i].lat) && Truthy(ds[i].lng)
    ensures ShapePlace(center, ds[i], geodesic).value in Emitted(center, ds, geodesic)
  {
    if i < |ds| - 1 {
      var init := ds[..|ds| - 1];
      EmittedComplete(center, init, geodesic, i);
    }
  }

  /** The details of the places one nearby search returns, or `None` when the
      search or one of the detail lookups raises. */
  function QueryDetails(center: Point, radiusMeters: real, placeType: string, client: PlacesClient): (r: Option<seq<Details>>)
    ensures r.None? <==>
      client.nearby(center, radiusMeters, placeType).Raised? ||
      exists i :: 0 <= i < |client.nearby(center, radiusMeters, placeType).value| &&
        client.place(client.nearby(center, radiusMeters, placeType).value[i]).Raised?
  {
    match client.nearby(center, radiusMeters, placeType)
    case Raised => None
    case Returned(ids) => Lookups(ids, client.place)
  }

  /** The rows of the searches for `types`, in order, or `None` when a call raises. */
  function FetchTypes(center: Point, radiusMeters: real, types: seq<string>, client: PlacesClient, geodesic: Geodesic): (r: Option<seq<Row>>)
    ensures r.Some? ==> forall row <- r.value :: row.lat != 0.0 && row.lon != 0.0 && row.contact.Some?
  {
    if types == [] then Some([])
    else
      match FetchTypes(center, radiusMeters, types[..|types| - 1], client, geodesic)
      case None => None
      case Some(rows) =>
        match QueryDetails(center, radiusMeters, types[|types| - 1], client)
        case None => None
        case Some(ds) => Some(rows + Emitted(center, ds, geodesic))
  }

  /** Once a prefix of the searches has failed, the whole fetch fails. */
  lemma {:induction false} FetchTypesFailurePersists(center: Point, radiusMeters: real, types: seq<string>, k: nat, client: PlacesClient, geodesic: Geodesic)
    requires k <= |types|
    requires FetchTypes(center, radiusMeters, types[..k], client, geodesic) == None
    ensures FetchTypes(center, radiusMeters, types, client, geodesic) == None
    decreases |types|
  {
    if k == |types| {
      assert types[..k] == types;
    } else {
      var init := types[..|types| - 1];
      assert init[..k] == types[..k];
      FetchTypesFailurePersists(center, radiusMeters, init, k, client, geodesic);
    }
  }

  /** What `get_real_businesses` returns: `None` without an API key or when a
      service call raises, otherwise the rows of both searches. */
  function RealBusinesses(center: Point, radiusMiles: int, apiKey: Option<string>, client: PlacesClient, geodesic: Geodesic): Option<seq<Row>>
  {
    if !KeyPresent(apiKey) then None
    else FetchTypes(center, radiusMiles as real * MetersPerMile, PlaceTypes, client, geodesic)
  }

  /** The rows of the store search come first, then those of the restaurant
      search; the result is `None` exactly when the key is missing or a call
      raised. */
  lemma RealBusinessesOrder(center: Point, radiusMiles: int, apiKey: Option<string>, client: PlacesClient, geodesic: Geodesic)
    ensures var meters := radiusMiles as real * MetersPerMile;
      var stores := QueryDetails(center, meters, "store", client);
      var restaurants := QueryDetails(center, meters, "restaurant", client);
      RealBusinesses(center, radiusMiles, apiKey, client, geodesic) ==
        if KeyPresent(apiKey) && stores.Some? && restaurants.Some?
        then Some(Emitted(center, stores.value, geodesic) + Emitted(center, restaurants.value, geodesic))
        else None
  {
    var meters := radiusMiles as real * MetersPerMile;
    var stores := QueryDetails(center, meters, "store", client);
    var first: seq<string> := ["store"];
    assert PlaceTypes[..|PlaceTypes| - 1] == first;
    assert first[..|first| - 1] == [] && first[|first| - 1] == "store";
    assert FetchTypes(center, meters, [], client, geodesic) == Some([]);
    if stores.Some? {
      var rows := Emitted(center, stores.value, geodesic);
      assert [] + rows == rows;
      assert FetchTypes(center, meters, first, client, geodesic) == Some(rows);
    } else {
      assert FetchTypes(center, meters, first, client, geodesic) == None;
    }
  }

  /** Every real row has a non-zero position and the columns only real rows have. */
  lemma RealRowsHavePositions(center: Point, radiusMiles: int, apiKey: Option<string>, client: PlacesClient, geodesic: Geodesic)
    requires RealBusinesses(center, radiusMiles, apiKey, client, geodesic).Some?
    ensures KeyPresent(apiKey)
    ensures forall row <- RealBusinesses(center, radiusMiles, apiKey, client, geodesic).value ::
      row.lat != 0.0 && row.lon != 0.0 && row.contact.Some?
  {
  }

  /** The inner loop of `get_real_businesses`: a detail lookup per result of
      one nearby search and a row per place with a usable position. */
  method ShapeResults(center: Point, ids: seq<Option<string>>, client: PlacesClient, geodesic: Geodesic)
    returns (rows: Option<seq<Row>>)
    ensures rows == match Lookups(ids, client.place)
                    case None => None
                    case Some(ds) => Some(Emitted(center, ds, geodesic))
  {
    var shaped: seq<Row> := [];
    ghost var ds: seq<Details> := [];
    for j := 0 to |ids|
      invariant Lookups(ids[..j], client.place) == Some(ds)
      invariant shaped == Emitted(center, ds, geodesic)
    {
      assert ids[..j + 1][..j] == ids[..j];
      var details := client.place(ids[j]);
      if details.Raised? {
        assert Lookups(ids, client.place) == None;
        return None;
      }
      var row := ShapePlace(center, details.value, geodesic);
      if row.Some? {
        shaped := shaped + [row.value];
      }
      ds := ds + [details.value];
    }
    assert ids[..|ids|] == ids;
    rows := Some(shaped);
  }

  /** `get_real_businesses`: the two searches in turn, the rows of each
      appended to the table; any exception makes the whole call return `None`. */
  method GetRealBusinesses(center: Point, radiusMiles: int, apiKey: Option<string>, client: PlacesClient, geodesic: Geodesic)
    returns (result: Option<seq<Row>>)
    ensures result == RealBusinesses(center, radiusMiles, apiKey, client, geodesic)
  {
    if !KeyPresent(apiKey) {
      return None;
    }
    var radiusMeters := radiusMiles as real * MetersPerMile;
    var all: seq<Row> := [];
    for t := 0 to |PlaceTypes|
      invariant FetchTypes(center, radiusMeters, PlaceTypes[..t], client, geodesic) == Some(all)
    {
      assert PlaceTypes[..t + 1][..t] == PlaceTypes[..t];
      var reply := client.nearby(center, radiusMeters, PlaceTypes[t]);
      if reply.Raised? {
        FetchTypesFailurePersists(center, radiusMeters, PlaceTypes, t + 1, client, geodesic);
        return None;
      }
      var found := ShapeResults(center, reply.value, client, geodesic);
      if found.None? {
        FetchTypesFailurePersists(center, radiusMeters, PlaceTypes, t + 1, client, geodesic);
        return None;
      }
      all := all + found.value;
    }
    assert PlaceTypes[..|PlaceTypes|] == PlaceTypes;
    result := Some(all);
  }
}

/** One press of "Search": zip validation, geocoding, and the choice between
    live places data and the sample dataset. */
module Search {
  import opened Wrappers
  import opened Rows
  import opened ZipCode
  import opened Places
  import opened SampleData

  /** What the geocoding service returns for a zip code. */
  datatype Location = Location(lat: real, lon: real, address: string)

  /** Where the table of a search comes from. `SampleAfterFailure` is the case
      that shows the "Could not fetch real business data" warning. */
  datatype Source = RealData | SampleAfterFailure | SampleOnly

  datatype Chosen = Chosen(rows: seq<Row>, source: Source)

  /** Live rows are used only when they are asked for, a key exists and the
      fetch gave a non-empty table; otherwise the sample rows are used. */
  function ChooseRows(useReal: bool, apiKey: Option<string>, fetched: Option<seq<Row>>, sample: seq<Row>): (c: Chosen)
    ensures c.source == RealData <==> useReal && KeyPresent(apiKey) && fetched.Some? && fetched.value != []
    ensures c.source == SampleAfterFailure <==> useReal && KeyPresent(apiKey) && (fetched.None? || fetched.value == [])
    ensures c.source == SampleOnly <==> !(useReal && KeyPresent(apiKey))
    ensures c.source == RealData ==> c.rows == fetched.value
    ensures c.source != RealData ==> c.rows == sample
  {
    if useReal && KeyPresent(apiKey) then
      if fetched.None? || fetched.value == [] then Chosen(sample, SampleAfterFailure) else Chosen(fetched.value, RealData)
    else Chosen(sample, SampleOnly)
  }

  /** The result of one run of the script; `stored` says whether an earlier
      search is kept in the session. */
  datatype Outcome =
    | NoLookup(start: SearchStart)  // nothing pressed, an empty or an invalid zip code
    | NotFound                      // geocoding gave no usable position
    | Found(location: Location, zip: string, rows: seq<Row>, source: Source)

  function RunSearch(pressed: bool, zip: string, stored: bool, useReal: bool, apiKey: Option<string>, radiusMiles: int,
                     geocode: string -> Option<Location>, client: PlacesClient, geodesic: Geodesic): Outcome
  {
    match StartSearch(pressed, zip, stored)
    case Geocode(z) =>
      (match geocode(z)
       case None => NotFound
       case Some(loc) =>
         if loc.lat == 0.0 || loc.lon == 0.0 then NotFound
         else
           var center := Point(loc.lat, loc.lon);
           var fetched := if useReal && KeyPresent(apiKey) then RealBusinesses(center, radiusMiles, apiKey, client, geodesic) else None;
           var chosen := ChooseRows(useReal, apiKey, fetched, SampleBusinesses(center, geodesic));
           Found(loc, z, chosen.rows, chosen.source))
    case other => NoLookup(other)
  }

  /** A search reaches geocoding only with the button pressed and a valid zip
      code; otherwise it stops before any service is called, whatever the
      services would have answered. */
  lemma LookupNeedsValidZip(pressed: bool, zip: string, stored: bool, useReal: bool, apiKey: Option<string>, radiusMiles: int,
                            geocode: string -> Option<Location>, client: PlacesClient, geodesic: Geodesic,
                            geocode': string -> Option<Location>, client': PlacesClient, geodesic': Geodesic)
    ensures var out := RunSearch(pressed, zip, stored, useReal, apiKey, radiusMiles, geocode, client, geodesic);
      && (out.Found? ==> pressed && ValidZip(zip) && out.zip == zip)
      && (!(pressed && ValidZip(zip)) ==>
            out == NoLookup(StartSearch(pressed, zip, stored)) &&
            out == RunSearch(pressed, zip, stored, useReal, apiKey, radiusMiles, geocode', client', geodesic'))
  {
  }

  /** A found location has a non-zero position. */
  lemma FoundPositionIsUsable(pressed: bool, zip: string, stored: bool, useReal: bool, apiKey: Option<string>, radiusMiles: int,
                              geocode: string -> Option<Location>, client: PlacesClient, geodesic: Geodesic)
    requires RunSearch(pressed, zip, stored, useReal, apiKey, radiusMiles, geocode, client, geodesic).Found?
    ensures var out := RunSearch(pressed, zip, stored, useReal, apiKey, radiusMiles, geocode, client, geodesic);
      geocode(zip) == Some(out.location) && out.location.lat != 0.0 && out.location.lon != 0.0
  {
  }

  /** The table of a found search is the sample table unless live data was
      used, and live data is used only when enabled, keyed and non-empty. */
  lemma FoundRowsSource(pressed: bool, zip: string, stored: bool, useReal: bool, apiKey: Option<string>, radiusMiles: int,
                        geocode: string -> Option<Location>, client: PlacesClient, geodesic: Geodesic)
    requires RunSearch(pressed, zip, stored, useReal, apiKey, radiusMiles, geocode, client, geodesic).Found?
    ensures var out := RunSearch(pressed, zip, stored, useReal, apiKey, radiusMiles, geocode, client, geodesic);
      var center := Point(out.location.lat, out.location.lon);
      && (out.source != RealData ==> out.rows == SampleBusinesses(center, geodesic))
      && (out.source == RealData <==>
            useReal && KeyPresent(apiKey) &&
            RealBusinesses(center, radiusMiles, apiKey, client, geodesic).Some? &&
            RealBusinesses(center, radiusMiles, apiKey, client, geodesic).value != [])
      && (out.source == RealData ==> out.rows == RealBusinesses(center, radiusMiles, apiKey, client, geodesic).value)
  {
  }

  /** With live data switched off or no key, the places service is never
      consulted: any two services give the same outcome. */
  lemma SampleOnlyIgnoresPlaces(pressed: bool, zip: string, stored: bool, useReal: bool, apiKey: Option<string>, radiusMiles: int,
                                geocode: string -> Option<Location>, client: PlacesClient, client': PlacesClient, geodesic: Geodesic)
    requires !(useReal && KeyPresent(apiKey))
    ensures RunSearch(pressed, zip, stored, useReal, apiKey, radiusMiles, geocode, client, geodesic) ==
            RunSearch(pressed, zip, stored, useReal, apiKey, radiusMiles, geocode, client', geodesic)
  {
  }
}

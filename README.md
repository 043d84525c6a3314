# Store & Restaurant Locator — decision logic

The locator is a single-page Streamlit app. You type a US zip code. The app
geocodes it and collects nearby stores and restaurants, either from the
Google Places service or from a built-in sample table of twelve businesses.
It then shows them filtered by type, category and radius, both on a map and
in a list. Nearly all of the app is UI and service glue. This project models
the small amount of deterministic logic inside it, and proves properties of
that logic:

- **Zip validation** (`ZipCode`). A search goes ahead only for a five-character,
  all-digit zip code. Pressing the button with an empty zip code gives its
  own warning, but only when no earlier search is stored in the session.
- **Place shaping** (`Places`). This is how `get_real_businesses` turns
  place-details replies into table rows:
  - skip places without a non-zero position;
  - classify each place as Store or Restaurant;
  - format the category and the hours;
  - fill defaults for missing fields;
  - return `None` on an exception.

  `GetRealBusinesses` is a method with a loop over the two searches. It is
  proved equal to the specification function `RealBusinesses`. Its inner
  loop, the method `ShapeResults`, is proved equal to `Lookups` followed by
  `Emitted` for one search.
- **Sample data** (`SampleData`). The twelve templates and the loop that
  turns them into rows.
- **Data-source fallback** (`Search`). Live data is used only when it is
  enabled, a key exists and the fetch gave a non-empty table. Otherwise the
  sample table is used. `RunSearch` composes one press of "Search".
- **Filter pipeline** (`Filters`). `ApplyFilters` is the stepwise reassignment
  of the table. It is proved equal to a single selection by the conjunction
  of the active filters.
- **List view** (`ListView`). The split into stores and restaurants, each
  sorted by distance, plus the table sorted by distance.

Shared pieces:

- `Wrappers`: `Option`, and `Reply`, the outcome of a call that returns or
  raises.
- `Seqs`: row selection (`Filter`) and its laws.
- `Rows`: the row record.
- `Text`: ASCII `str.replace`, `str.title` and `str.join`.

External services are function parameters:

- geocoding: `string -> Option<Location>`;
- the nearby search and the place-details lookup: `PlacesClient`;
- geodesic distance already rounded to two decimals: `Geodesic`, in
  hundredths of a mile.

Distances are therefore natural numbers of hundredths of a mile. The radius
filter compares them with `100 * radius`. Coordinates are `real`s.

`get_real_businesses` declares its parameter as `radiusmiles` (app.py:30), but
the body reads `radius_miles` (app.py:37). That name resolves to the
module-level slider value (app.py:214). The only caller passes that same slider
value (app.py:235), so the defect changes nothing the app does. The model takes
the radius as an explicit argument of `RealBusinesses`.

## Model

| member | source | states |
|---|---|---|
| `ZipCode.DigitsOnlyEverywhere` | app.py:226 | the character-by-character digit test holds exactly when every position of the string is an ASCII digit |
| `ZipCode.AcceptedIffValid` | app.py:226-227 | the guard `len != 5 or not isdigit` lets a zip code through exactly when it has five characters, all digits |
| `ZipCode.StartSearch` | app.py:225-227 | a pressed button with a valid zip code, and only that, goes on to geocoding with that zip code; a pressed button with a non-empty invalid zip code is an error; the empty-zip warning of app.py:333-334 is shown exactly when the button is pressed with an empty zip code and no earlier search is stored, because that `elif` belongs to the `if` at app.py:250; with stored results, or without a press, no search starts |
| `Text.ReplaceChar` | app.py:65 | `replace('_', ' ')` keeps the length, changes exactly the underscores, and leaves no underscore |
| `Text.TitleSpec` | app.py:65 | on ASCII text, title-casing keeps the length; a letter at the start of a word (position 0 or after a non-letter) becomes upper case, any other letter lower case, and non-letters are unchanged |
| `Places.CategoryOf` | app.py:64-65 | Category is "General" for an empty type list; otherwise it has the length of the first type and contains no underscore, and each position holds either a space where the type had `_` or the title-cased character |
| `Places.HoursText` | app.py:67-70 | with `weekday_text` present, Hours is "" for no entry, the entry for one entry, and the first two entries joined by "; " otherwise, whatever `open_now` says; without `weekday_text` it is "Open now" when `open_now` is true and "Closed" otherwise |
| `Places.ShapePlace` | app.py:56-83 | a place gives a row exactly when both lat and lng are present and non-zero, so 0 counts as missing; Type is Restaurant exactly when "restaurant" is among the types, whichever search found the place; the row carries the category, the hours, the position, the distance from the centre, and the defaults "Unknown" for a missing name and "N/A" for a missing address, rating or phone |
| `Places.Lookups` | app.py:48-55 | the detail lookups fail exactly when one of them raises; when none raises, they give one details record per result, in result order |
| `Places.Emitted` | app.py:59-83 | one search contributes at most one row per place, and every row it contributes has a non-zero position and the rating, phone and hours columns |
| `Places.EmittedAppend` | app.py:48-83 | the rows of two consecutive stretches of results are the rows of the first stretch followed by those of the second |
| `Places.EmittedOrigin` | app.py:59-83 | every emitted row is the shaped row of one of the places |
| `Places.EmittedComplete` | app.py:59 | no place with a non-zero position is skipped |
| `Places.QueryDetails` | app.py:42-55 | a search's details are missing exactly when the nearby search raises or one of its detail lookups raises |
| `Places.FetchTypes` | app.py:41-83 | every row of a completed fetch has a non-zero position and the columns only live rows have |
| `Places.FetchTypesFailurePersists` | app.py:87-89 | once an earlier search has raised, the whole fetch gives `None` |
| `Places.RealBusinessesOrder` | app.py:30-89 | the result is `None` exactly when the key is missing or empty, or a call of either search raises; otherwise it is all store-search rows followed by all restaurant-search rows |
| `Places.RealRowsHavePositions` | app.py:59-83 | a fetch that returned a table was made with a key, and each of its rows has a non-zero position and the live-only columns |
| `Places.ShapeResults` | app.py:48-83 | the inner loop over one search's results equals `Lookups` followed by `Emitted`: `None` when a lookup raises, otherwise the rows of that search's places in order |
| `Places.GetRealBusinesses` | app.py:30-89 | the loop over the two searches returns exactly `RealBusinesses`: `None` without a key or on an exception, otherwise the rows in query order (an empty table included) |
| `SampleData.SampleAddress` | app.py:114 | the address is "123 ", then the street, then ", Nearby City", and the street can be read back from it |
| `SampleData.SampleBusinessesShape` | app.py:94-127 | the sample table has 12 rows, one per template and in template order; each row copies its template's name, type and category, has the fixed address form, the template's offset position and the distance to it, and lacks the live-only columns |
| `SampleData.SampleKinds` | app.py:95-106 | the first five sample rows are stores and the other seven are restaurants |
| `SampleData.SampleKindCounts` | app.py:95-106 | the sample table holds 5 stores and 7 restaurants |
| `SampleData.GetSampleBusinesses` | app.py:109-127 | the loop appending one row per template returns exactly the sample table |
| `Search.ChooseRows` | app.py:234-240 | live rows are used exactly when live data is enabled, the key is present and non-empty, and the fetch returned a non-empty table; when live data was asked for but the fetch gave `None` or an empty table, the sample rows are used with the failure warning; otherwise the sample rows are used |
| `Search.LookupNeedsValidZip` | app.py:225-232 | a search finds something only with the button pressed and a valid zip code; otherwise it stops before any service call, and its outcome does not depend on the services |
| `Search.FoundPositionIsUsable` | app.py:230-232 | a found search used the geocoder's location, and that location has a non-zero latitude and longitude |
| `Search.FoundRowsSource` | app.py:232-242 | a found search's table is the sample table unless live data was used; live data is used exactly when it is enabled, the key is present, and the fetch for the geocoded centre gave a non-empty table, which is then the table |
| `Search.SampleOnlyIgnoresPlaces` | app.py:234-240 | with live data disabled or no key, the places service makes no difference to the outcome |
| `Seqs.Filter` | app.py:259 | a row selection keeps exactly the rows satisfying the mask and never adds rows |
| `Seqs.FilterIsSubsequence` | app.py:258-264 | a row selection is an order-preserving subsequence of its input |
| `Seqs.FilterIdempotent` | app.py:258-264 | selecting twice by the same mask gives the same rows as selecting once |
| `Seqs.FilterPartition` | app.py:293-309 | selecting by a mask and by its negation gives two parts that together hold every row exactly as often as the input does |
| `Filters.ApplyFilters` | app.py:258-264 | the three stepwise selections keep exactly the rows passing every active filter, in their original order; the type filter is active only for a non-empty selection; the category filter is active only for a non-empty selection without "All Categories"; every kept row is within the radius |
| `Filters.VisibleIdempotent` | app.py:258-264 | running the filter pipeline on its own output changes nothing |
| `Filters.EmptyTypeSelectionKeepsAllTypes` | app.py:258-259 | selecting no business type shows the same rows as selecting both types |
| `Filters.AllCategoriesSwitchesCategoryFilterOff` | app.py:261-262 | a category selection that contains "All Categories" shows the same rows as an empty category selection |
| `Filters.VisibleMonotoneInRadius` | app.py:264 | a larger radius shows every row a smaller radius shows, in the same order |
| `ListView.InsertCorrect` | app.py:293 | inserting a row into a distance-sorted list keeps it sorted and adds exactly that row |
| `ListView.SortByDistanceCorrect` | app.py:293 | sorting by distance gives a non-decreasing order by distance and a permutation of the input |
| `ListView.ListSplit` | app.py:293-309 | the Stores list holds exactly the store rows and the Restaurants list exactly the restaurant rows, with the same multiplicities; each is sorted by non-decreasing distance; together they hold every row once |
| `ListView.Display` | app.py:266-331 | the "no businesses found" warning is shown exactly when no stored row passes the filters; otherwise the count is the number of passing rows, the two lists are the split of those rows, and the full table is those rows sorted by distance |

## Left out

- Geocoding (`get_coordinates_from_zipcode`, app.py:16-28) is an external network call with a one-second pause. It is the `geocode` parameter. A failed or raising lookup is `None`.
- The Google Places client (`googlemaps.Client`, `places_nearby`, `place`) is external. It is the `PlacesClient` parameter. A reply without `results` reads as an empty list. A details reply without `result` reads as a record with every key absent. Constructing the client can also raise, and then the call returns `None`. The model has no separate step for this: a client whose store search raises gives the same result.
- Geodesic distance, `round(distance, 2)` and the floating-point sums of the sample offsets (app.py:60, 79, 111-112, 115, 124) are not modelled. The distance is the `Geodesic` parameter, already rounded, in hundredths of a mile. Coordinates are exact `real`s, not binary floats. The conversion `radius * 1609.34` is computed exactly.
- `create_map` (app.py:129-175) is presentation only, and line 158 is not valid Python. The expander titles and the `[:50]` hours truncation in the map popup are also presentation.
- Streamlit widgets, `st.session_state`, `@st.cache_data`, spinners, tabs, messages, the CSV export and the download button are not modelled. `RunSearch` returns the outcome that the script stores in the session; its `stored` argument says whether an earlier search is stored, and `Display` takes the stored table.
- The `radius_km` parameter of `get_sample_businesses` is never used by the source, so the model has no such parameter.
- ZipCode.AcceptedIffValid: it counts only ASCII `0`-`9` as digits, but Python's `str.isdigit` also accepts other Unicode digits, such as superscripts.
- ZipCode.StartSearch: it rests on the same ASCII-only digit test, so a five-character zip code of other Unicode digits is an error here but goes on to geocoding in the source.
- Text.TitleSpec: it title-cases ASCII letters only and treats every other character as uncased and unchanged. Python's `str.title` also changes non-ASCII letters, and for a few, such as `ß`, it changes the length.
- Places.CategoryOf: it inherits the ASCII-only title-casing of `Text.TitleSpec`, so its length and per-position promises hold for ASCII place types only.
- Places.ShapePlace: the model has no JSON `null` in a present key; an input key is either absent or holds a value. In the source, a `null` in `name`, `formatted_address`, `rating` or `formatted_phone_number` makes `.get` return `None`, so the row gets an empty cell and not the default (app.py:73, 76, 80-81); the model gives the default. A `null` in `geometry` or `location` (app.py:56-57), `types` (app.py:62-64), `opening_hours` or `weekday_text` (app.py:67-70) raises, and the source then returns `None`; the model does not capture that path.
- ListView.SortByDistanceCorrect: the source's `sort_values` uses an unstable algorithm by default, so the order of rows at equal distance is unspecified. The model sorts stably, but the contract promises only order by distance and a permutation.

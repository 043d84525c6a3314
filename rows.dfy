/** The records the locator displays: one row of the business table. */
module Rows {
  import opened Wrappers

  /** A geographic position in degrees; floating-point rounding is not modelled. */
  datatype Point = Point(lat: real, lon: real)

  /** Geodesic distance between two points in miles, rounded to two decimals,
      counted in hundredths of a mile. It is computed by a geodesy library the
      model does not contain, so it is a parameter wherever it is needed. */
  type Geodesic = (Point, Point) -> nat

  /** The "Type" column: its only values are "Store" and "Restaurant". */
  datatype Kind = Store | Restaurant

  /** The "Rating" column: a score, or the text "N/A". */
  datatype Rating = Stars(value: real) | NotAvailable

  /** The columns that only rows from the live places service have
      ("Rating", "Phone", "Hours"); sample rows have no such columns. */
  datatype Contact = Contact(rating: Rating, phone: string, hours: string)

  /** One business. `distance` is the "Distance (miles)" column in hundredths of a mile. */
  datatype Row = Row(
    name: string,
    kind: Kind,
    category: string,
    address: string,
    lat: real,
    lon: real,
    distance: nat,
    contact: Option<Contact>)

  predicate IsStore(r: Row) { r.kind == Store }

  predicate IsRestaurant(r: Row) { r.kind == Restaurant }
}

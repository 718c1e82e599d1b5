/**
 * Value types shared by the route normaliser, the progress engine and the navigation
 * controller: coordinates, the loosely-typed locations found in route data, stops and
 * live position samples.
 */
module Places {

  import opened Wrappers

  /** A geographic coordinate in degrees. */
  datatype LatLng = LatLng(lat: real, lng: real)

  /**
   * A location field of a leg as the engine receives it: absent (`null`/`undefined`), an
   * object whose `lat`/`lng` may or may not be numbers (`None` stands for "not a number"),
   * or an array of coordinates.
   */
  datatype RawLocation =
    | NoLocation
    | LatLngObject(lat: Option<real>, lng: Option<real>)
    | LatLngArray(items: seq<real>)

  /**
   * A stop (origin, waypoint or destination): typed text gives `labelText` (the source's `label`, a reserved word here) and `address`; an
   * autocomplete selection also gives `placeId`, `name` and `location`.
   */
  datatype Stop = Stop(
    labelText: Option<string>,
    address: Option<string>,
    location: Option<LatLng>,
    placeId: Option<string>,
    name: Option<string>)

  /** A live position sample from the device. */
  datatype Position = Position(
    lat: real,
    lng: real,
    accuracy: real,
    heading: Option<real>,
    speed: Option<real>,
    timestamp: int)
}

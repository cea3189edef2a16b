/**
 * The dog records stored under `users/{uid}/dogs` and the JavaScript
 * truthiness tests the dashboard applies to their fields.
 */
module Records {
  import opened Wrappers

  /** A `{lat, lng}` pair in decimal degrees. */
  datatype Location = Location(lat: real, lng: real)

  /**
   * A geofence as stored: every field may be missing. A fence written by
   * the add-dog form holds only `radius`; the centre arrives later.
   */
  datatype Geofence = Geofence(radius: Option<real>, lat: Option<real>, lng: Option<real>)

  /** The record stored for one dog (everything but its key). */
  datatype DogRecord = DogRecord(
    name: string,
    trackerId: Option<string>,
    geofence: Option<Geofence>,
    currentLocation: Option<Location>,
    history: Option<seq<Location>>)

  /** A dog as the dashboard holds it: the record with its key as `id`. */
  datatype Dog = Dog(id: string, record: DogRecord)

  /** One child of the dogs node: its key and its record. */
  type Entry = (string, DogRecord)

  /**
   * JavaScript truthiness of a numeric field: a missing field and the
   * number 0 are both falsy.
   */
  predicate Truthy(x: Option<real>)
  {
    x.Some? && x.value != 0.0
  }
}

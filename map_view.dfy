/** Where the dashboard's map is centred and how far it is zoomed. */
module MapView {
  import opened Records

  /** The first dog's current location, or (0, 0) when there is none. */
  function MapCenter(dogs: seq<Dog>): (c: Location)
    ensures |dogs| > 0 && dogs[0].record.currentLocation.Some? ==> c == dogs[0].record.currentLocation.value
    ensures dogs == [] || dogs[0].record.currentLocation.None? ==> c == Location(0.0, 0.0)
  {
    if |dogs| > 0 && dogs[0].record.currentLocation.Some? then dogs[0].record.currentLocation.value
    else Location(0.0, 0.0)
  }

  /** Street level (15) when the centre's latitude is non-zero, world view (2) otherwise. */
  function MapZoom(c: Location): (z: int)
    ensures z == 15 || z == 2
    ensures z == 15 <==> c.lat != 0.0
  {
    if c.lat != 0.0 then 15 else 2
  }

  /**
   * The map zooms in exactly when the first dog has a location off the
   * equator; a dog located on the equator leaves the world view in place.
   */
  lemma ZoomedInOnFirstDog(dogs: seq<Dog>)
    ensures MapZoom(MapCenter(dogs)) == 15
            <==> |dogs| > 0 && dogs[0].record.currentLocation.Some? && dogs[0].record.currentLocation.value.lat != 0.0
  {
  }
}

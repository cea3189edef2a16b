/**
 * Per-dog geofence logic of the dashboard: which dogs get their fence
 * centred on their current location, what that write changes, and when a
 * dog is flagged as outside its fence.
 */
module GeofencePolicy {
  import opened Wrappers
  import opened Records

  /** An `update` of `dogs/{dogId}/geofence` setting its centre. */
  datatype CentreWrite = CentreWrite(dogId: string, lat: real, lng: real)

  /**
   * The guard of the centre initialisation: a fence with a truthy radius,
   * a current location, and a centre coordinate that is missing or 0.
   */
  predicate NeedsCentre(d: Dog)
  {
    && d.record.geofence.Some?
    && Truthy(d.record.geofence.value.radius)
    && d.record.currentLocation.Some?
    && (!Truthy(d.record.geofence.value.lat) || !Truthy(d.record.geofence.value.lng))
  }

  /** The centre write the snapshot handler issues for one dog, if any. */
  function CentreWriteFor(d: Dog): (w: Option<CentreWrite>)
    ensures w.Some? <==> NeedsCentre(d)
    ensures w.Some? ==> w.value.dogId == d.id
    ensures w.Some? ==> Location(w.value.lat, w.value.lng) == d.record.currentLocation.value
  {
    if NeedsCentre(d) then
      Some(CentreWrite(d.id, d.record.currentLocation.value.lat, d.record.currentLocation.value.lng))
    else
      None
  }

  /**
   * The store's merge of a centre write into the record it targets: only
   * `geofence.lat` and `geofence.lng` change. Merging into a record with no
   * geofence creates one that holds just the centre.
   */
  function ApplyCentre(r: DogRecord, w: CentreWrite): (r': DogRecord)
    ensures r'.geofence.Some?
    ensures r'.geofence.value.lat == Some(w.lat) && r'.geofence.value.lng == Some(w.lng)
    ensures r'.geofence.value.radius == (if r.geofence.Some? then r.geofence.value.radius else None)
    ensures r'.name == r.name && r'.trackerId == r.trackerId
    ensures r'.currentLocation == r.currentLocation && r'.history == r.history
  {
    var g := if r.geofence.Some? then r.geofence.value else Geofence(None, None, None);
    r.(geofence := Some(g.(lat := Some(w.lat), lng := Some(w.lng))))
  }

  /**
   * The breach flag shown beside a dog. `distance` stands for the
   * great-circle distance from the current location to the centre. A
   * missing `geofence.lng` makes that distance NaN in the source, and a
   * comparison with NaN is false, so such a dog is never flagged.
   */
  function IsOutside(d: Dog, distance: (Location, Location) -> real): (outside: bool)
    ensures outside ==> d.record.geofence.Some? && Truthy(d.record.geofence.value.radius)
    ensures outside ==> d.record.currentLocation.Some? && Truthy(d.record.geofence.value.lat)
    ensures outside ==> d.record.geofence.value.lng.Some?
    ensures d.record.geofence.Some? && Truthy(d.record.geofence.value.radius)
            && d.record.currentLocation.Some? && Truthy(d.record.geofence.value.lat)
            && d.record.geofence.value.lng.Some?
            ==> (outside <==>
                   distance(d.record.currentLocation.value,
                            Location(d.record.geofence.value.lat.value, d.record.geofence.value.lng.value))
                   > d.record.geofence.value.radius.value)
  {
    match d.record.geofence
    case None => false
    case Some(g) =>
      if Truthy(g.radius) && d.record.currentLocation.Some? && Truthy(g.lat) then
        match g.lng
        case None => false
        case Some(lng) => distance(d.record.currentLocation.value, Location(g.lat.value, lng)) > g.radius.value
      else
        false
  }

  /**
   * Once a write with non-zero coordinates has been merged, the dog needs no
   * further centring, wherever its tracker reports next.
   */
  lemma CentreSettles(d: Dog, w: CentreWrite, fix: Option<Location>)
    requires CentreWriteFor(d) == Some(w)
    requires w.lat != 0.0 && w.lng != 0.0
    ensures CentreWriteFor(Dog(d.id, ApplyCentre(d.record, w).(currentLocation := fix))).None?
  {
  }

  /**
   * A location with a 0 coordinate is stored as a centre the guard still
   * reads as unset: every later fix triggers a new write that re-centres
   * the fence on it.
   */
  lemma ZeroCoordinateRecentres(d: Dog, w: CentreWrite, fix: Location)
    requires CentreWriteFor(d) == Some(w)
    requires w.lat == 0.0 || w.lng == 0.0
    ensures CentreWriteFor(Dog(d.id, ApplyCentre(d.record, w).(currentLocation := Some(fix))))
            == Some(CentreWrite(d.id, fix.lat, fix.lng))
  {
  }

  /**
   * Right after its centre write is merged, a dog with a positive radius is
   * not flagged, for any distance that is 0 between a point and itself.
   */
  lemma CentredDogInside(d: Dog, w: CentreWrite, distance: (Location, Location) -> real)
    requires CentreWriteFor(d) == Some(w)
    requires d.record.geofence.value.radius.value > 0.0
    requires forall p :: distance(p, p) == 0.0
    ensures !IsOutside(Dog(d.id, ApplyCentre(d.record, w)), distance)
  {
  }

  /**
   * A flagged dog has a centre latitude, so a centre write for it can only
   * be pending when its stored longitude is 0.
   */
  lemma FlaggedDogHasLatitude(d: Dog, distance: (Location, Location) -> real)
    requires IsOutside(d, distance)
    ensures NeedsCentre(d) ==> d.record.geofence.value.lng == Some(0.0)
  {
  }
}

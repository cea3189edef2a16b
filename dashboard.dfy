/**
 * The dashboard component's state — the dog list and the three add-dog
 * form inputs — and its two handlers that change it.
 */
module DashboardComponent {
  import opened Wrappers
  import opened Records
  import opened GeofencePolicy
  import opened Snapshot
  import opened AddDog

  class Dashboard {
    var dogs: seq<Dog>
    var dogName: string
    var trackerId: string
    var geofenceRadius: string

    /** A freshly mounted dashboard: no dogs, an empty form. */
    constructor ()
      ensures dogs == [] && dogName == "" && trackerId == "" && geofenceRadius == ""
    {
      dogs, dogName, trackerId, geofenceRadius := [], "", "", "";
    }

    /**
     * The subscription callback: stores the dogs of the snapshot and
     * returns the centre writes it issues, in the order it issues them.
     */
    method OnSnapshot(snapshot: SnapshotValue) returns (writes: seq<CentreWrite>)
      modifies this`dogs
      ensures dogs == SnapshotDogs(snapshot)
      ensures writes == PendingWrites(dogs)
      ensures snapshot.None? ==> dogs == [] && writes == []
    {
      if snapshot.Some? {
        var dogsArray := ToDogs(snapshot.value);
        writes := IssueCentreWrites(dogsArray);
        dogs := dogsArray;
      } else {
        writes := [];
        dogs := [];
      }
    }

    /**
     * The form's submit handler. `newKey` is the key the store allocates
     * and `setSucceeds` the outcome of the write; the result is the
     * `(key, record)` written, or `None` when the name is empty and nothing
     * is written. The form is cleared only after a successful write.
     */
    method HandleAddDog(newKey: string, parsedRadius: real, setSucceeds: bool) returns (written: Option<Entry>)
      modifies this`dogName, this`trackerId, this`geofenceRadius
      ensures old(dogName) == "" ==> written.None? && unchanged(this)
      ensures old(dogName) != "" ==>
                written == Some((newKey, NewDogRecord(old(dogName), old(trackerId), old(geofenceRadius), parsedRadius)))
      ensures old(dogName) != "" && setSucceeds ==> dogName == "" && trackerId == "" && geofenceRadius == ""
      ensures !setSucceeds ==> unchanged(this)
      ensures dogs == old(dogs)
    {
      if dogName == "" {
        return None;
      }
      var newDogData := DogRecord(dogName, None, None, None, None);
      if trackerId != "" {
        newDogData := newDogData.(trackerId := Some(trackerId));
      }
      if geofenceRadius != "" {
        newDogData := newDogData.(geofence := Some(Geofence(Some(parsedRadius), None, None)));
      }
      written := Some((newKey, newDogData));
      if setSucceeds {
        dogName, trackerId, geofenceRadius := "", "", "";
      }
    }
  }

  /**
   * Two deliveries of the subscription: the store merges the writes the
   * first snapshot issued, and when they all carry non-zero coordinates the
   * snapshot that reflects them issues none.
   */
  method FeedBackCentreWrites(d: Dashboard, entries: seq<Entry>) returns (first: seq<CentreWrite>, second: seq<CentreWrite>)
    requires forall w :: w in PendingWrites(ToDogs(entries)) ==> w.lat != 0.0 && w.lng != 0.0
    modifies d`dogs
    ensures first == PendingWrites(ToDogs(entries))
    ensures second == []
    ensures d.dogs == ToDogs(ApplyWrites(entries, first))
  {
    first := d.OnSnapshot(Some(entries));
    second := d.OnSnapshot(Some(ApplyWrites(entries, first)));
    CentresSettle(entries);
  }
}

/**
 * The record the add-dog form writes, and how a freshly added dog behaves
 * in the snapshots that follow.
 */
module AddDog {
  import opened Wrappers
  import opened Records
  import opened GeofencePolicy
  import opened Snapshot

  /**
   * The record built from the form inputs. `parsedRadius` is what
   * `Number` makes of the radius input; it is used only when that input is
   * non-empty.
   */
  function NewDogRecord(name: string, trackerInput: string, radiusInput: string, parsedRadius: real): (rec: DogRecord)
    ensures rec.name == name
    ensures rec.trackerId.Some? <==> trackerInput != ""
    ensures rec.trackerId.Some? ==> rec.trackerId.value == trackerInput
    ensures rec.geofence.Some? <==> radiusInput != ""
    ensures rec.geofence.Some? ==> rec.geofence.value == Geofence(Some(parsedRadius), None, None)
    ensures rec.currentLocation.None? && rec.history.None?
  {
    DogRecord(
      name,
      if trackerInput != "" then Some(trackerInput) else None,
      if radiusInput != "" then Some(Geofence(Some(parsedRadius), None, None)) else None,
      None,
      None)
  }

  /** A new dog has no location yet: no centre write, no breach flag. */
  lemma NewDogQuiet(key: string, name: string, trackerInput: string, radiusInput: string, parsedRadius: real,
                    distance: (Location, Location) -> real)
    ensures CentreWriteFor(Dog(key, NewDogRecord(name, trackerInput, radiusInput, parsedRadius))).None?
    ensures !IsOutside(Dog(key, NewDogRecord(name, trackerInput, radiusInput, parsedRadius)), distance)
  {
  }

  /**
   * With a non-zero radius, the first fix the tracker reports makes the
   * handler centre the fence exactly there.
   */
  lemma FirstFixCentresFence(key: string, name: string, trackerInput: string, radiusInput: string,
                             parsedRadius: real, fix: Location)
    requires radiusInput != "" && parsedRadius != 0.0
    ensures CentreWriteFor(Dog(key, NewDogRecord(name, trackerInput, radiusInput, parsedRadius)
                                      .(currentLocation := Some(fix))))
            == Some(CentreWrite(key, fix.lat, fix.lng))
  {
  }

  /**
   * A radius input that parses to 0 stores a fence that never acts: wherever
   * the dog goes and whatever centre the fence is later given, no centre
   * write is issued and the dog is never flagged.
   */
  lemma ZeroRadiusFenceInert(key: string, name: string, trackerInput: string, radiusInput: string,
                             fix: Option<Location>, centreLat: Option<real>, centreLng: Option<real>,
                             distance: (Location, Location) -> real)
    requires radiusInput != ""
    ensures
      var rec := NewDogRecord(name, trackerInput, radiusInput, 0.0);
      var d := Dog(key, rec.(currentLocation := fix,
                             geofence := Some(rec.geofence.value.(lat := centreLat, lng := centreLng))));
      CentreWriteFor(d).None? && !IsOutside(d, distance)
  {
  }

  /**
   * Once the store holds the new record after the existing ones, the next
   * snapshot lists the new dog last and issues the same writes as before.
   */
  lemma AddedDogJoinsQuietly(entries: seq<Entry>, key: string, name: string, trackerInput: string,
                             radiusInput: string, parsedRadius: real)
    ensures
      var rec := NewDogRecord(name, trackerInput, radiusInput, parsedRadius);
      && ToDogs(entries + [(key, rec)]) == ToDogs(entries) + [Dog(key, rec)]
      && PendingWrites(ToDogs(entries + [(key, rec)])) == PendingWrites(ToDogs(entries))
  {
    var rec := NewDogRecord(name, trackerInput, radiusInput, parsedRadius);
    assert ToDogs(entries + [(key, rec)]) == ToDogs(entries) + [Dog(key, rec)];
    PendingWritesAppend(ToDogs(entries), [Dog(key, rec)]);
    assert PendingWrites([Dog(key, rec)]) == [];
  }
}

# SafeStep dashboard logic in Dafny

SafeStep is a small web client. A pet owner registers dogs, optionally
pairs each dog with a GPS tracker and a circular geofence, and watches the
dogs on a map. Almost everything in it is UI and database plumbing. This
project models the decision logic of the dashboard (`src/Dashboard.js`) as
plain data over snapshots of the owner's dogs node. It covers:

- **Snapshot handling.** The value of `users/{uid}/dogs` is either missing
  (null) or a list of `(key, record)` children. It becomes the dashboard's
  dog list, and each child's key becomes the dog's `id`. One pass over that
  list decides which dogs get a geofence-centre write and what each write
  contains. The database calls are replaced by returned values: the write
  list, plus a model of how the store merges those writes.
- **Breach flag.** This is the "Outside geofence!" marker beside a dog. The
  great-circle distance is a function parameter.
- **Add-dog form.** This covers the empty-name guard, the record that is
  written, and clearing the form after a successful write.
- **Map view.** This covers the map centre and the zoom level.

JavaScript truthiness is modelled explicitly. A numeric field counts as
"set" when it is present and non-zero (`Records.Truthy`). A string counts
as set when it is non-empty. So a centre coordinate of 0 or a radius of 0
reads as unset, just as it does in the source.

The source's own comments state the intent. The comment at
src/Dashboard.js:24 says the centre is initialised to the current location
only while it has not been set yet. The comment at src/Dashboard.js:52 says
a new fence is centred on the dog's first known location. The code falls
short of that when a coordinate is 0. A centre with `lat == 0` or
`lng == 0` still looks unset to the guard at src/Dashboard.js:26, so the
next snapshot re-centres the fence on the dog's latest fix. This repeats
until a centre with two non-zero coordinates is merged. The model follows
the code: `GeofencePolicy.ZeroCoordinateRecentres` proves the re-centring,
and `GeofencePolicy.CentreSettles` and `Snapshot.CentresSettle` prove that
centring stops once both written coordinates are non-zero.

Likewise, the breach check tests only `geofence.lat` for presence. A
missing `geofence.lng` gives a NaN distance in the source, which is never
"outside", and the model encodes that case directly.

Layout: `wrappers.dfy` (Option), `records.dfy` (data model), `geofence.dfy`
(per-dog policy), `snapshot.dfy` (the snapshot pass and the store's merge),
`add_dog.dfy` (the new record), `map_view.dfy` (centre and zoom),
`dashboard.dfy` (the component's state as a class, with its two handlers).

## Model

| member | source | states |
|---|---|---|
| `GeofencePolicy.CentreWriteFor` | src/Dashboard.js:26-30 | a write is issued exactly when the dog has a geofence, a non-zero radius, a current location, and a centre lat or lng that is missing or 0; the write targets that dog's id and carries its current location |
| `GeofencePolicy.ApplyCentre` | src/Dashboard.js:27-30 | merging a centre write sets `geofence.lat`/`lng` to the written values and changes no other field (radius, name, tracker, location, history are kept) |
| `GeofencePolicy.IsOutside` | src/Dashboard.js:91-103 | the flag is false unless geofence, non-zero radius, current location and non-zero centre lat are all present (and lng present, since a missing lng gives NaN); when they are, it is true exactly when distance is strictly greater than the radius, so distance equal to the radius is inside |
| `GeofencePolicy.CentreSettles` | src/Dashboard.js:26 | after a write with non-zero coordinates is merged, no further write is issued for that dog, whatever location it reports next |
| `GeofencePolicy.ZeroCoordinateRecentres` | src/Dashboard.js:26 | after a write whose lat or lng is 0 is merged, the next fix triggers a new write that re-centres the fence on exactly that fix; this repeats until a centre with two non-zero coordinates is merged, after which `CentreSettles` applies |
| `GeofencePolicy.CentredDogInside` | src/Dashboard.js:92-103 | right after its centre write is merged, a dog with a positive radius is not flagged, for any distance that is 0 from a point to itself |
| `GeofencePolicy.FlaggedDogHasLatitude` | src/Dashboard.js:92 | a flagged dog can still be waiting for a centre write only if its stored lng is 0 |
| `Snapshot.ToDogs` | src/Dashboard.js:23 | exactly one dog per entry, in entry order, with `id` equal to the entry's key and the record copied unchanged |
| `Snapshot.SnapshotDogs` | src/Dashboard.js:20-35 | a null snapshot gives the empty list; otherwise the list has one dog per entry, built as the entry's key and record |
| `Snapshot.PendingWrites` | src/Dashboard.js:25-32 | one pass issues no more writes than there are dogs |
| `Snapshot.PendingWritesOnePerDog` | src/Dashboard.js:25-31 | when the dogs have distinct keys, as the children of one node do, no two writes of a pass target the same dog |
| `Snapshot.IssueCentreWrites` | src/Dashboard.js:25-32 | the `forEach` loop issues exactly the writes of `PendingWrites`, in list order |
| `Snapshot.PendingWritesSound` | src/Dashboard.js:25-31 | every issued write is the centre write of some dog in the list |
| `Snapshot.PendingWritesComplete` | src/Dashboard.js:25-31 | every dog that meets the guard has its write issued |
| `Snapshot.NoPendingWrites` | src/Dashboard.js:25-31 | a pass issues no write exactly when no dog meets the guard |
| `Snapshot.PendingWritesAppend` | src/Dashboard.js:25-32 | the writes for a concatenated list are the writes for each part, in order |
| `Snapshot.ApplyWrites` | src/Dashboard.js:27-30 | the store after merging a pass's `update` calls: the same keys in the same order, each record being its old record with every write aimed at its key merged in issue order (each merge as `ApplyCentre`) |
| `Snapshot.CentresSettle` | src/Dashboard.js:19-36 | once the store merges a snapshot's writes, and every written coordinate is non-zero, the snapshot that reflects them issues no write at all |
| `AddDog.NewDogRecord` | src/Dashboard.js:47-54 | the record always has the name; it has `trackerId` exactly when the tracker input is non-empty; it has a geofence exactly when the radius input is non-empty, and that geofence holds only the parsed radius with no centre; it has no location or history |
| `AddDog.NewDogQuiet` | src/Dashboard.js:47-54 | a new dog triggers no centre write and is not flagged |
| `AddDog.FirstFixCentresFence` | src/Dashboard.js:51-54 | with a non-zero radius, the dog's first reported fix produces a centre write to exactly that fix |
| `AddDog.ZeroRadiusFenceInert` | src/Dashboard.js:51-53 | a radius input that parses to 0 stores a fence that never triggers a write and never flags the dog, whatever location or centre it later has |
| `AddDog.AddedDogJoinsQuietly` | src/Dashboard.js:46-56 | once the new record is stored after the existing children, the next snapshot lists it last and issues the same writes as before |
| `MapView.MapCenter` | src/Dashboard.js:72-78 | the centre is the first dog's current location when the list is non-empty and that dog has a location, and (0, 0) otherwise |
| `MapView.MapZoom` | src/Dashboard.js:150 | zoom is 15 exactly when the centre lat is non-zero, and 2 otherwise |
| `MapView.ZoomedInOnFirstDog` | src/Dashboard.js:150 | the map zooms in exactly when the first dog has a location whose lat is non-zero; a first dog on the equator keeps the world view |
| `DashboardComponent.Dashboard.constructor` | src/Dashboard.js:10-13 | the component starts with no dogs and an empty form |
| `DashboardComponent.Dashboard.OnSnapshot` | src/Dashboard.js:19-36 | stores the snapshot's dog list and returns its centre writes; a null snapshot stores the empty list and issues no write |
| `DashboardComponent.Dashboard.HandleAddDog` | src/Dashboard.js:42-65 | an empty name writes nothing and leaves the state unchanged; otherwise it writes `NewDogRecord` of the form inputs under the allocated key; a successful write clears the name, tracker id and radius inputs, and a failed one leaves them as they were; the dog list is not touched |
| `DashboardComponent.FeedBackCentreWrites` | src/Dashboard.js:19-36 | two deliveries of the subscription: when the first snapshot's writes all carry non-zero coordinates, the snapshot that reflects them issues none |

## Left out

- Great-circle distance (src/Dashboard.js:94-100): floating-point `sin`, `cos`, `atan2` and `sqrt` are not modelled. The distance is a parameter of `IsOutside`, and the one NaN case that matters (a missing `geofence.lng`) is encoded explicitly. NaN and infinite values are otherwise not modelled.
- `Number(geofenceRadius)` (src/Dashboard.js:53): string-to-number parsing is not modelled. The parsed radius is an input of `NewDogRecord` and `HandleAddDog`.
- Database calls `ref`, `onValue`, `push`, `set` and `update` (src/Dashboard.js:17-19, 27, 46, 56): writes are returned as values. The subscription is a sequence of calls to `OnSnapshot`. Key allocation by `push` and the outcome of `set` are parameters. The store's merge of centre writes is modelled as a per-record fold over the writes in issue order. The order of a snapshot's children is taken as given.
- A stored record's own `id` field: the model assumes records carry none. In the source, the spread `{ id, ...dogData }` (src/Dashboard.js:23) would let such a field override the key.
- Location fields are assumed always present. A `currentLocation` without `lat` or `lng` would make the source write `undefined`, which the model does not represent.
- Unsubscribing on unmount (src/Dashboard.js:39), sign-out (src/Dashboard.js:67-69), the error alert (src/Dashboard.js:61-63) and the input `onChange` handlers (src/Dashboard.js:127, 134, 142): these are SDK, browser or UI plumbing with no logic. The form fields are assigned directly.
- JSX rendering, markers, circles and polylines (src/Dashboard.js:82-179): presentation only.
- The authentication page, the app shell, the static sidebar dashboard and the SDK configuration are not part of this model: they hold no decision logic beyond a one-line password-equality guard in the authentication page.

/**
 * The snapshot handler's pure parts: turning the value of the dogs node
 * into the dashboard's dog list, choosing the centre writes, and what the
 * store holds once those writes are merged.
 */
module Snapshot {
  import opened Wrappers
  import opened Records
  import opened GeofencePolicy

  /**
   * The value of `users/{uid}/dogs`: `None` when the node does not exist
   * (the SDK yields null), otherwise its children in entry order.
   */
  type SnapshotValue = Option<seq<Entry>>

  /** Each child becomes one dog whose `id` is the child's key. */
  function ToDogs(entries: seq<Entry>): (dogs: seq<Dog>)
    ensures |dogs| == |entries|
    ensures forall i :: 0 <= i < |entries| ==> dogs[i].id == entries[i].0 && dogs[i].record == entries[i].1
  {
    if entries == [] then [] else [Dog(entries[0].0, entries[0].1)] + ToDogs(entries[1..])
  }

  /** The dog list the handler stores: empty for a missing node. */
  function SnapshotDogs(s: SnapshotValue): (dogs: seq<Dog>)
    ensures s.None? ==> dogs == []
    ensures s.Some? ==> |dogs| == |s.value|
    ensures s.Some? ==> forall i :: 0 <= i < |s.value| ==> dogs[i] == Dog(s.value[i].0, s.value[i].1)
  {
    match s
    case None => []
    case Some(entries) => ToDogs(entries)
  }

  /** The centre writes of one pass over the dogs, in list order. */
  function PendingWrites(dogs: seq<Dog>): (ws: seq<CentreWrite>)
    ensures |ws| <= |dogs|
  {
    if dogs == [] then []
    else
      var head := match CentreWriteFor(dogs[0]) case Some(w) => [w] case None => [];
      head + PendingWrites(dogs[1..])
  }

  /** The `forEach` pass of the handler, issuing one write per qualifying dog. */
  method IssueCentreWrites(dogs: seq<Dog>) returns (writes: seq<CentreWrite>)
    ensures writes == PendingWrites(dogs)
  {
    writes := [];
    var i := 0;
    while i < |dogs|
      invariant 0 <= i <= |dogs|
      invariant writes + PendingWrites(dogs[i..]) == PendingWrites(dogs)
    {
      assert dogs[i..][1..] == dogs[i + 1..];
      var w := CentreWriteFor(dogs[i]);
      if w.Some? {
        writes := writes + [w.value];
      }
      i := i + 1;
    }
    assert dogs[i..] == [];
  }

  /** Every write issued comes from some dog of the list. */
  lemma {:induction false} PendingWritesSound(dogs: seq<Dog>, w: CentreWrite)
    requires w in PendingWrites(dogs)
    ensures exists i :: 0 <= i < |dogs| && CentreWriteFor(dogs[i]) == Some(w)
  {
    if CentreWriteFor(dogs[0]) != Some(w) {
      PendingWritesSound(dogs[1..], w);
      var i :| 0 <= i < |dogs[1..]| && CentreWriteFor(dogs[1..][i]) == Some(w);
      assert dogs[1..][i] == dogs[i + 1];
    }
  }

  /**
   * With distinct keys, as the children of one node have, a pass issues at
   * most one write per dog: no two writes target the same key.
   */
  lemma {:induction false} PendingWritesOnePerDog(dogs: seq<Dog>)
    requires forall i, j :: 0 <= i < j < |dogs| ==> dogs[i].id != dogs[j].id
    ensures forall a, b :: 0 <= a < b < |PendingWrites(dogs)| ==> PendingWrites(dogs)[a].dogId != PendingWrites(dogs)[b].dogId
  {
    if dogs != [] {
      var rest := dogs[1..];
      forall i, j | 0 <= i < j < |rest| ensures rest[i].id != rest[j].id {
        assert rest[i] == dogs[i + 1] && rest[j] == dogs[j + 1];
      }
      PendingWritesOnePerDog(rest);
      var tail := PendingWrites(rest);
      match CentreWriteFor(dogs[0])
      case None =>
      case Some(w) =>
        var ws := PendingWrites(dogs);
        assert ws == [w] + tail;
        forall b | 0 <= b < |tail| ensures tail[b].dogId != w.dogId {
          PendingWritesSound(rest, tail[b]);
          var i :| 0 <= i < |rest| && CentreWriteFor(rest[i]) == Some(tail[b]);
          assert rest[i] == dogs[i + 1];
        }
        forall a, b | 0 <= a < b < |ws| ensures ws[a].dogId != ws[b].dogId {
          assert ws[b] == tail[b - 1];
          if a > 0 {
            assert ws[a] == tail[a - 1];
          }
        }
    }
  }

  /** Every dog that meets the guard gets its write issued. */
  lemma {:induction false} PendingWritesComplete(dogs: seq<Dog>, i: nat)
    requires i < |dogs| && NeedsCentre(dogs[i])
    ensures CentreWriteFor(dogs[i]).Some? && CentreWriteFor(dogs[i]).value in PendingWrites(dogs)
  {
    if i > 0 {
      assert dogs[1..][i - 1] == dogs[i];
      PendingWritesComplete(dogs[1..], i - 1);
    }
  }

  /** A pass issues nothing exactly when no dog meets the guard. */
  lemma {:induction false} NoPendingWrites(dogs: seq<Dog>)
    ensures PendingWrites(dogs) == [] <==> forall i :: 0 <= i < |dogs| ==> !NeedsCentre(dogs[i])
  {
    if dogs != [] {
      NoPendingWrites(dogs[1..]);
      forall i | 0 < i < |dogs| ensures dogs[i] == dogs[1..][i - 1] { }
    }
  }

  /** Writes of a pass over concatenated lists are the concatenated writes. */
  lemma {:induction false} PendingWritesAppend(a: seq<Dog>, b: seq<Dog>)
    ensures PendingWrites(a + b) == PendingWrites(a) + PendingWrites(b)
  {
    if a == [] {
      assert a + b == b;
    } else {
      assert (a + b)[1..] == a[1..] + b;
      PendingWritesAppend(a[1..], b);
    }
  }

  /** The record stored under `key` once the writes have been merged in order. */
  function ApplyWritesTo(key: string, r: DogRecord, ws: seq<CentreWrite>): DogRecord
    decreases ws
  {
    if ws == [] then r
    else ApplyWritesTo(key, if ws[0].dogId == key then ApplyCentre(r, ws[0]) else r, ws[1..])
  }

  /** The dogs node once the writes have been merged. */
  function ApplyWrites(entries: seq<Entry>, ws: seq<CentreWrite>): (entries': seq<Entry>)
    ensures |entries'| == |entries|
    ensures forall i :: 0 <= i < |entries| ==>
              entries'[i] == (entries[i].0, ApplyWritesTo(entries[i].0, entries[i].1, ws))
  {
    if entries == [] then []
    else [(entries[0].0, ApplyWritesTo(entries[0].0, entries[0].1, ws))] + ApplyWrites(entries[1..], ws)
  }

  /** Writes aimed at other dogs leave a record as it was. */
  lemma {:induction false} UntouchedRecord(key: string, r: DogRecord, ws: seq<CentreWrite>)
    requires forall j :: 0 <= j < |ws| ==> ws[j].dogId != key
    ensures ApplyWritesTo(key, r, ws) == r
  {
    if ws != [] {
      UntouchedRecord(key, r, ws[1..]);
    }
  }

  /** A record whose centre holds two non-zero coordinates. */
  predicate HasCentre(r: DogRecord)
  {
    r.geofence.Some? && Truthy(r.geofence.value.lat) && Truthy(r.geofence.value.lng)
  }

  /**
   * Merging writes with non-zero coordinates into a record that either has
   * a centre or is targeted by one of them leaves it with a centre.
   */
  lemma {:induction false} WritesLeaveCentre(key: string, r: DogRecord, ws: seq<CentreWrite>)
    requires forall j :: 0 <= j < |ws| ==> ws[j].lat != 0.0 && ws[j].lng != 0.0
    requires HasCentre(r) || exists j :: 0 <= j < |ws| && ws[j].dogId == key
    ensures HasCentre(ApplyWritesTo(key, r, ws))
    decreases ws
  {
    if ws == [] {
      return;
    }
    var r1 := if ws[0].dogId == key then ApplyCentre(r, ws[0]) else r;
    if !HasCentre(r1) {
      var j :| 0 <= j < |ws| && ws[j].dogId == key;
      assert j != 0;
      assert ws[1..][j - 1].dogId == key;
    }
    if |ws| > 1 {
      WritesLeaveCentre(key, r1, ws[1..]);
    }
  }

  /**
   * Feeding back the writes of one snapshot: when every written location
   * has non-zero coordinates, the snapshot that reflects the merged writes
   * issues no write at all.
   */
  lemma CentresSettle(entries: seq<Entry>)
    requires forall w :: w in PendingWrites(ToDogs(entries)) ==> w.lat != 0.0 && w.lng != 0.0
    ensures PendingWrites(ToDogs(ApplyWrites(entries, PendingWrites(ToDogs(entries))))) == []
  {
    var dogs := ToDogs(entries);
    var ws := PendingWrites(dogs);
    var dogs' := ToDogs(ApplyWrites(entries, ws));
    forall j | 0 <= j < |ws| ensures ws[j].lat != 0.0 && ws[j].lng != 0.0 {
      assert ws[j] in ws;
    }
    forall i | 0 <= i < |dogs'| ensures !NeedsCentre(dogs'[i]) {
      var key := entries[i].0;
      if NeedsCentre(dogs[i]) {
        PendingWritesComplete(dogs, i);
        var w := CentreWriteFor(dogs[i]).value;
        var j :| 0 <= j < |ws| && ws[j] == w;
        WritesLeaveCentre(key, entries[i].1, ws);
      } else if exists j :: 0 <= j < |ws| && ws[j].dogId == key {
        WritesLeaveCentre(key, entries[i].1, ws);
      } else {
        UntouchedRecord(key, entries[i].1, ws);
      }
    }
    NoPendingWrites(dogs');
  }
}

/** The band map store, updated in place. Every method is proved equal to its function in BandMapSpec. */
module BandMapStore {
  import opened Sums
  import opened BandMapSpec
  import opened BandMapEvents
  import opened BandMapReconcile

  /** The candidates a log asks for. */
  method DesiredFor(cands: seq<Candidate>, cutoff: nat) returns (wanted: map<Key, Candidate>)
    ensures wanted == Desired(cands, cutoff)
  {
    wanted := map[];
    for i := 0 to |cands|
      invariant wanted == Desired(cands[..i], cutoff)
    {
      assert cands[..i + 1][..i] == cands[..i];
      var c := cands[i];
      if c.receivedAt < cutoff {
        continue;
      }
      var key := LocalKeyOf(c.shown);
      if key in wanted && wanted[key].receivedAt >= c.receivedAt {
        continue;
      }
      wanted := wanted[key := c];
    }
    assert cands[..|cands|] == cands;
  }

  lemma ListsOneMore<T>(xs: seq<T>, all: set<T>, x: T)
    requires Lists(xs, all) && x !in all
    ensures Lists(xs + [x], all + {x})
  {
    assert x !in xs;
  }

  class BandMapSpotStore {
    var nextId: nat
    var nextSequenceNumber: nat
    var idsByTime: seq<nat>
    var spotsById: map<nat, Spot>
    var idByKey: map<Key, nat>
    var keyById: map<nat, Key>

    constructor ()
      ensures Value() == EMPTY_STORE
    {
      nextId, nextSequenceNumber, idsByTime := 0, 0, [];
      spotsById, idByKey, keyById := map[], map[], map[];
    }

    function Value(): Store
      reads this
    {
      Store(nextId, nextSequenceNumber, idsByTime, spotsById, idByKey, keyById)
    }

    method NextSequence() returns (sequence: nat)
      modifies this`nextSequenceNumber
      ensures sequence == nextSequenceNumber == old(nextSequenceNumber) + 1
    {
      nextSequenceNumber := nextSequenceNumber + 1;
      sequence := nextSequenceNumber;
    }

    /** The place of a live spot in the list by time. */
    method PlaceOf(id: nat) returns (at: nat)
      requires id in spotsById
      ensures PartitionPoint(spotsById, idsByTime, spotsById[id].receivedAt, id, at)
      ensures at == HalvedPlace(spotsById, idsByTime, spotsById[id].receivedAt, id, 0, |idsByTime|)
    {
      var receivedAt := spotsById[id].receivedAt;
      at := 0;
      var high := |idsByTime|;
      while at < high
        invariant at <= high <= |idsByTime|
        invariant HalvedPlace(spotsById, idsByTime, receivedAt, id, at, high)
                  == HalvedPlace(spotsById, idsByTime, receivedAt, id, 0, |idsByTime|)
        invariant at > 0 ==> NotAfter(spotsById, idsByTime[at - 1], receivedAt, id)
        invariant high < |idsByTime| ==> !NotAfter(spotsById, idsByTime[high], receivedAt, id)
      {
        var middle := (at + high) / 2;
        if NotAfter(spotsById, idsByTime[middle], receivedAt, id) {
          at := middle + 1;
        } else {
          high := middle;
        }
      }
    }

    /** Keeps the other ids of the list. */
    method DropIdByTime(id: nat)
      modifies this`idsByTime
      ensures idsByTime == Without(old(idsByTime), id)
    {
      var kept := [];
      var i := |idsByTime|;
      while i > 0
        invariant 0 <= i <= |idsByTime|
        invariant idsByTime == old(idsByTime)
        invariant kept == Without(idsByTime[i..], id)
      {
        i := i - 1;
        assert idsByTime[i..][1..] == idsByTime[i + 1..];
        if idsByTime[i] != id {
          kept := [idsByTime[i]] + kept;
        }
      }
      assert idsByTime[0..] == idsByTime;
      idsByTime := kept;
    }

    method InsertIdByTime(id: nat) returns (ghost at: nat)
      requires id in spotsById
      modifies this`idsByTime
      ensures PartitionPoint(spotsById, old(idsByTime), spotsById[id].receivedAt, id, at)
      ensures idsByTime == InsertAt(old(idsByTime), at, id)
    {
      var place := PlaceOf(id);
      at := place;
      idsByTime := idsByTime[..place] + [id] + idsByTime[place..];
    }

    method Upsert(key: Key, c: Candidate) returns (noticed: bool, spot: Spot, ghost at: nat)
      requires Inv(Value())
      modifies this
      ensures PartitionPoint(Upserting(old(Value()), key, c), Without(old(idsByTime), UpsertId(old(Value()), key)),
                             c.receivedAt, UpsertId(old(Value()), key), at)
      ensures (Value(), noticed, spot) == BandMapSpec.Upsert(old(Value()), key, c, at)
    {
      hide PartitionPoint, InsertAt, Without, Fits;
      if key in idByKey {
        var id := idByKey[key];
        noticed := spotsById[id].shown != c.shown;
        spot := spotsById[id].(receivedAt := c.receivedAt, shown := c.shown);
        spotsById := spotsById[id := spot];
        DropIdByTime(id);
        at := InsertIdByTime(id);
      } else {
        nextId := nextId + 1;
        var id := nextId;
        spot := Spot(id, c.receivedAt, c.shown);
        noticed := true;
        idByKey := idByKey[key := id];
        keyById := keyById[id := key];
        spotsById := spotsById[id := spot];
        NothingToDrop(idsByTime, id);
        at := InsertIdByTime(id);
      }
    }

    lemma NothingToDrop(ids: seq<nat>, id: nat)
      requires id !in ids
      ensures Without(ids, id) == ids
    {
    }

    /** Reports a spot, and adds the event if clients will notice. */
    method ReportSpot(key: Key, c: Candidate) returns (events: seq<Event>, spot: Spot, ghost at: nat)
      requires Inv(Value()) && Fits(key, c.shown)
      modifies this
      ensures PartitionPoint(Upserting(old(Value()), key, c), Without(old(idsByTime), UpsertId(old(Value()), key)),
                             c.receivedAt, UpsertId(old(Value()), key), at)
      ensures (Value(), events) == Report(old(Value()), key, c, at)
      ensures spot == Spot(UpsertId(old(Value()), key), c.receivedAt, c.shown)
      ensures Inv(Value())
    {
      hide PartitionPoint, InsertAt, Without, Fits, Linked, SpotsOk, Timed;
      ghost var before := Value();
      var noticed;
      noticed, spot, at := Upsert(key, c);
      PlacedWithin(Upserting(before, key, c), Without(before.idsByTime, UpsertId(before, key)), c.receivedAt,
                   UpsertId(before, key), at);
      events := [];
      if noticed {
        var sequence := NextSequence();
        events := [Upserted(sequence, spot)];
      }
      ReportKeeps(before, key, c, at);
    }

    /** A report from outside: expired spots go first. */
    method UpsertCandidate(key: Key, c: Candidate, cutoff: nat) returns (events: seq<Event>, ghost at: nat)
      requires Inv(Value()) && Fits(key, c.shown)
      modifies this
      ensures CanDo(old(Value()), BandMapEvents.ReportSpot(cutoff, key, c, at))
      ensures (Value(), events) == Do(old(Value()), BandMapEvents.ReportSpot(cutoff, key, c, at))
    {
      hide Inv, Follows, BandMapSpec.Prune, Report, PartitionPoint, Without, Upserting, UpsertId, Fits;
      PruneKeeps(Value(), cutoff);
      events := Prune(cutoff);
      var more, spot;
      more, spot, at := ReportSpot(key, c);
      events := events + more;
    }

    method RemoveById(id: nat) returns (events: seq<Event>)
      modifies this
      ensures (Value(), events) == BandMapSpec.RemoveById(old(Value()), id)
    {
      if id !in spotsById {
        return [];
      }
      spotsById := spotsById - {id};
      if id in keyById {
        var key := keyById[id];
        keyById := keyById - {id};
        idByKey := idByKey - {key};
      } else {
        assert keyById - {id} == keyById;
      }
      var sequence := NextSequence();
      events := [Deleted(sequence, id)];
    }

    method Prune(cutoff: nat) returns (events: seq<Event>)
      modifies this
      ensures (Value(), events) == BandMapSpec.Prune(old(Value()), cutoff)
    {
      ghost var start := Value();
      events := [];
      assert events + BandMapSpec.Prune(start, cutoff).1 == BandMapSpec.Prune(start, cutoff).1;
      while !StopsPruning(Value(), cutoff)
        invariant BandMapSpec.Prune(start, cutoff).0 == BandMapSpec.Prune(Value(), cutoff).0
        invariant BandMapSpec.Prune(start, cutoff).1 == events + BandMapSpec.Prune(Value(), cutoff).1
        decreases |idsByTime|
      {
        PruneUnfolds(Value(), cutoff);
        hide BandMapSpec.Prune, BandMapSpec.RemoveById;
        var id := idsByTime[0];
        idsByTime := idsByTime[1..];
        Removal(Value(), id);
        var more := RemoveById(id);
        events := events + more;
      }
      PruneUnfolds(Value(), cutoff);
      assert events + [] == events;
    }

    lemma Removal(s: Store, id: nat)
      ensures BandMapSpec.RemoveById(s, id).1 == if id in s.spots then [Deleted(s.nextSequence + 1, id)] else []
      ensures BandMapSpec.RemoveById(s, id).0.idsByTime == s.idsByTime
    {
    }

    method Remove(id: nat) returns (events: seq<Event>)
      modifies this
      ensures (Value(), events) == BandMapSpec.Remove(old(Value()), id)
    {
      DropIdByTime(id);
      events := RemoveById(id);
    }

    method RemoveClusterSourceSpot(sourceId: nat) returns (events: seq<Event>)
      modifies this
      ensures (Value(), events) == RemoveCluster(old(Value()), sourceId)
    {
      if ClusterKey(sourceId) !in idByKey {
        return [];
      }
      var id := idByKey[ClusterKey(sourceId)];
      DropIdByTime(id);
      events := RemoveById(id);
    }

    method LocalKeysForLog(logId: int) returns (keys: set<Key>)
      ensures keys == LocalKeys(Value(), logId)
    {
      keys := set k | k in idByKey && LocalTo(k, logId);
    }

    /** Reports all wanted candidates, in no particular order. */
    method ReportAll(wanted: map<Key, Candidate>) returns (events: seq<Event>, ghost order: seq<Placed>)
      requires Inv(Value()) && forall k :: k in wanted ==> Fits(k, wanted[k].shown)
      modifies this
      ensures Inv(Value())
      ensures Lists(KeysOf(order), wanted.Keys) && WellPlaced(old(Value()), wanted, order)
      ensures (Value(), events) == ReportEach(old(Value()), wanted, order)
    {
      hide Inv, Fits, PartitionPoint, Report, ReportEach, WellPlaced, Lists, KeysOf, Upserting, UpsertId, Without;
      ghost var start := Value();
      events, order := [], [];
      NothingReported(start, wanted);
      var left := wanted.Keys;
      assert wanted.Keys - left == {};
      while left != {}
        invariant Inv(Value()) && left <= wanted.Keys
        invariant Lists(KeysOf(order), wanted.Keys - left) && WellPlaced(start, wanted, order)
        invariant (Value(), events) == ReportEach(start, wanted, order)
        decreases |left|
      {
        var key :| key in left;
        var more, spot, at := ReportSpot(key, wanted[key]);
        ReportNext(start, wanted, order, Placed(key, at));
        ListsNext(order, Placed(key, at), wanted.Keys - left);
        assert wanted.Keys - (left - {key}) == wanted.Keys - left + {key};
        order := order + [Placed(key, at)];
        events := events + more;
        left := left - {key};
      }
      assert wanted.Keys - left == wanted.Keys;
    }

    lemma NothingReported(s: Store, wanted: map<Key, Candidate>)
      ensures WellPlaced(s, wanted, []) && ReportEach(s, wanted, []) == (s, []) && Lists(KeysOf([]), {})
    {
    }

    lemma ReportNext(s: Store, wanted: map<Key, Candidate>, order: seq<Placed>, p: Placed)
      requires WellPlaced(s, wanted, order) && p.key in wanted && Inv(ReportEach(s, wanted, order).0)
      requires var t := ReportEach(s, wanted, order).0;
               PartitionPoint(Upserting(t, p.key, wanted[p.key]), Without(t.idsByTime, UpsertId(t, p.key)),
                              wanted[p.key].receivedAt, UpsertId(t, p.key), p.at)
      ensures WellPlaced(s, wanted, order + [p])
      ensures var (t, e) := ReportEach(s, wanted, order);
              && (p.key in t.idByKey ==> t.idByKey[p.key] in t.spots)
              && p.at <= |Without(t.idsByTime, UpsertId(t, p.key))|
              && ReportEach(s, wanted, order + [p]) ==
                 (Report(t, p.key, wanted[p.key], p.at).0, e + Report(t, p.key, wanted[p.key], p.at).1)
    {
      hide Report, Without, Splits;
      var next := order + [p];
      assert next[..|next| - 1] == order && next[|next| - 1] == p;
    }

    lemma ListsNext(order: seq<Placed>, p: Placed, all: set<Key>)
      requires Lists(KeysOf(order), all) && p.key !in all
      ensures Lists(KeysOf(order + [p]), all + {p.key})
    {
      assert KeysOf(order + [p]) == KeysOf(order) + [p.key];
      ListsOneMore(KeysOf(order), all, p.key);
    }

    /** Removes the spots of some keys, in no particular order. */
    method RemoveAllOf(stale: set<Key>) returns (events: seq<Event>, ghost listed: seq<Key>)
      modifies this
      ensures Lists(listed, stale)
      ensures (Value(), events) == RemoveKeys(old(Value()), listed)
    {
      ghost var start := Value();
      events, listed := [], [];
      var left := stale;
      assert stale - left == {};
      while left != {}
        invariant left <= stale && Lists(listed, stale - left)
        invariant (Value(), events) == RemoveKeys(start, listed)
        decreases |left|
      {
        hide Lists, BandMapSpec.RemoveById;
        var key :| key in left;
        ghost var next := listed + [key];
        assert next[..|next| - 1] == listed;
        ListsOneMore(listed, stale - left, key);
        assert stale - (left - {key}) == stale - left + {key};
        if key in idByKey {
          var more := RemoveById(idByKey[key]);
          events := events + more;
        }
        listed := next;
        left := left - {key};
      }
      assert stale - left == stale;
    }

    /** Makes the local spots of a log those of its unexpired contacts. */
    method SyncLocalSpotsForLog(logId: int, cands: seq<Candidate>, cutoff: nat, pruneCutoff: nat)
      returns (events: seq<Event>, ghost order: seq<Placed>, ghost stale: seq<Key>)
      requires Inv(Value())
      requires forall i :: 0 <= i < |cands| ==> cands[i].shown.spotType.Local? && cands[i].shown.logId == Some(logId)
      modifies this
      ensures CanDo(old(Value()), SyncLog(logId, cands, cutoff, pruneCutoff, order, stale))
      ensures (Value(), events) == Sync(old(Value()), cands, cutoff, pruneCutoff, order, stale)
    {
      hide Inv, BandMapSpec.Prune, ReportEach, RemoveKeys, Lists, WellPlaced, Desired, Fits, Follows;
      var wanted := DesiredFor(cands, cutoff);
      DesiredFits(cands, cutoff);
      PruneKeeps(Value(), pruneCutoff);
      events := Prune(pruneCutoff);
      var existing := LocalKeysForLog(logId);
      var reported, removed;
      reported, order := ReportAll(wanted);
      removed, stale := RemoveAllOf(existing - wanted.Keys);
      events := events + reported + removed;
    }
  }
}

/** What each operation of the band map does to the spots, exactly, and which spots a session gets to see. */
module BandMapEffects {
  import opened Sums
  import opened BandMapSpec
  import opened BandMapEvents
  import opened BandMapReconcile

  // ----- deleting -----

  /** Deleting a spot takes it out of every index, tells clients once, and leaves all other spots alone. */
  lemma DeleteIsExact(s: Store, id: nat)
    requires Inv(s)
    ensures var (t, e) := Do(s, DeleteSpot(id));
            && id !in t.spots && id !in t.idsByTime
            && (forall x :: x != id ==> (x in t.idsByTime <==> x in s.idsByTime))
            && t.spots.Keys == s.spots.Keys - {id} && (forall x :: x in t.spots ==> t.spots[x] == s.spots[x])
            && (forall key :: ByKey(t, key) == if id in s.spots && s.keyById[id] == key then None else ByKey(s, key))
            && e == if id in s.spots then [Deleted(s.nextSequence + 1, id)] else []
  {
    RemovedSpots(s, id);
    hide Remove, Linked, SpotsOk, Timed;
    forall key { RemovedKey(s, id, key); }
  }

  lemma RemovedKey(s: Store, id: nat, key: Key)
    requires Inv(s)
    ensures ByKey(Remove(s, id).0, key) == if id in s.spots && s.keyById[id] == key then None else ByKey(s, key)
  {
    hide Without;
    RemovalByKey(s.(idsByTime := Without(s.idsByTime, id)), id, key);
  }

  lemma RemovedSpots(s: Store, id: nat)
    ensures var (t, e) := Remove(s, id);
            && id !in t.spots && id !in t.idsByTime
            && (forall x :: x != id ==> (x in t.idsByTime <==> x in s.idsByTime))
            && t.spots.Keys == s.spots.Keys - {id} && (forall x :: x in t.spots ==> t.spots[x] == s.spots[x])
            && e == if id in s.spots then [Deleted(s.nextSequence + 1, id)] else []
  {
  }

  /** Deleting the spot of a cluster report forgets that report and nothing else. */
  lemma DeleteClusterIsExact(s: Store, sourceId: nat)
    requires Inv(s)
    ensures var (t, e) := Do(s, DeleteClusterSpot(sourceId));
            var was := ByKey(s, ClusterKey(sourceId));
            && ClusterKey(sourceId) !in t.idByKey
            && (forall key :: ByKey(t, key) == if key == ClusterKey(sourceId) then None else ByKey(s, key))
            && (was.Some? ==> was.value.id !in t.spots && was.value.id !in t.idsByTime)
            && e == if was.Some? then [Deleted(s.nextSequence + 1, was.value.id)] else []
  {
    hide Remove, Timed, Fits, Follows;
    var key := ClusterKey(sourceId);
    KeyedIds(s, key);
    if key in s.idByKey {
      var id := s.idByKey[key];
      RemoveKeeps(s, id);
      KeyedIds(Remove(s, id).0, key);
      RemovedSpots(s, id);
      forall other { RemovedKey(s, id, other); }
    }
  }

  // ----- pruning -----

  function IdsOf(events: seq<Event>): set<nat> {
    set e | e in events :: if e.Upserted? then e.spot.id else e.id
  }

  predicate OneEach(events: seq<Event>) {
    && (forall i :: 0 <= i < |events| ==> events[i].Deleted?)
    && forall i, j :: 0 <= i < j < |events| ==> events[i].Deleted? && events[j].Deleted? && events[i].id != events[j].id
  }

  /** Pruning deletes expired spots only, leaves the others alone, and tells clients once of each. */
  lemma {:induction false} PruneIsExact(s: Store, cutoff: nat)
    requires Inv(s)
    ensures var (t, e) := Prune(s, cutoff);
            && t.spots.Keys <= s.spots.Keys && (forall x :: x in t.spots ==> t.spots[x] == s.spots[x])
            && (forall x :: x in s.spots && x !in t.spots ==> s.spots[x].receivedAt < cutoff)
            && OneEach(e) && IdsOf(e) == s.spots.Keys - t.spots.Keys
            && t.nextId == s.nextId
    decreases |s.idsByTime|
  {
    PruneUnfolds(s, cutoff);
    hide Prune, Inv;
    if !StopsPruning(s, cutoff) {
      FrontPrunedOk(s);
      PruneIsExact(FrontPruned(s), cutoff);
      FrontGone(s, cutoff);
      var id := s.idsByTime[0];
      if id in s.spots {
        MoreDeleted(Deleted(s.nextSequence + 1, id), Prune(FrontPruned(s), cutoff).1);
      } else {
        assert [] + Prune(FrontPruned(s), cutoff).1 == Prune(FrontPruned(s), cutoff).1;
      }
    }
  }

  lemma FrontGone(s: Store, cutoff: nat)
    requires s.idsByTime != []
    ensures var t, id := FrontPruned(s), s.idsByTime[0];
            && t.spots.Keys == s.spots.Keys - {id} && (forall x :: x in t.spots ==> t.spots[x] == s.spots[x])
            && t.nextId == s.nextId
  {
  }

  lemma MoreDeleted(e: Event, events: seq<Event>)
    requires e.Deleted? && OneEach(events) && e.id !in IdsOf(events)
    ensures OneEach([e] + events) && IdsOf([e] + events) == {e.id} + IdsOf(events)
  {
    forall j | 0 <= j < |events| ensures events[j].id != e.id {
      assert events[j] in events;
    }
    forall x | x in {e.id} + IdsOf(events) ensures x in IdsOf([e] + events) {
      if x == e.id {
        assert ([e] + events)[0] == e;
      } else {
        var f :| f in events && (if f.Upserted? then f.spot.id else f.id) == x;
        assert f in [e] + events;
      }
    }
  }

  // ----- reporting -----

  /**
   After a report its key stands for what was reported, under the id it had, or under one that was never used.
   Clients are told of it exactly if the key is new or shows something new. The other keys are as pruning left them.
   */
  lemma ReportIsExact(s: Store, cutoff: nat, key: Key, c: Candidate, at: nat)
    requires Inv(s) && CanDo(s, ReportSpot(cutoff, key, c, at))
    ensures var (p, f) := Prune(s, cutoff);
            var (t, e) := Do(s, ReportSpot(cutoff, key, c, at));
            var was, now := ByKey(p, key), ByKey(t, key);
            && now.Some? && now.value.receivedAt == c.receivedAt && now.value.shown == c.shown
            && (if was.Some? then now.value.id == was.value.id else now.value.id > s.nextId && now.value.id !in s.spots)
            && now.value.id in t.idsByTime
            && (forall other :: other != key ==> ByKey(t, other) == ByKey(p, other))
            && e == f + if was.Some? && was.value.shown == c.shown then [] else [Upserted(p.nextSequence + 1, now.value)]
  {
    PruneKeeps(s, cutoff);
    PruneIsExact(s, cutoff);
    KnownIds(s);
    hide Prune, Follows, Fits, Report, Inv, PartitionPoint, ByKey, UpsertId, OneEach, IdsOf;
    var p := Prune(s, cutoff).0;
    InvParts(p);
    PlacedWithin(Upserting(p, key, c), Without(p.idsByTime, UpsertId(p, key)), c.receivedAt, UpsertId(p, key), at);
    hide Upserting, Without, Linked, SpotsOk;
    ReportedSpot(p, key, c, at);
    ReportedKeys(p, key, c, at);
  }

  lemma ReportedKeys(s: Store, key: Key, c: Candidate, at: nat)
    requires Linked(s) && SpotsOk(s) && at <= |Without(s.idsByTime, UpsertId(s, key))|
    ensures ByKey(Report(s, key, c, at).0, key) == Some(Spot(UpsertId(s, key), c.receivedAt, c.shown))
    ensures forall other :: other != key ==> ByKey(Report(s, key, c, at).0, other) == ByKey(s, other)
  {
    hide Report, ByKey, Linked, SpotsOk, UpsertId, Without;
    forall other { ReportByKey(s, key, c, at, other); }
  }

  lemma KnownIds(s: Store)
    requires Inv(s)
    ensures forall id :: id in s.spots ==> id <= s.nextId
  {
  }

  /** The id and the event of a report. */
  lemma ReportedSpot(s: Store, key: Key, c: Candidate, at: nat)
    requires Linked(s) && SpotsOk(s) && at <= |Without(s.idsByTime, UpsertId(s, key))|
    ensures var (t, e) := Report(s, key, c, at);
            var was, id := ByKey(s, key), UpsertId(s, key);
            && (if was.Some? then id == was.value.id else id == s.nextId + 1)
            && id in t.idsByTime
            && e == if was.Some? && was.value.shown == c.shown then []
                    else [Upserted(s.nextSequence + 1, Spot(id, c.receivedAt, c.shown))]
  {
    KeyedIds(s, key);
    hide Without, Fits;
    var t := Report(s, key, c, at).0;
    assert t.idsByTime[at] == UpsertId(s, key);
  }

  // ----- keys -----

  /** The frequency of a key is that of the spot to the nearest tenth of a kilohertz. */
  lemma NearestTenth(frequencyHz: nat)
    ensures var tenth := FrequencyTenthKhz(frequencyHz);
            tenth * 100 <= frequencyHz + 50 < tenth * 100 + 100
  {
  }

  /** Two local spots are the same spot if they are of the same log, call and band, or frequency if the band is unknown. */
  lemma SameLocalSpot(a: Shown, b: Shown)
    ensures LocalKeyOf(a) == LocalKeyOf(b) <==>
              && a.logId == b.logId && a.callDx == b.callDx && a.bandName == b.bandName
              && (a.bandName.None? ==> FrequencyTenthKhz(a.frequencyHz) == FrequencyTenthKhz(b.frequencyHz))
  {
  }

  // ----- what a session sees -----

  /** A local spot of another log, which a session is not to see. */
  predicate Foreign(shown: Shown, logId: Option<int>) {
    shown.spotType == Local && shown.logId.Some? && (logId.None? || logId.value != shown.logId.value)
  }

  /**
   A session is shown every spot but the local spots of other logs: in its snapshot, which lists exactly those, and
   in its messages, of which one about a foreign spot carries the number only.
   */
  lemma SessionSees(s: Store, logId: Option<int>)
    requires Inv(s)
    ensures forall id :: id in View(s, Session(logId)) <==> id in s.spots && !Foreign(s.spots[id].shown, logId)
    ensures forall id :: id in View(s, Session(logId)) ==> View(s, Session(logId))[id] == s.spots[id].shown
    ensures View(s, Everyone).Keys == s.spots.Keys
    ensures forall n, spot: Spot :: ToMessage(Upserted(n, spot), Session(logId)) ==
              if Foreign(spot.shown, logId) then SequenceMessage(n) else SpotMessage(n, spot)
  {
  }
}

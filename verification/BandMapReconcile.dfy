/** Reconciling a log with the band map leaves exactly the spots of its unexpired contacts. */
module BandMapReconcile {
  import opened Sums
  import opened BandMapSpec
  import opened BandMapEvents

  // ----- what is wanted -----

  /** Candidate i counts for a key and has not expired. */
  predicate Competes(cands: seq<Candidate>, cutoff: nat, key: Key, i: int)
    requires 0 <= i < |cands|
  {
    LocalKeyOf(cands[i].shown) == key && cands[i].receivedAt >= cutoff
  }

  /** Candidate i is the newest of its key, and the first of equally new ones. */
  ghost predicate Newest(cands: seq<Candidate>, cutoff: nat, key: Key, i: int)
    requires 0 <= i < |cands|
  {
    && Competes(cands, cutoff, key, i)
    && forall j :: 0 <= j < |cands| && Competes(cands, cutoff, key, j) ==>
         cands[j].receivedAt < cands[i].receivedAt || (cands[j].receivedAt == cands[i].receivedAt && i <= j)
  }

  lemma NewestSoFar(cands: seq<Candidate>, cutoff: nat, key: Key, i: nat)
    requires cands != [] && i < |cands| - 1 && Newest(cands[..|cands| - 1], cutoff, key, i)
    ensures var n := |cands| - 1;
            if Competes(cands, cutoff, key, n) && cands[i].receivedAt < cands[n].receivedAt
            then Newest(cands, cutoff, key, n) else Newest(cands, cutoff, key, i)
  {
    hide LocalKeyOf;
    var init := cands[..|cands| - 1];
    assert forall j :: 0 <= j < |init| ==> (Competes(init, cutoff, key, j) <==> Competes(cands, cutoff, key, j));
  }

  /** Wanted are exactly the keys with an unexpired candidate, each with its newest one. */
  lemma {:induction false} DesiredIsNewest(cands: seq<Candidate>, cutoff: nat, key: Key)
    ensures key in Desired(cands, cutoff) ==>
              exists i :: 0 <= i < |cands| && Newest(cands, cutoff, key, i) && Desired(cands, cutoff)[key] == cands[i]
    ensures key !in Desired(cands, cutoff) ==> forall i :: 0 <= i < |cands| ==> !Competes(cands, cutoff, key, i)
  {
    if cands != [] {
      hide LocalKeyOf, Newest;
      var init, n := cands[..|cands| - 1], |cands| - 1;
      DesiredIsNewest(init, cutoff, key);
      if key in Desired(init, cutoff) {
        var i :| 0 <= i < |init| && Newest(init, cutoff, key, i) && Desired(init, cutoff)[key] == init[i];
        NewestSoFar(cands, cutoff, key, i);
      } else {
        FirstOfKey(cands, cutoff, key);
      }
    }
  }

  lemma FirstOfKey(cands: seq<Candidate>, cutoff: nat, key: Key)
    requires cands != []
    requires var init := cands[..|cands| - 1]; forall i :: 0 <= i < |init| ==> !Competes(init, cutoff, key, i)
    ensures var n := |cands| - 1;
            if Competes(cands, cutoff, key, n) then Newest(cands, cutoff, key, n)
            else forall i :: 0 <= i < |cands| ==> !Competes(cands, cutoff, key, i)
  {
    var init := cands[..|cands| - 1];
    assert forall j :: 0 <= j < |init| ==> (Competes(init, cutoff, key, j) <==> Competes(cands, cutoff, key, j));
  }

  // ----- spots by key -----

  /** The spot that a key stands for. */
  function ByKey(s: Store, key: Key): Option<Spot> {
    if key in s.idByKey && s.idByKey[key] in s.spots then Some(s.spots[s.idByKey[key]]) else None
  }

  lemma RemovalByKey(s: Store, id: nat, key: Key)
    requires Linked(s)
    ensures ByKey(RemoveById(s, id).0, key) ==
            if id in s.spots && s.keyById[id] == key then None else ByKey(s, key)
  {
  }

  lemma ReportByKey(s: Store, key: Key, c: Candidate, at: nat, other: Key)
    requires Linked(s) && SpotsOk(s) && at <= |Without(s.idsByTime, UpsertId(s, key))|
    ensures ByKey(Report(s, key, c, at).0, other) ==
            if other == key then Some(Spot(UpsertId(s, key), c.receivedAt, c.shown)) else ByKey(s, other)
  {
    hide InsertAt, Without, Fits;
  }

  /** The store without the front of its list, and without the spot of that id. */
  function FrontPruned(s: Store): Store
    requires s.idsByTime != []
  {
    RemoveById(s.(idsByTime := s.idsByTime[1..]), s.idsByTime[0]).0
  }

  lemma FrontPrunedOk(s: Store)
    requires Inv(s) && s.idsByTime != []
    ensures Inv(FrontPruned(s))
  {
    var rest := s.(idsByTime := s.idsByTime[1..]);
    FrontTaken(s);
    assert Linked(rest) && SpotsOk(rest);
    hide Linked, SpotsOk, Timed, TimedBut, Follows, RemoveById;
    RemovalKeeps(rest, s.idsByTime[0]);
  }

  predicate StopsPruning(s: Store, cutoff: nat) {
    s.idsByTime == [] || (s.idsByTime[0] in s.spots && s.spots[s.idsByTime[0]].receivedAt >= cutoff)
  }

  /** Pruning goes on from the store without its front, after an event if a spot was there. */
  lemma PruneUnfolds(s: Store, cutoff: nat)
    ensures StopsPruning(s, cutoff) ==> Prune(s, cutoff) == (s, [])
    ensures !StopsPruning(s, cutoff) ==>
              && FrontPruned(s).idsByTime == s.idsByTime[1..]
              && Prune(s, cutoff).0 == Prune(FrontPruned(s), cutoff).0
              && Prune(s, cutoff).1 == (if s.idsByTime[0] in s.spots then [Deleted(s.nextSequence + 1, s.idsByTime[0])] else [])
                                       + Prune(FrontPruned(s), cutoff).1
  {
  }

  /** Pruning takes away expired spots only. */
  lemma {:induction false} PruneByKey(s: Store, cutoff: nat, key: Key)
    requires Inv(s)
    ensures var t := Prune(s, cutoff).0;
            ByKey(t, key) == ByKey(s, key)
            || (ByKey(t, key).None? && ByKey(s, key).Some? && ByKey(s, key).value.receivedAt < cutoff)
    decreases |s.idsByTime|
  {
    PruneUnfolds(s, cutoff);
    hide Prune, Timed, SpotsOk;
    if !StopsPruning(s, cutoff) {
      FrontPrunedOk(s);
      var rest := s.(idsByTime := s.idsByTime[1..]);
      assert Linked(rest) && ByKey(rest, key) == ByKey(s, key);
      RemovalByKey(rest, s.idsByTime[0], key);
      PruneByKey(FrontPruned(s), cutoff, key);
    }
  }

  lemma {:induction false} RemoveKeysByKey(s: Store, keys: seq<Key>, key: Key)
    requires Inv(s)
    ensures ByKey(RemoveKeys(s, keys).0, key) == if key in keys then None else ByKey(s, key)
  {
    if keys != [] {
      var t := RemoveKeys(s, keys[..|keys| - 1]).0;
      RemoveKeysKeeps(s, keys[..|keys| - 1]);
      RemoveKeysByKey(s, keys[..|keys| - 1], key);
      var last := keys[|keys| - 1];
      assert keys == keys[..|keys| - 1] + [last];
      hide Timed, SpotsOk, Follows;
      if last in t.idByKey {
        RemovalByKey(t, t.idByKey[last], key);
      }
    }
  }

  /** This key now stands for this candidate, under the id it had before if it had one. */
  ghost predicate Holds(before: Option<Spot>, after: Option<Spot>, c: Candidate) {
    && after.Some? && after.value.receivedAt == c.receivedAt && after.value.shown == c.shown
    && (before.Some? ==> after.value.id == before.value.id)
  }

  lemma {:induction false} ReportEachByKey(s: Store, wanted: map<Key, Candidate>, order: seq<Placed>, key: Key)
    requires Inv(s) && (forall k :: k in wanted ==> Fits(k, wanted[k].shown)) && WellPlaced(s, wanted, order)
    ensures key !in KeysOf(order) ==> ByKey(ReportEach(s, wanted, order).0, key) == ByKey(s, key)
    ensures key in KeysOf(order) ==>
              key in wanted && Holds(ByKey(s, key), ByKey(ReportEach(s, wanted, order).0, key), wanted[key])
  {
    if order != [] {
      hide Fits, Report, Follows, PartitionPoint;
      var init, p := order[..|order| - 1], order[|order| - 1];
      assert KeysOf(order) == KeysOf(init) + [p.key];
      ReportEachByKey(s, wanted, init, key);
      ReportEachKeeps(s, wanted, init);
      var t := ReportEach(s, wanted, init).0;
      hide KeysOf, Timed;
      PlacedWithin(Upserting(t, p.key, wanted[p.key]), Without(t.idsByTime, UpsertId(t, p.key)),
                   wanted[p.key].receivedAt, UpsertId(t, p.key), p.at);
      ReportByKey(t, p.key, wanted[p.key], p.at, key);
      KeyedIds(t, p.key);
    }
  }

  lemma PlacedWithin(spots: map<nat, Spot>, ids: seq<nat>, receivedAt: nat, id: nat, at: nat)
    requires PartitionPoint(spots, ids, receivedAt, id, at)
    ensures at <= |ids|
  {
  }

  lemma KeyedIds(s: Store, key: Key)
    requires Linked(s) && SpotsOk(s)
    ensures ByKey(s, key).Some? ==> ByKey(s, key).value.id == UpsertId(s, key)
    ensures key in s.idByKey <==> ByKey(s, key).Some?
  {
  }

  // ----- reconciling -----

  /**
   Afterwards each local key of the log stands for its newest unexpired candidate, and keys without one
   stand for nothing. Every other key keeps its spot, unless that had expired.
   */
  lemma SyncIsExact(s: Store, logId: int, cands: seq<Candidate>, cutoff: nat, pruneCutoff: nat,
                    order: seq<Placed>, stale: seq<Key>, key: Key)
    requires Inv(s) && CanDo(s, SyncLog(logId, cands, cutoff, pruneCutoff, order, stale))
    ensures var after := ByKey(Sync(s, cands, cutoff, pruneCutoff, order, stale).0, key);
            var wanted := Desired(cands, cutoff);
            && (key in wanted ==> Holds(ByKey(Prune(s, pruneCutoff).0, key), after, wanted[key]))
            && (LocalTo(key, logId) && key !in wanted ==> after.None?)
            && (!LocalTo(key, logId) ==> key !in wanted)
            && (!LocalTo(key, logId) ==>
                  || after == ByKey(s, key)
                  || (after.None? && ByKey(s, key).Some? && ByKey(s, key).value.receivedAt < pruneCutoff))
  {
    var wanted := Desired(cands, cutoff);
    var (t, e) := Prune(s, pruneCutoff);
    DesiredFits(cands, cutoff);
    DesiredIsLocal(cands, cutoff, logId, key);
    PruneKeeps(s, pruneCutoff);
    PruneByKey(s, pruneCutoff, key);
    var (u, f) := ReportEach(t, wanted, order);
    ReportEachKeeps(t, wanted, order);
    ReportEachByKey(t, wanted, order, key);
    RemoveKeysByKey(u, stale, key);
    ListedKeys(order, wanted, key);
    assert key in stale <==> key in LocalKeys(t, logId) - wanted.Keys;
    KeyedIds(t, key);
    hide Prune, ReportEach, RemoveKeys, Desired, Fits, Inv, Follows, WellPlaced, Holds;
  }

  lemma ListedKeys(order: seq<Placed>, wanted: map<Key, Candidate>, key: Key)
    requires Lists(KeysOf(order), wanted.Keys)
    ensures key in KeysOf(order) <==> key in wanted
  {
  }

  lemma {:induction false} DesiredIsLocal(cands: seq<Candidate>, cutoff: nat, logId: int, key: Key)
    requires forall i :: 0 <= i < |cands| ==> cands[i].shown.logId == Some(logId)
    ensures key in Desired(cands, cutoff) ==> LocalTo(key, logId) && Desired(cands, cutoff)[key].receivedAt >= cutoff
  {
    if cands != [] {
      DesiredIsLocal(cands[..|cands| - 1], cutoff, logId, key);
    }
  }

  // ----- reconciling again -----

  predicate ExpiredIn(e: Event, s: Store, cutoff: nat) {
    e.Deleted? && e.id in s.spots && s.spots[e.id].receivedAt < cutoff
  }

  lemma {:induction false} PruneEvents(s: Store, cutoff: nat)
    requires Inv(s)
    ensures forall e :: e in Prune(s, cutoff).1 ==> ExpiredIn(e, s, cutoff)
    decreases |s.idsByTime|
  {
    PruneUnfolds(s, cutoff);
    hide Prune, Inv;
    if !StopsPruning(s, cutoff) {
      FrontPrunedOk(s);
      var t := FrontPruned(s);
      PruneEvents(t, cutoff);
      forall e | e in Prune(s, cutoff).1 ensures ExpiredIn(e, s, cutoff) {
        if e in Prune(t, cutoff).1 { assert ExpiredIn(e, t, cutoff); }
      }
    }
  }

  /** Reporting what is already shown causes no event. */
  lemma {:induction false} ReportEachQuietly(s: Store, wanted: map<Key, Candidate>, order: seq<Placed>)
    requires Inv(s) && (forall k :: k in wanted ==> Fits(k, wanted[k].shown)) && WellPlaced(s, wanted, order)
    requires forall k :: k in wanted ==> ByKey(s, k).Some? && ByKey(s, k).value.shown == wanted[k].shown
    ensures ReportEach(s, wanted, order).1 == []
  {
    if order != [] {
      var init, p := order[..|order| - 1], order[|order| - 1];
      ReportEachQuietly(s, wanted, init);
      ReportEachByKey(s, wanted, init, p.key);
      ReportEachKeeps(s, wanted, init);
      hide Fits, PartitionPoint, Inv, Follows, KeysOf, Without, InsertAt;
    }
  }

  /** The event says nothing about a local spot of the log. */
  ghost predicate NotOf(e: Event, s: Store, logId: int) {
    e.Deleted? && e.id in s.keyById && !LocalTo(s.keyById[e.id], logId)
  }

  /**
   Reconciling the same contacts again with the same cutoff causes no event for the log: what events
   there are delete expired spots that are not local to it.
   */
  lemma SyncAgainIsQuiet(s: Store, logId: int, cands: seq<Candidate>, cutoff: nat, earlier: nat,
                         order: seq<Placed>, stale: seq<Key>, order': seq<Placed>, stale': seq<Key>)
    requires Inv(s) && CanDo(s, SyncLog(logId, cands, cutoff, earlier, order, stale))
    requires var t := Sync(s, cands, cutoff, earlier, order, stale).0;
             CanDo(t, SyncLog(logId, cands, cutoff, cutoff, order', stale'))
    ensures var t := Sync(s, cands, cutoff, earlier, order, stale).0;
            var e := Sync(t, cands, cutoff, cutoff, order', stale').1;
            forall i :: 0 <= i < |e| ==> NotOf(e[i], t, logId)
  {
    hide Prune, ReportEach, RemoveKeys, Desired, Fits, Inv, Follows, WellPlaced, PartitionPoint, Lists, LocalKeyOf;
    var wanted := Desired(cands, cutoff);
    var t := Sync(s, cands, cutoff, earlier, order, stale).0;
    SyncKeeps(s, cands, cutoff, earlier, order, stale);
    forall k ensures LocalTo(k, logId) ==>
                       if k in wanted then Fresh(ByKey(t, k), wanted[k], cutoff) else ByKey(t, k).None?
             ensures k in wanted ==> LocalTo(k, logId)
    {
      SyncIsExact(s, logId, cands, cutoff, earlier, order, stale, k);
      DesiredIsLocal(cands, cutoff, logId, k);
    }
    hide Sync;
    AgainQuiet(t, logId, cands, cutoff, order', stale');
  }

  lemma {:induction false} ListSize<T>(xs: seq<T>, all: set<T>)
    requires Lists(xs, all)
    ensures |xs| == |all|
  {
    if xs == [] {
      assert all == {};
    } else {
      var init, last := xs[..|xs| - 1], xs[|xs| - 1];
      assert xs == init + [last];
      ListSize(init, all - {last});
    }
  }

  predicate Fresh(spot: Option<Spot>, c: Candidate, cutoff: nat) {
    spot.Some? && spot.value.shown == c.shown && spot.value.receivedAt >= cutoff
  }

  lemma AgainQuiet(t: Store, logId: int, cands: seq<Candidate>, cutoff: nat, order: seq<Placed>, stale: seq<Key>)
    requires Inv(t) && CanDo(t, SyncLog(logId, cands, cutoff, cutoff, order, stale))
    requires var wanted := Desired(cands, cutoff);
             forall k :: (LocalTo(k, logId) ==>
                            if k in wanted then Fresh(ByKey(t, k), wanted[k], cutoff) else ByKey(t, k).None?)
                         && (k in wanted ==> LocalTo(k, logId))
    ensures var e := Sync(t, cands, cutoff, cutoff, order, stale).1;
            forall i :: 0 <= i < |e| ==> NotOf(e[i], t, logId)
  {
    hide Fits, Follows, PartitionPoint, LocalKeyOf, Desired, ReportEach, Prune;
    var wanted := Desired(cands, cutoff);
    var (u, e) := Prune(t, cutoff);
    PruneKeeps(t, cutoff);
    PruneEvents(t, cutoff);
    forall i | 0 <= i < |e| ensures NotOf(e[i], t, logId) {
      assert e[i] in e && ExpiredIn(e[i], t, cutoff);
      ExpiredElsewhere(t, logId, wanted, cutoff, e[i].id);
    }
    forall k | LocalTo(k, logId)
      ensures if k in wanted then Fresh(ByKey(u, k), wanted[k], cutoff) else ByKey(u, k).None?
    {
      PruneByKey(t, cutoff, k);
    }
    DesiredFits(cands, cutoff);
    ReportEachQuietly(u, wanted, order);
    assert LocalKeys(u, logId) - wanted.Keys == {} by {
      forall k | k in LocalKeys(u, logId) ensures k in wanted { KeyedIds(u, k); }
    }
    ListSize(stale, LocalKeys(u, logId) - wanted.Keys);
  }

  lemma ExpiredElsewhere(t: Store, logId: int, wanted: map<Key, Candidate>, cutoff: nat, id: nat)
    requires Linked(t)
    requires forall k :: LocalTo(k, logId) ==>
               if k in wanted then Fresh(ByKey(t, k), wanted[k], cutoff) else ByKey(t, k).None?
    requires id in t.spots && t.spots[id].receivedAt < cutoff
    ensures id in t.keyById && !LocalTo(t.keyById[id], logId)
  {
    assert ByKey(t, t.keyById[id]) == Some(t.spots[id]);
  }
}

/** Every operation of the band map keeps its indexes linked, and its events tell clients everything. */
module BandMapEvents {
  import opened Sums
  import opened BandMapSpec

  // ----- lists -----

  lemma {:induction false} WithoutKeeps(ids: seq<nat>, id: nat)
    requires NoDuplicates(ids)
    ensures NoDuplicates(Without(ids, id))
    ensures |Without(ids, id)| <= |ids|
  {
    if ids != [] {
      WithoutKeeps(ids[1..], id);
      var tail := Without(ids[1..], id);
      assert ids[0] !in ids[1..];
      assert ids[0] != id ==> ids[0] !in tail;
      assert forall i :: 0 <= i < |tail| ==> tail[i] in tail;
    }
  }

  lemma InsertKeeps(ids: seq<nat>, at: nat, id: nat)
    requires at <= |ids| && NoDuplicates(ids) && id !in ids
    ensures NoDuplicates(InsertAt(ids, at, id))
    ensures forall x :: x in InsertAt(ids, at, id) <==> x == id || x in ids
  {
    var r := InsertAt(ids, at, id);
    assert r[at] == id;
    forall x | x in ids ensures x in r {
      var i :| 0 <= i < |ids| && ids[i] == x;
      assert r[if i < at then i else i + 1] == x;
    }
  }

  // ----- views -----

  lemma {:induction false} RebuildJoin(view: map<nat, Shown>, a: Audience, e: seq<Event>, f: seq<Event>)
    ensures Rebuild(view, a, e + f) == Rebuild(Rebuild(view, a, e), a, f)
    decreases |f|
  {
    if f == [] {
      assert e + f == e;
    } else {
      RebuildJoin(view, a, e, f[..|f| - 1]);
      assert (e + f)[..|e + f| - 1] == e + f[..|f| - 1];
    }
  }

  lemma FollowsJoin(s: Store, t: Store, u: Store, e: seq<Event>, f: seq<Event>)
    requires Follows(s, t, e) && Follows(t, u, f)
    ensures Follows(s, u, e + f)
  {
    forall a ensures Rebuild(View(s, a), a, e + f) == View(u, a) {
      RebuildJoin(View(s, a), a, e, f);
    }
  }

  lemma FollowsOne(s: Store, t: Store, e: Event)
    requires t.nextSequence == s.nextSequence + 1 == e.sequence
    requires forall a :: ApplyMessage(View(s, a), ToMessage(e, a)) == View(t, a)
    ensures Follows(s, t, [e])
  {
    forall a ensures Rebuild(View(s, a), a, [e]) == View(t, a) {
      assert [e][..0] == [];
      assert Rebuild(View(s, a), a, []) == View(s, a);
    }
  }

  lemma FollowsNone(s: Store, t: Store)
    requires t.nextSequence == s.nextSequence && forall a :: View(s, a) == View(t, a)
    ensures Follows(s, t, [])
  {
  }

  // ----- a report -----

  lemma SameVisibility(key: Key, shown: Shown, other: Shown, a: Audience)
    requires Fits(key, shown) && Fits(key, other)
    ensures Visible(shown, a) <==> Visible(other, a)
  {
  }

  lemma ReportView(s: Store, key: Key, c: Candidate, at: nat, a: Audience)
    requires Linked(s) && SpotsOk(s) && Fits(key, c.shown) && at <= |Without(s.idsByTime, UpsertId(s, key))|
    ensures var id := UpsertId(s, key);
            View(Report(s, key, c, at).0, a) ==
            if Visible(c.shown, a) then View(s, a)[id := c.shown] else View(s, a)
  {
    hide Without, InsertAt, Fits, Visible;
    if key in s.idByKey {
      SameVisibility(key, c.shown, s.spots[s.idByKey[key]].shown, a);
    }
  }

  lemma ReportFollows(s: Store, key: Key, c: Candidate, at: nat)
    requires Linked(s) && SpotsOk(s) && Fits(key, c.shown) && at <= |Without(s.idsByTime, UpsertId(s, key))|
    ensures var (t, e) := Report(s, key, c, at);
            Follows(s, t, e)
  {
    hide Without, InsertAt, Visible, View;
    var (t, e) := Report(s, key, c, at);
    var id := UpsertId(s, key);
    forall a ensures View(t, a) == if Visible(c.shown, a) then View(s, a)[id := c.shown] else View(s, a) {
      ReportView(s, key, c, at, a);
    }
    if e == [] {
      forall a ensures View(s, a) == View(t, a) {
        NothingNew(s, id, a);
      }
      FollowsNone(s, t);
    } else {
      FollowsOne(s, t, e[0]);
    }
  }

  lemma NothingNew(s: Store, id: nat, a: Audience)
    requires id in s.spots
    ensures Visible(s.spots[id].shown, a) ==> View(s, a)[id := s.spots[id].shown] == View(s, a)
  {
  }

  lemma ReportKeepsTimed(s: Store, key: Key, c: Candidate, at: nat)
    requires Timed(s) && (key in s.idByKey ==> s.idByKey[key] in s.spots && s.idByKey[key] <= s.nextId)
    requires at <= |Without(s.idsByTime, UpsertId(s, key))|
    ensures Timed(Report(s, key, c, at).0)
  {
    var id := UpsertId(s, key);
    WithoutKeeps(s.idsByTime, id);
    var ids := Without(s.idsByTime, id);
    assert id !in ids && forall x :: x != id ==> (x in ids <==> x in s.idsByTime);
    InsertKeeps(ids, at, id);
    hide InsertAt, Without, NoDuplicates;
  }

  lemma ReportKeepsLinks(s: Store, key: Key, c: Candidate, at: nat)
    requires Linked(s) && SpotsOk(s) && Fits(key, c.shown) && at <= |Without(s.idsByTime, UpsertId(s, key))|
    ensures Linked(Report(s, key, c, at).0)
    ensures SpotsOk(Report(s, key, c, at).0)
  {
    hide InsertAt, Without, Fits;
  }

  lemma ReportKeeps(s: Store, key: Key, c: Candidate, at: nat)
    requires Inv(s) && Fits(key, c.shown) && at <= |Without(s.idsByTime, UpsertId(s, key))|
    ensures Inv(Report(s, key, c, at).0)
  {
    ReportKeepsTimed(s, key, c, at);
    ReportKeepsLinks(s, key, c, at);
    hide Report, Timed, Fits;
  }

  // ----- a removal -----

  /** As Timed, but the list need not hold one id. */
  ghost predicate TimedBut(s: Store, out: nat) {
    && NoDuplicates(s.idsByTime)
    && (forall id :: id in s.spots && id != out ==> id in s.idsByTime)
    && (forall id :: id in s.idsByTime ==> id <= s.nextId)
  }

  lemma RemovalFollows(s: Store, id: nat)
    ensures var (t, e) := RemoveById(s, id);
            Follows(s, t, e)
  {
    hide Visible;
    var (t, e) := RemoveById(s, id);
    if id !in s.spots {
      FollowsNone(s, t);
    } else {
      FollowsOne(s, t, e[0]);
    }
  }

  lemma RemovalKeeps(s: Store, id: nat)
    requires Linked(s) && SpotsOk(s) && TimedBut(s, id)
    ensures var (t, e) := RemoveById(s, id);
            Inv(t) && Follows(s, t, e)
  {
    RemovalFollows(s, id);
    hide Fits, Follows;
  }

  lemma TimedIsTimedBut(s: Store, id: nat)
    requires Timed(s)
    ensures TimedBut(s, id)
    ensures TimedBut(s.(idsByTime := Without(s.idsByTime, id)), id)
  {
    WithoutKeeps(s.idsByTime, id);
  }

  lemma RemoveKeeps(s: Store, id: nat)
    requires Inv(s)
    ensures var (t, e) := Remove(s, id);
            Inv(t) && Follows(s, t, e)
  {
    hide Without, RemoveById;
    TimedIsTimedBut(s, id);
    var s' := s.(idsByTime := Without(s.idsByTime, id));
    RemovalKeeps(s', id);
    forall a ensures View(s, a) == View(s', a) {}
  }

  lemma SameViews(s: Store, s': Store, t: Store, e: seq<Event>)
    requires s'.spots == s.spots && s'.nextSequence == s.nextSequence
    requires Follows(s', t, e)
    ensures Follows(s, t, e)
  {
    forall a ensures Rebuild(View(s, a), a, e) == View(t, a) {
      assert View(s, a) == View(s', a);
    }
  }

  lemma FrontTaken(s: Store)
    requires Timed(s) && s.idsByTime != []
    ensures var rest := s.(idsByTime := s.idsByTime[1..]);
            TimedBut(rest, s.idsByTime[0]) && (s.idsByTime[0] !in s.spots ==> Timed(rest))
  {
    assert s.idsByTime == [s.idsByTime[0]] + s.idsByTime[1..];
    assert forall id :: id in s.idsByTime[1..] ==> id in s.idsByTime;
  }

  lemma {:induction false} PruneKeeps(s: Store, cutoff: nat)
    requires Inv(s)
    ensures var (t, e) := Prune(s, cutoff);
            Inv(t) && Follows(s, t, e)
    decreases |s.idsByTime|
  {
    hide Rebuild, RemoveById, Fits;
    if s.idsByTime == [] {
      FollowsNone(s, s);
    } else {
      var id := s.idsByTime[0];
      var rest := s.(idsByTime := s.idsByTime[1..]);
      FrontTaken(s);
      assert Linked(rest) && SpotsOk(rest);
      hide View, Linked, SpotsOk, Follows, Timed, TimedBut;
      if id !in s.spots {
        PruneKeeps(rest, cutoff);
        SameViews(s, rest, Prune(rest, cutoff).0, Prune(rest, cutoff).1);
      } else if s.spots[id].receivedAt >= cutoff {
        FollowsNone(s, s);
      } else {
        RemovalKeeps(rest, id);
        var (t, e) := RemoveById(rest, id);
        RemovedIds(rest, id);
        PruneKeeps(t, cutoff);
        FollowsJoin(rest, t, Prune(t, cutoff).0, e, Prune(t, cutoff).1);
        SameViews(s, rest, Prune(t, cutoff).0, e + Prune(t, cutoff).1);
      }
    }
  }

  lemma RemovedIds(s: Store, id: nat)
    ensures RemoveById(s, id).0.idsByTime == s.idsByTime
  {
  }

  // ----- a log -----

  lemma {:induction false} DesiredFits(cands: seq<Candidate>, cutoff: nat)
    requires forall i :: 0 <= i < |cands| ==> cands[i].shown.spotType.Local?
    ensures forall k :: k in Desired(cands, cutoff) ==> Fits(k, Desired(cands, cutoff)[k].shown)
  {
    if cands != [] {
      DesiredFits(cands[..|cands| - 1], cutoff);
    }
  }

  lemma {:induction false} ReportEachKeeps(s: Store, wanted: map<Key, Candidate>, order: seq<Placed>)
    requires Inv(s) && forall k :: k in wanted ==> Fits(k, wanted[k].shown)
    ensures var (t, e) := ReportEach(s, wanted, order);
            Inv(t) && Follows(s, t, e)
  {
    if order == [] {
      FollowsNone(s, s);
    } else {
      hide Report, Fits, Follows, Inv;
      var (t, e) := ReportEach(s, wanted, order[..|order| - 1]);
      ReportEachKeeps(s, wanted, order[..|order| - 1]);
      var p := order[|order| - 1];
      if ReportEach(s, wanted, order) != (t, e) {
        InvParts(t);
        ReportKeeps(t, p.key, wanted[p.key], p.at);
        ReportFollows(t, p.key, wanted[p.key], p.at);
        FollowsJoin(s, t, Report(t, p.key, wanted[p.key], p.at).0, e, Report(t, p.key, wanted[p.key], p.at).1);
      }
    }
  }

  lemma InvParts(s: Store)
    requires Inv(s)
    ensures Linked(s) && SpotsOk(s)
  {
  }

  lemma {:induction false} RemoveKeysKeeps(s: Store, keys: seq<Key>)
    requires Inv(s)
    ensures var (t, e) := RemoveKeys(s, keys);
            Inv(t) && Follows(s, t, e)
  {
    if keys == [] {
      FollowsNone(s, s);
    } else {
      hide RemoveById, Follows;
      var (t, e) := RemoveKeys(s, keys[..|keys| - 1]);
      RemoveKeysKeeps(s, keys[..|keys| - 1]);
      var key := keys[|keys| - 1];
      if key in t.idByKey {
        var id := t.idByKey[key];
        TimedIsTimedBut(t, id);
        RemovalKeeps(t, id);
        FollowsJoin(s, t, RemoveById(t, id).0, e, RemoveById(t, id).1);
      }
    }
  }

  lemma SyncKeeps(s: Store, cands: seq<Candidate>, cutoff: nat, pruneCutoff: nat, order: seq<Placed>, stale: seq<Key>)
    requires Inv(s)
    requires forall i :: 0 <= i < |cands| ==> cands[i].shown.spotType.Local?
    ensures var (t, e) := Sync(s, cands, cutoff, pruneCutoff, order, stale);
            Inv(t) && Follows(s, t, e)
  {
    hide Inv, Follows, Prune, ReportEach, RemoveKeys, Desired, Fits;
    var (t, e) := Prune(s, pruneCutoff);
    PruneKeeps(s, pruneCutoff);
    DesiredFits(cands, cutoff);
    var (u, f) := ReportEach(t, Desired(cands, cutoff), order);
    ReportEachKeeps(t, Desired(cands, cutoff), order);
    var (v, g) := RemoveKeys(u, stale);
    RemoveKeysKeeps(u, stale);
    FollowsJoin(s, t, u, e, f);
    FollowsJoin(s, u, v, e + f, g);
  }

  // ----- runs -----

  datatype Action =
    | PruneSpots(cutoff: nat)
    | ReportSpot(cutoff: nat, key: Key, candidate: Candidate, at: nat)
    | DeleteSpot(id: nat)
    | DeleteClusterSpot(sourceId: nat)
    | SyncLog(logId: int, cands: seq<Candidate>, cutoff: nat, pruneCutoff: nat, order: seq<Placed>, stale: seq<Key>)

  ghost predicate CanDo(s: Store, a: Action) {
    match a
    case ReportSpot(cutoff, key, c, at) =>
      var t := Prune(s, cutoff).0;
      && Fits(key, c.shown)
      && PartitionPoint(Upserting(t, key, c), Without(t.idsByTime, UpsertId(t, key)), c.receivedAt, UpsertId(t, key), at)
    case SyncLog(logId, cands, cutoff, pruneCutoff, order, stale) =>
      var t := Prune(s, pruneCutoff).0;
      var wanted := Desired(cands, cutoff);
      && (forall i :: 0 <= i < |cands| ==> cands[i].shown.spotType.Local? && cands[i].shown.logId == Some(logId))
      && WellPlaced(t, wanted, order)
      && Lists(KeysOf(order), wanted.Keys) && Lists(stale, LocalKeys(t, logId) - wanted.Keys)
    case _ => true
  }

  ghost function Do(s: Store, a: Action): (Store, seq<Event>)
    requires Inv(s) && CanDo(s, a)
  {
    match a
    case PruneSpots(cutoff) => Prune(s, cutoff)
    case ReportSpot(cutoff, key, c, at) =>
      PruneKeeps(s, cutoff);
      var (t, e) := Prune(s, cutoff);
      var (u, f) := Report(t, key, c, at);
      (u, e + f)
    case DeleteSpot(id) => Remove(s, id)
    case DeleteClusterSpot(sourceId) => RemoveCluster(s, sourceId)
    case SyncLog(_, cands, cutoff, pruneCutoff, order, stale) => Sync(s, cands, cutoff, pruneCutoff, order, stale)
  }

  /** Every operation keeps the invariant, and its events carry every view from before it to after it. */
  lemma DoKeeps(s: Store, a: Action)
    requires Inv(s) && CanDo(s, a)
    ensures var (t, e) := Do(s, a);
            Inv(t) && Follows(s, t, e)
  {
    hide Inv, Follows, Prune, Report, Remove, Sync, Fits;
    match a
    case PruneSpots(cutoff) => PruneKeeps(s, cutoff);
    case ReportSpot(cutoff, key, c, at) =>
      PruneKeeps(s, cutoff);
      var (t, e) := Prune(s, cutoff);
      InvParts(t);
      ReportKeeps(t, key, c, at);
      ReportFollows(t, key, c, at);
      FollowsJoin(s, t, Report(t, key, c, at).0, e, Report(t, key, c, at).1);
    case DeleteSpot(id) => RemoveKeeps(s, id);
    case DeleteClusterSpot(sourceId) =>
      if ClusterKey(sourceId) in s.idByKey {
        RemoveKeeps(s, s.idByKey[ClusterKey(sourceId)]);
      } else {
        assert forall x :: View(s, x) == View(s, x);
        FollowsNone(s, s);
      }
    case SyncLog(_, cands, cutoff, pruneCutoff, order, stale) =>
      SyncKeeps(s, cands, cutoff, pruneCutoff, order, stale);
  }
}

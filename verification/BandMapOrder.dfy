/** When the list by time is in order, and so pruning complete. */
module BandMapOrder {
  import opened Sums
  import opened BandMapSpec
  import opened BandMapEvents
  import opened BandMapReconcile
  import opened BandMapClients

  predicate Ordered(spots: map<nat, Spot>, ids: seq<nat>) {
    forall i, j :: 0 <= i < j < |ids| && ids[i] in spots && ids[j] in spots ==>
      NotAfter(spots, ids[i], spots[ids[j]].receivedAt, ids[j])
  }

  /** Every id in the list is that of a live spot. */
  predicate NoneLeftBehind(spots: map<nat, Spot>, ids: seq<nat>) {
    forall i :: 0 <= i < |ids| ==> ids[i] in spots
  }

  predicate InOrder(s: Store) {
    Ordered(s.spots, s.idsByTime) && NoneLeftBehind(s.spots, s.idsByTime)
  }

  // ----- pruning -----

  /** No live spot that has expired stands behind one that has not. */
  predicate ExpiredFirst(s: Store, cutoff: nat) {
    forall i, j :: 0 <= i < j < |s.idsByTime| && s.idsByTime[i] in s.spots && s.idsByTime[j] in s.spots ==>
      s.spots[s.idsByTime[j]].receivedAt < cutoff ==> s.spots[s.idsByTime[i]].receivedAt < cutoff
  }

  predicate NoneExpired(s: Store, cutoff: nat) {
    forall id :: id in s.spots ==> s.spots[id].receivedAt >= cutoff
  }

  /** Pruning leaves no expired spot exactly if the expired ones come first in the list. */
  lemma {:induction false} PruneIsCompleteIff(s: Store, cutoff: nat)
    requires Inv(s)
    ensures NoneExpired(Prune(s, cutoff).0, cutoff) <==> ExpiredFirst(s, cutoff)
    decreases |s.idsByTime|
  {
    PruneUnfolds(s, cutoff);
    if StopsPruning(s, cutoff) {
      hide Prune, Linked, SpotsOk;
      if ExpiredFirst(s, cutoff) {
        forall id | id in s.spots ensures s.spots[id].receivedAt >= cutoff {
          var j :| 0 <= j < |s.idsByTime| && s.idsByTime[j] == id;
        }
      }
    } else {
      hide Prune;
      FrontPrunedOk(s);
      FrontExpiredFirst(s, cutoff);
      hide Inv, ExpiredFirst, NoneExpired;
      PruneIsCompleteIff(FrontPruned(s), cutoff);
    }
  }

  lemma FrontExpiredFirst(s: Store, cutoff: nat)
    requires Timed(s) && !StopsPruning(s, cutoff)
    ensures ExpiredFirst(FrontPruned(s), cutoff) <==> ExpiredFirst(s, cutoff)
  {
    FrontOnce(s);
    hide Timed;
    var t := FrontPruned(s);
    if ExpiredFirst(t, cutoff) {
      forall i, j | 0 <= i < j < |s.idsByTime| && s.idsByTime[i] in s.spots && s.idsByTime[j] in s.spots
        && s.spots[s.idsByTime[j]].receivedAt < cutoff
        ensures s.spots[s.idsByTime[i]].receivedAt < cutoff
      {
        if i > 0 { assert t.idsByTime[i - 1] == s.idsByTime[i] && t.idsByTime[j - 1] == s.idsByTime[j]; }
      }
    }
    if ExpiredFirst(s, cutoff) {
      forall i, j | 0 <= i < j < |t.idsByTime| && t.idsByTime[i] in t.spots && t.idsByTime[j] in t.spots
        && t.spots[t.idsByTime[j]].receivedAt < cutoff
        ensures t.spots[t.idsByTime[i]].receivedAt < cutoff
      {
        assert t.idsByTime[i] == s.idsByTime[i + 1] && t.idsByTime[j] == s.idsByTime[j + 1];
      }
    }
  }

  lemma OrderedExpireFirst(s: Store, cutoff: nat)
    requires Ordered(s.spots, s.idsByTime)
    ensures ExpiredFirst(s, cutoff)
  {
  }

  lemma {:induction false} PruneKeepsOrder(s: Store, cutoff: nat)
    requires Inv(s) && InOrder(s)
    ensures InOrder(Prune(s, cutoff).0)
    decreases |s.idsByTime|
  {
    PruneUnfolds(s, cutoff);
    if !StopsPruning(s, cutoff) {
      hide Prune;
      FrontPrunedOk(s);
      FrontPrunedInOrder(s);
      hide Inv, InOrder, FrontPruned;
      PruneKeepsOrder(FrontPruned(s), cutoff);
    }
  }

  lemma FrontPrunedInOrder(s: Store)
    requires Timed(s) && s.idsByTime != [] && InOrder(s)
    ensures InOrder(FrontPruned(s))
  {
    FrontOnce(s);
    hide Timed;
    var t := FrontPruned(s);
    forall i, j | 0 <= i < j < |t.idsByTime|
      ensures NotAfter(t.spots, t.idsByTime[i], t.spots[t.idsByTime[j]].receivedAt, t.idsByTime[j])
    {
      assert NotAfter(s.spots, s.idsByTime[i + 1], s.spots[s.idsByTime[j + 1]].receivedAt, s.idsByTime[j + 1]);
    }
  }

  lemma FrontOnce(s: Store)
    requires Timed(s) && s.idsByTime != []
    ensures forall i :: 0 <= i < |s.idsByTime[1..]| ==> s.idsByTime[1..][i] != s.idsByTime[0]
  {
  }

  // ----- removing -----

  /** Where the remaining ids come from. */
  lemma {:induction false} WithoutOrigin(ids: seq<nat>, id: nat, i: nat, j: nat) returns (i': nat, j': nat)
    requires i < j < |Without(ids, id)|
    ensures i' < j' < |ids| && Without(ids, id)[i] == ids[i'] && Without(ids, id)[j] == ids[j']
  {
    if ids[0] == id {
      i', j' := WithoutOrigin(ids[1..], id, i, j);
      i', j' := i' + 1, j' + 1;
    } else if i > 0 {
      i', j' := WithoutOrigin(ids[1..], id, i - 1, j - 1);
      i', j' := i' + 1, j' + 1;
    } else {
      i' := 0;
      var rest := Without(ids[1..], id);
      assert rest[j - 1] in ids[1..];
      var k :| 0 <= k < |ids[1..]| && ids[1..][k] == rest[j - 1];
      j' := k + 1;
    }
  }

  lemma WithoutOrdered(spots: map<nat, Spot>, ids: seq<nat>, id: nat)
    requires Ordered(spots, ids)
    ensures Ordered(spots, Without(ids, id))
  {
    var rest := Without(ids, id);
    forall i, j | 0 <= i < j < |rest| && rest[i] in spots && rest[j] in spots
      ensures NotAfter(spots, rest[i], spots[rest[j]].receivedAt, rest[j])
    {
      var i', j' := WithoutOrigin(ids, id, i, j);
      assert ids[i'] == rest[i] && ids[j'] == rest[j];
    }
  }

  lemma RemoveKeepsOrder(s: Store, id: nat)
    requires InOrder(s)
    ensures InOrder(Remove(s, id).0)
  {
    WithoutOrdered(s.spots, s.idsByTime, id);
    var ids := Without(s.idsByTime, id);
    forall i | 0 <= i < |ids| ensures ids[i] in s.spots && ids[i] != id {
      assert ids[i] in ids;
    }
    hide Without;
  }

  // ----- reporting -----

  lemma InsertOrdered(spots: map<nat, Spot>, ids: seq<nat>, id: nat, at: nat)
    requires Ordered(spots, ids) && NoneLeftBehind(spots, ids) && id in spots && id !in ids
    requires PartitionPoint(spots, ids, spots[id].receivedAt, id, at)
    ensures Ordered(spots, InsertAt(ids, at, id)) && NoneLeftBehind(spots, InsertAt(ids, at, id))
  {
    var p := SplitPoint(spots, ids, spots[id].receivedAt, id);
    var r := InsertAt(ids, at, id);
    assert at == p;
    forall i, j | 0 <= i < j < |r| && r[i] in spots && r[j] in spots
      ensures NotAfter(spots, r[i], spots[r[j]].receivedAt, r[j])
    {
      if i == at {
        assert r[j] == ids[j - 1] && !NotAfter(spots, ids[j - 1], spots[id].receivedAt, id);
      } else if j == at {
        assert r[i] == ids[i] && NotAfter(spots, ids[i], spots[id].receivedAt, id);
      } else {
        assert r[i] == ids[if i < at then i else i - 1] && r[j] == ids[if j < at then j else j - 1];
      }
    }
  }

  /** An ordered list without gaps can be split. */
  lemma {:induction false} SplitPoint(spots: map<nat, Spot>, ids: seq<nat>, receivedAt: nat, id: nat) returns (p: nat)
    requires Ordered(spots, ids) && NoneLeftBehind(spots, ids)
    ensures p <= |ids| && Splits(spots, ids, receivedAt, id, p)
  {
    p := 0;
    while p < |ids| && NotAfter(spots, ids[p], receivedAt, id)
      invariant p <= |ids|
      invariant forall i :: 0 <= i < p ==> NotAfter(spots, ids[i], receivedAt, id)
    {
      p := p + 1;
    }
    forall i | p <= i < |ids| ensures !NotAfter(spots, ids[i], receivedAt, id) {
      if i > p { assert NotAfter(spots, ids[p], spots[ids[i]].receivedAt, ids[i]); }
    }
  }

  lemma ReportKeepsOrder(s: Store, key: Key, c: Candidate, at: nat)
    requires Inv(s) && InOrder(s)
    requires PartitionPoint(Upserting(s, key, c), Without(s.idsByTime, UpsertId(s, key)), c.receivedAt, UpsertId(s, key), at)
    ensures InOrder(Report(s, key, c, at).0)
  {
    var id := UpsertId(s, key);
    var ids := Without(s.idsByTime, id);
    var spots := Upserting(s, key, c);
    WithoutOrdered(s.spots, s.idsByTime, id);
    forall i | 0 <= i < |ids| ensures ids[i] in s.spots && ids[i] != id {
      assert ids[i] in ids;
    }
    hide Without, Inv;
    assert Ordered(spots, ids) by {
      forall i, j | 0 <= i < j < |ids| ensures NotAfter(spots, ids[i], spots[ids[j]].receivedAt, ids[j]) {
        assert NotAfter(s.spots, ids[i], s.spots[ids[j]].receivedAt, ids[j]);
      }
    }
    InsertOrdered(spots, ids, id, at);
  }

  lemma {:induction false} ReportEachKeepsOrder(s: Store, wanted: map<Key, Candidate>, order: seq<Placed>)
    requires Inv(s) && (forall k :: k in wanted ==> Fits(k, wanted[k].shown)) && WellPlaced(s, wanted, order)
    requires InOrder(s)
    ensures InOrder(ReportEach(s, wanted, order).0)
  {
    if order != [] {
      var init, p := order[..|order| - 1], order[|order| - 1];
      ReportEachKeepsOrder(s, wanted, init);
      ReportEachKeeps(s, wanted, init);
      var t := ReportEach(s, wanted, init).0;
      ReportKeepsOrder(t, p.key, wanted[p.key], p.at);
      hide Report, Inv, InOrder, Follows, PartitionPoint;
    }
  }

  /** The action does not make reconciling take a spot away. */
  predicate LeavesNone(a: Action) {
    a.SyncLog? ==> a.stale == []
  }

  lemma DoKeepsOrder(s: Store, a: Action)
    requires Inv(s) && CanDo(s, a) && LeavesNone(a) && InOrder(s)
    ensures InOrder(Do(s, a).0)
  {
    match a
    case PruneSpots(cutoff) => PruneKeepsOrder(s, cutoff);
    case ReportSpot(cutoff, key, c, at) =>
      PruneKeeps(s, cutoff);
      PruneKeepsOrder(s, cutoff);
      ReportKeepsOrder(Prune(s, cutoff).0, key, c, at);
      hide Inv, InOrder, Prune, Report, Follows;
    case DeleteSpot(id) => RemoveKeepsOrder(s, id);
    case DeleteClusterSpot(sourceId) =>
      if ClusterKey(sourceId) in s.idByKey { RemoveKeepsOrder(s, s.idByKey[ClusterKey(sourceId)]); }
    case SyncLog(_, cands, cutoff, pruneCutoff, order, stale) =>
      PruneKeeps(s, pruneCutoff);
      PruneKeepsOrder(s, pruneCutoff);
      DesiredFits(cands, cutoff);
      ReportEachKeepsOrder(Prune(s, pruneCutoff).0, Desired(cands, cutoff), order);
      hide Inv, InOrder, Prune, ReportEach, Follows, Desired, WellPlaced, Fits;
  }

  lemma {:induction false} RunKeepsOrder(s: Store, actions: seq<Action>)
    requires Inv(s) && InOrder(s) && CanRun(s, actions)
    requires forall i :: 0 <= i < |actions| ==> LeavesNone(actions[i])
    ensures InOrder(Run(s, actions).0)
    decreases |actions|
  {
    hide InOrder, Do, CanDo;
    if actions != [] {
      DoKeepsOrder(s, actions[0]);
      DoKeeps(s, actions[0]);
      hide Inv, Follows;
      RunKeepsOrder(Do(s, actions[0]).0, actions[1..]);
    }
  }

  /**
   As long as reconciling has never had to take a spot away, the list by time is in order, and pruning
   leaves no expired spot.
   */
  lemma PruneIsCompleteInOrderedRuns(actions: seq<Action>, cutoff: nat)
    requires CanRun(EMPTY_STORE, actions)
    requires forall i :: 0 <= i < |actions| ==> LeavesNone(actions[i])
    ensures var s := Run(EMPTY_STORE, actions).0;
            && InOrder(s)
            && NoneExpired(Prune(s, cutoff).0, cutoff)
  {
    EmptyIsOk();
    RunFollows(EMPTY_STORE, actions);
    RunKeepsOrder(EMPTY_STORE, actions);
    PruneIsCompleteIff(Run(EMPTY_STORE, actions).0, cutoff);
    OrderedExpireFirst(Run(EMPTY_STORE, actions).0, cutoff);
  }
}

/**
 What reconciling leaves behind. It takes spots away without taking their ids from the list by time,
 and such an id can hide an expired spot from pruning.
 */
module BandMapHidden {
  import opened Sums
  import opened BandMapSpec
  import opened BandMapEvents
  import opened BandMapClients
  import opened BandMapReconcile
  import opened BandMapOrder

  // ----- reports at the end of the list, and reports that change nothing -----

  lemma {:induction false} WithoutAbsent(ids: seq<nat>, id: nat)
    requires id !in ids
    ensures Without(ids, id) == ids
  {
    if ids != [] {
      assert ids == [ids[0]] + ids[1..];
      WithoutAbsent(ids[1..], id);
    }
  }

  lemma {:induction false} WithoutPresent(a: seq<nat>, id: nat, b: seq<nat>)
    requires id !in a && id !in b
    ensures Without(a + [id] + b, id) == a + b
    decreases |a|
  {
    var ids := a + [id] + b;
    if a == [] {
      assert ids[1..] == b;
      WithoutAbsent(b, id);
    } else {
      assert ids[1..] == a[1..] + [id] + b;
      assert a == [a[0]] + a[1..];
      WithoutPresent(a[1..], id, b);
    }
  }

  lemma InOrderPlace(spots: map<nat, Spot>, ids: seq<nat>, receivedAt: nat, id: nat, at: nat)
    requires at <= |ids| && Splits(spots, ids, receivedAt, id, at)
    ensures PartitionPoint(spots, ids, receivedAt, id, at)
  {
    forall p | 0 <= p <= |ids| && p != at ensures !Splits(spots, ids, receivedAt, id, p) {
      if p < at { assert NotAfter(spots, ids[p], receivedAt, id); } else { assert !NotAfter(spots, ids[at], receivedAt, id); }
    }
  }

  /** The store with a new spot whose id is the last in the list. */
  function Appended(s: Store, key: Key, c: Candidate): Store {
    var id := s.nextId + 1;
    Store(id, s.nextSequence + 1, s.idsByTime + [id], s.spots[id := Spot(id, c.receivedAt, c.shown)],
          s.idByKey[key := id], s.keyById[id := key])
  }

  /** No id of the list is newer than the moment, or not yet given out. */
  predicate Before(s: Store, receivedAt: nat) {
    forall i :: 0 <= i < |s.idsByTime| ==>
      && s.idsByTime[i] in s.spots && s.idsByTime[i] <= s.nextId
      && s.spots[s.idsByTime[i]].receivedAt <= receivedAt
  }

  lemma ReportAppends(s: Store, key: Key, c: Candidate)
    requires key !in s.idByKey && Before(s, c.receivedAt)
    ensures var at := |s.idsByTime|;
            && Without(s.idsByTime, UpsertId(s, key)) == s.idsByTime
            && PartitionPoint(Upserting(s, key, c), s.idsByTime, c.receivedAt, UpsertId(s, key), at)
            && Report(s, key, c, at) ==
                 (Appended(s, key, c), [Upserted(s.nextSequence + 1, Spot(s.nextId + 1, c.receivedAt, c.shown))])
  {
    var id := s.nextId + 1;
    WithoutAbsent(s.idsByTime, id);
    InOrderPlace(Upserting(s, key, c), s.idsByTime, c.receivedAt, id, |s.idsByTime|);
    assert InsertAt(s.idsByTime, |s.idsByTime|, id) == s.idsByTime + [id];
    hide Without;
  }

  /** A report of what the map shows already, in its own place of the list. */
  lemma ReportRepeats(s: Store, key: Key, c: Candidate, a: seq<nat>, b: seq<nat>)
    requires key in s.idByKey && s.idByKey[key] in s.spots
    requires var id := s.idByKey[key];
             && s.spots[id] == Spot(id, c.receivedAt, c.shown)
             && s.idsByTime == a + [id] + b && id !in a && id !in b
             && Splits(s.spots, a + b, c.receivedAt, id, |a|)
    ensures Without(s.idsByTime, UpsertId(s, key)) == a + b
    ensures PartitionPoint(Upserting(s, key, c), a + b, c.receivedAt, UpsertId(s, key), |a|)
    ensures Report(s, key, c, |a|) == (s, [])
  {
    var id := s.idByKey[key];
    WithoutPresent(a, id, b);
    assert Upserting(s, key, c) == s.spots;
    InOrderPlace(s.spots, a + b, c.receivedAt, id, |a|);
    assert InsertAt(a + b, |a|, id) == s.idsByTime;
    hide Without;
  }

  // ----- three contacts of a log, and the map without the second -----

  /** Three contacts of a log, logged at 10, 20 and 30, and the map without the second. */
  function Three(x: Shown, y: Shown, z: Shown): Store {
    var k, l, m := LocalKeyOf(x), LocalKeyOf(y), LocalKeyOf(z);
    Store(3, 3, [1, 2, 3], map[1 := Spot(1, 10, x), 2 := Spot(2, 20, y), 3 := Spot(3, 30, z)],
          map[k := 1, l := 2, m := 3], map[1 := k, 2 := l, 3 := m])
  }

  function Two(x: Shown, y: Shown, z: Shown): Store {
    var s := Three(x, y, z);
    s.(spots := s.spots - {2}, keyById := s.keyById - {2}, idByKey := s.idByKey - {LocalKeyOf(y)}, nextSequence := 4)
  }

  /** Contacts of one log with three different keys. */
  predicate Apart(log: int, x: Shown, y: Shown, z: Shown) {
    && x.spotType.Local? && y.spotType.Local? && z.spotType.Local?
    && x.logId == Some(log) && y.logId == Some(log) && z.logId == Some(log)
    && LocalKeyOf(x) != LocalKeyOf(y) && LocalKeyOf(y) != LocalKeyOf(z) && LocalKeyOf(x) != LocalKeyOf(z)
  }

  function LogAll(log: int, x: Shown, y: Shown, z: Shown): Action {
    SyncLog(log, [Candidate(10, x), Candidate(20, y), Candidate(30, z)], 0, 0,
            [Placed(LocalKeyOf(x), 0), Placed(LocalKeyOf(y), 1), Placed(LocalKeyOf(z), 2)], [])
  }

  function LogWithoutSecond(log: int, x: Shown, y: Shown, z: Shown): Action {
    SyncLog(log, [Candidate(10, x), Candidate(30, z)], 0, 0,
            [Placed(LocalKeyOf(x), 0), Placed(LocalKeyOf(z), 2)], [LocalKeyOf(y)])
  }

  lemma OneDesired(cands: seq<Candidate>, c: Candidate)
    ensures Desired(cands + [c], 0) ==
            var wanted := Desired(cands, 0);
            var key := LocalKeyOf(c.shown);
            if key in wanted && wanted[key].receivedAt >= c.receivedAt then wanted else wanted[key := c]
  {
    assert (cands + [c])[..|cands + [c]| - 1] == cands;
  }

  lemma AllDesired(log: int, x: Shown, y: Shown, z: Shown)
    requires Apart(log, x, y, z)
    ensures Desired(LogAll(log, x, y, z).cands, 0) ==
            map[LocalKeyOf(x) := Candidate(10, x), LocalKeyOf(y) := Candidate(20, y), LocalKeyOf(z) := Candidate(30, z)]
    ensures Desired(LogWithoutSecond(log, x, y, z).cands, 0) ==
            map[LocalKeyOf(x) := Candidate(10, x), LocalKeyOf(z) := Candidate(30, z)]
  {
    var a, b, c := Candidate(10, x), Candidate(20, y), Candidate(30, z);
    OneDesired([], a);
    OneDesired([a], b);
    OneDesired([a, b], c);
    OneDesired([a], c);
    assert [] + [a] == [a] && [a] + [b] == [a, b] && [a, b] + [c] == [a, b, c] && [a] + [c] == [a, c];
    hide LocalKeyOf;
  }

  lemma OnePlaced(s: Store, wanted: map<Key, Candidate>, order: seq<Placed>, p: Placed)
    requires p.key in wanted
    requires var t := ReportEach(s, wanted, order).0;
             && (p.key in t.idByKey ==> t.idByKey[p.key] in t.spots)
             && p.at <= |Without(t.idsByTime, UpsertId(t, p.key))|
    ensures ReportEach(s, wanted, order + [p]).0 == Report(ReportEach(s, wanted, order).0, p.key, wanted[p.key], p.at).0
    ensures WellPlaced(s, wanted, order + [p]) <==>
            var t := ReportEach(s, wanted, order).0;
            && WellPlaced(s, wanted, order)
            && PartitionPoint(Upserting(t, p.key, wanted[p.key]), Without(t.idsByTime, UpsertId(t, p.key)),
                              wanted[p.key].receivedAt, UpsertId(t, p.key), p.at)
  {
    assert (order + [p])[..|order + [p]| - 1] == order;
    hide Report, PartitionPoint, Upserting;
  }

  // ----- the run -----

  function One(x: Shown): Store {
    Store(1, 1, [1], map[1 := Spot(1, 10, x)], map[LocalKeyOf(x) := 1], map[1 := LocalKeyOf(x)])
  }

  function FirstTwo(x: Shown, y: Shown): Store {
    Store(2, 2, [1, 2], map[1 := Spot(1, 10, x), 2 := Spot(2, 20, y)],
          map[LocalKeyOf(x) := 1, LocalKeyOf(y) := 2], map[1 := LocalKeyOf(x), 2 := LocalKeyOf(y)])
  }

  lemma OneByOne(log: int, x: Shown, y: Shown, z: Shown)
    requires Apart(log, x, y, z)
    ensures Appended(EMPTY_STORE, LocalKeyOf(x), Candidate(10, x)) == One(x)
    ensures Appended(One(x), LocalKeyOf(y), Candidate(20, y)) == FirstTwo(x, y)
    ensures Appended(FirstTwo(x, y), LocalKeyOf(z), Candidate(30, z)) == Three(x, y, z)
    ensures Before(EMPTY_STORE, 10) && Before(One(x), 20) && Before(FirstTwo(x, y), 30)
    ensures LocalKeyOf(y) !in One(x).idByKey && LocalKeyOf(z) !in FirstTwo(x, y).idByKey
    ensures |One(x).idsByTime| == 1 && |FirstTwo(x, y).idsByTime| == 2
  {
    hide LocalKeyOf;
  }

  lemma PlacedLast(s: Store, wanted: map<Key, Candidate>, order: seq<Placed>, t: Store, p: Placed)
    requires ReportEach(s, wanted, order).0 == t && WellPlaced(s, wanted, order)
    requires p.key in wanted && p.key !in t.idByKey && p.at == |t.idsByTime| && Before(t, wanted[p.key].receivedAt)
    ensures ReportEach(s, wanted, order + [p]).0 == Appended(t, p.key, wanted[p.key])
    ensures WellPlaced(s, wanted, order + [p])
  {
    ReportAppends(t, p.key, wanted[p.key]);
    hide Report, PartitionPoint, Upserting, Without, Appended, ReportEach, WellPlaced, Before;
    OnePlaced(s, wanted, order, p);
  }

  lemma NonePlaced(s: Store, wanted: map<Key, Candidate>)
    ensures ReportEach(s, wanted, []).0 == s && WellPlaced(s, wanted, [])
  {
  }

  /** The first reconciliation. */
  lemma ThreeAreReported(log: int, x: Shown, y: Shown, z: Shown)
    requires Apart(log, x, y, z)
    ensures var wanted := Desired(LogAll(log, x, y, z).cands, 0);
            var order := LogAll(log, x, y, z).order;
            && ReportEach(EMPTY_STORE, wanted, order).0 == Three(x, y, z)
            && WellPlaced(EMPTY_STORE, wanted, order)
  {
    hide LocalKeyOf, Desired, ReportEach, WellPlaced, Appended, Three, One, FirstTwo, Before;
    var k, l, m := LocalKeyOf(x), LocalKeyOf(y), LocalKeyOf(z);
    var wanted := Desired(LogAll(log, x, y, z).cands, 0);
    AllDesired(log, x, y, z);
    OneByOne(log, x, y, z);
    NonePlaced(EMPTY_STORE, wanted);
    PlacedLast(EMPTY_STORE, wanted, [], EMPTY_STORE, Placed(k, 0));
    assert [] + [Placed(k, 0)] == [Placed(k, 0)];
    PlacedLast(EMPTY_STORE, wanted, [Placed(k, 0)], One(x), Placed(l, 1));
    assert [Placed(k, 0)] + [Placed(l, 1)] == [Placed(k, 0), Placed(l, 1)];
    PlacedLast(EMPTY_STORE, wanted, [Placed(k, 0), Placed(l, 1)], FirstTwo(x, y), Placed(m, 2));
    assert [Placed(k, 0), Placed(l, 1)] + [Placed(m, 2)] == LogAll(log, x, y, z).order;
  }

  lemma Repeats(log: int, x: Shown, y: Shown, z: Shown)
    requires Apart(log, x, y, z)
    ensures var s, k, m := Three(x, y, z), LocalKeyOf(x), LocalKeyOf(z);
            && UpsertId(s, k) == 1 && UpsertId(s, m) == 3 && k in s.idByKey && m in s.idByKey
            && s.idByKey[k] == 1 && s.idByKey[m] == 3 && 1 in s.spots && 3 in s.spots
            && Without(s.idsByTime, 1) == [2, 3] && Without(s.idsByTime, 3) == [1, 2]
            && PartitionPoint(Upserting(s, k, Candidate(10, x)), [2, 3], 10, 1, 0)
            && PartitionPoint(Upserting(s, m, Candidate(30, z)), [1, 2], 30, 3, 2)
            && Report(s, k, Candidate(10, x), 0) == (s, [])
            && Report(s, m, Candidate(30, z), 2) == (s, [])
  {
    hide LocalKeyOf, Report, PartitionPoint, Upserting, Without;
    var s := Three(x, y, z);
    assert [1, 2, 3] == [] + [1] + [2, 3] == [1, 2] + [3] + [] && [] + [2, 3] == [2, 3] && [1, 2] + [] == [1, 2];
    ReportRepeats(s, LocalKeyOf(x), Candidate(10, x), [], [2, 3]);
    ReportRepeats(s, LocalKeyOf(z), Candidate(30, z), [1, 2], []);
  }

  lemma PlacedAgain(s: Store, wanted: map<Key, Candidate>, order: seq<Placed>, t: Store, p: Placed)
    requires ReportEach(s, wanted, order).0 == t && WellPlaced(s, wanted, order)
    requires p.key in wanted && p.key in t.idByKey && t.idByKey[p.key] in t.spots
    requires p.at <= |Without(t.idsByTime, UpsertId(t, p.key))|
    requires PartitionPoint(Upserting(t, p.key, wanted[p.key]), Without(t.idsByTime, UpsertId(t, p.key)),
                            wanted[p.key].receivedAt, UpsertId(t, p.key), p.at)
    requires Report(t, p.key, wanted[p.key], p.at) == (t, [])
    ensures ReportEach(s, wanted, order + [p]).0 == t
    ensures WellPlaced(s, wanted, order + [p])
  {
    hide Report, PartitionPoint, Upserting, Without, ReportEach, WellPlaced;
    OnePlaced(s, wanted, order, p);
  }

  /** The second reconciliation, before it takes the second contact away. */
  lemma TwoAreRepeated(log: int, x: Shown, y: Shown, z: Shown)
    requires Apart(log, x, y, z)
    ensures var wanted := Desired(LogWithoutSecond(log, x, y, z).cands, 0);
            var order := LogWithoutSecond(log, x, y, z).order;
            && ReportEach(Three(x, y, z), wanted, order).0 == Three(x, y, z)
            && WellPlaced(Three(x, y, z), wanted, order)
  {
    hide LocalKeyOf, Desired, Report, PartitionPoint, Upserting, Without, Three, UpsertId, ReportEach, WellPlaced;
    var s, k, m := Three(x, y, z), LocalKeyOf(x), LocalKeyOf(z);
    var wanted := Desired(LogWithoutSecond(log, x, y, z).cands, 0);
    AllDesired(log, x, y, z);
    Repeats(log, x, y, z);
    NonePlaced(s, wanted);
    PlacedAgain(s, wanted, [], s, Placed(k, 0));
    assert [] + [Placed(k, 0)] == [Placed(k, 0)];
    PlacedAgain(s, wanted, [Placed(k, 0)], s, Placed(m, 2));
    assert [Placed(k, 0)] + [Placed(m, 2)] == LogWithoutSecond(log, x, y, z).order;
  }

  lemma SecondIsStale(log: int, x: Shown, y: Shown, z: Shown)
    requires Apart(log, x, y, z)
    ensures LocalKeys(Three(x, y, z), log) - {LocalKeyOf(x), LocalKeyOf(z)} == {LocalKeyOf(y)}
    ensures RemoveKeys(Three(x, y, z), [LocalKeyOf(y)]).0 == Two(x, y, z)
  {
    var l := LocalKeyOf(y);
    assert LocalTo(l, log);
    hide LocalKeyOf;
    assert Three(x, y, z).idByKey[l] == 2;
    assert [l][..0] == [];
    assert RemoveKeys(Three(x, y, z), []) == (Three(x, y, z), []);
    hide RemoveKeys, LocalTo;
  }

  /** A reconciliation in three parts. */
  lemma Syncs(s: Store, a: Action, wanted: map<Key, Candidate>, u: Store, v: Store)
    requires a.SyncLog? && wanted == Desired(a.cands, a.cutoff) && Prune(s, a.pruneCutoff) == (s, [])
    requires forall i :: 0 <= i < |a.cands| ==> a.cands[i].shown.spotType.Local? && a.cands[i].shown.logId == Some(a.logId)
    requires WellPlaced(s, wanted, a.order) && ReportEach(s, wanted, a.order).0 == u
    requires Lists(KeysOf(a.order), wanted.Keys) && Lists(a.stale, LocalKeys(s, a.logId) - wanted.Keys)
    requires RemoveKeys(u, a.stale).0 == v
    ensures CanDo(s, a)
    ensures Inv(s) ==> Do(s, a).0 == v
  {
    hide Inv, Desired, Prune, ReportEach, RemoveKeys, WellPlaced, Lists, LocalKeys;
  }

  lemma NothingYet(log: int, s: Store)
    ensures Prune(EMPTY_STORE, 0) == (EMPTY_STORE, []) && LocalKeys(EMPTY_STORE, log) == {}
    ensures RemoveKeys(s, []) == (s, [])
  {
  }

  lemma LogAllLists(log: int, x: Shown, y: Shown, z: Shown)
    requires Apart(log, x, y, z)
    ensures var a := LogAll(log, x, y, z);
            && Lists(KeysOf(a.order), Desired(a.cands, 0).Keys)
            && Lists(a.stale, {})
  {
    AllDesired(log, x, y, z);
    hide LocalKeyOf, Desired;
    var k, l, m := LocalKeyOf(x), LocalKeyOf(y), LocalKeyOf(z);
    var a := LogAll(log, x, y, z);
    assert Desired(a.cands, 0).Keys == {k, l, m};
    assert KeysOf(a.order) == [k, l, m];
  }

  lemma LogAllDone(log: int, x: Shown, y: Shown, z: Shown)
    requires Apart(log, x, y, z)
    ensures CanDo(EMPTY_STORE, LogAll(log, x, y, z)) && Inv(EMPTY_STORE)
    ensures Do(EMPTY_STORE, LogAll(log, x, y, z)).0 == Three(x, y, z)
  {
    hide LocalKeyOf, Desired, ReportEach, WellPlaced, Three, Prune, RemoveKeys, LocalKeys, Inv, CanDo, Do, Lists, KeysOf;
    EmptyIsOk();
    ThreeAreReported(log, x, y, z);
    NothingYet(log, Three(x, y, z));
    LogAllLists(log, x, y, z);
    assert {} - Desired(LogAll(log, x, y, z).cands, 0).Keys == {};
    Syncs(EMPTY_STORE, LogAll(log, x, y, z), Desired(LogAll(log, x, y, z).cands, 0), Three(x, y, z), Three(x, y, z));
  }

  lemma LogWithoutSecondLists(log: int, x: Shown, y: Shown, z: Shown)
    requires Apart(log, x, y, z)
    ensures var a := LogWithoutSecond(log, x, y, z);
            && Desired(a.cands, 0).Keys == {LocalKeyOf(x), LocalKeyOf(z)}
            && Lists(KeysOf(a.order), Desired(a.cands, 0).Keys)
            && Lists(a.stale, {LocalKeyOf(y)})
    ensures Prune(Three(x, y, z), 0) == (Three(x, y, z), [])
  {
    AllDesired(log, x, y, z);
    hide LocalKeyOf, Desired;
    var a := LogWithoutSecond(log, x, y, z);
    assert Desired(a.cands, 0).Keys == {LocalKeyOf(x), LocalKeyOf(z)};
    assert KeysOf(a.order) == [LocalKeyOf(x), LocalKeyOf(z)];
  }

  lemma LogWithoutSecondDone(log: int, x: Shown, y: Shown, z: Shown)
    requires Apart(log, x, y, z)
    ensures CanDo(Three(x, y, z), LogWithoutSecond(log, x, y, z))
    ensures Inv(Three(x, y, z)) ==> Do(Three(x, y, z), LogWithoutSecond(log, x, y, z)).0 == Two(x, y, z)
  {
    hide LocalKeyOf, Desired, ReportEach, WellPlaced, Three, Prune, RemoveKeys, LocalKeys, Inv, CanDo, Do, Two, Lists, KeysOf;
    TwoAreRepeated(log, x, y, z);
    SecondIsStale(log, x, y, z);
    LogWithoutSecondLists(log, x, y, z);
    var a := LogWithoutSecond(log, x, y, z);
    Syncs(Three(x, y, z), a, Desired(a.cands, 0), Three(x, y, z), Two(x, y, z));
  }

  function Hiding(n: Key, w: Shown): Action {
    ReportSpot(10, n, Candidate(40, w), 1)
  }

  /** A spot may be placed second, where halving puts it. */
  lemma HidingDone(log: int, x: Shown, y: Shown, z: Shown, n: Key, w: Shown)
    requires Apart(log, x, y, z) && Fits(n, w) && n !in Two(x, y, z).idByKey
    ensures CanDo(Two(x, y, z), Hiding(n, w))
    ensures HalvedPlace(Upserting(Two(x, y, z), n, Candidate(40, w)), [1, 2, 3], 40, 4, 0, 3) == 1
    ensures Inv(Two(x, y, z)) ==>
              var t := Do(Two(x, y, z), Hiding(n, w)).0;
              && t.idsByTime == [1, 4, 2, 3] && 2 !in t.spots
              && 1 in t.spots && 3 in t.spots && 4 in t.spots
              && t.spots[1].receivedAt == 10 && t.spots[3].receivedAt == 30 && t.spots[4].receivedAt == 40
  {
    hide LocalKeyOf, Fits, Without, Inv;
    var s := Two(x, y, z);
    var c := Candidate(40, w);
    assert Prune(s, 10) == (s, []);
    WithoutAbsent([1, 2, 3], 4);
    var spots := Upserting(s, n, c);
    assert NotAfter(spots, [1, 2, 3][2], 40, 4) && !NotAfter(spots, [1, 2, 3][1], 40, 4);
    assert PartitionPoint(spots, [1, 2, 3], 40, 4, 1);
    assert [1, 2, 3][0] == 1 && NotAfter(spots, 1, 40, 4);
    assert InsertAt([1, 2, 3], 1, 4) == [1, 4, 2, 3];
    hide Prune;
  }

  lemma PruningStops(t: Store)
    requires t.idsByTime == [1, 4, 2, 3] && 1 in t.spots && 4 in t.spots && 3 in t.spots
    requires t.spots[1].receivedAt < 35 && t.spots[4].receivedAt >= 35
    ensures 3 in Prune(t, 35).0.spots && Prune(t, 35).0.spots[3] == t.spots[3]
  {
    PruneUnfolds(t, 35);
    PruneUnfolds(FrontPruned(t), 35);
    hide Prune;
  }

  function HidingRun(log: int, x: Shown, y: Shown, z: Shown, n: Key, w: Shown): seq<Action> {
    [LogAll(log, x, y, z), LogWithoutSecond(log, x, y, z), Hiding(n, w), PruneSpots(35)]
  }

  /**
   A run in which pruning leaves an expired spot. A log has contacts at 10, 20 and 30; the second is
   deleted, and its id stays in the list. A spot that arrives at 40 may then be placed second, where
   the store's own search puts it, and hides the third contact from pruning at 35.
   */
  lemma IdLeftBehindHidesExpired(log: int, x: Shown, y: Shown, z: Shown, n: Key, w: Shown)
    requires Apart(log, x, y, z) && Fits(n, w) && n != LocalKeyOf(x) && n != LocalKeyOf(z)
    ensures var actions := HidingRun(log, x, y, z, n, w);
            && CanRun(EMPTY_STORE, actions)
            && var s := Run(EMPTY_STORE, actions).0;
               3 in s.spots && s.spots[3].receivedAt < 35
  {
    hide Inv, CanDo, Do, Three, Two, LogAll, LogWithoutSecond, Hiding, Apart, Fits, LocalKeyOf, Prune, Follows;
    var a, b, c, d := LogAll(log, x, y, z), LogWithoutSecond(log, x, y, z), Hiding(n, w), PruneSpots(35);
    OtherKey(log, x, y, z, n);
    LogAllDone(log, x, y, z);
    DoKeeps(EMPTY_STORE, a);
    LogWithoutSecondDone(log, x, y, z);
    DoKeeps(Three(x, y, z), b);
    HidingDone(log, x, y, z, n, w);
    DoKeeps(Two(x, y, z), c);
    var t := Do(Two(x, y, z), c).0;
    PruningStops(t);
    PruneDone(t);
    hide CanRun, Run;
    FourRun(EMPTY_STORE, a, b, c, d);
  }

  lemma OtherKey(log: int, x: Shown, y: Shown, z: Shown, n: Key)
    requires Apart(log, x, y, z) && n != LocalKeyOf(x) && n != LocalKeyOf(z)
    ensures n !in Two(x, y, z).idByKey
  {
    hide LocalKeyOf;
  }

  lemma FourRun(s: Store, a: Action, b: Action, c: Action, d: Action)
    requires Inv(s) && CanDo(s, a)
    requires Inv(Do(s, a).0) && CanDo(Do(s, a).0, b)
    requires Inv(Do(Do(s, a).0, b).0) && CanDo(Do(Do(s, a).0, b).0, c)
    requires Inv(Do(Do(Do(s, a).0, b).0, c).0) && CanDo(Do(Do(Do(s, a).0, b).0, c).0, d)
    ensures CanRun(s, [a, b, c, d])
    ensures Run(s, [a, b, c, d]).0 == Do(Do(Do(Do(s, a).0, b).0, c).0, d).0
  {
    hide Inv, CanDo, Do;
    OneRun(Do(Do(Do(s, a).0, b).0, c).0, d, []);
    OneRun(Do(Do(s, a).0, b).0, c, [d]);
    OneRun(Do(s, a).0, b, [c, d]);
    OneRun(s, a, [b, c, d]);
    assert [d] + [] == [d] && [c] + [d] == [c, d] && [b] + [c, d] == [b, c, d] && [a] + [b, c, d] == [a, b, c, d];
  }

  lemma OneRun(s: Store, a: Action, rest: seq<Action>)
    requires Inv(s) && CanDo(s, a) && CanRun(Do(s, a).0, rest)
    ensures CanRun(s, [a] + rest)
    ensures Run(s, [a] + rest).0 == Run(Do(s, a).0, rest).0
  {
    hide Inv, CanDo, Do;
    assert ([a] + rest)[1..] == rest;
  }

  lemma PruneDone(s: Store)
    ensures CanDo(s, PruneSpots(35)) && (Inv(s) ==> Do(s, PruneSpots(35)).0 == Prune(s, 35).0)
  {
    hide Inv, Prune;
  }
}

/** Where the incremental totals and the scorer part: emptied logs, and batches with several edits. */
module ScoringLimits {
  import opened Sums
  import opened ScoringSpec
  import opened ScoringLedger
  import opened ScoringOperations
  import opened ScoringBatches
  import opened ScoringRuns
  import opened ScoringDrift
  import opened ScoringTheorems

  /**
   Deleting the last contact leaves the totals of a fresh scorer exactly when the rules give
   nothing for nothing: no minimum multiplier count and no bonus for zero keys.
   */
  lemma EmptiedLogTotals(r: Rules, pts: string -> int, log: Log, step: Step)
    requires !r.capped && LogOk(r, pts, log) && step.Delete? && CanStep(r, log, step)
    requires step.arranged == []
    ensures Perform(r, log, step).ledger.totals == ScoreContacts(r, []).0.totals <==>
            && (r.hasMultipliers ==> r.minimumMultipliers <= 0)
            && r.multiplierCountBonus({}) + r.qsoCountBonus(map[]) == 0
  {
    hide LogOk, Perform, CanStep;
    DeleteKeeps(r, pts, log, step);
    StepRelabels(r, log, step);
    var after := Perform(r, log, step);
    EmptiedLedger(r, pts, after);
  }

  lemma EmptiedLedger(r: Rules, pts: string -> int, log: Log)
    requires LogOk(r, pts, log) && log.contacts == []
    ensures Tallied(r, log.ledger).totals == EMPTIED(r)
  {
    hide Sum, DupesOk, ClaimsOk, SumsOk, Score;
    assert SetOf(log.contacts) == {};
    EmptyLedger(pts, r, log.ledger);
  }

  const AT_LEAST_ONE := Rules(false, true, 1, 1, keys => 0, counts => 0)

  /**
   A log whose only contact is deleted, under rules with at least one multiplier: the running totals
   keep the multiplier that every tally grants, while the scorer starts from none.
   */
  lemma EmptiedLogKeepsAMultiplier(key: string)
    ensures var log := Load(AT_LEAST_ONE, [Sample(1, key, 0)]);
            var step := Delete(Sample(1, key, 1), [], Order([key], []));
            && CanStep(AT_LEAST_ONE, log, step)
            && Perform(AT_LEAST_ONE, log, step).contacts == []
            && Perform(AT_LEAST_ONE, log, step).ledger.totals.multipliers == 1
            && ScoreContacts(AT_LEAST_ONE, []).0.totals.multipliers == 0
  {
    var r := AT_LEAST_ONE;
    var pts: string -> int := k => 0;
    var log := Load(r, [Sample(1, key, 0)]);
    var step := Delete(Sample(1, key, 1), [], Order([key], []));
    LoadOneSample(r, key);
    assert Admissible(pts, Sample(1, key, 0).facts);
    LoadKeeps(r, pts, [Sample(1, key, 0)]);
    assert CanStep(r, log, step) by {
      assert log.contacts[0] in log.contacts;
      assert Owned(log.ledger.multOwners, 1) == {key} && Owned(log.ledger.bonusOwners, 1) == {};
    }
    hide Load, CanStep, Perform, Sample, LogOk, ScoreContacts;
    DeleteKeeps(r, pts, log, step);
    StepRelabels(r, log, step);
    EmptiedLedger(r, pts, Perform(r, log, step));
    NothingScored(r);
  }

  lemma NothingScored(r: Rules)
    ensures ScoreContacts(r, []).0.totals == NO_TOTALS
  {
  }

  lemma LoadOneSample(r: Rules, key: string)
    ensures var log := Load(r, [Sample(1, key, 0)]);
            && log.contacts == [Sample(1, key, 1)]
            && log.ledger.multOwners == map[key := 1] && log.ledger.bonusOwners == map[]
  {
    var c := Sample(1, key, 0);
    SampleClaim(map[], map[], key, 1);
    assert [c][..0] == [];
    assert Reset(r, []) == (NEW_LEDGER, []);
    hide ClaimMultipliers, Score;
    var d := Add(r, NEW_LEDGER, c).1;
    assert [] + [d] == [d];
  }

  const PLAIN := Rules(false, true, 0, 1, keys => 0, counts => 0)

  function Sample(id: int, key: string, mult: int): Contact {
    Contact(id, Facts(None, 0, [Candidate("m", None, key, None)], [], []), Marks(0, mult, 0, false))
  }

  /** A ledger that holds sample contacts 1 and 2, each the owner of its own multiplier key. */
  function SampleLedger(key1: string, key2: string): Ledger {
    Ledger(Totals(2, 0, 2, 0, 0), 2, 0, map[], map[], map[key1 := 1, key2 := 2], map["m" := 2], map[], map[])
  }

  /** Adding a sample contact with a free key, on a ledger that has only seen sample contacts. */
  lemma SampleAdds(st: Ledger, key: string, id: int)
    requires key !in st.multOwners && st.raw >= 0
    requires st.totals.qsoPoints == 0 && st.direct == 0
    ensures var n := st.raw + 1;
            Add(PLAIN, st, Sample(id, key, 0)) ==
              (st.(totals := Totals(st.totals.qsoCount + 1, 0, n, 0, 0), raw := n,
                   multOwners := st.multOwners[key := id], multCounts := Bump(st.multCounts, "m")),
               Sample(id, key, 1))
  {
    SampleClaim(st.multOwners, st.multCounts, key, id);
  }

  lemma SampleTables()
    ensures map["A" := 1]["B" := 2] == map["A" := 1, "B" := 2]
    ensures Bump(Bump(map[], "m"), "m") == map["m" := 2]
  {
  }

  lemma LoadTwo(r: Rules, c: Contact, d: Contact)
    ensures var (st, c') := Add(r, NEW_LEDGER, c);
            var (tt, d') := Add(r, st, d);
            Load(r, [c, d]) == Log(tt, [c', d'])
  {
    hide Add;
    assert [c, d][..1] == [c] && [c][..0] == [];
    var c' := Add(r, NEW_LEDGER, c).1;
    assert [] + [c'] == [c'];
    assert Reset(r, []) == (NEW_LEDGER, []);
    assert Reset(r, [c]) == (Add(r, NEW_LEDGER, c).0, [c']);
    var d' := Add(r, Add(r, NEW_LEDGER, c).0, d).1;
    assert [c'] + [d'] == [c', d'];
  }

  lemma SampleLoads()
    ensures Load(PLAIN, [Sample(1, "A", 0), Sample(2, "B", 0)])
            == Log(SampleLedger("A", "B"), [Sample(1, "A", 1), Sample(2, "B", 1)])
  {
    hide Add, Reset, Bump;
    SampleAdds(NEW_LEDGER, "A", 1);
    SampleAdds(Add(PLAIN, NEW_LEDGER, Sample(1, "A", 0)).0, "B", 2);
    SampleTables();
    hide Load;
    LoadTwo(PLAIN, Sample(1, "A", 0), Sample(2, "B", 0));
  }

  lemma SampleClaim(owners: map<string, int>, counts: map<string, nat>, key: string, id: int)
    ensures ClaimMultipliers(owners, counts, [Candidate("m", None, key, None)], id)
            == if key in owners then (owners, counts, 0) else (owners[key := id], Bump(counts, "m"), 1)
  {
    assert [Candidate("m", None, key, None)][..0] == [];
  }

  lemma SampleOffers(key: string, k: string)
    ensures Has(Offers(Multiplier, Sample(0, key, 0).facts), k) <==> k == key
    ensures k == key ==> Worth(Offers(Multiplier, Sample(0, key, 0).facts), k) == 1
  {
    var offers := Offers(Multiplier, Sample(0, key, 0).facts);
    assert |offers| == 1 && offers[0] == (key, 1);
  }

  /** The contacts after an edit of both, as the database returns them: without marks. */
  const EDITED := [Sample(1, "C", 0), Sample(2, "A", 0)]

  /** Taking the first version out hands its key to the second contact, whose edit is not scored yet. */
  lemma FirstRemoval()
    ensures var o := Remove(PLAIN, SampleLedger("A", "B"), Sample(1, "A", 1), EDITED, Some(1), Order(["A"], []));
            && o.contacts == [Sample(1, "C", 0), Sample(2, "A", 1)]
            && o.ledger.multOwners == map["A" := 2, "B" := 2]
            && o.ledger.raw == 2 && o.ledger.totals.qsoCount == 1
            && o.ledger.multCounts == map["m" := 2]
            && o.ledger.bonusOwners == map[] && o.ledger.dupeCounts == map[] && o.ledger.dupeOwners == map[]
            && o.ledger.counts == map[] && o.ledger.direct == 0 && o.ledger.totals.qsoPoints == 0
  {
    hide Replaced, HandOne, Score, Sample;
    FirstReplaced();
    FirstHandedOn();
  }

  lemma FirstReplaced()
    ensures Replaced(SampleLedger("A", "B"), Sample(1, "A", 1), EDITED, Some(1)) ==
              Outcome(Ledger(Totals(1, 0, 2, 0, 0), 1, 0, map[], map[], map["B" := 2], map["m" := 2], map[], map[]),
                      EDITED, {})
  {
    var st := SampleLedger("A", "B");
    assert Owned(st.multOwners, 1) == {"A"} && Owned(st.bonusOwners, 1) == {};
    assert st.multOwners - {"A"} == map["B" := 2];
  }

  lemma FirstHandedOn()
    ensures HandOn(Multiplier, Hands(map["B" := 2], 1, EDITED, {}), ["A"], Some(1))
            == Hands(map["B" := 2, "A" := 2], 2, [Sample(1, "C", 0), Sample(2, "A", 1)], {2})
  {
    var h := Hands(map["B" := 2], 1, EDITED, {});
    SampleOffers("C", "A");
    SampleOffers("A", "A");
    assert !CanInherit(Multiplier, "A", Some(1))(EDITED[0]);
    assert CanInherit(Multiplier, "A", Some(1))(EDITED[1]);
    assert FirstIndex(EDITED, CanInherit(Multiplier, "A", Some(1))) == Some(1);
    assert ["A"][..0] == [];
    assert HandOn(Multiplier, h, [], Some(1)) == h;
  }

  /** Taking the second version out then frees what the new version had just been given. */
  lemma SecondRemoval(st: Ledger, cs: seq<Contact>)
    requires st.multOwners == map["A" := 2, "B" := 2] && st.raw == 2
    requires st.bonusOwners == map[] && st.dupeCounts == map[] && st.dupeOwners == map[]
    requires st.totals.qsoCount == 1
    requires cs == [Sample(1, "C", 0), Sample(2, "A", 1)]
    ensures var o := Remove(PLAIN, st, Sample(2, "B", 1), cs, Some(2), Order(["A", "B"], []));
            && o.contacts == cs && o.ledger.multOwners == map[] && o.ledger.raw == 1
            && o.ledger.dupeCounts == map[] && o.ledger.totals.qsoCount == 0
  {
    var o := Replaced(st, Sample(2, "B", 1), cs, Some(2));
    assert Owned(st.multOwners, 2) == {"A", "B"} && Owned(st.bonusOwners, 2) == {};
    var h := Hands(map[], 1, cs, {});
    assert o.ledger.multOwners == map[] && o.ledger.raw == 1;
    SampleOffers("C", "A");
    SampleOffers("C", "B");
    forall k | k in {"A", "B"} ensures FirstIndex(cs, CanInherit(Multiplier, k, Some(2))) == None {
      assert !CanInherit(Multiplier, k, Some(2))(cs[0]);
      assert !CanInherit(Multiplier, k, Some(2))(cs[1]);
    }
    assert ["A", "B"][..1] == ["A"] && ["A"][..0] == [];
    assert HandOn(Multiplier, h, [], Some(2)) == h;
    assert HandOn(Multiplier, h, ["A"], Some(2)) == h;
    assert HandOn(Multiplier, h, ["A", "B"], Some(2)) == h;
  }

  lemma SampleAdd(st: Ledger, key: string, id: int, mult: int)
    requires key !in st.multOwners
    ensures var (st', c) := Add(PLAIN, st, Sample(id, key, mult));
            && c == Sample(id, key, 1) && st'.raw == st.raw + 1
            && st'.multOwners == st.multOwners[key := id]
            && st'.totals.multipliers == if st.raw + 1 < 0 then 0 else st.raw + 1
  {
    SampleClaim(st.multOwners, st.multCounts, key, id);
  }

  const PRIOR := [Sample(1, "A", 1), Sample(2, "B", 1)]
  const ORDERS := [Order(["A"], []), Order(["A", "B"], [])]

  lemma BothRemoved()
    ensures var o := RemoveEach(PLAIN, Outcome(SampleLedger("A", "B"), EDITED, {}), PRIOR, ORDERS);
            && o.contacts == [Sample(1, "C", 0), Sample(2, "A", 1)]
            && o.ledger.multOwners == map[] && o.ledger.raw == 1
  {
    FirstRemoval();
    var st := SampleLedger("A", "B");
    var o1 := Remove(PLAIN, st, PRIOR[0], EDITED, Some(1), ORDERS[0]);
    SecondRemoval(o1.ledger, o1.contacts);
    hide Remove;
    OneRemoval(PLAIN, st, EDITED, PRIOR[0], ORDERS[0]);
    assert PRIOR[..1] == [PRIOR[0]] && ORDERS[..1] == [ORDERS[0]];
  }

  lemma BothAdded(st: Ledger, cs: seq<Contact>)
    requires st.multOwners == map[] && st.raw == 1
    requires cs == [Sample(1, "C", 0), Sample(2, "A", 1)]
    ensures AddEach(PLAIN, st, cs, EDITED).0.totals.multipliers == 3
  {
    SampleAdd(st, "C", 1, 0);
    var (st1, c1) := Add(PLAIN, st, cs[0]);
    var cs1 := cs[0 := c1];
    SampleAdd(st1, "A", 2, 1);
    hide Add;
    assert WithId(1)(cs[0]) && !WithId(2)(cs1[0]) && WithId(2)(cs1[1]);
    assert FirstIndex(cs, WithId(1)) == Some(0);
    assert FirstIndex(cs1, WithId(2)) == Some(1);
    assert EDITED[..1] == [EDITED[0]] && [EDITED[0]][..0] == [];
    assert AddEach(PLAIN, st, cs, []) == (st, cs);
    assert AddEach(PLAIN, st, cs, [EDITED[0]]) == (st1, cs1);
  }

  lemma EditedScore()
    ensures ScoreContacts(PLAIN, EDITED).0.totals.multipliers == 2
  {
    var c, d := EDITED[0], EDITED[1];
    ResetAgrees(PLAIN, EDITED);
    SampleAdd(NEW_LEDGER, "C", 1, 0);
    var st1 := Add(PLAIN, NEW_LEDGER, c).0;
    SampleAdd(st1, "A", 2, 0);
    hide Add;
    assert EDITED[..1] == [c] && [c][..0] == [];
    assert Reset(PLAIN, []) == (NEW_LEDGER, []);
    assert Reset(PLAIN, [c]).0 == st1;
    assert Reset(PLAIN, EDITED).0 == Add(PLAIN, st1, d).0;
  }

  /** The new version of contact 2 offers the key that contact 1 owned. */
  lemma EditedIsDisturbed()
    ensures !Undisturbed(SampleLedger("A", "B"), SetOf(PRIOR), SetOf(EDITED))
  {
    var c, d := PRIOR[0], EDITED[1];
    assert c in SetOf(PRIOR) && d in SetOf(EDITED);
    assert "A" in Owned(SampleLedger("A", "B").multOwners, 1);
    assert Offers(Multiplier, d.facts)[0].0 == "A";
    assert Contests(SampleLedger("A", "B"), c, d);
  }

  const EDITING := [Replacing(PRIOR[0], ORDERS[0]), Replacing(PRIOR[1], ORDERS[1])]

  lemma EditingIsDelivered()
    ensures Delivered(PLAIN, Log(SampleLedger("A", "B"), PRIOR), Upsert(EDITING, EDITED, EDITED))
  {
    hide FreedOrders, AfterRemovals, SetOf, Ids;
    var st := SampleLedger("A", "B");
    assert Priors(EDITING) == PRIOR && Orders(EDITING) == ORDERS;
    EditingFrees();
    FreedOneByOne(PLAIN, st, EDITED, PRIOR, ORDERS);
    EditedSets();
  }

  lemma EditingFrees()
    ensures var st := SampleLedger("A", "B");
            && FreedOrder(AfterRemovals(PLAIN, st, EDITED, PRIOR, ORDERS, 0).ledger, PRIOR[0], ORDERS[0])
            && FreedOrder(AfterRemovals(PLAIN, st, EDITED, PRIOR, ORDERS, 1).ledger, PRIOR[1], ORDERS[1])
  {
    hide Remove, AfterRemovals, FreedOrder;
    var st := SampleLedger("A", "B");
    NoRemoval(PLAIN, st, EDITED, PRIOR, ORDERS);
    NextRemoval(PLAIN, st, EDITED, PRIOR, ORDERS, 0);
    FirstRemoval();
    FreesKeys(st, PRIOR[0], ORDERS[0]);
    FreesKeys(Remove(PLAIN, st, PRIOR[0], EDITED, Some(1), ORDERS[0]).ledger, PRIOR[1], ORDERS[1]);
  }

  lemma FreesKeys(st: Ledger, gone: Contact, order: Order)
    requires st.bonusOwners == map[] && order.bonuses == []
    requires Enumerates(order.mults, Owned(st.multOwners, gone.id))
    ensures FreedOrder(st, gone, order)
  {
  }

  lemma EditedSets()
    ensures SetOf(EDITED) == SetOf(PRIOR) - SetOf(PRIOR) + SetOf(EDITED)
    ensures Ids(EDITED) * Ids(PRIOR) == Ids(PRIOR)
  {
    assert Ids(EDITED) == {1, 2} && Ids(PRIOR) == {1, 2};
  }

  /**
   A disturbed batch can make the running totals drift. Contacts 1 and 2 own keys A and B; the
   batch gives them C and A. The log is worth two multipliers, but the ledger says three.
   */
  lemma TwoEditsInOneBatchDrift()
    ensures var log, step := Load(PLAIN, [Sample(1, "A", 0), Sample(2, "B", 0)]), Upsert(EDITING, EDITED, EDITED);
            && log.contacts == PRIOR
            && Delivered(PLAIN, log, step) && Unmarked(step.batch)
            && !Undisturbed(log.ledger, SetOf(PRIOR), SetOf(EDITED))
            && Perform(PLAIN, log, step).ledger.totals.multipliers == 3
            && ScoreContacts(PLAIN, EDITED).0.totals.multipliers == 2
  {
    hide Load, RemoveEach, AddEach, ScoreContacts, Undisturbed, Delivered;
    SampleLoads();
    EditedIsDisturbed();
    EditingIsDelivered();
    BothRemoved();
    var o := RemoveEach(PLAIN, Outcome(SampleLedger("A", "B"), EDITED, {}), PRIOR, ORDERS);
    assert Priors(EDITING) == PRIOR && Orders(EDITING) == ORDERS;
    BothAdded(o.ledger, o.contacts);
    EditedScore();
  }

  // ----- a dupe key that passes to a contact of the batch -----

  const POINTS_ONLY := Rules(false, false, 0, 1, keys => 0, counts => 0)

  const FRESH := Marks(0, 0, 0, false)
  const COUNTING := Marks(1, 0, 0, false)
  const DUPE := Marks(0, 0, 0, true)

  /** A contact worth one point, and nothing else. */
  function Point(id: int, key: string, marks: Marks): Contact {
    Contact(id, Facts(Some(key), 1, [], [], []), marks)
  }

  function PointLedger(qsoCount: nat, points: int, dupeCounts: map<string, nat>, dupeOwners: map<string, int>): Ledger {
    Ledger(Totals(qsoCount, points, 0, 0, points), 0, 0, dupeCounts, dupeOwners, map[], map[], map[], map[])
  }

  lemma PointAdds(n: nat, p: int, counts: map<string, nat>, owners: map<string, int>, id: int, key: string, marks: Marks)
    ensures Add(POINTS_ONLY, PointLedger(n, p, counts, owners), Point(id, key, marks)) ==
            if Get(counts, key) > 0 then (PointLedger(n + 1, p, Bump(counts, key), owners), Point(id, key, DUPE))
            else (PointLedger(n + 1, p + 1, Bump(counts, key), if key in owners then owners else owners[key := id]),
                  Point(id, key, COUNTING))
  {
  }

  const NO_ORDER := Order([], [])

  lemma PointLeaves(n: nat, p: int, counts: map<string, nat>, owners: map<string, int>, gone: Contact, key: string,
                    cs: seq<Contact>)
    requires n > 0 && gone == Point(gone.id, key, COUNTING) && key in owners && owners[key] == gone.id
    requires var heir := FirstIndex(cs, SharesDupeKey(key, Some(gone.id)));
             heir.Some? ==> !cs[heir.value].marks.dupe
    ensures var heir := FirstIndex(cs, SharesDupeKey(key, Some(gone.id)));
            Remove(POINTS_ONLY, PointLedger(n, p, counts, owners), gone, cs, Some(gone.id), NO_ORDER) ==
            Outcome(PointLedger(n - 1, p - 1, Drop(counts, key),
                                if heir.Some? then owners[key := cs[heir.value].id] else owners - {key}), cs, {})
  {
    hide FirstIndex, SharesDupeKey, Drop;
    var st := PointLedger(n, p, counts, owners);
    assert Owned(st.multOwners, gone.id) == {} && Owned(st.bonusOwners, gone.id) == {};
    assert st.multOwners - {} == map[] && st.bonusOwners - {} == map[];
    var o := Replaced(st, gone, cs, Some(gone.id));
    var heir := FirstIndex(cs, SharesDupeKey(key, Some(gone.id)));
    assert o.contacts == cs && o.changed == {};
    assert HandOn(Multiplier, Hands(map[], 0, cs, {}), [], Some(gone.id)) == Hands(map[], 0, cs, {});
    assert HandOn(Bonus, Hands(map[], 0, cs, {}), [], Some(gone.id)) == Hands(map[], 0, cs, {});
  }

  /** Contacts 1 and 3 have dupe key K, contact 2 has M. */
  const LOGGED := [Point(1, "K", FRESH), Point(2, "M", FRESH), Point(3, "K", FRESH)]
  /** Edited to L and to K. */
  const REKEYED := [Point(1, "L", FRESH), Point(2, "K", FRESH)]
  const REARRANGED := REKEYED + [Point(3, "K", DUPE)]
  const REKEYING := [Replacing(Point(1, "K", COUNTING), NO_ORDER), Replacing(Point(2, "M", COUNTING), NO_ORDER)]

  lemma PointsLoad()
    ensures Load(POINTS_ONLY, LOGGED) ==
            Log(PointLedger(3, 2, map["K" := 2, "M" := 1], map["K" := 1, "M" := 2]),
                [Point(1, "K", COUNTING), Point(2, "M", COUNTING), Point(3, "K", DUPE)])
  {
    assert NEW_LEDGER == PointLedger(0, 0, map[], map[]);
    PointAdds(0, 0, map[], map[], 1, "K", FRESH);
    PointAdds(1, 1, map["K" := 1], map["K" := 1], 2, "M", FRESH);
    PointAdds(2, 2, map["K" := 1, "M" := 1], map["K" := 1, "M" := 2], 3, "K", FRESH);
    hide Add;
    LoadThree(POINTS_ONLY, LOGGED[0], LOGGED[1], LOGGED[2]);
    assert map["K" := 1]["M" := 1] == map["K" := 1, "M" := 1];
  }

  lemma LoadThree(r: Rules, c: Contact, d: Contact, e: Contact)
    ensures var (st, d') := Add(r, Load(r, [c]).ledger, d);
            var (tt, e') := Add(r, st, e);
            Load(r, [c, d, e]) == Log(tt, [Add(r, NEW_LEDGER, c).1, d', e'])
            && Load(r, [c]).ledger == Add(r, NEW_LEDGER, c).0
  {
    hide Add;
    LoadTwo(r, c, d);
    assert [c, d, e][..2] == [c, d] && [c][..0] == [];
    assert Reset(r, []) == (NEW_LEDGER, []);
  }

  const LOADED := PointLedger(3, 2, map["K" := 2, "M" := 1], map["K" := 1, "M" := 2])
  const FIRST_GONE := PointLedger(2, 1, map["K" := 1, "M" := 1], map["K" := 2, "M" := 2])
  const BOTH_GONE := PointLedger(1, 0, map["K" := 1], map["K" := 2])

  /** Who has key K but contact 1, and who has M but contact 2. */
  lemma WhoInherits()
    ensures FirstIndex(REARRANGED, SharesDupeKey("K", Some(1))) == Some(1)
    ensures FirstIndex(REARRANGED, SharesDupeKey("M", Some(2))) == None
  {
    hide FirstIndex;
    var cs := REARRANGED;
    assert !SharesDupeKey("K", Some(1))(cs[0]) && SharesDupeKey("K", Some(1))(cs[1]);
    assert !SharesDupeKey("M", Some(2))(cs[0]) && !SharesDupeKey("M", Some(2))(cs[1]) && !SharesDupeKey("M", Some(2))(cs[2]);
  }

  lemma KeysDrop()
    ensures Drop(map["K" := 2, "M" := 1], "K") == map["K" := 1, "M" := 1]
    ensures Drop(map["K" := 1, "M" := 1], "M") == map["K" := 1]
    ensures map["K" := 1, "M" := 2]["K" := 2] == map["K" := 2, "M" := 2]
    ensures map["K" := 2, "M" := 2] - {"M"} == map["K" := 2]
  {
  }

  lemma FirstPasses()
    ensures Remove(POINTS_ONLY, LOADED, Point(1, "K", COUNTING), REARRANGED, Some(1), NO_ORDER)
            == Outcome(FIRST_GONE, REARRANGED, {})
  {
    hide Remove, Drop, FirstIndex, SharesDupeKey;
    WhoInherits();
    KeysDrop();
    PointLeaves(3, 2, map["K" := 2, "M" := 1], map["K" := 1, "M" := 2], Point(1, "K", COUNTING), "K", REARRANGED);
  }

  lemma SecondPasses()
    ensures Remove(POINTS_ONLY, FIRST_GONE, Point(2, "M", COUNTING), REARRANGED, Some(2), NO_ORDER)
            == Outcome(BOTH_GONE, REARRANGED, {})
  {
    hide Remove, Drop, FirstIndex, SharesDupeKey;
    WhoInherits();
    KeysDrop();
    PointLeaves(2, 1, map["K" := 1, "M" := 1], map["K" := 2, "M" := 2], Point(2, "M", COUNTING), "M", REARRANGED);
  }

  lemma KeyPassesToTheBatch()
    ensures AfterRemovals(POINTS_ONLY, LOADED, REARRANGED, Priors(REKEYING), Orders(REKEYING), 0).ledger == LOADED
    ensures AfterRemovals(POINTS_ONLY, LOADED, REARRANGED, Priors(REKEYING), Orders(REKEYING), 1).ledger == FIRST_GONE
    ensures AfterRemovals(POINTS_ONLY, LOADED, REARRANGED, Priors(REKEYING), Orders(REKEYING), 2)
            == Outcome(BOTH_GONE, REARRANGED, {})
  {
    hide Remove, AfterRemovals, PointLedger;
    FirstPasses();
    SecondPasses();
    NoRemoval(POINTS_ONLY, LOADED, REARRANGED, Priors(REKEYING), Orders(REKEYING));
    NextRemoval(POINTS_ONLY, LOADED, REARRANGED, Priors(REKEYING), Orders(REKEYING), 0);
    NextRemoval(POINTS_ONLY, LOADED, REARRANGED, Priors(REKEYING), Orders(REKEYING), 1);
    assert Priors(REKEYING)[0] == Point(1, "K", COUNTING) && Priors(REKEYING)[1] == Point(2, "M", COUNTING);
    assert Orders(REKEYING)[0] == NO_ORDER && Orders(REKEYING)[1] == NO_ORDER;
  }

  lemma NobodyCounts()
    ensures AddEach(POINTS_ONLY, BOTH_GONE, REARRANGED, REKEYED)
            == (PointLedger(3, 1, map["K" := 2, "L" := 1], map["K" := 2, "L" := 1]),
                [Point(1, "L", COUNTING), Point(2, "K", DUPE), Point(3, "K", DUPE)])
  {
    var r, st, cs := POINTS_ONLY, BOTH_GONE, REARRANGED;
    PointAdds(1, 0, map["K" := 1], map["K" := 2], 1, "L", FRESH);
    PointAdds(2, 1, map["K" := 1, "L" := 1], map["K" := 2, "L" := 1], 2, "K", FRESH);
    assert map["K" := 1]["L" := 1] == map["K" := 1, "L" := 1];
    assert map["K" := 2]["L" := 1] == map["K" := 2, "L" := 1];
    assert map["K" := 1, "L" := 1]["K" := 2] == map["K" := 2, "L" := 1];
    var cs1 := cs[0 := Point(1, "L", COUNTING)];
    assert WithId(1)(cs[0]) && !WithId(2)(cs1[0]) && WithId(2)(cs1[1]);
    assert FirstIndex(cs, WithId(1)) == Some(0) && FirstIndex(cs1, WithId(2)) == Some(1);
    var st1 := PointLedger(2, 1, map["K" := 1, "L" := 1], map["K" := 2, "L" := 1]);
    assert Add(r, st, cs[0]) == (st1, Point(1, "L", COUNTING));
    assert Add(r, st1, cs1[1]) == (PointLedger(3, 1, map["K" := 2, "L" := 1], map["K" := 2, "L" := 1]), Point(2, "K", DUPE));
    assert cs1[1 := Point(2, "K", DUPE)] == [Point(1, "L", COUNTING), Point(2, "K", DUPE), Point(3, "K", DUPE)];
    hide Add, FirstIndex, WithId, PointLedger;
    assert REKEYED[..1] == [REKEYED[0]] && [REKEYED[0]][..0] == [];
    assert AddEach(r, st, cs, []) == (st, cs);
    assert AddEach(r, st, cs, [REKEYED[0]]) == (st1, cs1);
  }

  lemma RekeyedScore()
    ensures ScoreContacts(POINTS_ONLY, REARRANGED).0.totals.qsoPoints == 2
  {
    var c, d, e := REARRANGED[0], REARRANGED[1], REARRANGED[2];
    ResetAgrees(POINTS_ONLY, REARRANGED);
    assert NEW_LEDGER == PointLedger(0, 0, map[], map[]);
    PointAdds(0, 0, map[], map[], 1, "L", FRESH);
    PointAdds(1, 1, map["L" := 1], map["L" := 1], 2, "K", FRESH);
    PointAdds(2, 2, map["L" := 1]["K" := 1], map["L" := 1]["K" := 2], 3, "K", DUPE);
    hide Add, ScoreContacts;
    LoadThree(POINTS_ONLY, c, d, e);
    assert REARRANGED == [c, d, e];
  }

  const COUNTED := [Point(1, "K", COUNTING), Point(2, "M", COUNTING), Point(3, "K", DUPE)]

  lemma RekeyingIsDelivered()
    ensures Delivered(POINTS_ONLY, Log(LOADED, COUNTED), Upsert(REKEYING, REKEYED, REARRANGED))
  {
    hide FreedOrders, AfterRemovals, SetOf, Ids;
    KeyPassesToTheBatch();
    FreedOneByOne(POINTS_ONLY, LOADED, REARRANGED, Priors(REKEYING), Orders(REKEYING));
    RekeyedSets();
  }

  lemma SetOfThree(c: Contact, d: Contact, e: Contact)
    ensures SetOf([c, d]) == {c, d} && SetOf([c, d, e]) == {c, d, e}
    ensures Ids([c, d]) == {c.id, d.id} && Ids([c, d, e]) == {c.id, d.id, e.id}
  {
    var cs := [c, d, e];
    assert cs[0] in cs && cs[1] in cs && cs[2] in cs;
    assert [c, d][0] in [c, d] && [c, d][1] in [c, d];
  }

  lemma RekeyedSets()
    ensures SetOf(Priors(REKEYING)) <= SetOf(COUNTED)
    ensures Ids(REKEYED) * Ids(COUNTED) == Ids(Priors(REKEYING))
    ensures SetOf(REARRANGED) == SetOf(COUNTED) - SetOf(Priors(REKEYING)) + SetOf(REKEYED)
  {
    var cs, ds := COUNTED, REARRANGED;
    assert Priors(REKEYING) == [cs[0], cs[1]] && cs == [cs[0], cs[1], cs[2]];
    assert REKEYED == [ds[0], ds[1]] && ds == [ds[0], ds[1], cs[2]];
    SetOfThree(cs[0], cs[1], cs[2]);
    SetOfThree(ds[0], ds[1], cs[2]);
  }

  /**
   A batch whose removals pass a dupe key to one of its contacts can lose a score. Contact 1 counts for K, and 3
   is its dupe. The batch gives 1 the key L and 2 the key K. Taking the old 1 out passes K to the new 2, which is
   no dupe yet; when that is scored, it finds K in the count of 3. So neither counts for K.
   */
  lemma TwoEditsLoseAScore()
    ensures var r, log, step := POINTS_ONLY, Load(POINTS_ONLY, LOGGED), Upsert(REKEYING, REKEYED, REARRANGED);
            && Delivered(r, log, step) && Unmarked(step.batch)
            && Perform(r, log, step).contacts == [Point(1, "L", COUNTING), Point(2, "K", DUPE), Point(3, "K", DUPE)]
            && Perform(r, log, step).ledger.totals.qsoPoints == 1
            && ScoreContacts(r, step.arranged).0.totals.qsoPoints == 2
  {
    hide Load, AddEach, ScoreContacts, AfterRemovals, Delivered;
    var r, step := POINTS_ONLY, Upsert(REKEYING, REKEYED, REARRANGED);
    PointsLoad();
    RekeyingIsDelivered();
    KeyPassesToTheBatch();
    NobodyCounts();
    ScoredInTwo(r, Load(r, LOGGED), step);
    RekeyedScore();
  }
}

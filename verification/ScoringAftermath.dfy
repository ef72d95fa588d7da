/**
 What becomes of a log whose books a batch has broken. Edits and deletes move the excess around, from contacts
 to the total, but none of them makes up for it: until the log is loaded again its books never balance.
 */
module ScoringAftermath {
  import opened Sums
  import opened ScoringSpec
  import opened ScoringLedger
  import opened ScoringOperations
  import opened ScoringBatches
  import opened ScoringShades
  import opened ScoringRuns
  import opened ScoringDrift

  /** What a contact owns beyond its marks. */
  ghost function Excess(kind: Kind, worth: string -> int, st: Ledger, c: Contact): int {
    Sum(Owned(Owners(kind, st), c.id), worth) - Mark(kind, c)
  }

  /** Nothing is booked too little, neither in total nor for a contact. */
  ghost predicate Covers(kind: Kind, worth: string -> int, log: Log) {
    && Distinct(log.contacts) && Surplus(kind, worth, log.ledger) >= 0
    && forall c :: c in log.contacts ==> Mark(kind, c) >= 0 && Excess(kind, worth, log.ledger, c) >= 0
  }

  /** More is booked, or owned, than the marks account for. */
  ghost predicate Overbooked(kind: Kind, worth: string -> int, log: Log) {
    Covers(kind, worth, log) && !Balanced(kind, worth, log)
  }

  // ----- one contact of the list while others leave -----

  /** A contact that stays in the list keeps its excess, or gets more. */
  ghost predicate KeepsExcess(kind: Kind, worth: string -> int, st: Ledger, c: Contact, tt: Ledger, d: Contact) {
    Mark(kind, c) >= 0 ==> Mark(kind, d) >= 0 && Excess(kind, worth, tt, d) >= Excess(kind, worth, st, c)
  }

  lemma OtherMarkStays(kind: Kind, c: Contact, delta: int)
    ensures Mark(kind, AddToMark(kind, c, delta)) == Mark(kind, c) + delta
    ensures forall other :: other != kind ==> Mark(other, AddToMark(kind, c, delta)) == Mark(other, c)
    ensures AddToMark(kind, c, delta).id == c.id && AddToMark(kind, c, delta).facts == c.facts
  {
  }

  /** Each key that is handed on is owned and marked alike. */
  lemma {:induction false} HandOnExcess(kind: Kind, pts: string -> int, h: Hands, keys: seq<string>, skip: Option<int>, i: nat)
    requires AllFair(kind, pts, h.contacts) && Positive(WorthOf(kind, pts)) && Distinct(h.contacts) && i < |h.contacts|
    ensures var g, w := HandOn(kind, h, keys, skip), WorthOf(kind, pts);
            && g.contacts[i].id == h.contacts[i].id
            && Sum(Owned(g.owners, h.contacts[i].id), w) - Mark(kind, g.contacts[i])
               == Sum(Owned(h.owners, h.contacts[i].id), w) - Mark(kind, h.contacts[i])
            && Mark(kind, g.contacts[i]) >= Mark(kind, h.contacts[i])
  {
    if keys != [] {
      hide Sum, FairOffers, WorthOf, Worth, Has, Offers, Mark, AddToMark, Owned;
      var init, key := keys[..|keys| - 1], keys[|keys| - 1];
      HandOnExcess(kind, pts, h, init, skip, i);
      HandOnRelabels(kind, h, init, skip);
      var g := HandOn(kind, h, init, skip);
      var heir := FirstIndex(g.contacts, CanInherit(kind, key, skip));
      if key !in g.owners && heir.Some? {
        var c := g.contacts[heir.value];
        assert c.facts == h.contacts[heir.value].facts && c.id == h.contacts[heir.value].id;
        assert CanInherit(kind, key, skip)(c);
        WorthIsFair(Offers(kind, c.facts), key, WorthOf(kind, pts));
        OtherMarkStays(kind, c, WorthOf(kind, pts)(key));
        OneMoreOwned(g.owners, key, c.id, h.contacts[i].id, WorthOf(kind, pts));
      }
    }
  }

  /** Handing on keys of one kind leaves the marks of the other kind. */
  lemma {:induction false} HandOnLeavesOther(kind: Kind, other: Kind, h: Hands, keys: seq<string>, skip: Option<int>, i: nat)
    requires other != kind && i < |h.contacts|
    ensures var g := HandOn(kind, h, keys, skip);
            g.contacts[i].id == h.contacts[i].id && Mark(other, g.contacts[i]) == Mark(other, h.contacts[i])
  {
    if keys != [] {
      HandOnLeavesOther(kind, other, h, keys[..|keys| - 1], skip, i);
    }
  }

  lemma OneMoreOwned(owners: map<string, int>, key: string, heir: int, id: int, worth: string -> int)
    requires key !in owners
    ensures Sum(Owned(owners[key := heir], id), worth) == Sum(Owned(owners, id), worth) + if id == heir then worth(key) else 0
  {
    hide Sum;
    if id == heir {
      assert Owned(owners[key := heir], id) == Owned(owners, id) + {key};
      SumAdd(Owned(owners, id), worth, key);
    } else {
      assert Owned(owners[key := heir], id) == Owned(owners, id);
    }
  }

  /** Replacing a contact leaves the others what they own and what they are marked with, or promotes one. */
  lemma ReplacedExcess(kind: Kind, pts: string -> int, st: Ledger, gone: Contact, cs: seq<Contact>, skip: Option<int>, i: nat)
    requires (forall j :: 0 <= j < |cs| ==> Admissible(pts, cs[j].facts)) && Positive(WorthOf(kind, pts))
    requires Distinct(cs) && i < |cs| && cs[i].id != gone.id
    ensures var o := Replaced(st, gone, cs, skip);
            |o.contacts| == |cs| && o.contacts[i].id == cs[i].id
            && KeepsExcess(kind, WorthOf(kind, pts), st, cs[i], o.ledger, o.contacts[i])
  {
    hide Admissible, ScoreNonDupe, Debited, Owned, Mark, Sum, WorthOf, OwnsDupeKey;
    ReplacedRelabels(st, gone, cs, skip);
    var o, w, id := Replaced(st, gone, cs, skip), WorthOf(kind, pts), cs[i].id;
    var heir := DupeHeir(st, gone, cs, skip);
    if heir.None? {
      assert o == Outcome(Freed(st, gone, o.ledger.dupeOwners), cs, {});
      FreedOwners(kind, st, gone, o.ledger.dupeOwners, id);
    } else {
      var st2 := Freed(st, gone, st.dupeOwners[gone.facts.dupeKey.value := cs[heir.value].id]);
      assert o == Promote(st2, cs, heir.value);
      FreedOwners(kind, st, gone, st2.dupeOwners, id);
      ScoredBooks(kind, pts, st2, cs[heir.value]);
      MarksAreSums(kind, pts, st2, cs[heir.value]);
    }
  }

  lemma FreedOwners(kind: Kind, st: Ledger, gone: Contact, dupeOwners: map<string, int>, id: int)
    requires id != gone.id
    ensures Owned(Owners(kind, Freed(st, gone, dupeOwners)), id) == Owned(Owners(kind, st), id)
  {
    FreedOwned(st, gone, dupeOwners, id);
    hide Freed;
  }

  /** Scoring marks a contact with nothing negative. */
  lemma MarksAreSums(kind: Kind, pts: string -> int, st: Ledger, c: Contact)
    requires Admissible(pts, c.facts) && Positive(WorthOf(kind, pts))
    ensures Mark(kind, ScoreNonDupe(st, c).1) >= 0
  {
    hide ScoreNonDupe, ClaimBonuses, Sum, FairOffers, Offers, WorthOf, Mark;
    ScoredClaims(kind, pts, st, c);
    var owners := Owners(kind, st);
    ClaimEffect(owners, Offers(kind, c.facts), c.id, WorthOf(kind, pts));
    SumSubset({}, KeysOf(Offers(kind, c.facts)) - owners.Keys, WorthOf(kind, pts));
    SumOfNothing(WorthOf(kind, pts));
  }

  /** A removal takes from nobody but the leaving contact. */
  lemma RemoveExcess(kind: Kind, r: Rules, pts: string -> int, st: Ledger, gone: Contact, cs: seq<Contact>,
                     skip: Option<int>, order: Order, i: nat)
    requires (forall j :: 0 <= j < |cs| ==> Admissible(pts, cs[j].facts)) && Positive(WorthOf(kind, pts))
    requires Distinct(cs) && i < |cs| && cs[i].id != gone.id
    ensures var o := Remove(r, st, gone, cs, skip, order);
            |o.contacts| == |cs| && KeepsExcess(kind, WorthOf(kind, pts), st, cs[i], o.ledger, o.contacts[i])
  {
    ReplacedExcess(kind, pts, st, gone, cs, skip, i);
    ReplacedRelabels(st, gone, cs, skip);
    hide Replaced, HandOn, Tally, Sum, Mark, Admissible, Owned, Positive, WorthOf;
    var o := Replaced(st, gone, cs, skip);
    AllAreFair(kind, pts, cs, o.contacts, o.changed);
    var h := MultiplierHands(o);
    HandOnRelabels(Multiplier, h, order.mults, skip);
    var m, g := HandOn(Multiplier, h, order.mults, skip), BonusHands(o, order, skip);
    match kind
    case Multiplier =>
      HandOnExcess(Multiplier, pts, h, order.mults, skip, i);
      HandOnLeavesOther(Bonus, Multiplier, g, order.bonuses, skip, i);
    case Bonus =>
      HandOnLeavesOther(Multiplier, Bonus, h, order.mults, skip, i);
      StillFair(Bonus, pts, o.contacts, m.contacts, m.changed);
      HandOnExcess(Bonus, pts, g, order.bonuses, skip, i);
  }

  lemma {:induction false} RemovalsExcess(kind: Kind, r: Rules, pts: string -> int, st: Ledger, cs: seq<Contact>,
                                          priors: seq<Contact>, orders: seq<Order>, n: nat, i: nat)
    requires n <= |priors| == |orders| && AllAdmissible(pts, cs) && Positive(WorthOf(kind, pts))
    requires Distinct(cs) && i < |cs| && forall j :: 0 <= j < n ==> priors[j].id != cs[i].id
    ensures var o := AfterRemovals(r, st, cs, priors, orders, n);
            |o.contacts| == |cs| && o.contacts[i].id == cs[i].id
            && KeepsExcess(kind, WorthOf(kind, pts), st, cs[i], o.ledger, o.contacts[i])
  {
    hide AfterRemovals, Remove, Excess, Mark, WorthOf, Admissible, Positive;
    StillRelabelled(r, st, cs, priors, orders, n);
    if n == 0 {
      NoRemoval(r, st, cs, priors, orders);
    } else {
      RemovalsExcess(kind, r, pts, st, cs, priors, orders, n - 1, i);
      StillDistinct(r, st, cs, priors, orders, n - 1);
      StillAdmissible(r, pts, st, cs, priors, orders, n - 1);
      NextRemoval(r, st, cs, priors, orders, n - 1);
      var o := AfterRemovals(r, st, cs, priors, orders, n - 1);
      RemoveExcess(kind, r, pts, o.ledger, priors[n - 1], o.contacts, Some(priors[n - 1].id), orders[n - 1], i);
    }
  }

  // ----- one step -----

  /** What a contact of a log that stays has afterwards. */
  lemma StayerKeeps(kind: Kind, r: Rules, pts: string -> int, log: Log, step: Step, i: nat)
    requires !r.capped && Distinct(log.contacts) && step.Upsert? && Delivered(r, log, step)
    requires AllAdmissible(pts, step.arranged) && Positive(WorthOf(kind, pts))
    requires i < |step.arranged| && step.arranged[i].id !in Ids(step.batch)
    ensures var after := Perform(r, log, step);
            |after.contacts| == |step.arranged|
            && KeepsExcess(kind, WorthOf(kind, pts), log.ledger, step.arranged[i], after.ledger, after.contacts[i])
  {
    hide FreedOrders, AfterRemovals, Mark, WorthOf, Admissible, Positive, AddEach, Perform, Owned, Sum, Owners, Surplus;
    var cs, priors, orders := step.arranged, Priors(step.edits), Orders(step.edits);
    UpsertStarts(r, log, step);
    BatchHasPriors(r, log, step);
    forall j | 0 <= j < |priors| ensures priors[j].id != cs[i].id { assert priors[j] in priors; }
    RemovalsExcess(kind, r, pts, log.ledger, cs, priors, orders, |priors|, i);
    var o := AfterRemovals(r, log.ledger, cs, priors, orders, |priors|);
    ScoredInTwo(r, log, step);
    BatchIsListed(r, pts, log, step);
    AddEachBooks(kind, r, pts, o.ledger, o.contacts, step.batch);
    AddEachRelabels(r, o.ledger, o.contacts, step.batch);
  }

  /** A contact of a batch has no excess but what it owned before it was scored. */
  lemma NewcomerCovers(kind: Kind, r: Rules, pts: string -> int, log: Log, step: Step, d: Contact)
    requires !r.capped && Distinct(log.contacts) && step.Upsert? && Delivered(r, log, step)
    requires AllAdmissible(pts, step.arranged) && Positive(WorthOf(kind, pts))
    requires d in Perform(r, log, step).contacts && d.id in Ids(step.batch)
    ensures Mark(kind, d) >= 0 && Excess(kind, WorthOf(kind, pts), Perform(r, log, step).ledger, d) >= 0
  {
    hide FreedOrders, AfterRemovals, Mark, WorthOf, Admissible, Positive, AddEach, Perform, Owned, Sum, Owners, Surplus, Grows;
    var priors := Priors(step.edits);
    var o := AfterRemovals(r, log.ledger, step.arranged, priors, Orders(step.edits), |priors|);
    ScoredInTwo(r, log, step);
    BatchIsListed(r, pts, log, step);
    AddEachBooks(kind, r, pts, o.ledger, o.contacts, step.batch);
    var before, now := Owners(kind, o.ledger), Owners(kind, Perform(r, log, step).ledger);
    OwnedGrows(before, now, d.id);
    SumSubset(Owned(before, d.id), Owned(now, d.id), WorthOf(kind, pts));
    SumSubset({}, Owned(before, d.id), WorthOf(kind, pts));
    SumOfNothing(WorthOf(kind, pts));
  }

  lemma PriorsAreCovered(kind: Kind, worth: string -> int, log: Log, priors: seq<Contact>)
    requires Covers(kind, worth, log) && SetOf(priors) <= SetOf(log.contacts)
    ensures PriorsCovered(kind, worth, log.ledger, priors)
  {
    hide Sum, Surplus;
    forall i | 0 <= i < |priors| ensures Excess(kind, worth, log.ledger, priors[i]) >= 0 {
      assert priors[i] in SetOf(priors) && priors[i] in SetOf(log.contacts);
    }
  }

  lemma RemovalsSurplus(kind: Kind, r: Rules, pts: string -> int, st: Ledger, cs: seq<Contact>, priors: seq<Contact>,
                        orders: seq<Order>)
    requires |priors| == |orders| && AllAdmissible(pts, cs) && Distinct(priors)
    requires PriorsCovered(kind, WorthOf(kind, pts), st, priors) && Positive(WorthOf(kind, pts))
    ensures var w, tt := WorthOf(kind, pts), AfterRemovals(r, st, cs, priors, orders, |priors|).ledger;
            && Surplus(kind, w, tt) >= Surplus(kind, w, st)
            && (Surplus(kind, w, tt) == Surplus(kind, w, st) ==>
                  forall p :: p in priors ==> Excess(kind, w, st, p) == 0)
  {
    hide AfterRemovals, Mark, WorthOf, Admissible, Positive, Owned, Sum, Owners, Surplus, PriorsCovered, Distinct;
    var tt := AfterRemovals(r, st, cs, priors, orders, |priors|).ledger;
    NoRemoval(r, st, cs, priors, orders);
    SurplusRises(kind, r, pts, st, cs, priors, orders, 0, |priors|);
    forall p | p in priors && Surplus(kind, WorthOf(kind, pts), tt) == Surplus(kind, WorthOf(kind, pts), st)
      ensures Excess(kind, WorthOf(kind, pts), st, p) == 0
    {
      var n :| 0 <= n < |priors| && priors[n] == p;
      FreedWhatItOwned(kind, r, pts, st, cs, priors, orders, n);
    }
  }

  lemma SurplusAfter(kind: Kind, r: Rules, pts: string -> int, log: Log, step: Step)
    requires !r.capped && Covers(kind, WorthOf(kind, pts), log) && step.Upsert? && Delivered(r, log, step)
    requires AllAdmissible(pts, step.arranged) && Positive(WorthOf(kind, pts))
    ensures var w, after := WorthOf(kind, pts), Perform(r, log, step);
            && Surplus(kind, w, after.ledger) >= Surplus(kind, w, log.ledger)
            && (Surplus(kind, w, after.ledger) == Surplus(kind, w, log.ledger) ==>
                  forall p :: p in Priors(step.edits) ==> Excess(kind, w, log.ledger, p) == 0)
  {
    hide FreedOrders, AfterRemovals, Mark, WorthOf, Admissible, Positive, AddEach, Perform, Owned, Sum, Owners, Surplus, Grows,
         PriorsCovered, Excess;
    var priors, orders := Priors(step.edits), Orders(step.edits);
    var o := AfterRemovals(r, log.ledger, step.arranged, priors, orders, |priors|);
    ScoredInTwo(r, log, step);
    BatchIsListed(r, pts, log, step);
    AddEachBooks(kind, r, pts, o.ledger, o.contacts, step.batch);
    PriorsAreCovered(kind, WorthOf(kind, pts), log, priors);
    RemovalsSurplus(kind, r, pts, log.ledger, step.arranged, priors, orders);
  }

  /** A batch keeps nothing booked too little, and makes up for no excess. */
  lemma UpsertCovers(kind: Kind, r: Rules, pts: string -> int, log: Log, step: Step)
    requires !r.capped && Covers(kind, WorthOf(kind, pts), log) && step.Upsert? && Delivered(r, log, step)
    requires AllAdmissible(pts, step.arranged) && Positive(WorthOf(kind, pts))
    ensures Covers(kind, WorthOf(kind, pts), Perform(r, log, step))
    ensures Balanced(kind, WorthOf(kind, pts), Perform(r, log, step)) ==> Balanced(kind, WorthOf(kind, pts), log)
  {
    hide FreedOrders, Mark, WorthOf, Admissible, Positive, Perform, Owned, Sum, Owners, Surplus, Excess;
    var w, cs, after := WorthOf(kind, pts), step.arranged, Perform(r, log, step);
    StepRelabels(r, log, step);
    SurplusAfter(kind, r, pts, log, step);
    forall d | d in after.contacts ensures Mark(kind, d) >= 0 && Excess(kind, w, after.ledger, d) >= 0 {
      var i :| 0 <= i < |after.contacts| && after.contacts[i] == d;
      if d.id in Ids(step.batch) {
        NewcomerCovers(kind, r, pts, log, step, d);
      } else {
        StayerInLog(r, log, step, i);
        StayerKeeps(kind, r, pts, log, step, i);
      }
    }
    if Balanced(kind, w, after) {
      forall c | c in log.contacts ensures Excess(kind, w, log.ledger, c) == 0 {
        if c !in Priors(step.edits) {
          var i := StayerAt(r, log, step, c);
          StayerKeeps(kind, r, pts, log, step, i);
          BalancedMeansNoExcess(kind, w, after, after.contacts[i]);
        }
      }
      NoExcessIsBalanced(kind, w, log);
    }
  }

  lemma BalancedMeansNoExcess(kind: Kind, worth: string -> int, log: Log, c: Contact)
    requires Balanced(kind, worth, log) && c in log.contacts
    ensures Excess(kind, worth, log.ledger, c) == 0
  {
  }

  lemma NoExcessIsBalanced(kind: Kind, worth: string -> int, log: Log)
    requires Surplus(kind, worth, log.ledger) == 0
    requires forall c :: c in log.contacts ==> Excess(kind, worth, log.ledger, c) == 0
    ensures Balanced(kind, worth, log)
  {
    hide Surplus, Sum, Mark;
    forall c | c in log.contacts ensures Mark(kind, c) == Sum(Owned(Owners(kind, log.ledger), c.id), worth) {
      assert Excess(kind, worth, log.ledger, c) == 0;
    }
  }

  lemma StayerInLog(r: Rules, log: Log, step: Step, i: nat)
    requires step.Upsert? && Delivered(r, log, step) && i < |step.arranged| && step.arranged[i].id !in Ids(step.batch)
    ensures step.arranged[i] in log.contacts
  {
    hide FreedOrders;
    assert step.arranged[i] in SetOf(step.arranged);
  }

  lemma StayerAt(r: Rules, log: Log, step: Step, c: Contact) returns (i: nat)
    requires Distinct(log.contacts) && step.Upsert? && Delivered(r, log, step)
    requires c in log.contacts && c !in Priors(step.edits)
    ensures i < |step.arranged| && step.arranged[i] == c && c.id !in Ids(step.batch)
  {
    hide FreedOrders;
    UpsertStarts(r, log, step);
    assert c in SetOf(log.contacts) && c in Live(step.arranged, Ids(step.batch));
    i :| 0 <= i < |step.arranged| && step.arranged[i] == c;
  }

  lemma DeleteCovers(kind: Kind, r: Rules, pts: string -> int, log: Log, step: Step)
    requires !r.capped && Covers(kind, WorthOf(kind, pts), log) && step.Delete? && Delivered(r, log, step)
    requires AllAdmissible(pts, step.arranged) && Positive(WorthOf(kind, pts))
    ensures Covers(kind, WorthOf(kind, pts), Perform(r, log, step))
    ensures Balanced(kind, WorthOf(kind, pts), Perform(r, log, step)) ==> Balanced(kind, WorthOf(kind, pts), log)
  {
    hide FreedOrder, Remove, Mark, WorthOf, Admissible, Positive, Owned, Sum, Owners, Surplus;
    var w, cs, after := WorthOf(kind, pts), step.arranged, Perform(r, log, step);
    StepRelabels(r, log, step);
    RemoveBooks(kind, r, pts, log.ledger, step.gone, cs, None, step.order);
    forall i | 0 <= i < |cs|
      ensures cs[i] in log.contacts && KeepsExcess(kind, w, log.ledger, cs[i], after.ledger, after.contacts[i])
    {
      assert cs[i] in SetOf(cs) && cs[i] != step.gone;
      assert cs[i].id != step.gone.id;
      RemoveExcess(kind, r, pts, log.ledger, step.gone, cs, None, step.order, i);
    }
    hide Excess;
    forall d | d in after.contacts ensures Mark(kind, d) >= 0 && Excess(kind, w, after.ledger, d) >= 0 {
      var i :| 0 <= i < |after.contacts| && after.contacts[i] == d;
    }
    if Balanced(kind, w, after) {
      assert Excess(kind, w, log.ledger, step.gone) >= 0;
      assert Excess(kind, w, log.ledger, step.gone) == Sum(Owned(Owners(kind, log.ledger), step.gone.id), w) - Mark(kind, step.gone);
      forall c | c in log.contacts ensures Excess(kind, w, log.ledger, c) == 0 {
        if c != step.gone {
          assert c in SetOf(cs);
          var i :| 0 <= i < |cs| && cs[i] == c;
          BalancedMeansNoExcess(kind, w, after, after.contacts[i]);
        }
      }
      NoExcessIsBalanced(kind, w, log);
    }
  }

  // ----- whole runs -----

  /** Steps of any kind, as the log cache delivers them. */
  ghost predicate CanFollow(r: Rules, log: Log, steps: seq<Step>)
    decreases |steps|
  {
    steps != [] ==> Delivered(r, log, steps[0]) && CanFollow(r, Perform(r, log, steps[0]), steps[1..])
  }

  lemma StepAdmissible(r: Rules, pts: string -> int, log: Log, step: Step)
    requires !r.capped && Delivered(r, log, step)
    requires AllAdmissible(pts, log.contacts) && AllAdmissible(pts, NewContacts(step))
    ensures AllAdmissible(pts, step.arranged) && AllAdmissible(pts, Perform(r, log, step).contacts)
  {
    hide FreedOrder, FreedOrders, Perform, Admissible;
    var cs := step.arranged;
    forall i | 0 <= i < |cs| ensures Admissible(pts, cs[i].facts) {
      assert cs[i] in SetOf(cs);
      assert cs[i] in log.contacts || cs[i] in NewContacts(step);
    }
    StepRelabels(r, log, step);
  }

  /** After each step of a run the log is in good order. */
  ghost predicate OkThroughout(r: Rules, pts: string -> int, log: Log, steps: seq<Step>)
    decreases |steps|
  {
    LogOk(r, pts, log) && (steps != [] ==> OkThroughout(r, pts, Perform(r, log, steps[0]), steps[1..]))
  }

  /**
   Exactly which runs keep a log in good order throughout: those in which what each batch hands on to its own
   contacts does no harm.
   */
  lemma {:induction false} RunKeepsIff(r: Rules, pts: string -> int, log: Log, steps: seq<Step>)
    requires !r.capped && LogOk(r, pts, log) && Positive(pts) && CanFollow(r, log, steps)
    requires AllAdmissible(pts, log.contacts)
    requires forall i :: 0 <= i < |steps| ==> AllAdmissible(pts, NewContacts(steps[i])) && Unmarked(NewContacts(steps[i]))
    ensures CanRun(r, log, steps) <==> OkThroughout(r, pts, log, steps)
    decreases |steps|
  {
    hide Perform, Admissible, Delivered, PassesWell, Positive, LogOk, Unmarked;
    if steps != [] {
      var step := steps[0];
      StepAdmissible(r, pts, log, step);
      if step.Upsert? {
        BatchKeepsIff(r, pts, log, step);
      } else {
        DeletePassesWell(r, log, step);
        DeleteKeeps(r, pts, log, step);
      }
      if LogOk(r, pts, Perform(r, log, step)) {
        RunKeepsIff(r, pts, Perform(r, log, step), steps[1..]);
      }
    }
  }

  lemma DeletePassesWell(r: Rules, log: Log, step: Step)
    requires step.Delete?
    ensures PassesWell(r, log, step)
  {
  }

  lemma {:induction false} StaysOverbooked(kind: Kind, r: Rules, pts: string -> int, log: Log, steps: seq<Step>)
    requires !r.capped && Positive(WorthOf(kind, pts)) && Overbooked(kind, WorthOf(kind, pts), log) && CanFollow(r, log, steps)
    requires AllAdmissible(pts, log.contacts)
    requires forall i :: 0 <= i < |steps| ==> AllAdmissible(pts, NewContacts(steps[i]))
    ensures Overbooked(kind, WorthOf(kind, pts), Replay(r, log, steps))
    decreases |steps|
  {
    hide Perform, Admissible, Delivered, Covers, Balanced, WorthOf, Positive;
    if steps != [] {
      StepAdmissible(r, pts, log, steps[0]);
      if steps[0].Upsert? {
        UpsertCovers(kind, r, pts, log, steps[0]);
      } else {
        DeleteCovers(kind, r, pts, log, steps[0]);
      }
      StaysOverbooked(kind, r, pts, Perform(r, log, steps[0]), steps[1..]);
    }
  }

  lemma InOrderCovers(kind: Kind, r: Rules, pts: string -> int, log: Log)
    requires LogOk(r, pts, log) && Positive(WorthOf(kind, pts))
    ensures Covers(kind, WorthOf(kind, pts), log)
  {
    hide Sum, Inv, Surplus, Positive, WorthOf, Mark;
    BooksOfLog(kind, r, pts, log);
    var w := WorthOf(kind, pts);
    forall c | c in log.contacts ensures Mark(kind, c) >= 0 && Excess(kind, w, log.ledger, c) >= 0 {
      SumSubset({}, Owned(Owners(kind, log.ledger), c.id), w);
      SumOfNothing(w);
    }
  }

  /**
   A batch that hands a multiplier key to one of its own contacts, or a bonus key where those are worth
   something, spoils the log for good: whatever is committed or deleted afterwards, the books never balance
   again, and so the log is never in good order, until it is loaded anew.
   */
  lemma DriftStays(kind: Kind, r: Rules, pts: string -> int, log: Log, step: Step, steps: seq<Step>)
    requires !r.capped && LogOk(r, pts, log) && AllAdmissible(pts, log.contacts) && Positive(WorthOf(kind, pts))
    requires step.Upsert? && Delivered(r, log, step) && AllAdmissible(pts, step.batch)
    requires !NoneGranted(kind, r, log, step)
    requires CanFollow(r, Perform(r, log, step), steps)
    requires forall i :: 0 <= i < |steps| ==> AllAdmissible(pts, NewContacts(steps[i]))
    ensures var last := Replay(r, Perform(r, log, step), steps);
            Overbooked(kind, WorthOf(kind, pts), last) && !LogOk(r, pts, last)
  {
    hide Perform, Admissible, Delivered, Covers, Balanced, WorthOf, Positive, NoneGranted, LogOk;
    StepAdmissible(r, pts, log, step);
    InOrderCovers(kind, r, pts, log);
    UpsertCovers(kind, r, pts, log, step);
    if Balanced(kind, WorthOf(kind, pts), Perform(r, log, step)) {
      GrantsBreakTheBooks(kind, r, pts, log, step);
    }
    StaysOverbooked(kind, r, pts, Perform(r, log, step), steps);
    var last := Replay(r, Perform(r, log, step), steps);
    if LogOk(r, pts, last) { BooksOfLog(kind, r, pts, last); }
  }
}

/** Which contacts the tracker reports: those whose marks it changed, and no others. */
module ScoringReports {
  import opened Sums
  import opened ScoringSpec
  import opened ScoringLedger
  import opened ScoringOperations
  import opened ScoringBatches
  import opened ScoringShades
  import opened ScoringRuns
  import opened ScoringDrift

  /** A contact that has begun to count, or has been given a key. */
  predicate Gained(c: Contact, d: Contact) {
    || (c.marks.dupe && !d.marks.dupe)
    || (c.marks.dupe == d.marks.dupe && c.marks.mult <= d.marks.mult && c.marks.bonus <= d.marks.bonus
        && c.marks.mult + c.marks.bonus < d.marks.mult + d.marks.bonus)
  }

  /** The contacts with a reported id have gained, the others are the same. */
  ghost predicate ReportsGains(cs: seq<Contact>, ds: seq<Contact>, changed: set<int>) {
    && |ds| == |cs|
    && forall i :: 0 <= i < |cs| ==>
         && ds[i].id == cs[i].id && ds[i].facts == cs[i].facts
         && if cs[i].id in changed then Gained(cs[i], ds[i]) else ds[i] == cs[i]
  }

  lemma HandOneReports(kind: Kind, pts: string -> int, cs: seq<Contact>, h: Hands, key: string, skip: Option<int>)
    requires ReportsGains(cs, h.contacts, h.changed) && Distinct(cs)
    requires AllFair(kind, pts, h.contacts) && Positive(WorthOf(kind, pts))
    ensures var g := HandOne(kind, h, key, skip);
            ReportsGains(cs, g.contacts, g.changed)
  {
    hide FairOffers, Offers, Positive, WorthOf;
    var heir := FirstIndex(h.contacts, CanInherit(kind, key, skip));
    if key !in h.owners && heir.Some? {
      var c := h.contacts[heir.value];
      assert CanInherit(kind, key, skip)(c);
      WorthIsFair(Offers(kind, c.facts), key, WorthOf(kind, pts));
      assert WorthOf(kind, pts)(key) > 0 by { IsPositive(WorthOf(kind, pts), key); }
    }
  }

  lemma IsPositive(worth: string -> int, key: string)
    requires Positive(worth)
    ensures worth(key) > 0
  {
  }

  lemma {:induction false} HandOnReports(kind: Kind, pts: string -> int, cs: seq<Contact>, h: Hands, keys: seq<string>,
                                         skip: Option<int>)
    requires ReportsGains(cs, h.contacts, h.changed) && Distinct(cs)
    requires AllFair(kind, pts, h.contacts) && Positive(WorthOf(kind, pts))
    ensures var g := HandOn(kind, h, keys, skip);
            ReportsGains(cs, g.contacts, g.changed) && AllFair(kind, pts, g.contacts)
  {
    hide HandOne, ReportsGains, Positive;
    HandOnRelabels(kind, h, keys, skip);
    StillFair(kind, pts, h.contacts, HandOn(kind, h, keys, skip).contacts, HandOn(kind, h, keys, skip).changed);
    if keys != [] {
      HandOnReports(kind, pts, cs, h, keys[..|keys| - 1], skip);
      HandOneReports(kind, pts, cs, HandOn(kind, h, keys[..|keys| - 1], skip), keys[|keys| - 1], skip);
    }
  }

  lemma ReplacedReports(st: Ledger, gone: Contact, cs: seq<Contact>, skip: Option<int>)
    requires Distinct(cs)
    ensures var o := Replaced(st, gone, cs, skip);
            ReportsGains(cs, o.contacts, o.changed)
  {
    hide ClaimMultipliers, ClaimBonuses, BumpAll, Debited;
  }

  /** A removal reports exactly the contacts that have gained by it. */
  lemma RemoveReports(r: Rules, pts: string -> int, st: Ledger, gone: Contact, cs: seq<Contact>, skip: Option<int>, order: Order)
    requires Distinct(cs) && (forall i :: 0 <= i < |cs| ==> Admissible(pts, cs[i].facts)) && Positive(pts)
    ensures var o := Remove(r, st, gone, cs, skip, order);
            ReportsGains(cs, o.contacts, o.changed)
  {
    ReplacedReports(st, gone, cs, skip);
    ReplacedRelabels(st, gone, cs, skip);
    BothWorthsPositive(pts);
    hide Replaced, HandOn, Tally, Positive, Admissible, ReportsGains, FairOffers;
    var o := Replaced(st, gone, cs, skip);
    AllAreFair(Multiplier, pts, cs, o.contacts, o.changed);
    AllAreFair(Bonus, pts, cs, o.contacts, o.changed);
    HandOnReports(Multiplier, pts, cs, MultiplierHands(o), order.mults, skip);
    var m := HandOn(Multiplier, MultiplierHands(o), order.mults, skip);
    HandOnRelabels(Multiplier, MultiplierHands(o), order.mults, skip);
    StillFair(Bonus, pts, o.contacts, m.contacts, m.changed);
    HandOnReports(Bonus, pts, cs, BonusHands(o, order, skip), order.bonuses, skip);
  }

  lemma GainsJoin(cs: seq<Contact>, ds: seq<Contact>, es: seq<Contact>, a: set<int>, b: set<int>)
    requires ReportsGains(cs, ds, a) && ReportsGains(ds, es, b)
    ensures ReportsGains(cs, es, a + b)
  {
  }

  lemma {:induction false} RemovalsReport(r: Rules, pts: string -> int, st: Ledger, cs: seq<Contact>, priors: seq<Contact>,
                                          orders: seq<Order>, n: nat)
    requires n <= |priors| == |orders| && Distinct(cs) && AllAdmissible(pts, cs) && Positive(pts)
    ensures var o := AfterRemovals(r, st, cs, priors, orders, n);
            ReportsGains(cs, o.contacts, o.changed)
  {
    hide AfterRemovals, Remove, Admissible, Positive, Gained;
    if n == 0 {
      NoRemoval(r, st, cs, priors, orders);
    } else {
      RemovalsReport(r, pts, st, cs, priors, orders, n - 1);
      StillDistinct(r, st, cs, priors, orders, n - 1);
      StillAdmissible(r, pts, st, cs, priors, orders, n - 1);
      NextRemoval(r, st, cs, priors, orders, n - 1);
      var o := AfterRemovals(r, st, cs, priors, orders, n - 1);
      var p := priors[n - 1];
      RemoveReports(r, pts, o.ledger, p, o.contacts, Some(p.id), orders[n - 1]);
      var q := Remove(r, o.ledger, p, o.contacts, Some(p.id), orders[n - 1]);
      GainsJoin(cs, o.contacts, q.contacts, o.changed, q.changed);
    }
  }

  /**
   Under uncapped rules a delete reports exactly the contacts whose marks it changed. An upsert does so too, of the
   contacts that were not just committed.
   */
  lemma ReportsAreExact(r: Rules, pts: string -> int, st: Ledger, cs: seq<Contact>, batch: seq<Contact>, previous: seq<Contact>,
                        orders: seq<Order>, gone: Contact, order: Order)
    requires !r.capped && |orders| == |previous| && Distinct(cs) && AllAdmissible(pts, cs) && Positive(pts)
    ensures var o := OnDeleted(r, st, cs, gone, order);
            |o.contacts| == |cs| && forall i :: 0 <= i < |cs| ==> (cs[i].id in o.changed <==> o.contacts[i] != cs[i])
    ensures var o := OnUpserted(r, st, cs, batch, previous, orders);
            |o.contacts| == |cs| && forall i :: 0 <= i < |cs| && cs[i].id !in Ids(batch) ==>
              (cs[i].id in o.changed <==> o.contacts[i] != cs[i])
  {
    hide Remove, RemoveEach, AddEach, Admissible, Positive;
    RemoveReports(r, pts, st, gone, cs, None, order);
    RemovalsReport(r, pts, st, cs, previous, orders, |previous|);
    NoRemoval(r, st, cs, previous, orders);
    var o := RemoveEach(r, Outcome(st, cs, {}), previous, orders);
    AddEachRelabels(r, o.ledger, o.contacts, batch);
  }

  /** Under capped rules everything is scored anew, and everything is reported. */
  lemma CappedReportsAll(r: Rules, st: Ledger, cs: seq<Contact>, batch: seq<Contact>, previous: seq<Contact>,
                         orders: seq<Order>, gone: Contact, order: Order)
    requires r.capped && |orders| == |previous|
    ensures OnDeleted(r, st, cs, gone, order).changed == Ids(cs)
    ensures OnUpserted(r, st, cs, batch, previous, orders).changed == Ids(cs)
  {
    ResetKeepsIds(r, cs, |cs|);
    assert cs[..|cs|] == cs;
    SameIds(cs, Reset(r, cs).1);
  }

  lemma {:induction false} ResetKeepsIds(r: Rules, cs: seq<Contact>, n: nat)
    requires n <= |cs|
    ensures |Reset(r, cs[..n]).1| == n && forall i :: 0 <= i < n ==> Reset(r, cs[..n]).1[i].id == cs[i].id
  {
    if n > 0 {
      hide Score, ClaimMultipliers, ClaimBonuses, BumpAll;
      ResetKeepsIds(r, cs, n - 1);
      assert cs[..n][..n - 1] == cs[..n - 1] && cs[..n][n - 1] == cs[n - 1];
    } else {
      assert cs[..0] == [];
    }
  }
}

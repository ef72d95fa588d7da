/**
 When a batch drifts. A multiplier or bonus key that a removal hands to a contact of its own batch is booked
 for a contact that is not scored yet. A dupe key may pass to such a contact, but then no other contact that
 has the key may be there when it is scored. The invariant survives a batch exactly if nothing else is
 handed on to the batch.
 */
module ScoringDrift {
  import opened Sums
  import opened ScoringSpec
  import opened ScoringLedger
  import opened ScoringOperations
  import opened ScoringBatches
  import opened ScoringShades
  import opened ScoringRuns

  function Total(kind: Kind, st: Ledger): int {
    match kind
    case Multiplier => st.raw
    case Bonus => st.direct
  }

  /** What is booked beyond the worth of the owned keys. */
  ghost function Surplus(kind: Kind, worth: string -> int, st: Ledger): int {
    Total(kind, st) - Sum(Owners(kind, st).Keys, worth)
  }

  ghost predicate Positive(worth: string -> int) {
    forall k :: worth(k) > 0
  }

  lemma SumSubset(a: set<string>, b: set<string>, worth: string -> int)
    requires a <= b && Positive(worth)
    ensures Sum(a, worth) <= Sum(b, worth)
    ensures Sum(a, worth) == Sum(b, worth) ==> a == b
  {
    hide Sum;
    assert b == a + (b - a);
    SumUnion(a, b - a, worth);
    SumNonNegative(b - a, worth);
    if x :| x in b - a {
      assert worth(x) > 0 && worth(x) <= Sum(b - a, worth);
    } else {
      assert a == b;
    }
  }

  // ----- claims and handing on -----

  /** A claim books the worth of the keys it adds, and adds them for one owner only. */
  lemma ClaimBooks(owners: map<string, int>, offers: seq<(string, int)>, id: int, worth: string -> int)
    requires FairOffers(offers, worth)
    ensures var (os, n) := ClaimBonuses(owners, offers, id);
            && n == Sum(os.Keys, worth) - Sum(owners.Keys, worth)
            && n == Sum(Owned(os, id), worth) - Sum(Owned(owners, id), worth)
            && (forall other :: other != id ==> Owned(os, other) == Owned(owners, other))
            && Grows(owners, os)
  {
    hide Sum;
    var (os, n) := ClaimBonuses(owners, offers, id);
    var newKeys := KeysOf(offers) - owners.Keys;
    ClaimEffect(owners, offers, id, worth);
    assert os.Keys == owners.Keys + newKeys;
    SumUnion(owners.Keys, newKeys, worth);
    assert Owned(os, id) == Owned(owners, id) + newKeys;
    SumUnion(Owned(owners, id), newKeys, worth);
  }

  /** Scoring a contact that counts is a claim of each kind. */
  lemma ScoredClaims(kind: Kind, pts: string -> int, st: Ledger, c: Contact)
    requires Admissible(pts, c.facts)
    ensures var (st', c') := ScoreNonDupe(st, c);
            var (os, n) := ClaimBonuses(Owners(kind, st), Offers(kind, c.facts), c.id);
            && Owners(kind, st') == os && Total(kind, st') == Total(kind, st) + n && Mark(kind, c') == n
    ensures FairOffers(Offers(kind, c.facts), WorthOf(kind, pts))
  {
    AdmissibleIsFair(kind, pts, c.facts);
    hide ClaimBonuses, ClaimMultipliers, BumpAll, FairOffers;
    UncappedClaims(st.multOwners, st.multCounts, c.facts, |c.facts.multipliers|, c.id);
    assert c.facts.multipliers[..|c.facts.multipliers|] == c.facts.multipliers;
    assert Offers(Multiplier, c.facts)[..|c.facts.multipliers|] == Offers(Multiplier, c.facts);
  }

  lemma ScoredBooks(kind: Kind, pts: string -> int, st: Ledger, c: Contact)
    requires Admissible(pts, c.facts)
    ensures var (st', c') := ScoreNonDupe(st, c);
            var w := WorthOf(kind, pts);
            && Surplus(kind, w, st') == Surplus(kind, w, st)
            && Mark(kind, c') == Sum(Owned(Owners(kind, st'), c.id), w) - Sum(Owned(Owners(kind, st), c.id), w)
            && (forall other :: other != c.id ==> Owned(Owners(kind, st'), other) == Owned(Owners(kind, st), other))
            && Grows(Owners(kind, st), Owners(kind, st'))
  {
    hide ScoreNonDupe, ClaimBonuses, Sum, Owned, Grows, FairOffers, Offers;
    ScoredClaims(kind, pts, st, c);
    ClaimBooks(Owners(kind, st), Offers(kind, c.facts), c.id, WorthOf(kind, pts));
  }

  lemma AddBooks(kind: Kind, r: Rules, pts: string -> int, st: Ledger, c: Contact)
    requires Admissible(pts, c.facts)
    ensures var (st', c') := Add(r, st, c);
            var w := WorthOf(kind, pts);
            && Surplus(kind, w, st') == Surplus(kind, w, st)
            && Mark(kind, c') == Sum(Owned(Owners(kind, st'), c.id), w) - Sum(Owned(Owners(kind, st), c.id), w)
            && (forall other :: other != c.id ==> Owned(Owners(kind, st'), other) == Owned(Owners(kind, st), other))
            && Grows(Owners(kind, st), Owners(kind, st'))
            && c'.id == c.id && c'.facts == c.facts
  {
    hide Tally, BumpAll, ClaimMultipliers, ClaimBonuses, Sum, Owned;
    ScoredBooks(kind, pts, st, c);
  }

  ghost predicate AllFair(kind: Kind, pts: string -> int, cs: seq<Contact>) {
    forall i :: 0 <= i < |cs| ==> FairOffers(Offers(kind, cs[i].facts), WorthOf(kind, pts))
  }

  lemma {:induction false} HandOnBooks(kind: Kind, pts: string -> int, h: Hands, keys: seq<string>, skip: Option<int>)
    requires AllFair(kind, pts, h.contacts)
    ensures var g := HandOn(kind, h, keys, skip);
            var w := WorthOf(kind, pts);
            g.total - Sum(g.owners.Keys, w) == h.total - Sum(h.owners.Keys, w)
  {
    if keys != [] {
      hide Sum, FairOffers, WorthOf, Worth, Has, Offers;
      var init, key := keys[..|keys| - 1], keys[|keys| - 1];
      HandOnBooks(kind, pts, h, init, skip);
      HandOnRelabels(kind, h, init, skip);
      var g := HandOn(kind, h, init, skip);
      var heir := FirstIndex(g.contacts, CanInherit(kind, key, skip));
      if key !in g.owners && heir.Some? {
        var c := g.contacts[heir.value];
        assert c.facts == h.contacts[heir.value].facts;
        assert CanInherit(kind, key, skip)(c);
        WorthIsFair(Offers(kind, c.facts), key, WorthOf(kind, pts));
        assert g.owners[key := c.id].Keys == g.owners.Keys + {key};
        SumAdd(g.owners.Keys, WorthOf(kind, pts), key);
      }
    }
  }

  // ----- one removal -----

  lemma FreedSurplus(kind: Kind, worth: string -> int, st: Ledger, gone: Contact, dupeOwners: map<string, int>)
    ensures var tt := Freed(st, gone, dupeOwners);
            && Surplus(kind, worth, tt)
               == Surplus(kind, worth, st) + Sum(Owned(Owners(kind, st), gone.id), worth) - Mark(kind, gone)
            && Owners(kind, tt) == Owners(kind, st) - Owned(Owners(kind, st), gone.id)
  {
    hide Sum, DropAll, Drop;
    var owners, freed := Owners(kind, st), Owned(Owners(kind, st), gone.id);
    assert owners.Keys == (owners - freed).Keys + freed;
    SumUnion((owners - freed).Keys, freed, worth);
  }

  lemma ReplacedBooks(kind: Kind, pts: string -> int, st: Ledger, gone: Contact, cs: seq<Contact>, skip: Option<int>)
    requires forall i :: 0 <= i < |cs| ==> Admissible(pts, cs[i].facts)
    ensures var tt := Replaced(st, gone, cs, skip).ledger;
            var w := WorthOf(kind, pts);
            Surplus(kind, w, tt) == Surplus(kind, w, st) + Sum(Owned(Owners(kind, st), gone.id), w) - Mark(kind, gone)
  {
    hide Surplus, Admissible, ScoreNonDupe, Debited, Owned, Mark;
    var o := Replaced(st, gone, cs, skip);
    var heir := if OwnsDupeKey(st, gone)
                then FirstIndex(cs, SharesDupeKey(gone.facts.dupeKey.value, skip)) else None;
    if heir.None? {
      FreedSurplus(kind, WorthOf(kind, pts), st, gone, o.ledger.dupeOwners);
      assert o.ledger == Freed(st, gone, o.ledger.dupeOwners);
    } else {
      var st2 := Freed(st, gone, st.dupeOwners[gone.facts.dupeKey.value := cs[heir.value].id]);
      FreedSurplus(kind, WorthOf(kind, pts), st, gone, st2.dupeOwners);
      assert o == Promote(st2, cs, heir.value);
      ScoredBooks(kind, pts, st2, cs[heir.value]);
    }
  }

  /** A removal adds to the surplus what the leaving contact owns beyond its marks. */
  lemma RemoveBooks(kind: Kind, r: Rules, pts: string -> int, st: Ledger, gone: Contact, cs: seq<Contact>,
                    skip: Option<int>, order: Order)
    requires forall i :: 0 <= i < |cs| ==> Admissible(pts, cs[i].facts)
    ensures var tt := Remove(r, st, gone, cs, skip, order).ledger;
            var w := WorthOf(kind, pts);
            && Surplus(kind, w, tt) == Surplus(kind, w, st) + Sum(Owned(Owners(kind, st), gone.id), w) - Mark(kind, gone)
            && (forall id :: id != gone.id ==> Owned(Owners(kind, st), id) <= Owned(Owners(kind, tt), id))
  {
    ReplacedBooks(kind, pts, st, gone, cs, skip);
    ReplacedGrows(st, gone, cs, skip);
    ReplacedRelabels(st, gone, cs, skip);
    hide Replaced, HandOn, Tally, Sum, Mark, Admissible;
    var o := Replaced(st, gone, cs, skip);
    AllAreFair(Multiplier, pts, cs, o.contacts, o.changed);
    AllAreFair(Bonus, pts, cs, o.contacts, o.changed);
    HandOnBooks(Multiplier, pts, MultiplierHands(o), order.mults, skip);
    HandOnGrows(Multiplier, MultiplierHands(o), order.mults, skip);
    HandOnRelabels(Multiplier, MultiplierHands(o), order.mults, skip);
    var m := HandOn(Multiplier, MultiplierHands(o), order.mults, skip);
    StillFair(Bonus, pts, o.contacts, m.contacts, m.changed);
    HandOnBooks(Bonus, pts, BonusHands(o, order, skip), order.bonuses, skip);
    HandOnGrows(Bonus, BonusHands(o, order, skip), order.bonuses, skip);
  }

  lemma AllAreFair(kind: Kind, pts: string -> int, cs: seq<Contact>, ds: seq<Contact>, changed: set<int>)
    requires forall i :: 0 <= i < |cs| ==> Admissible(pts, cs[i].facts)
    requires Relabelled(cs, ds, changed)
    ensures AllFair(kind, pts, ds)
  {
    hide FairOffers, Offers;
    forall i | 0 <= i < |ds| ensures FairOffers(Offers(kind, ds[i].facts), WorthOf(kind, pts)) {
      AdmissibleIsFair(kind, pts, cs[i].facts);
    }
  }

  lemma StillFair(kind: Kind, pts: string -> int, cs: seq<Contact>, ds: seq<Contact>, changed: set<int>)
    requires AllFair(kind, pts, cs) && Relabelled(cs, ds, changed)
    ensures AllFair(kind, pts, ds)
  {
    hide FairOffers, Offers;
  }

  // ----- all removals of a batch -----

  lemma StillAdmissible(r: Rules, pts: string -> int, st: Ledger, cs: seq<Contact>, priors: seq<Contact>,
                        orders: seq<Order>, n: nat)
    requires n <= |priors| == |orders| && AllAdmissible(pts, cs)
    ensures AllAdmissible(pts, AfterRemovals(r, st, cs, priors, orders, n).contacts)
  {
    StillRelabelled(r, st, cs, priors, orders, n);
    hide AfterRemovals, Admissible;
  }

  /** What happens to the books in the n-th removal. */
  lemma RemovalBooks(kind: Kind, r: Rules, pts: string -> int, st: Ledger, cs: seq<Contact>, priors: seq<Contact>,
                     orders: seq<Order>, n: nat)
    requires n < |priors| == |orders| && AllAdmissible(pts, cs)
    ensures var tt := AfterRemovals(r, st, cs, priors, orders, n).ledger;
            var uu := AfterRemovals(r, st, cs, priors, orders, n + 1).ledger;
            var w, p := WorthOf(kind, pts), priors[n];
            && Surplus(kind, w, uu) == Surplus(kind, w, tt) + Sum(Owned(Owners(kind, tt), p.id), w) - Mark(kind, p)
            && (forall id :: id != p.id ==> Owned(Owners(kind, tt), id) <= Owned(Owners(kind, uu), id))
  {
    hide AfterRemovals, Remove, Surplus, Owned, Sum, Admissible, Mark, WorthOf, Owners;
    var o := AfterRemovals(r, st, cs, priors, orders, n);
    StillAdmissible(r, pts, st, cs, priors, orders, n);
    NextRemoval(r, st, cs, priors, orders, n);
    RemoveBooks(kind, r, pts, o.ledger, priors[n], o.contacts, Some(priors[n].id), orders[n]);
  }

  /** Nobody loses a key but in its own removal. */
  lemma {:induction false} OwnsMore(kind: Kind, r: Rules, pts: string -> int, st: Ledger, cs: seq<Contact>,
                                    priors: seq<Contact>, orders: seq<Order>, n: nat, m: nat, id: int)
    requires n <= m <= |priors| == |orders| && AllAdmissible(pts, cs)
    requires forall j :: n <= j < m ==> priors[j].id != id
    ensures Owned(Owners(kind, AfterRemovals(r, st, cs, priors, orders, n).ledger), id)
            <= Owned(Owners(kind, AfterRemovals(r, st, cs, priors, orders, m).ledger), id)
    decreases m - n
  {
    hide AfterRemovals, Surplus, Owned, Admissible, Owners;
    if n < m {
      OwnsMore(kind, r, pts, st, cs, priors, orders, n, m - 1, id);
      RemovalBooks(kind, r, pts, st, cs, priors, orders, m - 1);
    }
  }

  lemma OwnsMoreThanBefore(kind: Kind, r: Rules, pts: string -> int, st: Ledger, cs: seq<Contact>,
                           priors: seq<Contact>, orders: seq<Order>, n: nat, id: int)
    requires n <= |priors| == |orders| && AllAdmissible(pts, cs)
    requires forall j :: 0 <= j < n ==> priors[j].id != id
    ensures Owned(Owners(kind, st), id) <= Owned(Owners(kind, AfterRemovals(r, st, cs, priors, orders, n).ledger), id)
  {
    hide AfterRemovals, Owned, Owners;
    NoRemoval(r, st, cs, priors, orders);
    OwnsMore(kind, r, pts, st, cs, priors, orders, 0, n, id);
  }

  /** No prior version has marks beyond what it owns. */
  ghost predicate PriorsCovered(kind: Kind, worth: string -> int, st: Ledger, priors: seq<Contact>) {
    forall i :: 0 <= i < |priors| ==> Mark(kind, priors[i]) <= Sum(Owned(Owners(kind, st), priors[i].id), worth)
  }

  /** No removal lowers the surplus, and one that keeps it frees exactly what was owned before the batch. */
  lemma RemovalRaises(kind: Kind, r: Rules, pts: string -> int, st: Ledger, cs: seq<Contact>, priors: seq<Contact>,
                      orders: seq<Order>, n: nat)
    requires n < |priors| == |orders| && AllAdmissible(pts, cs) && Distinct(priors)
    requires PriorsCovered(kind, WorthOf(kind, pts), st, priors) && Positive(WorthOf(kind, pts))
    ensures var tt := AfterRemovals(r, st, cs, priors, orders, n).ledger;
            var uu := AfterRemovals(r, st, cs, priors, orders, n + 1).ledger;
            var w := WorthOf(kind, pts);
            && Surplus(kind, w, tt) <= Surplus(kind, w, uu)
            && (Surplus(kind, w, tt) == Surplus(kind, w, uu) ==>
                  && Owned(Owners(kind, tt), priors[n].id) == Owned(Owners(kind, st), priors[n].id)
                  && Mark(kind, priors[n]) == Sum(Owned(Owners(kind, st), priors[n].id), w))
  {
    hide AfterRemovals, Surplus, Owned, Sum, Admissible, Mark, WorthOf, Owners, Positive;
    RemovalBooks(kind, r, pts, st, cs, priors, orders, n);
    OwnsMoreThanBefore(kind, r, pts, st, cs, priors, orders, n, priors[n].id);
    SumSubset(Owned(Owners(kind, st), priors[n].id),
              Owned(Owners(kind, AfterRemovals(r, st, cs, priors, orders, n).ledger), priors[n].id), WorthOf(kind, pts));
  }

  lemma {:induction false} SurplusRises(kind: Kind, r: Rules, pts: string -> int, st: Ledger, cs: seq<Contact>,
                                        priors: seq<Contact>, orders: seq<Order>, n: nat, m: nat)
    requires n <= m <= |priors| == |orders| && AllAdmissible(pts, cs) && Distinct(priors)
    requires PriorsCovered(kind, WorthOf(kind, pts), st, priors) && Positive(WorthOf(kind, pts))
    ensures Surplus(kind, WorthOf(kind, pts), AfterRemovals(r, st, cs, priors, orders, n).ledger)
            <= Surplus(kind, WorthOf(kind, pts), AfterRemovals(r, st, cs, priors, orders, m).ledger)
    decreases m - n
  {
    hide AfterRemovals, Surplus, Admissible, WorthOf, PriorsCovered, Positive;
    if n < m {
      SurplusRises(kind, r, pts, st, cs, priors, orders, n, m - 1);
      RemovalRaises(kind, r, pts, st, cs, priors, orders, m - 1);
    }
  }

  /** Without more surplus at the end every removal freed exactly what its contact owned before, and its marks. */
  lemma FreedWhatItOwned(kind: Kind, r: Rules, pts: string -> int, st: Ledger, cs: seq<Contact>,
                         priors: seq<Contact>, orders: seq<Order>, n: nat)
    requires n < |priors| == |orders| && AllAdmissible(pts, cs) && Distinct(priors)
    requires PriorsCovered(kind, WorthOf(kind, pts), st, priors) && Positive(WorthOf(kind, pts))
    requires Surplus(kind, WorthOf(kind, pts), AfterRemovals(r, st, cs, priors, orders, |priors|).ledger)
             == Surplus(kind, WorthOf(kind, pts), st)
    ensures Owned(Owners(kind, AfterRemovals(r, st, cs, priors, orders, n).ledger), priors[n].id)
            == Owned(Owners(kind, st), priors[n].id)
    ensures Mark(kind, priors[n]) == Sum(Owned(Owners(kind, st), priors[n].id), WorthOf(kind, pts))
  {
    hide AfterRemovals, Surplus, Owned, Admissible, WorthOf, PriorsCovered, Positive, Owners, Distinct, Mark, Sum;
    NoRemoval(r, st, cs, priors, orders);
    SurplusRises(kind, r, pts, st, cs, priors, orders, 0, n);
    SurplusRises(kind, r, pts, st, cs, priors, orders, n + 1, |priors|);
    RemovalRaises(kind, r, pts, st, cs, priors, orders, n);
  }

  // ----- scoring the batch -----

  /** Scoring a batch keeps the surplus; the marks of its contacts leave out what they already owned. */
  lemma {:induction false} AddEachBooks(kind: Kind, r: Rules, pts: string -> int, st: Ledger, cs: seq<Contact>,
                                        committed: seq<Contact>)
    requires AllAdmissible(pts, cs) && Distinct(committed) && Distinct(cs) && Ids(committed) <= Ids(cs)
    ensures var (tt, ds) := AddEach(r, st, cs, committed);
            var w := WorthOf(kind, pts);
            && Surplus(kind, w, tt) == Surplus(kind, w, st)
            && Grows(Owners(kind, st), Owners(kind, tt))
            && (forall id :: id !in Ids(committed) ==> Owned(Owners(kind, tt), id) == Owned(Owners(kind, st), id))
            && (forall d :: d in ds && d.id in Ids(committed) ==>
                  Mark(kind, d) == Sum(Owned(Owners(kind, tt), d.id), w) - Sum(Owned(Owners(kind, st), d.id), w))
    decreases |committed|
  {
    hide Surplus, Owned, Owners, Sum, Admissible, Mark, WorthOf, Add, Grows;
    if committed == [] {
      GrowsItself(Owners(kind, st));
    } else {
      var init, last := committed[..|committed| - 1], committed[|committed| - 1];
      InitIds(committed);
      AddEachBooks(kind, r, pts, st, cs, init);
      AddEachRelabels(r, st, cs, init);
      var (tt, ds) := AddEach(r, st, cs, init);
      SameIds(cs, ds);
      IdIsFound(ds, last.id);
      var i := FirstIndex(ds, WithId(last.id)).value;
      AddBooks(kind, r, pts, tt, ds[i]);
      var (uu, c) := Add(r, tt, ds[i]);
      GrowsOn(Owners(kind, st), Owners(kind, tt), Owners(kind, uu));
      OthersStay(ds, i, c);
    }
  }

  lemma GrowsOn(a: map<string, int>, b: map<string, int>, c: map<string, int>)
    requires Grows(a, b) && Grows(b, c)
    ensures Grows(a, c)
  {
  }

  lemma GrowsItself(a: map<string, int>)
    ensures Grows(a, a)
  {
  }

  // ----- exactly when a batch keeps the books -----

  /** As SparedAt, for one table of owners. */
  ghost predicate TableSpared(before: map<string, int>, now: map<string, int>, leaving: seq<Contact>, out: set<int>) {
    forall id :: id in out ==> Owned(now, id) == if id in Ids(leaving) then Owned(before, id) else {}
  }

  /** What is booked, in total and for each contact, is what is owned. */
  ghost predicate Balanced(kind: Kind, worth: string -> int, log: Log) {
    && Surplus(kind, worth, log.ledger) == 0
    && forall c :: c in log.contacts ==> Mark(kind, c) == Sum(Owned(Owners(kind, log.ledger), c.id), worth)
  }

  lemma BooksOfLog(kind: Kind, r: Rules, pts: string -> int, log: Log)
    requires LogOk(r, pts, log)
    ensures Balanced(kind, WorthOf(kind, pts), log)
  {
    hide Sum, DupesOk, SumsOk, Held, Covered, Admissible;
    forall c | c in log.contacts ensures c in SetOf(log.contacts) { }
  }

  /** A contact of a scored batch that owned something before it was scored has marks that leave it out. */
  lemma NothingOwnedBefore(kind: Kind, r: Rules, pts: string -> int, o: Outcome, batch: seq<Contact>, after: Log, id: int)
    requires AllAdmissible(pts, o.contacts) && Distinct(batch) && Distinct(o.contacts) && Ids(batch) <= Ids(o.contacts)
    requires AddEach(r, o.ledger, o.contacts, batch) == (after.ledger, after.contacts)
    requires Balanced(kind, WorthOf(kind, pts), after)
    requires Positive(WorthOf(kind, pts)) && id in Ids(batch)
    ensures Owned(Owners(kind, o.ledger), id) == {}
  {
    hide Surplus, Owned, Owners, Sum, Admissible, Mark, WorthOf, AddEach, Positive;
    AddEachBooks(kind, r, pts, o.ledger, o.contacts, batch);
    AddEachRelabels(r, o.ledger, o.contacts, batch);
    SameIds(o.contacts, after.contacts);
    var d :| d in after.contacts && d.id == id;
    SumSubset({}, Owned(Owners(kind, o.ledger), id), WorthOf(kind, pts));
    SumOfNothing(WorthOf(kind, pts));
  }

  lemma SumOfNothing(worth: string -> int)
    ensures Sum({}, worth) == 0
  {
  }

  lemma NotLeaving(priors: seq<Contact>, n: nat, id: int)
    requires n <= |priors|
    ensures id !in Ids(priors[n..]) ==> forall j :: n <= j < |priors| ==> priors[j].id != id
    ensures id in Ids(priors[n..]) ==> exists j :: n <= j < |priors| && priors[j].id == id
  {
    forall j | n <= j < |priors| ensures priors[j].id in Ids(priors[n..]) { assert priors[j] in priors[n..]; }
    if id in Ids(priors[n..]) {
      var c :| c in priors[n..] && c.id == id;
      var j :| n <= j < |priors| && priors[j] == c;
    }
  }

  /** If nothing is owned without marks at the end, every table entry of the batch is as it was. */
  lemma NeverGranted(kind: Kind, r: Rules, pts: string -> int, st: Ledger, cs: seq<Contact>, priors: seq<Contact>,
                     orders: seq<Order>, n: nat, id: int)
    requires n <= |priors| == |orders| && AllAdmissible(pts, cs) && Distinct(priors)
    requires PriorsCovered(kind, WorthOf(kind, pts), st, priors) && Positive(WorthOf(kind, pts))
    requires Surplus(kind, WorthOf(kind, pts), st) == 0
    requires Surplus(kind, WorthOf(kind, pts), AfterRemovals(r, st, cs, priors, orders, |priors|).ledger) == 0
    requires Owned(Owners(kind, AfterRemovals(r, st, cs, priors, orders, |priors|).ledger), id) == {}
    ensures Owned(Owners(kind, AfterRemovals(r, st, cs, priors, orders, n).ledger), id)
            == if id in Ids(priors[n..]) then Owned(Owners(kind, st), id) else {}
  {
    hide AfterRemovals, Surplus, Owned, Admissible, WorthOf, PriorsCovered, Positive, Owners;
    NotLeaving(priors, n, id);
    if id in Ids(priors[n..]) {
      var j :| n <= j < |priors| && priors[j].id == id;
      OwnsMoreThanBefore(kind, r, pts, st, cs, priors, orders, n, id);
      OwnsMore(kind, r, pts, st, cs, priors, orders, n, j, id);
      FreedWhatItOwned(kind, r, pts, st, cs, priors, orders, j);
    } else {
      OwnsMore(kind, r, pts, st, cs, priors, orders, n, |priors|, id);
    }
  }

  /** No removal of a batch hands a key of one kind to a contact of the batch. */
  ghost predicate NoneGranted(kind: Kind, r: Rules, log: Log, step: Step)
    requires step.Upsert?
  {
    var priors, orders := Priors(step.edits), Orders(step.edits);
    forall n :: 0 <= n <= |priors| ==>
      TableSpared(Owners(kind, log.ledger),
                  Owners(kind, AfterRemovals(r, log.ledger, step.arranged, priors, orders, n).ledger),
                  priors[n..], Ids(step.batch))
  }

  /**
   A batch of any kind, contested or not: if the books balance afterwards, no removal has handed a
   multiplier key to a contact of the batch, nor a bonus key if bonus keys are worth something.
   */
  lemma GrantsBreakTheBooks(kind: Kind, r: Rules, pts: string -> int, log: Log, step: Step)
    requires !r.capped && LogOk(r, pts, log) && step.Upsert? && Delivered(r, log, step)
    requires AllAdmissible(pts, step.arranged) && Positive(WorthOf(kind, pts))
    requires Balanced(kind, WorthOf(kind, pts), Perform(r, log, step))
    ensures NoneGranted(kind, r, log, step)
  {
    hide FreedOrders, LogOk, Admissible, Owned, Owners, WorthOf, Positive, AfterRemovals, Surplus, AddEach, RemoveEach;
    var st, cs, batch := log.ledger, step.arranged, step.batch;
    var priors, orders := Priors(step.edits), Orders(step.edits);
    var after := Perform(r, log, step);
    var o := AfterRemovals(r, st, cs, priors, orders, |priors|);
    ScoredInTwo(r, log, step);
    BatchIsReady(kind, r, pts, log, step);
    AddEachBooks(kind, r, pts, o.ledger, o.contacts, batch);
    forall n, id | 0 <= n <= |priors| && id in Ids(batch)
      ensures Owned(Owners(kind, AfterRemovals(r, st, cs, priors, orders, n).ledger), id)
              == if id in Ids(priors[n..]) then Owned(Owners(kind, st), id) else {}
    {
      NothingOwnedBefore(kind, r, pts, o, batch, after, id);
      NeverGranted(kind, r, pts, st, cs, priors, orders, n, id);
    }
  }

  lemma BatchIsReady(kind: Kind, r: Rules, pts: string -> int, log: Log, step: Step)
    requires !r.capped && LogOk(r, pts, log) && step.Upsert? && Delivered(r, log, step) && AllAdmissible(pts, step.arranged)
    ensures Surplus(kind, WorthOf(kind, pts), log.ledger) == 0
    ensures PriorsCovered(kind, WorthOf(kind, pts), log.ledger, Priors(step.edits))
    ensures Distinct(Priors(step.edits)) && Distinct(step.batch)
    ensures var o := AfterRemovals(r, log.ledger, step.arranged, Priors(step.edits), Orders(step.edits), |step.edits|);
            && AllAdmissible(pts, o.contacts) && Distinct(o.contacts) && Ids(step.batch) <= Ids(o.contacts)
  {
    hide FreedOrders, Admissible, Owned, Owners, WorthOf, AfterRemovals, Surplus, Sum, Inv;
    var priors, orders, cs := Priors(step.edits), Orders(step.edits), step.arranged;
    BooksOfLog(kind, r, pts, log);
    forall i | 0 <= i < |priors| ensures priors[i] in log.contacts { assert priors[i] in SetOf(priors); }
    StillAdmissible(r, pts, log.ledger, cs, priors, orders, |priors|);
    StillRelabelled(r, log.ledger, cs, priors, orders, |priors|);
    var o := AfterRemovals(r, log.ledger, cs, priors, orders, |priors|);
    SameIds(cs, o.contacts);
    UpsertStarts(r, log, step);
  }

  lemma SparedByTables(r: Rules, log: Log, step: Step)
    requires step.Upsert? && NoneGranted(Multiplier, r, log, step) && NoneGranted(Bonus, r, log, step)
    ensures Spared(r, log.ledger, step.arranged, Priors(step.edits), Orders(step.edits), Ids(step.batch))
  {
    hide AfterRemovals, Owned;
    var priors, orders := Priors(step.edits), Orders(step.edits);
    forall n | 0 <= n <= |priors|
      ensures SparedAt(log.ledger, AfterRemovals(r, log.ledger, step.arranged, priors, orders, n).ledger, priors[n..],
                       Ids(step.batch))
    {
      var tt := AfterRemovals(r, log.ledger, step.arranged, priors, orders, n).ledger;
      assert TableSpared(Owners(Multiplier, log.ledger), Owners(Multiplier, tt), priors[n..], Ids(step.batch));
      assert TableSpared(Owners(Bonus, log.ledger), Owners(Bonus, tt), priors[n..], Ids(step.batch));
    }
  }

  // ----- dupe keys that pass to the batch -----

  /** Removals make no contact a dupe. */
  lemma {:induction false} NoNewDupes(r: Rules, st: Ledger, cs: seq<Contact>, priors: seq<Contact>, orders: seq<Order>, n: nat)
    requires n <= |priors| == |orders|
    ensures var ds := AfterRemovals(r, st, cs, priors, orders, n).contacts;
            |ds| == |cs| && forall i :: 0 <= i < |cs| && ds[i].marks.dupe ==> cs[i].marks.dupe
  {
    hide AfterRemovals, Remove;
    if n == 0 {
      NoRemoval(r, st, cs, priors, orders);
    } else {
      NoNewDupes(r, st, cs, priors, orders, n - 1);
      NextRemoval(r, st, cs, priors, orders, n - 1);
      var o := AfterRemovals(r, st, cs, priors, orders, n - 1);
      RemoveMakesNoDupe(r, o.ledger, priors[n - 1], o.contacts, Some(priors[n - 1].id), orders[n - 1]);
    }
  }

  lemma RemoveMakesNoDupe(r: Rules, st: Ledger, gone: Contact, cs: seq<Contact>, skip: Option<int>, order: Order)
    ensures var ds := Remove(r, st, gone, cs, skip, order).contacts;
            |ds| == |cs| && forall i :: 0 <= i < |cs| && ds[i].marks.dupe ==> cs[i].marks.dupe
  {
    ReplacedDupeOwners(st, gone, cs, skip);
    hide Replaced, HandOn, Tally;
    var o := Replaced(st, gone, cs, skip);
    HandOnKeepsDupes(Multiplier, MultiplierHands(o), order.mults, skip);
    HandOnKeepsDupes(Bonus, BonusHands(o, order, skip), order.bonuses, skip);
  }

  /** The database returns the contacts of a batch without marks, so none of them is a dupe. */
  ghost predicate Unmarked(batch: seq<Contact>) {
    forall c :: c in batch ==> !c.marks.dupe
  }

  lemma UnmarkedIsNotPromoted(r: Rules, log: Log, step: Step)
    requires Distinct(log.contacts) && step.Upsert? && Delivered(r, log, step) && Unmarked(step.batch)
    ensures NonePromoted(r, log.ledger, step.arranged, Priors(step.edits), Orders(step.edits), Ids(step.batch))
  {
    hide FreedOrders, AfterRemovals, DupeHeir;
    var cs, priors, orders, out := step.arranged, Priors(step.edits), Orders(step.edits), Ids(step.batch);
    UpsertStarts(r, log, step);
    forall n | 0 <= n < |priors|
      ensures var o := AfterRemovals(r, log.ledger, cs, priors, orders, n);
              PromotesPresent(o.ledger, priors[n], o.contacts, Some(priors[n].id), out)
    {
      var o := AfterRemovals(r, log.ledger, cs, priors, orders, n);
      NoNewDupes(r, log.ledger, cs, priors, orders, n);
      StillRelabelled(r, log.ledger, cs, priors, orders, n);
      forall i | 0 <= i < |cs| && o.contacts[i].id in out ensures !o.contacts[i].marks.dupe {
        assert cs[i] in Newcomers(cs, out) && cs[i] in SetOf(step.batch);
      }
    }
  }

  lemma {:induction false} AddEachKeepsOwners(r: Rules, st: Ledger, cs: seq<Contact>, committed: seq<Contact>)
    requires Lists(cs, committed)
    ensures Grows(st.dupeOwners, AddEach(r, st, cs, committed).0.dupeOwners)
    decreases |committed|
  {
    hide Add, Lists;
    if committed != [] {
      var init := committed[..|committed| - 1];
      LastScored(r, st, cs, committed);
      hide AddEach;
      AddEachKeepsOwners(r, st, cs, init);
      var (tt, ds) := AddEach(r, st, cs, init);
      AddDupeTables(r, tt, ds[FirstIndex(ds, WithId(committed[|committed| - 1].id)).value]);
    }
  }

  /** A contact that counts when a batch has been scored found its dupe key free. */
  lemma {:induction false} CountedWasFree(r: Rules, st: Ledger, cs: seq<Contact>, committed: seq<Contact>, i: nat,
                                          d: Contact, k: string)
    requires Lists(cs, committed) && Distinct(cs) && Distinct(committed) && i < |committed|
    requires d in AddEach(r, st, cs, committed).1 && d.id == committed[i].id
    requires !d.marks.dupe && d.facts.dupeKey == Some(k)
    ensures Get(st.dupeCounts, k) == 0 && NobodyHas(committed[..i], k) && committed[i].facts.dupeKey == Some(k)
    decreases |committed|
  {
    hide Add, Lists, Get, NobodyHas;
    var init := committed[..|committed| - 1];
    LastScored(r, st, cs, committed);
    AddEachRelabels(r, st, cs, init);
    hide AddEach;
    var (tt, ds) := AddEach(r, st, cs, init);
    var j := FirstIndex(ds, WithId(committed[|committed| - 1].id)).value;
    AddDupeTables(r, tt, ds[j]);
    OthersStay(ds, j, Add(r, tt, ds[j]).1);
    if i == |committed| - 1 {
      AddEachCounts(r, st, cs, init, k);
      FreeMeansZero(tt, k);
    } else {
      CountedWasFree(r, st, cs, init, i, d, k);
      assert init[..i] == committed[..i];
    }
  }

  lemma FreeMeansZero(st: Ledger, k: string)
    ensures !(Get(st.dupeCounts, k) > 0) <==> Get(st.dupeCounts, k) == 0
  {
  }

  /** In a log in good order nobody but its owner counts for a dupe key, also if a batch was given the key. */
  lemma WaitersCount(r: Rules, pts: string -> int, o: Outcome, batch: seq<Contact>, after: Log)
    requires Lists(o.contacts, batch) && Distinct(o.contacts) && Distinct(batch)
    requires forall k :: k in o.ledger.dupeCounts ==> o.ledger.dupeCounts[k] > 0
    requires AddEach(r, o.ledger, o.contacts, batch) == (after.ledger, after.contacts) && LogOk(r, pts, after)
    ensures WaitingKeysFit(o.ledger, batch)
  {
    hide BooksOk, KeyCountsOk, AddEach, Lists;
    AddEachKeepsOwners(r, o.ledger, o.contacts, batch);
    forall k | k in o.ledger.dupeOwners && o.ledger.dupeOwners[k] in Ids(batch)
      ensures var first := FirstIndex(batch, SharesDupeKey(k, None));
              k !in o.ledger.dupeCounts && first.Some? && batch[first.value].id == o.ledger.dupeOwners[k]
    {
      var d :| d in SetOf(after.contacts) && d.facts.dupeKey == Some(k) && d.id == after.ledger.dupeOwners[k];
      var c :| c in batch && c.id == o.ledger.dupeOwners[k];
      var i :| 0 <= i < |batch| && batch[i] == c;
      CountedWasFree(r, o.ledger, o.contacts, batch, i, d, k);
      FirstWithKey(batch, i, k);
    }
  }

  lemma FirstWithKey(batch: seq<Contact>, i: nat, k: string)
    requires i < |batch| && batch[i].facts.dupeKey == Some(k) && NobodyHas(batch[..i], k)
    ensures FirstIndex(batch, SharesDupeKey(k, None)) == Some(i)
  {
    assert SharesDupeKey(k, None)(batch[i]);
    forall j | 0 <= j < i ensures !SharesDupeKey(k, None)(batch[j]) { assert batch[j] in batch[..i]; }
  }

  /**
   Exactly when a batch keeps the log in good order. For every mix of edits and new contacts, as the database
   returns them, under rules whose bonus keys are worth something: if and only if no search for an heir of a
   multiplier or bonus key stops at a contact of the batch, and dupe keys pass only to those that will count
   for them.
   */
  lemma BatchKeepsIff(r: Rules, pts: string -> int, log: Log, step: Step)
    requires !r.capped && LogOk(r, pts, log) && step.Upsert? && Delivered(r, log, step) && Unmarked(step.batch)
    requires AllAdmissible(pts, step.arranged) && Positive(pts)
    ensures LogOk(r, pts, Perform(r, log, step)) <==> PassesWell(r, log, step)
  {
    hide Perform, Delivered, Admissible, AfterRemovals, Spared, NoSearchStops, NonePromoted, WaitingKeysFit, NoneGranted, Positive,
         Inv, AddEach;
    if PassesWell(r, log, step) {
      UpsertKeeps(r, pts, log, step);
    }
    if LogOk(r, pts, Perform(r, log, step)) {
      BothWorthsPositive(pts);
      BooksOfLog(Multiplier, r, pts, Perform(r, log, step));
      BooksOfLog(Bonus, r, pts, Perform(r, log, step));
      GrantsBreakTheBooks(Multiplier, r, pts, log, step);
      GrantsBreakTheBooks(Bonus, r, pts, log, step);
      SparedByTables(r, log, step);
      UnmarkedIsNotPromoted(r, log, step);
      NoSearchStopped(r, pts, log, step);
      KeysFitAfterwards(r, pts, log, step);
    }
  }

  lemma NoSearchStopped(r: Rules, pts: string -> int, log: Log, step: Step)
    requires LogOk(r, pts, log) && step.Upsert? && Delivered(r, log, step)
    requires NonePromoted(r, log.ledger, step.arranged, Priors(step.edits), Orders(step.edits), Ids(step.batch))
    requires Spared(r, log.ledger, step.arranged, Priors(step.edits), Orders(step.edits), Ids(step.batch))
    ensures NoSearchStops(r, log.ledger, step.arranged, Priors(step.edits), Orders(step.edits), Ids(step.batch))
  {
    hide FreedOrders, AfterRemovals, NonePromoted, Inv, Spared, NoSearchStops;
    UpsertStarts(r, log, step);
    BatchHasPriors(r, log, step);
    SparedIff(r, pts, log.ledger, step.arranged, Priors(step.edits), Orders(step.edits), Ids(step.batch));
  }

  lemma KeysFitAfterwards(r: Rules, pts: string -> int, log: Log, step: Step)
    requires !r.capped && LogOk(r, pts, log) && step.Upsert? && Delivered(r, log, step) && Unmarked(step.batch)
    requires AllAdmissible(pts, step.arranged) && LogOk(r, pts, Perform(r, log, step))
    ensures WaitingKeysFit(AfterRemovals(r, log.ledger, step.arranged, Priors(step.edits), Orders(step.edits), |step.edits|).ledger,
                           step.batch)
  {
    hide FreedOrders, Perform, Admissible, AfterRemovals, NonePromoted, WaitingKeysFit, BooksOk, DupesOk, AddEach, Lists;
    var cs, priors, orders, out := step.arranged, Priors(step.edits), Orders(step.edits), Ids(step.batch);
    UpsertStarts(r, log, step);
    BatchHasPriors(r, log, step);
    UnmarkedIsNotPromoted(r, log, step);
    DupesAfterRemovals(r, log.ledger, cs, priors, orders, out, |priors|);
    BatchIsListed(r, pts, log, step);
    ScoredInTwo(r, log, step);
    WaitersCount(r, pts, AfterRemovals(r, log.ledger, cs, priors, orders, |priors|), step.batch, Perform(r, log, step));
  }

  lemma BothWorthsPositive(pts: string -> int)
    requires Positive(pts)
    ensures Positive(WorthOf(Multiplier, pts)) && Positive(WorthOf(Bonus, pts))
  {
  }
}

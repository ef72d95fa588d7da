/**
 Batches of edits. The old versions of all edited contacts leave the ledger, one after the other,
 before any new version is scored; meanwhile the list of contacts already holds the new versions.
 */
module ScoringBatches {
  import opened Sums
  import opened ScoringSpec
  import opened ScoringLedger
  import opened ScoringOperations

  // ----- what operations leave alone -----

  lemma {:induction false} RemoveEachRelabels(r: Rules, st: Ledger, cs: seq<Contact>, previous: seq<Contact>,
                                              orders: seq<Order>)
    requires |orders| == |previous|
    ensures var o := RemoveEach(r, Outcome(st, cs, {}), previous, orders);
            Relabelled(cs, o.contacts, o.changed)
  {
    if previous != [] {
      hide Remove;
      var n := |previous| - 1;
      RemoveEachRelabels(r, st, cs, previous[..n], orders[..n]);
      var o := RemoveEach(r, Outcome(st, cs, {}), previous[..n], orders[..n]);
      RemoveRelabels(r, o.ledger, previous[n], o.contacts, Some(previous[n].id), orders[n]);
    }
  }

  lemma {:induction false} AddEachRelabels(r: Rules, st: Ledger, cs: seq<Contact>, committed: seq<Contact>)
    ensures Relabelled(cs, AddEach(r, st, cs, committed).1, Ids(committed))
  {
    hide Score, ClaimMultipliers, ClaimBonuses, BumpAll;
    if committed != [] {
      var init := committed[..|committed| - 1];
      AddEachRelabels(r, st, cs, init);
      assert committed == init + [committed[|committed| - 1]];
      assert forall c :: c in init ==> c in committed;
      assert Ids(init) <= Ids(committed);
      assert committed[|committed| - 1].id in Ids(committed);
    }
  }

  // ----- who contests what -----

  /** A contact offers a key that another one owns, or has the dupe key that it owns. */
  ghost predicate Contests(st: Ledger, owner: Contact, c: Contact) {
    || (OwnsDupeKey(st, owner) && c.facts.dupeKey == owner.facts.dupeKey)
    || (exists k :: k in Owned(st.multOwners, owner.id) && k in OfferKeys(Multiplier, c.facts))
    || (exists k :: k in Owned(st.bonusOwners, owner.id) && k in OfferKeys(Bonus, c.facts))
  }

  /** None of some contacts contests a key that a prior version of another one owns. */
  ghost predicate Undisturbed(st: Ledger, priors: set<Contact>, batch: set<Contact>) {
    forall c, d :: c in priors && d in batch && d.id != c.id ==> !Contests(st, c, d)
  }

  function Newcomers(cs: seq<Contact>, out: set<int>): set<Contact> {
    set c | c in cs && c.id in out
  }

  /** Batches of new contacts and batches of one contact are never disturbed. */
  lemma PlainBatches(st: Ledger, priors: seq<Contact>, batch: seq<Contact>)
    requires priors == [] || (|priors| == 1 && |batch| == 1 && batch[0].id == priors[0].id)
    ensures Undisturbed(st, SetOf(priors), SetOf(batch))
  {
    forall c, d | c in SetOf(priors) && d in SetOf(batch) ensures d.id == c.id {
      assert c == priors[0];
    }
  }

  // ----- one removal after the other -----

  /** Each removal of a batch visits the keys it frees in some order. */
  ghost predicate FreedOrders(r: Rules, o: Outcome, previous: seq<Contact>, orders: seq<Order>)
    requires |orders| == |previous|
  {
    previous != [] ==>
      var n := |previous| - 1;
      && FreedOrders(r, o, previous[..n], orders[..n])
      && FreedOrder(RemoveEach(r, o, previous[..n], orders[..n]).ledger, previous[n], orders[n])
  }

  /** The ledger and the contacts after the first n removals of a batch. */
  function AfterRemovals(r: Rules, st: Ledger, cs: seq<Contact>, priors: seq<Contact>, orders: seq<Order>, n: nat): Outcome
    requires n <= |priors| == |orders|
  {
    RemoveEach(r, Outcome(st, cs, {}), priors[..n], orders[..n])
  }

  lemma NextRemoval(r: Rules, st: Ledger, cs: seq<Contact>, priors: seq<Contact>, orders: seq<Order>, n: nat)
    requires n < |priors| == |orders|
    ensures var o := AfterRemovals(r, st, cs, priors, orders, n);
            var p := Remove(r, o.ledger, priors[n], o.contacts, Some(priors[n].id), orders[n]);
            AfterRemovals(r, st, cs, priors, orders, n + 1) == Outcome(p.ledger, p.contacts, o.changed + p.changed)
  {
    hide Remove;
    assert priors[..n + 1][..n] == priors[..n] && orders[..n + 1][..n] == orders[..n];
  }

  lemma NoRemoval(r: Rules, st: Ledger, cs: seq<Contact>, priors: seq<Contact>, orders: seq<Order>)
    requires |priors| == |orders|
    ensures AfterRemovals(r, st, cs, priors, orders, 0) == Outcome(st, cs, {})
    ensures AfterRemovals(r, st, cs, priors, orders, |priors|) == RemoveEach(r, Outcome(st, cs, {}), priors, orders)
    ensures priors[0..] == priors && priors[|priors|..] == []
  {
    hide Remove;
    assert priors[..|priors|] == priors && orders[..|orders|] == orders;
    assert priors[..0] == [] && orders[..0] == [];
  }

  /**
   Of the contacts about to come or go, those that have not left yet own the multiplier and bonus keys they
   owned, the others none.
   */
  ghost predicate SparedAt(st: Ledger, tt: Ledger, leaving: seq<Contact>, out: set<int>) {
    forall id :: id in out ==> if id in Ids(leaving) then OwnsTheSame(st, tt, id) else OwnsNothing(tt, id)
  }

  /** No removal of a batch gives a multiplier or bonus key to a contact of the batch. */
  ghost predicate Spared(r: Rules, st: Ledger, cs: seq<Contact>, priors: seq<Contact>, orders: seq<Order>, out: set<int>)
    requires |priors| == |orders|
  {
    forall n :: 0 <= n <= |priors| ==>
      SparedAt(st, AfterRemovals(r, st, cs, priors, orders, n).ledger, priors[n..], out)
  }

  /** No removal of a batch makes a contact of the batch count, as it would if that came marked as a dupe. */
  ghost predicate NonePromoted(r: Rules, st: Ledger, cs: seq<Contact>, priors: seq<Contact>, orders: seq<Order>, out: set<int>)
    requires |priors| == |orders|
  {
    forall n :: 0 <= n < |priors| ==>
      var o := AfterRemovals(r, st, cs, priors, orders, n);
      PromotesPresent(o.ledger, priors[n], o.contacts, Some(priors[n].id), out)
  }

  /**
   Each dupe key that stands under a contact of the batch once the old versions are gone is in nobody's
   count, and that contact is the first of the batch with it: so it will count when it is scored.
   */
  ghost predicate WaitingKeysFit(st: Ledger, batch: seq<Contact>) {
    forall k :: k in st.dupeOwners && st.dupeOwners[k] in Ids(batch) ==>
      var first := FirstIndex(batch, SharesDupeKey(k, None));
      k !in st.dupeCounts && first.Some? && batch[first.value].id == st.dupeOwners[k]
  }

  lemma IdsSplit(priors: seq<Contact>, n: nat)
    requires n < |priors| && Distinct(priors)
    ensures Ids(priors[n..]) == {priors[n].id} + Ids(priors[n + 1..]) && priors[n].id !in Ids(priors[n + 1..])
    ensures SetOf(priors[n..]) == {priors[n]} + SetOf(priors[n + 1..])
  {
    assert priors[n..] == [priors[n]] + priors[n + 1..];
    forall d | d in priors[n + 1..] ensures d.id != priors[n].id {
      var i :| n < i < |priors| && priors[i] == d;
    }
  }

  lemma IdsWithin(priors: seq<Contact>, n: nat)
    requires n <= |priors|
    ensures Ids(priors[n..]) <= Ids(priors)
  {
    forall d | d in priors[n..] ensures d in priors { }
  }

  lemma SparedMeansGivesNothing(st: Ledger, tt: Ledger, uu: Ledger, priors: seq<Contact>, n: nat, s: Scene)
    requires n < |priors| && Distinct(priors) && Ids(priors) <= s.out
    requires SparedAt(st, tt, priors[n..], s.out)
    ensures SparedAt(st, uu, priors[n + 1..], s.out) <==> GivesNothing(tt, uu, priors[n], s)
  {
    IdsSplit(priors, n);
    IdsWithin(priors, n);
    hide OwnsNothing, OwnsTheSame;
    forall id | id in s.out
      ensures (if id in Ids(priors[n + 1..]) then OwnsTheSame(st, uu, id) else OwnsNothing(uu, id)) <==>
              (if id == priors[n].id then OwnsNothing(uu, id) else OwnsTheSame(tt, uu, id))
    {
      SameOrNothing(st, tt, uu, id);
    }
  }

  lemma SameOrNothing(st: Ledger, tt: Ledger, uu: Ledger, id: int)
    ensures OwnsTheSame(st, tt, id) ==> (OwnsTheSame(st, uu, id) <==> OwnsTheSame(tt, uu, id))
    ensures OwnsNothing(tt, id) ==> (OwnsNothing(uu, id) <==> OwnsTheSame(tt, uu, id))
  {
  }

  // ----- the orders of a batch -----

  lemma {:induction false} FreedAt(r: Rules, st: Ledger, cs: seq<Contact>, priors: seq<Contact>, orders: seq<Order>, i: nat)
    requires i < |priors| == |orders| && FreedOrders(r, Outcome(st, cs, {}), priors, orders)
    ensures FreedOrder(AfterRemovals(r, st, cs, priors, orders, i).ledger, priors[i], orders[i])
    decreases |priors|
  {
    hide FreedOrder, RemoveEach;
    var n := |priors| - 1;
    if i < n {
      FreedAt(r, st, cs, priors[..n], orders[..n], i);
      assert priors[..n][..i] == priors[..i] && orders[..n][..i] == orders[..i];
    }
  }

  lemma {:induction false} FreedOneByOne(r: Rules, st: Ledger, cs: seq<Contact>, priors: seq<Contact>, orders: seq<Order>)
    requires |priors| == |orders|
    requires forall i :: 0 <= i < |priors| ==> FreedOrder(AfterRemovals(r, st, cs, priors, orders, i).ledger, priors[i], orders[i])
    ensures FreedOrders(r, Outcome(st, cs, {}), priors, orders)
    decreases |priors|
  {
    hide FreedOrder, RemoveEach;
    if priors != [] {
      var n := |priors| - 1;
      forall i | 0 <= i < n
        ensures FreedOrder(AfterRemovals(r, st, cs, priors[..n], orders[..n], i).ledger, priors[i], orders[i])
      {
        assert priors[..n][..i] == priors[..i] && orders[..n][..i] == orders[..i];
      }
      FreedOneByOne(r, st, cs, priors[..n], orders[..n]);
      assert FreedOrder(AfterRemovals(r, st, cs, priors, orders, n).ledger, priors[n], orders[n]);
    }
  }

  lemma SameOrder(st: Ledger, tt: Ledger, c: Contact, order: Order)
    requires OwnsTheSame(st, tt, c.id)
    ensures FreedOrder(st, c, order) <==> FreedOrder(tt, c, order)
  {
  }

  /**
   What each removal of a batch frees is what the contact owned before the batch, if nothing passed to
   contacts of the batch. So the orders in which the removals visit the keys are orders of those.
   */
  lemma OrdersAreOfTheStart(r: Rules, st: Ledger, cs: seq<Contact>, priors: seq<Contact>, orders: seq<Order>, out: set<int>)
    requires |priors| == |orders| && Ids(priors) <= out && Spared(r, st, cs, priors, orders, out)
    requires FreedOrders(r, Outcome(st, cs, {}), priors, orders)
    ensures forall i :: 0 <= i < |priors| ==> FreedOrder(st, priors[i], orders[i])
  {
    hide FreedOrders, FreedOrder, AfterRemovals, OwnsTheSame, OwnsNothing;
    forall i | 0 <= i < |priors| ensures FreedOrder(st, priors[i], orders[i]) {
      FreedAt(r, st, cs, priors, orders, i);
      var tt := AfterRemovals(r, st, cs, priors, orders, i).ledger;
      assert SparedAt(st, tt, priors[i..], out);
      assert priors[i] in priors[i..] && priors[i] in priors;
      SameOrder(st, tt, priors[i], orders[i]);
    }
  }

  function BatchScene(priors: seq<Contact>, n: nat, out: set<int>): Scene
    requires n < |priors|
  {
    Scene(Some(priors[n].id), out, SetOf(priors[n + 1..]))
  }

  // ----- undisturbed batches -----

  /** A contact of the batch that is not this one's new version contests nothing that this one owns. */
  lemma StillUndisturbed(st: Ledger, cs: seq<Contact>, priors: seq<Contact>, out: set<int>, o: Outcome, n: nat)
    requires n < |priors| && Ids(priors) <= out
    requires Relabelled(cs, o.contacts, o.changed) && OwnsTheSame(st, o.ledger, priors[n].id)
    requires OwnsDupeKey(o.ledger, priors[n]) ==> OwnsDupeKey(st, priors[n])
    requires Undisturbed(st, SetOf(priors), Newcomers(cs, out))
    ensures NothingContested(o.ledger, priors[n], o.contacts, BatchScene(priors, n, out))
  {
    var p := priors[n];
    forall d | d in o.contacts && d.id in out && d.id != p.id ensures !Contests(st, p, d) {
      var i :| 0 <= i < |o.contacts| && o.contacts[i] == d;
      assert p in SetOf(priors) && cs[i] in Newcomers(cs, out);
      assert Contests(st, p, d) ==> Contests(st, p, cs[i]);
    }
  }

  /**
   Of the contacts about to come or go, only those that have not left yet own a dupe key, their own, which
   they owned from the start.
   */
  ghost predicate KeysInPlace(st: Ledger, tt: Ledger, leaving: seq<Contact>, out: set<int>) {
    forall k :: k in tt.dupeOwners && tt.dupeOwners[k] in out ==>
      && k in st.dupeOwners && st.dupeOwners[k] == tt.dupeOwners[k]
      && exists c :: c in leaving && c.id == tt.dupeOwners[k] && c.facts.dupeKey == Some(k)
  }

  lemma KeysStayInPlace(st: Ledger, tt: Ledger, cs: seq<Contact>, priors: seq<Contact>, n: nat, s: Scene)
    requires n < |priors| && KeysInPlace(st, tt, priors[n..], s.out)
    requires DupeHeirPresent(tt, priors[n], cs, s)
    ensures KeysInPlace(st, Replaced(tt, priors[n], cs, s.skip).ledger, priors[n + 1..], s.out)
  {
    ReplacedDupeOwners(tt, priors[n], cs, s.skip);
    hide Replaced;
    assert priors[n..] == [priors[n]] + priors[n + 1..];
    var p := priors[n];
    var uu := Replaced(tt, priors[n], cs, s.skip).ledger;
    forall k | k in uu.dupeOwners && uu.dupeOwners[k] in s.out
      ensures k in tt.dupeOwners && tt.dupeOwners[k] == uu.dupeOwners[k]
      ensures exists c :: c in priors[n + 1..] && c.id == uu.dupeOwners[k] && c.facts.dupeKey == Some(k)
    {
      assert k in tt.dupeOwners && tt.dupeOwners[k] == uu.dupeOwners[k];
      var c :| c in priors[n..] && c.id == tt.dupeOwners[k] && c.facts.dupeKey == Some(k);
      assert OwnsDupeKey(tt, p) ==> p.facts.dupeKey != Some(k);
    }
  }

  lemma NextIsSpared(r: Rules, st: Ledger, cs: seq<Contact>, priors: seq<Contact>, orders: seq<Order>, out: set<int>, n: nat)
    requires n < |priors| == |orders| && Distinct(priors) && Ids(priors) <= out
    requires Undisturbed(st, SetOf(priors), Newcomers(cs, out))
    requires SparedAt(st, AfterRemovals(r, st, cs, priors, orders, n).ledger, priors[n..], out)
    requires KeysInPlace(st, AfterRemovals(r, st, cs, priors, orders, n).ledger, priors[n..], out)
    requires FreedOrder(AfterRemovals(r, st, cs, priors, orders, n).ledger, priors[n], orders[n])
    ensures SparedAt(st, AfterRemovals(r, st, cs, priors, orders, n + 1).ledger, priors[n + 1..], out)
    ensures KeysInPlace(st, AfterRemovals(r, st, cs, priors, orders, n + 1).ledger, priors[n + 1..], out)
    ensures var o := AfterRemovals(r, st, cs, priors, orders, n);
            DupeHeirPresent(o.ledger, priors[n], o.contacts, BatchScene(priors, n, out))
  {
    hide Undisturbed, FreedOrder, Remove, AfterRemovals, OwnsTheSame, OwnsNothing, NothingContested, GivesNothing,
         Relabelled, DupeHeirPresent;
    var o := AfterRemovals(r, st, cs, priors, orders, n);
    var p, s := priors[n], BatchScene(priors, n, out);
    IdsSplit(priors, n);
    assert p in priors && p.id in Ids(priors);
    assert OwnsTheSame(st, o.ledger, p.id);
    StillRelabelled(r, st, cs, priors, orders, n);
    StillUndisturbed(st, cs, priors, out, o, n);
    RemoveSpares(r, o.ledger, p, o.contacts, s, orders[n]);
    NextRemoval(r, st, cs, priors, orders, n);
    SparedMeansGivesNothing(st, o.ledger, Remove(r, o.ledger, p, o.contacts, s.skip, orders[n]).ledger, priors, n, s);
    KeysStayInPlace(st, o.ledger, o.contacts, priors, n, s);
    RemoveDupeOwners(r, o.ledger, p, o.contacts, s.skip, orders[n]);
  }

  lemma StillRelabelled(r: Rules, st: Ledger, cs: seq<Contact>, priors: seq<Contact>, orders: seq<Order>, n: nat)
    requires n <= |priors| == |orders|
    ensures var o := AfterRemovals(r, st, cs, priors, orders, n);
            Relabelled(cs, o.contacts, o.changed)
  {
    RemoveEachRelabels(r, st, cs, priors[..n], orders[..n]);
  }

  lemma {:induction false} SparedSoFar(r: Rules, st: Ledger, cs: seq<Contact>, priors: seq<Contact>, orders: seq<Order>,
                                       out: set<int>, n: nat)
    requires n <= |priors| == |orders| && Distinct(priors) && Ids(priors) <= out
    requires Undisturbed(st, SetOf(priors), Newcomers(cs, out))
    requires SparedAt(st, st, priors, out) && KeysInPlace(st, st, priors, out)
    requires FreedOrders(r, Outcome(st, cs, {}), priors, orders)
    ensures SparedAt(st, AfterRemovals(r, st, cs, priors, orders, n).ledger, priors[n..], out)
    ensures KeysInPlace(st, AfterRemovals(r, st, cs, priors, orders, n).ledger, priors[n..], out)
  {
    hide Undisturbed, FreedOrders, FreedOrder, AfterRemovals, SparedAt, KeysInPlace, DupeHeirPresent;
    if n == 0 {
      NoRemoval(r, st, cs, priors, orders);
    } else {
      SparedSoFar(r, st, cs, priors, orders, out, n - 1);
      FreedAt(r, st, cs, priors, orders, n - 1);
      NextIsSpared(r, st, cs, priors, orders, out, n - 1);
    }
  }

  /** In a ledger in good order the contacts that are about to come own nothing yet. */
  lemma OwnersAreLive(r: Rules, pts: string -> int, st: Ledger, cs: seq<Contact>, priors: seq<Contact>, out: set<int>)
    requires Inv(r, pts, st, Live(cs, out) + SetOf(priors))
    ensures SparedAt(st, st, priors, out) && KeysInPlace(st, st, priors, out)
  {
    hide Sum, SumsOk, Booked, Covered, Admissible, KeyCountsOk;
    var live := Live(cs, out) + SetOf(priors);
    forall id | id in out && id !in Ids(priors) ensures OwnsNothing(st, id) {
      forall c | c in live ensures c.id != id { }
      NobodyOwns(Multiplier, st.multOwners, live, id);
      NobodyOwns(Bonus, st.bonusOwners, live, id);
    }
  }

  /** A batch in which nobody contests what a leaving version owns gives nothing to contacts of the batch. */
  lemma UndisturbedIsSpared(r: Rules, pts: string -> int, st: Ledger, cs: seq<Contact>, priors: seq<Contact>,
                            orders: seq<Order>, out: set<int>)
    requires |priors| == |orders| && Distinct(priors) && Ids(priors) <= out
    requires Inv(r, pts, st, Live(cs, out) + SetOf(priors))
    requires Undisturbed(st, SetOf(priors), Newcomers(cs, out))
    requires FreedOrders(r, Outcome(st, cs, {}), priors, orders)
    ensures Spared(r, st, cs, priors, orders, out) && NonePromoted(r, st, cs, priors, orders, out)
    ensures var owners := AfterRemovals(r, st, cs, priors, orders, |priors|).ledger.dupeOwners;
            forall k :: k in owners ==> owners[k] !in out
  {
    hide Undisturbed, FreedOrders, FreedOrder, AfterRemovals, SparedAt, Inv;
    OwnersAreLive(r, pts, st, cs, priors, out);
    forall n | 0 <= n <= |priors|
      ensures SparedAt(st, AfterRemovals(r, st, cs, priors, orders, n).ledger, priors[n..], out)
    {
      SparedSoFar(r, st, cs, priors, orders, out, n);
    }
    forall n | 0 <= n < |priors|
      ensures var o := AfterRemovals(r, st, cs, priors, orders, n);
              PromotesPresent(o.ledger, priors[n], o.contacts, Some(priors[n].id), out)
    {
      SparedSoFar(r, st, cs, priors, orders, out, n);
      FreedAt(r, st, cs, priors, orders, n);
      NextIsSpared(r, st, cs, priors, orders, out, n);
    }
    SparedSoFar(r, st, cs, priors, orders, out, |priors|);
    assert priors[|priors|..] == [];
  }

  // ----- where the searches for heirs stop -----

  /** While keys are handed on, no search for an heir stops at a contact that is not in the ledger. */
  ghost predicate SearchesStopPresent(kind: Kind, h: Hands, keys: seq<string>, s: Scene) {
    forall m :: 0 <= m < |keys| ==> HeirPresent(kind, HandOn(kind, h, keys[..m], s.skip), keys[m], s)
  }

  lemma {:induction false} SparesIff(kind: Kind, h: Hands, keys: seq<string>, s: Scene)
    ensures Spares(kind, h, keys, s) <==> SearchesStopPresent(kind, h, keys, s)
    decreases |keys|
  {
    if keys != [] {
      var n := |keys| - 1;
      SparesIff(kind, h, keys[..n], s);
      hide HandOn, HeirPresent;
      SearchesBefore(kind, h, keys, s);
      if Spares(kind, h, keys, s) {
        SparesBefore(kind, h, keys, s);
      }
      if SearchesStopPresent(kind, h, keys, s) {
        OneMoreSpares(kind, h, keys, s);
      }
    }
  }

  lemma SearchesBefore(kind: Kind, h: Hands, keys: seq<string>, s: Scene)
    requires keys != []
    ensures var n := |keys| - 1;
            SearchesStopPresent(kind, h, keys, s) <==>
              SearchesStopPresent(kind, h, keys[..n], s) && HeirPresent(kind, HandOn(kind, h, keys[..n], s.skip), keys[n], s)
  {
    hide HandOn, HeirPresent;
    var n := |keys| - 1;
    forall m | 0 <= m < n ensures keys[..n][..m] == keys[..m] && keys[..n][m] == keys[m] { }
  }

  lemma OneMoreSpares(kind: Kind, h: Hands, keys: seq<string>, s: Scene)
    requires keys != [] && Spares(kind, h, keys[..|keys| - 1], s)
    requires HeirPresent(kind, HandOn(kind, h, keys[..|keys| - 1], s.skip), keys[|keys| - 1], s)
    ensures Spares(kind, h, keys, s)
  {
    var init, key := keys[..|keys| - 1], keys[|keys| - 1];
    var g := HandOn(kind, h, init, s.skip);
    assert HandOn(kind, h, keys, s.skip) == HandOne(kind, g, key, s.skip);
    hide HandOn;
    forall id | id in s.out ensures Owned(HandOne(kind, g, key, s.skip).owners, id) <= Owned(h.owners, id) {
      assert Owned(g.owners, id) <= Owned(h.owners, id);
    }
  }

  /** Both rounds of searches for heirs in the removal of one contact. */
  ghost predicate HeirsPresent(st: Ledger, gone: Contact, cs: seq<Contact>, s: Scene, order: Order) {
    var o := Replaced(st, gone, cs, s.skip);
    && SearchesStopPresent(Multiplier, MultiplierHands(o), order.mults, s)
    && SearchesStopPresent(Bonus, BonusHands(o, order, s.skip), order.bonuses, s)
  }

  /** Replacing a contact claims keys only for a dupe that starts to count. */
  lemma ReplacedGivesNothing(st: Ledger, gone: Contact, cs: seq<Contact>, s: Scene, id: int)
    requires PromotesPresent(st, gone, cs, s.skip, s.out) && id in s.out
    ensures var tt := Replaced(st, gone, cs, s.skip).ledger;
            && Owned(tt.multOwners, id) == (if id == gone.id then {} else Owned(st.multOwners, id))
            && Owned(tt.bonusOwners, id) == (if id == gone.id then {} else Owned(st.bonusOwners, id))
  {
    var heir := DupeHeir(st, gone, cs, s.skip);
    if heir.Some? && cs[heir.value].id == id {
      var st2 := Freed(st, gone, st.dupeOwners[gone.facts.dupeKey.value := id]);
      hide Debited, Owned;
      assert Replaced(st, gone, cs, s.skip) == Outcome(st2, cs, {});
      FreedOwned(st, gone, st2.dupeOwners, id);
    } else {
      hide Replaced, DupeHeir, Owned;
      ReplacedOwned(st, gone, cs, s.skip, id);
    }
  }

  lemma GivesNothingIff(r: Rules, st: Ledger, gone: Contact, cs: seq<Contact>, s: Scene, order: Order)
    requires PromotesPresent(st, gone, cs, s.skip, s.out)
    ensures GivesNothing(st, Remove(r, st, gone, cs, s.skip, order).ledger, gone, s) <==> HeirsPresent(st, gone, cs, s, order)
  {
    hide Replaced, HandOn, Score, SearchesStopPresent, PromotesPresent, Owned;
    var o := Replaced(st, gone, cs, s.skip);
    var tt := Remove(r, st, gone, cs, s.skip, order).ledger;
    SparesIff(Multiplier, MultiplierHands(o), order.mults, s);
    SparesIff(Bonus, BonusHands(o, order, s.skip), order.bonuses, s);
    if HeirsPresent(st, gone, cs, s, order) {
      forall id | id in s.out ensures if id == gone.id then OwnsNothing(tt, id) else OwnsTheSame(st, tt, id) {
        ReplacedGivesNothing(st, gone, cs, s, id);
        HandOnGrows(Multiplier, MultiplierHands(o), order.mults, s.skip);
        HandOnGrows(Bonus, BonusHands(o, order, s.skip), order.bonuses, s.skip);
        OwnedGrows(o.ledger.multOwners, tt.multOwners, id);
        OwnedGrows(o.ledger.bonusOwners, tt.bonusOwners, id);
      }
    }
    if GivesNothing(st, tt, gone, s) {
      hide GivesNothing;
      PartsSpare(r, st, gone, cs, s, order);
    }
  }

  /** In no removal of a batch a search for an heir of a multiplier or bonus key stops at a contact of the batch. */
  ghost predicate NoSearchStops(r: Rules, st: Ledger, cs: seq<Contact>, priors: seq<Contact>, orders: seq<Order>, out: set<int>)
    requires |priors| == |orders|
  {
    forall n :: 0 <= n < |priors| ==>
      var o := AfterRemovals(r, st, cs, priors, orders, n);
      HeirsPresent(o.ledger, priors[n], o.contacts, BatchScene(priors, n, out), orders[n])
  }

  lemma NextSparedIff(r: Rules, st: Ledger, cs: seq<Contact>, priors: seq<Contact>, orders: seq<Order>, out: set<int>, n: nat)
    requires n < |priors| == |orders| && Distinct(priors) && Ids(priors) <= out
    requires NonePromoted(r, st, cs, priors, orders, out)
    requires SparedAt(st, AfterRemovals(r, st, cs, priors, orders, n).ledger, priors[n..], out)
    ensures var o := AfterRemovals(r, st, cs, priors, orders, n);
            SparedAt(st, AfterRemovals(r, st, cs, priors, orders, n + 1).ledger, priors[n + 1..], out) <==>
              HeirsPresent(o.ledger, priors[n], o.contacts, BatchScene(priors, n, out), orders[n])
  {
    hide AfterRemovals, Remove, SparedAt, GivesNothing, HeirsPresent, PromotesPresent;
    var o, s := AfterRemovals(r, st, cs, priors, orders, n), BatchScene(priors, n, out);
    NextRemoval(r, st, cs, priors, orders, n);
    GivesNothingIff(r, o.ledger, priors[n], o.contacts, s, orders[n]);
    SparedMeansGivesNothing(st, o.ledger, Remove(r, o.ledger, priors[n], o.contacts, s.skip, orders[n]).ledger, priors, n, s);
  }

  lemma {:induction false} NoStopsSpare(r: Rules, st: Ledger, cs: seq<Contact>, priors: seq<Contact>, orders: seq<Order>,
                                        out: set<int>, n: nat)
    requires n <= |priors| == |orders| && Distinct(priors) && Ids(priors) <= out
    requires NonePromoted(r, st, cs, priors, orders, out) && NoSearchStops(r, st, cs, priors, orders, out)
    requires SparedAt(st, st, priors, out)
    ensures SparedAt(st, AfterRemovals(r, st, cs, priors, orders, n).ledger, priors[n..], out)
  {
    hide AfterRemovals, SparedAt, HeirsPresent, NonePromoted;
    if n == 0 {
      NoRemoval(r, st, cs, priors, orders);
    } else {
      NoStopsSpare(r, st, cs, priors, orders, out, n - 1);
      NextSparedIff(r, st, cs, priors, orders, out, n - 1);
    }
  }

  /**
   A batch none of whose contacts starts to count in a removal gives no multiplier and no bonus key to its own
   contacts if and only if no search for an heir stops at one of them.
   */
  lemma SparedIff(r: Rules, pts: string -> int, st: Ledger, cs: seq<Contact>, priors: seq<Contact>, orders: seq<Order>,
                  out: set<int>)
    requires |priors| == |orders| && Distinct(priors) && Ids(priors) <= out
    requires Inv(r, pts, st, Live(cs, out) + SetOf(priors)) && NonePromoted(r, st, cs, priors, orders, out)
    ensures Spared(r, st, cs, priors, orders, out) <==> NoSearchStops(r, st, cs, priors, orders, out)
  {
    hide Inv, AfterRemovals, SparedAt, HeirsPresent, NonePromoted;
    OwnersAreLive(r, pts, st, cs, priors, out);
    if NoSearchStops(r, st, cs, priors, orders, out) {
      forall n | 0 <= n <= |priors|
        ensures SparedAt(st, AfterRemovals(r, st, cs, priors, orders, n).ledger, priors[n..], out)
      {
        NoStopsSpare(r, st, cs, priors, orders, out, n);
      }
    }
    if Spared(r, st, cs, priors, orders, out) {
      forall n | 0 <= n < |priors|
        ensures var o := AfterRemovals(r, st, cs, priors, orders, n);
                HeirsPresent(o.ledger, priors[n], o.contacts, BatchScene(priors, n, out), orders[n])
      {
        assert SparedAt(st, AfterRemovals(r, st, cs, priors, orders, n + 1).ledger, priors[n + 1..], out);
        NextSparedIff(r, st, cs, priors, orders, out, n);
      }
    }
  }
}

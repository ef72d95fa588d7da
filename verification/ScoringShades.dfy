/**
 The old versions of a batch may share keys among themselves: while one of them leaves, others
 that are about to leave still offer its keys, but nobody looks at them. In the books of the proof a
 shade stands for each, which offers nothing but the keys it owns. Taking a shade out of the counters
 does what taking out the contact does, and shades never contest each other's keys.
 */
module ScoringShades {
  import opened Sums
  import opened ScoringSpec
  import opened ScoringLedger
  import opened ScoringOperations
  import opened ScoringBatches

  function Kept<T(!new)>(xs: seq<T>, test: T -> bool): (ys: seq<T>)
    ensures forall x :: x in ys <==> x in xs && test(x)
  {
    if xs == [] then [] else
      assert xs == [xs[0]] + xs[1..];
      (if test(xs[0]) then [xs[0]] else []) + Kept(xs[1..], test)
  }

  function Shade(st: Ledger, c: Contact): Contact {
    if c.marks.dupe then Contact(c.id, Facts(None, 0, [], [], []), Marks(0, 0, 0, false))
    else c.(facts := c.facts.(
        multipliers := Kept(c.facts.multipliers, (m: Candidate) => m.key in Owned(st.multOwners, c.id)),
        bonuses := Kept(c.facts.bonuses, (b: (string, int)) => b.0 in Owned(st.bonusOwners, c.id))))
  }

  function Shades(st: Ledger, cs: seq<Contact>): (ds: seq<Contact>)
    ensures |ds| == |cs| && forall i :: 0 <= i < |cs| ==> ds[i] == Shade(st, cs[i])
  {
    seq(|cs|, i requires 0 <= i < |cs| => Shade(st, cs[i]))
  }

  function Owners(kind: Kind, st: Ledger): map<string, int> {
    match kind
    case Multiplier => st.multOwners
    case Bonus => st.bonusOwners
  }

  lemma ShadeOffers(kind: Kind, st: Ledger, c: Contact)
    ensures forall k :: k in OfferKeys(kind, Shade(st, c).facts) <==>
              !c.marks.dupe && k in OfferKeys(kind, c.facts) && k in Owned(Owners(kind, st), c.id)
  {
    if !c.marks.dupe {
      match kind
      case Multiplier => ShadeMultipliers(st, c);
      case Bonus => ShadeBonuses(st, c);
    }
  }

  lemma ShadeMultipliers(st: Ledger, c: Contact)
    requires !c.marks.dupe
    ensures forall k :: k in OfferKeys(Multiplier, Shade(st, c).facts) <==>
              k in OfferKeys(Multiplier, c.facts) && k in Owned(st.multOwners, c.id)
  {
    var ms, ns := c.facts.multipliers, Shade(st, c).facts.multipliers;
    forall k ensures k in OfferKeys(Multiplier, Shade(st, c).facts) <==> exists m :: m in ns && m.key == k {
      OfferedCandidate(Shade(st, c).facts, k);
    }
    forall k ensures k in OfferKeys(Multiplier, c.facts) <==> exists m :: m in ms && m.key == k {
      OfferedCandidate(c.facts, k);
    }
  }

  lemma OfferedCandidate(f: Facts, k: string)
    ensures k in OfferKeys(Multiplier, f) <==> exists m :: m in f.multipliers && m.key == k
  {
    var offers := Offers(Multiplier, f);
    assert forall i :: 0 <= i < |offers| ==> offers[i].0 == f.multipliers[i].key;
    if k in OfferKeys(Multiplier, f) {
      var i :| 0 <= i < |offers| && offers[i].0 == k;
      assert f.multipliers[i] in f.multipliers;
    }
    if m :| m in f.multipliers && m.key == k {
      var i :| 0 <= i < |f.multipliers| && f.multipliers[i] == m;
      assert offers[i].0 == k;
    }
  }

  lemma ShadeBonuses(st: Ledger, c: Contact)
    requires !c.marks.dupe
    ensures forall k :: k in OfferKeys(Bonus, Shade(st, c).facts) <==>
              k in OfferKeys(Bonus, c.facts) && k in Owned(st.bonusOwners, c.id)
  {
    var bs, ds := c.facts.bonuses, Shade(st, c).facts.bonuses;
    forall k | k in KeysOf(ds) ensures k in KeysOf(bs) && k in Owned(st.bonusOwners, c.id) {
      var i :| 0 <= i < |ds| && ds[i].0 == k;
      assert ds[i] in ds;
      var j :| 0 <= j < |bs| && bs[j] == ds[i];
    }
    forall k | k in KeysOf(bs) && k in Owned(st.bonusOwners, c.id) ensures k in KeysOf(ds) {
      var i :| 0 <= i < |bs| && bs[i].0 == k;
      assert bs[i] in ds;
      var j :| 0 <= j < |ds| && ds[j] == bs[i];
    }
  }

  // ----- a shade in the place of a contact -----

  lemma ShadeAdmissible(pts: string -> int, st: Ledger, c: Contact)
    requires Admissible(pts, c.facts)
    ensures Admissible(pts, Shade(st, c).facts)
  {
    var d := Shade(st, c);
    if !c.marks.dupe {
      forall i | 0 <= i < |d.facts.multipliers| ensures d.facts.multipliers[i].maxCount.None? {
        assert d.facts.multipliers[i] in d.facts.multipliers;
        assert d.facts.multipliers[i] in c.facts.multipliers;
      }
      forall i | 0 <= i < |d.facts.bonuses| ensures d.facts.bonuses[i].1 == pts(d.facts.bonuses[i].0) {
        assert d.facts.bonuses[i] in d.facts.bonuses;
        assert d.facts.bonuses[i] in c.facts.bonuses;
      }
    }
  }

  lemma ShadeClaims(kind: Kind, worth: string -> int, st: Ledger, total: int, live: set<Contact>, c: Contact)
    requires ClaimsOk(kind, worth, Owners(kind, st), total, live, {})
    requires UniqueIds(live) && c in live && !c.marks.dupe
    ensures ClaimsOk(kind, worth, Owners(kind, st), total, Swapped(live, c, Shade(st, c)), {})
  {
    hide Sum, Shade, Booked;
    var owners, d := Owners(kind, st), Shade(st, c);
    var next := Swapped(live, c, d);
    ShadeOffers(kind, st, c);
    SameMarks(st, c);
    RemarkBooked(kind, worth, owners, live, c, d);
    forall k | k in owners ensures exists e :: Holds(kind, e, k, next) && e.id == owners[k] {
      var e :| Holds(kind, e, k, live) && e.id == owners[k];
      assert Holds(kind, if e == c then d else e, k, next);
    }
    forall e, k | Holds(kind, e, k, next) ensures k in owners.Keys {
      if e in live { assert Holds(kind, e, k, live); }
    }
  }

  lemma SameMarks(st: Ledger, c: Contact)
    requires !c.marks.dupe
    ensures Shade(st, c).id == c.id && Shade(st, c).marks == c.marks
    ensures Shade(st, c).facts.dupeKey == c.facts.dupeKey && Shade(st, c).facts.points == c.facts.points
    ensures Shade(st, c).facts.countKeys == c.facts.countKeys
  {
  }

  lemma ShadeOfCounting(pts: string -> int, st: Ledger, live: set<Contact>, c: Contact)
    requires BooksOk(pts, st, live, NOTHING_PENDING) && c in live && !c.marks.dupe
    ensures BooksOk(pts, st, Swapped(live, c, Shade(st, c)), NOTHING_PENDING)
  {
    hide Sum, Shade, SumsOk, ClaimsOk, Admissible;
    SameMarks(st, c);
    ShadeAdmissible(pts, st, c);
    SwapKeepsSums(st.totals.qsoCount, st.totals.qsoPoints, st.counts, live, c, Shade(st, c));
    ShadeClaims(Multiplier, ONE, st, st.raw, live, c);
    ShadeClaims(Bonus, pts, st, st.direct, live, c);
  }

  lemma BareClaims(kind: Kind, worth: string -> int, owners: map<string, int>, total: int, live: set<Contact>,
                   c: Contact, d: Contact)
    requires ClaimsOk(kind, worth, owners, total, live, {}) && UniqueIds(live) && c in live && c.marks.dupe
    requires d.id == c.id && !d.marks.dupe && Offers(kind, d.facts) == [] && Mark(kind, d) == 0
    ensures ClaimsOk(kind, worth, owners, total, Swapped(live, c, d), {})
  {
    hide ClaimsOk;
    DupeLeaves(kind, worth, owners, total, live, {}, c);
    ClaimKeeps(kind, worth, owners, total, live - {c}, {}, d);
  }

  lemma BareSums(qsoCount: nat, qsoPoints: int, counts: map<string, nat>, live: set<Contact>, st: Ledger, c: Contact)
    requires SumsOk(qsoCount, qsoPoints, counts, live) && UniqueIds(live) && c in live && c.marks.dupe
    ensures SumsOk(qsoCount, qsoPoints, counts, Swapped(live, c, Shade(st, c)))
  {
    hide Sum;
    assert c.marks.pts == 0;
    SumsLeave(qsoCount, qsoPoints, counts, live, c);
    hide SumsOk;
    SumsJoin(qsoCount - 1, qsoPoints, counts, live - {c}, Shade(st, c));
  }

  lemma ShadeOfDupe(pts: string -> int, st: Ledger, live: set<Contact>, c: Contact)
    requires BooksOk(pts, st, live, NOTHING_PENDING) && c in live && c.marks.dupe
    ensures BooksOk(pts, st, Swapped(live, c, Shade(st, c)), NOTHING_PENDING)
  {
    hide Sum, SumsOk, ClaimsOk;
    var d := Shade(st, c);
    assert Admissible(pts, d.facts);
    hide Admissible;
    BareSums(st.totals.qsoCount, st.totals.qsoPoints, st.counts, live, st, c);
    assert Offers(Multiplier, d.facts) == [] && Offers(Bonus, d.facts) == [];
    BareClaims(Multiplier, ONE, st.multOwners, st.raw, live, c, d);
    BareClaims(Bonus, pts, st.bonusOwners, st.direct, live, c, d);
  }

  lemma OneShade(pts: string -> int, st: Ledger, live: set<Contact>, c: Contact)
    requires BooksOk(pts, st, live, NOTHING_PENDING) && c in live
    ensures BooksOk(pts, st, Swapped(live, c, Shade(st, c)), NOTHING_PENDING)
  {
    hide BooksOk;
    if c.marks.dupe { ShadeOfDupe(pts, st, live, c); } else { ShadeOfCounting(pts, st, live, c); }
  }

  /** Shades in the place of the first n contacts that are about to leave. */
  lemma {:induction false} ShadesKeep(pts: string -> int, st: Ledger, stay: set<Contact>, cs: seq<Contact>, n: nat)
    requires n <= |cs| && Distinct(cs) && (forall c :: c in stay ==> c.id !in Ids(cs))
    requires BooksOk(pts, st, stay + SetOf(cs), NOTHING_PENDING)
    ensures BooksOk(pts, st, stay + SetOf(Shades(st, cs[..n])) + SetOf(cs[n..]), NOTHING_PENDING)
  {
    hide BooksOk, Shade;
    if n == 0 {
      assert cs[..0] == [] && cs[0..] == cs;
      assert stay + SetOf(Shades(st, cs[..0])) + SetOf(cs[0..]) == stay + SetOf(cs);
    } else {
      ShadesKeep(pts, st, stay, cs, n - 1);
      assert cs[n - 1..] == [cs[n - 1]] + cs[n..];
      OneShade(pts, st, stay + SetOf(Shades(st, cs[..n - 1])) + SetOf(cs[n - 1..]), cs[n - 1]);
      SwapsNext(st, stay, cs, n);
    }
  }

  lemma SwapsNext(st: Ledger, stay: set<Contact>, cs: seq<Contact>, n: nat)
    requires 0 < n <= |cs| && Distinct(cs) && (forall c :: c in stay ==> c.id !in Ids(cs))
    ensures Swapped(stay + SetOf(Shades(st, cs[..n - 1])) + SetOf(cs[n - 1..]), cs[n - 1], Shade(st, cs[n - 1]))
            == stay + SetOf(Shades(st, cs[..n])) + SetOf(cs[n..])
  {
    var c := cs[n - 1];
    assert c in cs && c.id in Ids(cs);
    forall i | 0 <= i < n - 1 ensures Shade(st, cs[i]) != c { assert cs[i].id != c.id; }
    hide Shade;
    assert Shades(st, cs[..n]) == Shades(st, cs[..n - 1]) + [Shade(st, c)];
    assert cs[n - 1..] == [c] + cs[n..];
    assert c !in SetOf(Shades(st, cs[..n - 1]));
    forall d | d in cs[n..] ensures d != c {
      var i :| n <= i < |cs| && cs[i] == d;
    }
  }

  lemma ShadeMimics(pts: string -> int, st: Ledger, live: set<Contact>, c: Contact)
    requires BooksOk(pts, st, live, NOTHING_PENDING) && c in live
    ensures Mimics(c, Shade(st, c))
  {
    hide Sum, Admissible;
    if c.marks.dupe {
      NobodyOwns(Multiplier, st.multOwners, live, c.id);
      NobodyOwns(Bonus, st.bonusOwners, live, c.id);
      NothingWeighs();
      assert Mark(Multiplier, c) == Sum(Owned(st.multOwners, c.id), ONE);
      assert Mark(Bonus, c) == Sum(Owned(st.bonusOwners, c.id), pts);
    }
  }

  lemma NothingWeighs()
    ensures forall w: string -> int :: Sum({}, w) == 0
  {
  }

  // ----- the old versions leave -----

  /** Shades own what they offer, so one that leaves leaves the others alone. */
  lemma ShadesLeftAlone(st: Ledger, tt: Ledger, priors: seq<Contact>, n: nat, s: Scene)
    requires n < |priors| && Distinct(priors) && OwnsTheSame(st, tt, priors[n].id)
    requires s.leaving == SetOf(Shades(st, priors)[n + 1..])
    ensures LeavesAlone(tt, priors[n], s)
  {
    var shades := Shades(st, priors);
    forall d, kind, k | d in s.leaving && k in Owned(Owners(kind, tt), priors[n].id)
      ensures k !in OfferKeys(kind, d.facts)
    {
      var j :| n < j < |shades| && shades[j] == d;
      ShadeOffers(kind, st, priors[j]);
    }
    assert Owners(Multiplier, tt) == tt.multOwners && Owners(Bonus, tt) == tt.bonusOwners;
  }

  lemma ShadeScene(pts: string -> int, st: Ledger, o: Outcome, priors: seq<Contact>, out: set<int>, n: nat)
    requires n < |priors| && Distinct(priors) && Ids(priors) <= out && Distinct(o.contacts)
    ensures var shades := Shades(st, priors);
            var s := BatchScene(shades, n, out);
            && Removable(priors[n], o.contacts, s) && s.skip == Some(priors[n].id)
            && Live(o.contacts, out) + SetOf(shades[n..]) == Present(o.contacts, s) + {shades[n]}
  {
    var shades := Shades(st, priors);
    forall i | 0 <= i < |priors| ensures shades[i].id == priors[i].id && priors[i].id in out {
      assert priors[i] in priors;
    }
    hide Shades;
    IdsSplit(shades, n);
    forall d | d in shades[n + 1..] ensures d.id in out && d.id != priors[n].id {
      var j :| n < j < |shades| && shades[j] == d;
    }
  }

  /** The books while the old versions leave: what has a shade counts, until the shade has left too. */
  lemma {:induction false} BooksAfterRemovals(r: Rules, pts: string -> int, st: Ledger, cs: seq<Contact>,
                                              priors: seq<Contact>, orders: seq<Order>, out: set<int>, n: nat)
    requires n <= |priors| == |orders| && Distinct(priors) && Distinct(cs) && Ids(priors) <= out
    requires BooksOk(pts, st, Live(cs, out) + SetOf(priors), NOTHING_PENDING)
    requires Spared(r, st, cs, priors, orders, out) && NonePromoted(r, st, cs, priors, orders, out)
    requires FreedOrders(r, Outcome(st, cs, {}), priors, orders)
    ensures var o := AfterRemovals(r, st, cs, priors, orders, n);
            && Distinct(o.contacts)
            && BooksOk(pts, o.ledger, Live(o.contacts, out) + SetOf(Shades(st, priors)[n..]), NOTHING_PENDING)
            && (n > 0 ==> o.ledger.totals == Tallied(r, o.ledger).totals)
  {
    hide BooksOk, FreedOrder, FreedOrders, SparedAt, PromotesPresent, AfterRemovals, Remove, Tallied, Shade;
    if n == 0 {
      NoRemoval(r, st, cs, priors, orders);
      assert forall c :: c in Live(cs, out) ==> c.id !in Ids(priors);
      ShadesKeep(pts, st, Live(cs, out), priors, |priors|);
      assert priors[..|priors|] == priors && priors[|priors|..] == [] && Shades(st, priors)[0..] == Shades(st, priors);
      assert Live(cs, out) + SetOf(Shades(st, priors)) + SetOf([]) == Live(cs, out) + SetOf(Shades(st, priors));
    } else {
      BooksAfterRemovals(r, pts, st, cs, priors, orders, out, n - 1);
      NextBooks(r, pts, st, cs, priors, orders, out, n - 1);
    }
  }

  lemma NextMayLeave(r: Rules, st: Ledger, cs: seq<Contact>, priors: seq<Contact>, orders: seq<Order>, out: set<int>,
                     n: nat, s: Scene)
    requires n < |priors| == |orders| && Distinct(priors) && Ids(priors) <= out
    requires Spared(r, st, cs, priors, orders, out) && NonePromoted(r, st, cs, priors, orders, out)
    requires s.skip == Some(priors[n].id) && s.out == out && s.leaving == SetOf(Shades(st, priors)[n + 1..])
    ensures var o := AfterRemovals(r, st, cs, priors, orders, n);
            && LeavesAlone(o.ledger, priors[n], s)
            && PromotesPresent(o.ledger, priors[n], o.contacts, s.skip, out)
            && GivesNothing(o.ledger, Remove(r, o.ledger, priors[n], o.contacts, s.skip, orders[n]).ledger, priors[n], s)
  {
    hide SparedAt, PromotesPresent, AfterRemovals, Remove, Shade, OwnsTheSame, OwnsNothing, LeavesAlone, GivesNothing;
    var o := AfterRemovals(r, st, cs, priors, orders, n);
    NextRemoval(r, st, cs, priors, orders, n);
    var o' := Remove(r, o.ledger, priors[n], o.contacts, s.skip, orders[n]);
    assert SparedAt(st, o.ledger, priors[n..], out);
    assert SparedAt(st, AfterRemovals(r, st, cs, priors, orders, n + 1).ledger, priors[n + 1..], out);
    SparedMeansGivesNothing(st, o.ledger, o'.ledger, priors, n, s);
    StillOwned(st, o.ledger, priors, out, n);
    ShadesLeftAlone(st, o.ledger, priors, n, s);
  }

  lemma NextBooks(r: Rules, pts: string -> int, st: Ledger, cs: seq<Contact>, priors: seq<Contact>, orders: seq<Order>,
                  out: set<int>, n: nat)
    requires n < |priors| == |orders| && Distinct(priors) && Ids(priors) <= out
    requires BooksOk(pts, st, Live(cs, out) + SetOf(priors), NOTHING_PENDING)
    requires Spared(r, st, cs, priors, orders, out) && NonePromoted(r, st, cs, priors, orders, out)
    requires FreedOrders(r, Outcome(st, cs, {}), priors, orders)
    requires var o := AfterRemovals(r, st, cs, priors, orders, n);
             && Distinct(o.contacts)
             && BooksOk(pts, o.ledger, Live(o.contacts, out) + SetOf(Shades(st, priors)[n..]), NOTHING_PENDING)
    ensures var o := AfterRemovals(r, st, cs, priors, orders, n + 1);
            && Distinct(o.contacts)
            && BooksOk(pts, o.ledger, Live(o.contacts, out) + SetOf(Shades(st, priors)[n + 1..]), NOTHING_PENDING)
            && o.ledger.totals == Tallied(r, o.ledger).totals
  {
    hide BooksOk, FreedOrder, FreedOrders, Spared, NonePromoted, PromotesPresent, AfterRemovals, Remove, Tallied, Shade,
         LeavesAlone, GivesNothing, Mimics, Removable, Live, Distinct, Ids;
    var o := AfterRemovals(r, st, cs, priors, orders, n);
    var shades := Shades(st, priors);
    var s := BatchScene(shades, n, out);
    ShadeScene(pts, st, o, priors, out, n);
    NextRemoval(r, st, cs, priors, orders, n);
    NextMayLeave(r, st, cs, priors, orders, out, n, s);
    FreedAt(r, st, cs, priors, orders, n);
    assert priors[n] in SetOf(priors);
    ShadeMimics(pts, st, Live(cs, out) + SetOf(priors), priors[n]);
    RemoveKeepsBooks(r, pts, o.ledger, priors[n], shades[n], o.contacts, s, orders[n]);
  }

  lemma StillOwned(st: Ledger, tt: Ledger, priors: seq<Contact>, out: set<int>, n: nat)
    requires n < |priors| && Ids(priors) <= out && SparedAt(st, tt, priors[n..], out)
    ensures OwnsTheSame(st, tt, priors[n].id)
  {
    assert priors[n] in priors[n..] && priors[n] in priors;
  }

  /** The dupe keys while the old versions leave. */
  lemma {:induction false} DupesAfterRemovals(r: Rules, st: Ledger, cs: seq<Contact>, priors: seq<Contact>,
                                              orders: seq<Order>, out: set<int>, n: nat)
    requires n <= |priors| == |orders| && Distinct(priors) && Distinct(cs) && Ids(priors) <= out
    requires DupesOk(st.dupeCounts, st.dupeOwners, Live(cs, out) + SetOf(priors))
    requires NonePromoted(r, st, cs, priors, orders, out)
    ensures var o := AfterRemovals(r, st, cs, priors, orders, n);
            && DupesStand(o.ledger.dupeOwners, o.contacts, out)
            && KeyCountsOk(o.ledger.dupeCounts, Live(cs, out) + SetOf(priors[n..]))
  {
    hide DupesStand, KeyCountsOk, PromotesPresent, AfterRemovals, Remove, KeyDropped;
    if n == 0 {
      NoRemoval(r, st, cs, priors, orders);
      assert forall c :: c in priors ==> c.id in Ids(priors);
      DupesStandAtFirst(st.dupeCounts, st.dupeOwners, cs, out, SetOf(priors));
    } else {
      DupesAfterRemovals(r, st, cs, priors, orders, out, n - 1);
      var o := AfterRemovals(r, st, cs, priors, orders, n - 1);
      var p := priors[n - 1];
      StillDistinct(r, st, cs, priors, orders, n - 1);
      assert p in priors && p.id in Ids(priors);
      NextRemoval(r, st, cs, priors, orders, n - 1);
      RemoveDupes(r, o.ledger, p, o.contacts, Some(p.id), orders[n - 1], out);
      IdsSplit(priors, n - 1);
      assert p !in SetOf(priors[n..]) && p !in Live(cs, out);
      assert Live(cs, out) + SetOf(priors[n - 1..]) - {p} == Live(cs, out) + SetOf(priors[n..]);
      KeyCountsLeave(o.ledger.dupeCounts, Live(cs, out) + SetOf(priors[n - 1..]), p);
    }
  }

  lemma StillDistinct(r: Rules, st: Ledger, cs: seq<Contact>, priors: seq<Contact>, orders: seq<Order>, n: nat)
    requires n <= |priors| == |orders| && Distinct(cs)
    ensures Distinct(AfterRemovals(r, st, cs, priors, orders, n).contacts)
  {
    StillRelabelled(r, st, cs, priors, orders, n);
    hide AfterRemovals;
  }

  /** The ledger without the dupe keys that stand under contacts of a batch. */
  function WithoutWaiting(st: Ledger, out: set<int>): Ledger {
    st.(dupeOwners := Settled(st.dupeOwners, out))
  }

  /**
   The old versions of a batch leave the ledger in good order, as long as no removal gives a multiplier or
   bonus key to a contact of the batch, and the dupe keys that pass to contacts of the batch are nobody
   else's. What old versions share among themselves does not matter.
   */
  lemma OldVersionsLeave(r: Rules, pts: string -> int, st: Ledger, cs: seq<Contact>, priors: seq<Contact>,
                         orders: seq<Order>, out: set<int>)
    requires |priors| == |orders| && Distinct(priors) && Distinct(cs) && Ids(priors) <= out
    requires Inv(r, pts, st, Live(cs, out) + SetOf(priors))
    requires Spared(r, st, cs, priors, orders, out) && NonePromoted(r, st, cs, priors, orders, out)
    requires FreedOrders(r, Outcome(st, cs, {}), priors, orders)
    requires var tt := AfterRemovals(r, st, cs, priors, orders, |priors|).ledger;
             forall k :: k in tt.dupeOwners && tt.dupeOwners[k] in out ==> k !in tt.dupeCounts
    ensures var o := AfterRemovals(r, st, cs, priors, orders, |priors|);
            && Distinct(o.contacts)
            && Inv(r, pts, WithoutWaiting(o.ledger, out), Live(o.contacts, out))
  {
    hide BooksOk, DupesOk, AfterRemovals, FreedOrders, Spared, NonePromoted, DupesStand, KeyCountsOk, Live, SetOf, Shades;
    var n := |priors|;
    var o := AfterRemovals(r, st, cs, priors, orders, n);
    BooksAfterRemovals(r, pts, st, cs, priors, orders, out, n);
    DupesAfterRemovals(r, st, cs, priors, orders, out, n);
    AllGone(priors, Shades(st, priors));
    assert Live(cs, out) + {} == Live(cs, out) && Live(o.contacts, out) + {} == Live(o.contacts, out);
    StillRelabelled(r, st, cs, priors, orders, n);
    RelabelledCounts(o.ledger.dupeCounts, cs, o.contacts, o.changed, out);
    DupesInOrder(o.ledger.dupeCounts, o.ledger.dupeOwners, o.contacts, out);
    if n == 0 { NobodyStays(r, st, cs, priors, orders); }
    SameBooks(pts, o.ledger, Live(o.contacts, out), Settled(o.ledger.dupeOwners, out));
  }

  lemma AllGone(priors: seq<Contact>, shades: seq<Contact>)
    requires |shades| == |priors|
    ensures SetOf(priors[|priors|..]) == {} && SetOf(shades[|priors|..]) == {}
  {
  }

  lemma SameBooks(pts: string -> int, st: Ledger, live: set<Contact>, dupeOwners: map<string, int>)
    requires BooksOk(pts, st, live, NOTHING_PENDING)
    ensures BooksOk(pts, st.(dupeOwners := dupeOwners), live, NOTHING_PENDING)
  {
    hide ClaimsOk, SumsOk;
  }

  lemma NobodyStays(r: Rules, st: Ledger, cs: seq<Contact>, priors: seq<Contact>, orders: seq<Order>)
    requires priors == [] && orders == []
    ensures AfterRemovals(r, st, cs, priors, orders, 0) == Outcome(st, cs, {})
    ensures SetOf(priors) == {}
  {
    NoRemoval(r, st, cs, priors, orders);
  }
}

/** Adding and removing one contact re-establish the ledger's invariant. */
module ScoringOperations {
  import opened Sums
  import opened ScoringSpec
  import opened ScoringLedger

  // ----- counting tables -----

  lemma {:induction false} BumpAllGet(m: map<string, nat>, keys: seq<string>)
    ensures forall k :: Get(BumpAll(m, keys), k) == Get(m, k) + multiset(keys)[k]
    ensures (forall k :: k in m ==> m[k] > 0) ==> forall k :: k in BumpAll(m, keys) ==> BumpAll(m, keys)[k] > 0
  {
    if keys != [] {
      BumpAllGet(m, keys[..|keys| - 1]);
      assert keys == keys[..|keys| - 1] + [keys[|keys| - 1]];
    }
  }

  lemma {:induction false} DropAllGet(m: map<string, nat>, keys: seq<string>)
    requires forall k :: k in m ==> m[k] > 0
    requires forall k :: multiset(keys)[k] <= Get(m, k)
    ensures forall k :: Get(DropAll(m, keys), k) == Get(m, k) - multiset(keys)[k]
    ensures forall k :: k in DropAll(m, keys) ==> DropAll(m, keys)[k] > 0
  {
    if keys != [] {
      assert keys == keys[..|keys| - 1] + [keys[|keys| - 1]];
      DropAllGet(m, keys[..|keys| - 1]);
    }
  }

  lemma EqualTables(a: map<string, nat>, b: map<string, nat>)
    requires forall k :: Get(a, k) == Get(b, k)
    requires (forall k :: k in a ==> a[k] > 0) && (forall k :: k in b ==> b[k] > 0)
    ensures a == b
  {
    forall k ensures k in a <==> k in b { assert Get(a, k) == Get(b, k); }
    forall k | k in a ensures a[k] == b[k] { assert Get(a, k) == Get(b, k); }
  }

  // ----- the counters -----

  lemma SumsJoin(qsoCount: nat, qsoPoints: int, counts: map<string, nat>, live: set<Contact>, c: Contact)
    requires SumsOk(qsoCount, qsoPoints, counts, live) && c !in live
    requires c.marks.pts == if c.marks.dupe then 0 else c.facts.points
    ensures SumsOk(qsoCount + 1, qsoPoints + c.marks.pts,
                   if !c.marks.dupe && c.facts.points > 0 then BumpAll(counts, c.facts.countKeys) else counts,
                   live + {c})
  {
    hide Sum;
    SumGrow(live, c);
    BumpAllGet(counts, c.facts.countKeys);
    var counts' := if !c.marks.dupe && c.facts.points > 0 then BumpAll(counts, c.facts.countKeys) else counts;
    forall k ensures Get(counts', k) == Sum(live + {c}, CountWeight(k)) {
      assert Sum(live + {c}, CountWeight(k)) == Sum(live, CountWeight(k)) + CountWeight(k)(c);
    }
  }

  lemma CountsCover(counts: map<string, nat>, live: set<Contact>, c: Contact)
    requires forall k :: Get(counts, k) == Sum(live, CountWeight(k))
    requires c in live && !c.marks.dupe && c.facts.points > 0
    ensures forall k :: multiset(c.facts.countKeys)[k] <= Get(counts, k)
  {
    forall k ensures multiset(c.facts.countKeys)[k] <= Get(counts, k) {
      SumNonNegative(live, CountWeight(k));
      assert CountWeight(k)(c) <= Sum(live, CountWeight(k));
    }
  }

  lemma SumsLeave(qsoCount: nat, qsoPoints: int, counts: map<string, nat>, live: set<Contact>, c: Contact)
    requires SumsOk(qsoCount, qsoPoints, counts, live) && c in live
    ensures qsoCount > 0
    ensures SumsOk(qsoCount - 1, qsoPoints - c.marks.pts,
                   if !c.marks.dupe && c.marks.pts > 0 then DropAll(counts, c.facts.countKeys) else counts,
                   live - {c})
  {
    hide Sum;
    SumShrink(live, c);
    var counts' := if !c.marks.dupe && c.marks.pts > 0 then DropAll(counts, c.facts.countKeys) else counts;
    if !c.marks.dupe && c.marks.pts > 0 {
      CountsCover(counts, live, c);
      DropAllGet(counts, c.facts.countKeys);
    }
    forall k ensures Get(counts', k) == Sum(live - {c}, CountWeight(k)) {
      assert Sum(live - {c}, CountWeight(k)) == Sum(live, CountWeight(k)) - CountWeight(k)(c);
    }
  }

  // ----- dupes -----

  lemma KeyCountsJoin(dupeCounts: map<string, nat>, live: set<Contact>, c: Contact)
    requires KeyCountsOk(dupeCounts, live) && c !in live
    ensures KeyCountsOk(if c.facts.dupeKey.Some? then Bump(dupeCounts, c.facts.dupeKey.value) else dupeCounts, live + {c})
  {
    hide Sum;
    SumGrow(live, c);
    var next := if c.facts.dupeKey.Some? then Bump(dupeCounts, c.facts.dupeKey.value) else dupeCounts;
    forall k ensures Get(next, k) == Sum(live + {c}, KeyWeight(k)) {
      assert Sum(live + {c}, KeyWeight(k)) == Sum(live, KeyWeight(k)) + KeyWeight(k)(c);
    }
  }

  function KeyDropped(dupeCounts: map<string, nat>, c: Contact): map<string, nat> {
    if c.facts.dupeKey.Some? then Drop(dupeCounts, c.facts.dupeKey.value) else dupeCounts
  }

  lemma KeyCountsLeave(dupeCounts: map<string, nat>, live: set<Contact>, c: Contact)
    requires KeyCountsOk(dupeCounts, live) && c in live
    ensures KeyCountsOk(KeyDropped(dupeCounts, c), live - {c})
  {
    hide Sum;
    if c.facts.dupeKey.Some? { KeyPresent(live, c.facts.dupeKey.value); }
    SumShrink(live, c);
    var next := KeyDropped(dupeCounts, c);
    forall k ensures Get(next, k) == Sum(live - {c}, KeyWeight(k)) {
      assert Sum(live - {c}, KeyWeight(k)) == Sum(live, KeyWeight(k)) - KeyWeight(k)(c);
    }
  }

  /** Key counts do not depend on marks. */
  lemma RelabelledCounts(dupeCounts: map<string, nat>, cs: seq<Contact>, ds: seq<Contact>, changed: set<int>, out: set<int>)
    requires Distinct(cs) && Relabelled(cs, ds, changed) && KeyCountsOk(dupeCounts, Live(cs, out))
    ensures KeyCountsOk(dupeCounts, Live(ds, out))
  {
    hide Sum;
    var place: Contact -> Contact := c => if c in cs then (var i :| 0 <= i < |cs| && cs[i] == c; ds[i]) else c;
    forall i | 0 <= i < |cs| ensures place(cs[i]) == ds[i] { }
    forall d | d in Live(ds, out) ensures exists c :: c in Live(cs, out) && place(c) == d {
      var i :| 0 <= i < |ds| && ds[i] == d;
      assert cs[i] in Live(cs, out);
    }
    forall k ensures Get(dupeCounts, k) == Sum(Live(ds, out), KeyWeight(k)) {
      SumImage(Live(cs, out), KeyWeight(k), place, Live(ds, out), KeyWeight(k));
    }
  }

  lemma DupesJoin(dupeCounts: map<string, nat>, dupeOwners: map<string, int>, live: set<Contact>, c: Contact)
    requires DupesOk(dupeCounts, dupeOwners, live)
    requires forall d :: d in live ==> d.id != c.id
    requires c.marks.dupe == (c.facts.dupeKey.Some? && Get(dupeCounts, c.facts.dupeKey.value) > 0)
    ensures c.facts.dupeKey.Some? && !c.marks.dupe ==> c.facts.dupeKey.value !in dupeOwners
    ensures DupesOk(if c.facts.dupeKey.Some? then Bump(dupeCounts, c.facts.dupeKey.value) else dupeCounts,
                    if c.facts.dupeKey.Some? && !c.marks.dupe then dupeOwners[c.facts.dupeKey.value := c.id] else dupeOwners,
                    live + {c})
  {
    hide Sum;
    KeyCountsJoin(dupeCounts, live, c);
    if c.facts.dupeKey.Some? { KeyPresent(live, c.facts.dupeKey.value); }
    var owners := if c.facts.dupeKey.Some? && !c.marks.dupe then dupeOwners[c.facts.dupeKey.value := c.id] else dupeOwners;
    forall k | k in owners
      ensures exists e :: e in live + {c} && e.facts.dupeKey == Some(k) && e.id == owners[k]
    {
      if k in dupeOwners {
        var e :| e in live && e.facts.dupeKey == Some(k) && e.id == dupeOwners[k];
        assert e in live + {c};
      } else {
        assert c in live + {c};
      }
    }
  }

  // ----- adding a contact -----

  /** Claims of both kinds at once, for a contact that counts. */
  lemma ScoreNonDupeClaims(pts: string -> int, st: Ledger, live: set<Contact>, p: Pending, c: Contact)
    requires ClaimsOk(Multiplier, ONE, st.multOwners, st.raw, live, p.mults)
    requires ClaimsOk(Bonus, pts, st.bonusOwners, st.direct, live, p.bonuses)
    requires forall d :: d in live ==> d.id != c.id
    requires Admissible(pts, c.facts)
    ensures var (st', c') := ScoreNonDupe(st, c);
            && ClaimsOk(Multiplier, ONE, st'.multOwners, st'.raw, live + {c'}, p.mults)
            && ClaimsOk(Bonus, pts, st'.bonusOwners, st'.direct, live + {c'}, p.bonuses)
  {
    hide Sum, Held, Covered, Booked;
    var (st', c') := ScoreNonDupe(st, c);
    UncappedClaims(st.multOwners, st.multCounts, c.facts, |c.facts.multipliers|, c.id);
    assert c.facts.multipliers[..|c.facts.multipliers|] == c.facts.multipliers;
    assert Offers(Multiplier, c.facts)[..|c.facts.multipliers|] == Offers(Multiplier, c.facts);
    AdmissibleIsFair(Multiplier, pts, c.facts);
    ClaimKeeps(Multiplier, ONE, st.multOwners, st.raw, live, p.mults, c');
    ClaimKeeps(Bonus, pts, st.bonusOwners, st.direct, live, p.bonuses, c');
  }

  lemma AddDupes(r: Rules, st: Ledger, live: set<Contact>, c: Contact)
    requires DupesOk(st.dupeCounts, st.dupeOwners, live)
    requires forall d :: d in live ==> d.id != c.id
    ensures var (st', c') := Add(r, st, c);
            && DupesOk(st'.dupeCounts, st'.dupeOwners, live + {c'})
            && (c'.marks.dupe <==> exists d :: d in live && d.facts.dupeKey.Some? && d.facts.dupeKey == c.facts.dupeKey)
  {
    hide Sum, ClaimMultipliers, ClaimBonuses, BumpAll, Score;
    if c.facts.dupeKey.Some? { KeyPresent(live, c.facts.dupeKey.value); }
    DupesJoin(st.dupeCounts, st.dupeOwners, live, Add(r, st, c).1);
  }

  lemma AddSums(r: Rules, st: Ledger, live: set<Contact>, c: Contact)
    requires SumsOk(st.totals.qsoCount, st.totals.qsoPoints, st.counts, live)
    requires forall d :: d in live ==> d.id != c.id
    ensures var (st', c') := Add(r, st, c);
            SumsOk(st'.totals.qsoCount, st'.totals.qsoPoints, st'.counts, live + {c'})
  {
    hide Sum, ClaimMultipliers, ClaimBonuses, Score;
    SumsJoin(st.totals.qsoCount, st.totals.qsoPoints, st.counts, live, Add(r, st, c).1);
  }

  lemma AddClaims(r: Rules, pts: string -> int, st: Ledger, live: set<Contact>, c: Contact)
    requires ClaimsOk(Multiplier, ONE, st.multOwners, st.raw, live, {})
    requires ClaimsOk(Bonus, pts, st.bonusOwners, st.direct, live, {})
    requires forall d :: d in live ==> d.id != c.id
    requires Admissible(pts, c.facts)
    ensures var (st', c') := Add(r, st, c);
            && ClaimsOk(Multiplier, ONE, st'.multOwners, st'.raw, live + {c'}, {})
            && ClaimsOk(Bonus, pts, st'.bonusOwners, st'.direct, live + {c'}, {})
  {
    hide ClaimsOk, Score;
    ScoreNonDupeClaims(pts, st, live, NOTHING_PENDING, c);
    var c' := Add(r, st, c).1;
    if c'.marks.dupe {
      DupeJoins(Multiplier, ONE, st.multOwners, st.raw, live, {}, c');
      DupeJoins(Bonus, pts, st.bonusOwners, st.direct, live, {}, c');
    }
  }

  /** Adding a contact keeps the invariant, and marks it a dupe exactly when its dupe key is taken. */
  lemma AddKeeps(r: Rules, pts: string -> int, st: Ledger, live: set<Contact>, c: Contact)
    requires Inv(r, pts, st, live)
    requires forall d :: d in live ==> d.id != c.id
    requires Admissible(pts, c.facts)
    ensures var (st', c') := Add(r, st, c);
            && Inv(r, pts, st', live + {c'})
            && c'.id == c.id && c'.facts == c.facts
            && (c'.marks.dupe <==> exists d :: d in live && d.facts.dupeKey.Some? && d.facts.dupeKey == c.facts.dupeKey)
            && st'.totals == Tallied(r, st').totals
  {
    hide DupesOk, SumsOk, ClaimsOk, Score;
    AddDupes(r, st, live, c);
    AddSums(r, st, live, c);
    AddClaims(r, pts, st, live, c);
  }

  // ----- who counts for a dupe key -----

  /**
   The recorded owner of a dupe key is the contact in the ledger that counts for it, or one of those in
   `out`, which are about to come or go. Every contact in the ledger that is not the owner is a dupe.
   */
  ghost predicate DupesStand(dupeOwners: map<string, int>, cs: seq<Contact>, out: set<int>) {
    && (forall c :: c in cs && c.id !in out ==>
          match c.facts.dupeKey
          case None => !c.marks.dupe
          case Some(key) => key in dupeOwners && (c.marks.dupe <==> dupeOwners[key] != c.id))
    && (forall k :: k in dupeOwners && dupeOwners[k] !in out ==>
          exists c :: c in cs && c.facts.dupeKey == Some(k) && c.id == dupeOwners[k])
  }

  /** The dupe keys whose owner is not one of some contacts. */
  function Settled(dupeOwners: map<string, int>, out: set<int>): map<string, int> {
    map k | k in dupeOwners && dupeOwners[k] !in out :: dupeOwners[k]
  }

  lemma DupesInOrder(dupeCounts: map<string, nat>, dupeOwners: map<string, int>, cs: seq<Contact>, out: set<int>)
    requires DupesStand(dupeOwners, cs, out) && KeyCountsOk(dupeCounts, Live(cs, out))
    requires forall k :: k in dupeOwners && dupeOwners[k] in out ==> k !in dupeCounts
    ensures DupesOk(dupeCounts, Settled(dupeOwners, out), Live(cs, out))
  {
    hide Sum;
    forall c | c in Live(cs, out) && c.facts.dupeKey.Some? ensures dupeOwners[c.facts.dupeKey.value] !in out {
      KeyPresent(Live(cs, out), c.facts.dupeKey.value);
    }
  }

  lemma DupesStandAtFirst(dupeCounts: map<string, nat>, dupeOwners: map<string, int>, cs: seq<Contact>, out: set<int>,
                          leaving: set<Contact>)
    requires DupesOk(dupeCounts, dupeOwners, Live(cs, out) + leaving) && forall c :: c in leaving ==> c.id in out
    ensures DupesStand(dupeOwners, cs, out)
  {
    hide KeyCountsOk;
  }

  /** The contact that gets the dupe key of a leaving one. */
  function DupeHeir(st: Ledger, gone: Contact, cs: seq<Contact>, skip: Option<int>): (r: Option<nat>)
    ensures r.Some? ==> r.value < |cs| && cs[r.value].facts.dupeKey == gone.facts.dupeKey && !Skips(skip, cs[r.value])
  {
    if OwnsDupeKey(st, gone) then
      var r := FirstIndex(cs, SharesDupeKey(gone.facts.dupeKey.value, skip));
      assert r.Some? ==> SharesDupeKey(gone.facts.dupeKey.value, skip)(cs[r.value]);
      r
    else None
  }

  /** A dupe that starts to count because another contact leaves is in the ledger. */
  ghost predicate PromotesPresent(st: Ledger, gone: Contact, cs: seq<Contact>, skip: Option<int>, out: set<int>) {
    var heir := DupeHeir(st, gone, cs, skip);
    heir.Some? && cs[heir.value].id in out ==> !cs[heir.value].marks.dupe
  }

  lemma ReplacedDupeOwners(st: Ledger, gone: Contact, cs: seq<Contact>, skip: Option<int>)
    ensures var o, heir := Replaced(st, gone, cs, skip), DupeHeir(st, gone, cs, skip);
            && o.ledger.dupeOwners == (
                 if !OwnsDupeKey(st, gone) then st.dupeOwners
                 else if heir.Some? then st.dupeOwners[gone.facts.dupeKey.value := cs[heir.value].id]
                 else st.dupeOwners - {gone.facts.dupeKey.value})
            && o.ledger.dupeCounts == KeyDropped(st.dupeCounts, gone)
            && |o.contacts| == |cs|
            && forall i :: 0 <= i < |cs| ==>
                 o.contacts[i].marks.dupe == (cs[i].marks.dupe && heir != Some(i))
  {
    hide ClaimMultipliers, ClaimBonuses, BumpAll, DropAll, Drop;
  }

  /** Removing a contact keeps the owners of the dupe keys in order. */
  lemma ReplacedDupes(st: Ledger, gone: Contact, cs: seq<Contact>, skip: Option<int>, out: set<int>)
    requires Distinct(cs) && gone.id in out && (skip.Some? ==> skip.value in out)
    requires DupesStand(st.dupeOwners, cs, out) && PromotesPresent(st, gone, cs, skip, out)
    ensures var o := Replaced(st, gone, cs, skip);
            DupesStand(o.ledger.dupeOwners, o.contacts, out)
  {
    ReplacedDupeOwners(st, gone, cs, skip);
    ReplacedRelabels(st, gone, cs, skip);
    hide Replaced;
    var o, heir := Replaced(st, gone, cs, skip), DupeHeir(st, gone, cs, skip);
    forall d | d in o.contacts && d.id !in out
      ensures match d.facts.dupeKey
              case None => !d.marks.dupe
              case Some(key) => key in o.ledger.dupeOwners && (d.marks.dupe <==> o.ledger.dupeOwners[key] != d.id)
    {
      var i :| 0 <= i < |cs| && o.contacts[i] == d;
      assert cs[i] in cs;
      if OwnsDupeKey(st, gone) && heir.None? {
        assert !SharesDupeKey(gone.facts.dupeKey.value, skip)(cs[i]);
      }
    }
    forall k | k in o.ledger.dupeOwners && o.ledger.dupeOwners[k] !in out
      ensures exists d :: d in o.contacts && d.facts.dupeKey == Some(k) && d.id == o.ledger.dupeOwners[k]
    {
      if heir.Some? && gone.facts.dupeKey == Some(k) {
        assert o.contacts[heir.value] in o.contacts;
      } else {
        var c :| c in cs && c.facts.dupeKey == Some(k) && c.id == st.dupeOwners[k];
        var i :| 0 <= i < |cs| && cs[i] == c;
        assert o.contacts[i] in o.contacts;
      }
    }
  }

  lemma SameDupeMarks(dupeOwners: map<string, int>, cs: seq<Contact>, ds: seq<Contact>, changed: set<int>, out: set<int>)
    requires Relabelled(cs, ds, changed) && forall i :: 0 <= i < |cs| ==> ds[i].marks.dupe == cs[i].marks.dupe
    requires DupesStand(dupeOwners, cs, out)
    ensures DupesStand(dupeOwners, ds, out)
  {
    forall d | d in ds && d.id !in out
      ensures match d.facts.dupeKey
              case None => !d.marks.dupe
              case Some(key) => key in dupeOwners && (d.marks.dupe <==> dupeOwners[key] != d.id)
    {
      var i :| 0 <= i < |ds| && ds[i] == d;
      assert cs[i] in cs;
    }
    forall k | k in dupeOwners && dupeOwners[k] !in out
      ensures exists d :: d in ds && d.facts.dupeKey == Some(k) && d.id == dupeOwners[k]
    {
      var c :| c in cs && c.facts.dupeKey == Some(k) && c.id == dupeOwners[k];
      var i :| 0 <= i < |cs| && cs[i] == c;
      assert ds[i] in ds;
    }
  }

  lemma RemoveDupes(r: Rules, st: Ledger, gone: Contact, cs: seq<Contact>, skip: Option<int>, order: Order, out: set<int>)
    requires Distinct(cs) && gone.id in out && (skip.Some? ==> skip.value in out)
    requires DupesStand(st.dupeOwners, cs, out) && PromotesPresent(st, gone, cs, skip, out)
    ensures var o := Remove(r, st, gone, cs, skip, order);
            && DupesStand(o.ledger.dupeOwners, o.contacts, out)
            && o.ledger.dupeCounts == KeyDropped(st.dupeCounts, gone)
  {
    ReplacedDupes(st, gone, cs, skip, out);
    ReplacedDupeOwners(st, gone, cs, skip);
    hide Replaced, HandOn, Score, DupesStand, KeyDropped, DupeHeir;
    var o := Replaced(st, gone, cs, skip);
    var h := MultiplierHands(o);
    var m := HandOn(Multiplier, h, order.mults, skip);
    HandOnRelabels(Multiplier, h, order.mults, skip);
    HandOnKeepsDupes(Multiplier, h, order.mults, skip);
    SameDupeMarks(o.ledger.dupeOwners, o.contacts, m.contacts, m.changed, out);
    var g := BonusHands(o, order, skip);
    var b := HandOn(Bonus, g, order.bonuses, skip);
    HandOnRelabels(Bonus, g, order.bonuses, skip);
    HandOnKeepsDupes(Bonus, g, order.bonuses, skip);
    SameDupeMarks(o.ledger.dupeOwners, m.contacts, b.contacts, b.changed, out);
  }

  lemma RemoveDupeOwners(r: Rules, st: Ledger, gone: Contact, cs: seq<Contact>, skip: Option<int>, order: Order)
    ensures Remove(r, st, gone, cs, skip, order).ledger.dupeOwners == Replaced(st, gone, cs, skip).ledger.dupeOwners
    ensures Remove(r, st, gone, cs, skip, order).ledger.dupeCounts == Replaced(st, gone, cs, skip).ledger.dupeCounts
  {
    hide Replaced, HandOn, Score;
  }

  // ----- removing a contact -----

  function Freed(st: Ledger, gone: Contact, dupeOwners: map<string, int>): Ledger {
    Debited(st, gone).(dupeOwners := dupeOwners,
                       multOwners := st.multOwners - Owned(st.multOwners, gone.id),
                       bonusOwners := st.bonusOwners - Owned(st.bonusOwners, gone.id))
  }

  function FreedKeys(st: Ledger, gone: Contact): Pending {
    Pending(Owned(st.multOwners, gone.id), Owned(st.bonusOwners, gone.id))
  }

  /** Taking either of two contacts out of the counters does the same. */
  ghost predicate Mimics(c: Contact, d: Contact) {
    && d.id == c.id
    && d.marks.pts == c.marks.pts && d.marks.mult == c.marks.mult && d.marks.bonus == c.marks.bonus
    && (c.marks.pts > 0 ==> d.marks.dupe == c.marks.dupe && d.facts.countKeys == c.facts.countKeys)
  }

  lemma FreedBooks(pts: string -> int, st: Ledger, live: set<Contact>, gone: Contact, d: Contact, dupeOwners: map<string, int>)
    requires BooksOk(pts, st, live, NOTHING_PENDING) && d in live && Mimics(gone, d)
    ensures BooksOk(pts, Freed(st, gone, dupeOwners), live - {d}, FreedKeys(st, gone))
  {
    hide ClaimsOk, SumsOk, DropAll;
    FreeKeeps(Multiplier, ONE, st.multOwners, st.raw, live, d);
    FreeKeeps(Bonus, pts, st.bonusOwners, st.direct, live, d);
    SumsLeave(st.totals.qsoCount, st.totals.qsoPoints, st.counts, live, d);
  }

  lemma PromotedClaims(pts: string -> int, st: Ledger, live: set<Contact>, p: Pending, heir: Contact)
    requires BooksOk(pts, st, live, p) && heir in live && heir.marks.dupe
    ensures var (st', c) := ScoreNonDupe(st, heir);
            && ClaimsOk(Multiplier, ONE, st'.multOwners, st'.raw, Swapped(live, heir, c), p.mults)
            && ClaimsOk(Bonus, pts, st'.bonusOwners, st'.direct, Swapped(live, heir, c), p.bonuses)
  {
    hide ClaimsOk, SumsOk, Admissible, ScoreNonDupe;
    DupeLeaves(Multiplier, ONE, st.multOwners, st.raw, live, p.mults, heir);
    DupeLeaves(Bonus, pts, st.bonusOwners, st.direct, live, p.bonuses, heir);
    ScoreNonDupeClaims(pts, st, live - {heir}, p, heir);
  }

  lemma PromotedBooks(pts: string -> int, st: Ledger, live: set<Contact>, p: Pending, heir: Contact)
    requires BooksOk(pts, st, live, p) && heir in live && heir.marks.dupe
    ensures var (st', c) := ScoreNonDupe(st, heir);
            BooksOk(pts, st', Swapped(live, heir, c), p)
  {
    hide ClaimsOk, SumsOk, Admissible, ClaimMultipliers, ClaimBonuses, BumpAll;
    PromotedClaims(pts, st, live, p, heir);
    PromotedSums(st, live, heir);
  }

  lemma PromotedSums(st: Ledger, live: set<Contact>, heir: Contact)
    requires UniqueIds(live) && heir in live && heir.marks.dupe
    requires SumsOk(st.totals.qsoCount, st.totals.qsoPoints, st.counts, live)
    ensures var (st', c) := ScoreNonDupe(st, heir);
            SumsOk(st'.totals.qsoCount, st'.totals.qsoPoints, st'.counts, Swapped(live, heir, c))
  {
    hide Sum, ClaimMultipliers, ClaimBonuses, BumpAll;
    assert heir.marks.pts == 0;
    SumsLeave(st.totals.qsoCount, st.totals.qsoPoints, st.counts, live, heir);
    SumsJoin(st.totals.qsoCount - 1, st.totals.qsoPoints, st.counts, live - {heir}, ScoreNonDupe(st, heir).1);
  }

  /** The leaving contact is not among those that may inherit from it. */
  ghost predicate Removable(gone: Contact, cs: seq<Contact>, s: Scene) {
    && Distinct(cs) && SceneOk(s)
    && (s.skip == None || s.skip == Some(gone.id))
    && forall c :: c in Present(cs, s) ==> c.id != gone.id
  }

  /** What a leaving contact owns, nobody offers who is in the ledger without being listed. */
  ghost predicate LeavesAlone(st: Ledger, gone: Contact, s: Scene) {
    && (forall k :: k in Owned(st.multOwners, gone.id) ==> LeftAlone(Multiplier, k, s))
    && (forall k :: k in Owned(st.bonusOwners, gone.id) ==> LeftAlone(Bonus, k, s))
  }

  lemma ReplacedKeepsBooks(pts: string -> int, st: Ledger, gone: Contact, d: Contact, cs: seq<Contact>, s: Scene)
    requires Removable(gone, cs, s) && Mimics(gone, d) && PromotesPresent(st, gone, cs, s.skip, s.out)
    requires BooksOk(pts, st, Present(cs, s) + {d}, NOTHING_PENDING)
    ensures var o := Replaced(st, gone, cs, s.skip);
            && Distinct(o.contacts)
            && BooksOk(pts, o.ledger, Present(o.contacts, s), FreedKeys(st, gone))
  {
    hide BooksOk, OwnsDupeKey, ClaimMultipliers, ClaimBonuses, BumpAll, Debited;
    var rest := Present(cs, s);
    assert rest + {d} - {d} == rest;
    var o := Replaced(st, gone, cs, s.skip);
    var heir := DupeHeir(st, gone, cs, s.skip);
    if heir.None? {
      FreedBooks(pts, st, rest + {d}, gone, d, o.ledger.dupeOwners);
      assert o == Outcome(Freed(st, gone, o.ledger.dupeOwners), cs, {});
    } else {
      var i := heir.value;
      var st2 := Freed(st, gone, st.dupeOwners[gone.facts.dupeKey.value := cs[i].id]);
      FreedBooks(pts, st, rest + {d}, gone, d, st2.dupeOwners);
      assert o == Promote(st2, cs, i);
      if cs[i].marks.dupe {
        assert cs[i] in rest;
        PromotedBooks(pts, st2, rest, FreedKeys(st, gone), cs[i]);
        PresentUpdate(cs, s, i, ScoreNonDupe(st2, cs[i]).1);
      }
    }
  }

  lemma EnumeratedSet(keys: seq<string>, all: set<string>)
    requires Enumerates(keys, all)
    ensures (set k | k in keys) == all
  {
  }

  lemma ReplacedRelabels(st: Ledger, gone: Contact, cs: seq<Contact>, skip: Option<int>)
    ensures var o := Replaced(st, gone, cs, skip);
            Relabelled(cs, o.contacts, o.changed)
  {
    hide ClaimMultipliers, ClaimBonuses, BumpAll, DropAll;
  }

  function MultiplierHands(o: Outcome): Hands {
    Hands(o.ledger.multOwners, o.ledger.raw, o.contacts, o.changed)
  }

  function BonusHands(o: Outcome, order: Order, skip: Option<int>): Hands {
    var m := HandOn(Multiplier, MultiplierHands(o), order.mults, skip);
    Hands(o.ledger.bonusOwners, o.ledger.direct, m.contacts, m.changed)
  }

  /** Both rounds of handing on, after the leaving contact has been replaced. */
  lemma HandBothKeeps(pts: string -> int, o: Outcome, s: Scene, order: Order)
    requires Distinct(o.contacts) && SceneOk(s)
    requires BooksOk(pts, o.ledger, Present(o.contacts, s), Pending(set k | k in order.mults, set k | k in order.bonuses))
    requires Spares(Multiplier, MultiplierHands(o), order.mults, s)
    requires Spares(Bonus, BonusHands(o, order, s.skip), order.bonuses, s)
    requires forall k :: k in order.mults ==> LeftAlone(Multiplier, k, s)
    requires forall k :: k in order.bonuses ==> LeftAlone(Bonus, k, s)
    ensures var m := HandOn(Multiplier, MultiplierHands(o), order.mults, s.skip);
            var b := HandOn(Bonus, BonusHands(o, order, s.skip), order.bonuses, s.skip);
            && Distinct(b.contacts)
            && BooksOk(pts, o.ledger.(multOwners := m.owners, raw := m.total, bonusOwners := b.owners, direct := b.total),
                       Present(b.contacts, s), NOTHING_PENDING)
  {
    hide BooksOk, LeftAlone, Spares, HandOn, SceneOk, Distinct;
    var p := Pending(set k | k in order.mults, set k | k in order.bonuses);
    var h := MultiplierHands(o);
    assert With(Multiplier, o.ledger, h) == o.ledger;
    HandOnKeeps(Multiplier, pts, o.ledger, h, order.mults, s, p);
    var m := HandOn(Multiplier, h, order.mults, s.skip);
    var st1 := With(Multiplier, o.ledger, m);
    var q := Pending({}, p.bonuses);
    assert p.Less(Multiplier, p.mults) == q;
    var g := BonusHands(o, order, s.skip);
    assert With(Bonus, st1, g) == st1;
    HandOnKeeps(Bonus, pts, st1, g, order.bonuses, s, q);
    assert q.Less(Bonus, p.bonuses) == NOTHING_PENDING;
  }

  // ----- what a removal leaves to others -----

  /** A contact owns the same multiplier and bonus keys in both ledgers. */
  ghost predicate OwnsTheSame(st: Ledger, tt: Ledger, id: int) {
    Owned(tt.multOwners, id) == Owned(st.multOwners, id) && Owned(tt.bonusOwners, id) == Owned(st.bonusOwners, id)
  }

  ghost predicate OwnsNothing(st: Ledger, id: int) {
    Owned(st.multOwners, id) == {} && Owned(st.bonusOwners, id) == {}
  }

  /** A removal gives no multiplier and no bonus key to contacts that are about to come or go. */
  ghost predicate GivesNothing(st: Ledger, tt: Ledger, gone: Contact, s: Scene) {
    forall id :: id in s.out ==> if id == gone.id then OwnsNothing(tt, id) else OwnsTheSame(st, tt, id)
  }

  /** The second table has all entries of the first. */
  ghost predicate Grows(owners: map<string, int>, os: map<string, int>) {
    forall k :: k in owners ==> k in os && os[k] == owners[k]
  }

  lemma {:induction false} ClaimMultipliersSpares(owners: map<string, int>, counts: map<string, nat>, cands: seq<Candidate>,
                                                  heir: int)
    ensures var os := ClaimMultipliers(owners, counts, cands, heir).0;
            Grows(owners, os) && forall id :: id != heir ==> Owned(os, id) == Owned(owners, id)
  {
    if cands != [] {
      ClaimMultipliersSpares(owners, counts, cands[..|cands| - 1], heir);
    }
  }

  lemma {:induction false} ClaimBonusesSpares(owners: map<string, int>, offers: seq<(string, int)>, heir: int)
    ensures var os := ClaimBonuses(owners, offers, heir).0;
            Grows(owners, os) && forall id :: id != heir ==> Owned(os, id) == Owned(owners, id)
  {
    if offers != [] {
      ClaimBonusesSpares(owners, offers[..|offers| - 1], heir);
    }
  }

  /** Replacing a contact takes nothing from others but what the leaving one owned. */
  lemma ReplacedGrows(st: Ledger, gone: Contact, cs: seq<Contact>, skip: Option<int>)
    ensures var tt := Replaced(st, gone, cs, skip).ledger;
            && Grows(st.multOwners - Owned(st.multOwners, gone.id), tt.multOwners)
            && Grows(st.bonusOwners - Owned(st.bonusOwners, gone.id), tt.bonusOwners)
  {
    hide ClaimMultipliers, ClaimBonuses, BumpAll, Debited;
    if OwnsDupeKey(st, gone) {
      var heir := FirstIndex(cs, SharesDupeKey(gone.facts.dupeKey.value, skip));
      if heir.Some? {
        var d := cs[heir.value];
        var st2 := Freed(st, gone, st.dupeOwners[gone.facts.dupeKey.value := d.id]);
        ClaimMultipliersSpares(st2.multOwners, st2.multCounts, d.facts.multipliers, d.id);
        ClaimBonusesSpares(st2.bonusOwners, d.facts.bonuses, d.id);
      }
    }
  }

  lemma OwnedGrows(owners: map<string, int>, os: map<string, int>, id: int)
    requires Grows(owners, os)
    ensures Owned(owners, id) <= Owned(os, id)
  {
  }

  /** A removal that gives nothing to the contacts about to come or go spares them in each of its parts. */
  lemma PartsSpare(r: Rules, st: Ledger, gone: Contact, cs: seq<Contact>, s: Scene, order: Order)
    requires GivesNothing(st, Remove(r, st, gone, cs, s.skip, order).ledger, gone, s)
    ensures var o := Replaced(st, gone, cs, s.skip);
            && Spares(Multiplier, MultiplierHands(o), order.mults, s)
            && Spares(Bonus, BonusHands(o, order, s.skip), order.bonuses, s)
  {
    hide Score, HandOn, Replaced;
    var o := Replaced(st, gone, cs, s.skip);
    var tt := Remove(r, st, gone, cs, s.skip, order).ledger;
    ReplacedGrows(st, gone, cs, s.skip);
    forall id | id in s.out
      ensures Owned(tt.multOwners, id) <= Owned(o.ledger.multOwners, id)
      ensures Owned(tt.bonusOwners, id) <= Owned(o.ledger.bonusOwners, id)
    {
      OwnedGrows(st.multOwners - Owned(st.multOwners, gone.id), o.ledger.multOwners, id);
      OwnedGrows(st.bonusOwners - Owned(st.bonusOwners, gone.id), o.ledger.bonusOwners, id);
    }
  }

  /**
   Removing a contact keeps the books of those that stay, in whatever order the freed keys are handed on,
   as long as none passes to a contact that is about to come or go. In the books, a contact `d` may stand
   for the leaving one.
   */
  lemma RemoveKeepsBooks(r: Rules, pts: string -> int, st: Ledger, gone: Contact, d: Contact, cs: seq<Contact>,
                         s: Scene, order: Order)
    requires Removable(gone, cs, s) && LeavesAlone(st, gone, s) && Mimics(gone, d)
    requires PromotesPresent(st, gone, cs, s.skip, s.out)
    requires GivesNothing(st, Remove(r, st, gone, cs, s.skip, order).ledger, gone, s)
    requires BooksOk(pts, st, Present(cs, s) + {d}, NOTHING_PENDING)
    requires FreedOrder(st, gone, order)
    ensures var o := Remove(r, st, gone, cs, s.skip, order);
            && Distinct(o.contacts)
            && BooksOk(pts, o.ledger, Present(o.contacts, s), NOTHING_PENDING)
            && o.ledger.totals == Tallied(r, o.ledger).totals
  {
    hide SumsOk, ClaimsOk, Score, Replaced, HandOn, Enumerates, LeftAlone, Spares, GivesNothing, PromotesPresent, Mimics;
    var o := Replaced(st, gone, cs, s.skip);
    PartsSpare(r, st, gone, cs, s, order);
    ReplacedKeepsBooks(pts, st, gone, d, cs, s);
    EnumeratedSet(order.mults, Owned(st.multOwners, gone.id));
    EnumeratedSet(order.bonuses, Owned(st.bonusOwners, gone.id));
    assert FreedKeys(st, gone) == Pending(set k | k in order.mults, set k | k in order.bonuses);
    HandBothKeeps(pts, o, s, order);
  }

  /** Removing a contact for good keeps the invariant, in whatever order the freed keys are handed on. */
  lemma RemoveKeeps(r: Rules, pts: string -> int, st: Ledger, gone: Contact, cs: seq<Contact>, order: Order)
    requires Distinct(cs) && gone.id !in Ids(cs)
    requires Inv(r, pts, st, SetOf(cs) + {gone}) && FreedOrder(st, gone, order)
    ensures var o := Remove(r, st, gone, cs, None, order);
            && Distinct(o.contacts)
            && Inv(r, pts, o.ledger, SetOf(o.contacts))
            && o.ledger.totals == Tallied(r, o.ledger).totals
  {
    hide Remove, BooksOk, Tallied, FreedOrder, Ids, DupesOk, SetOf;
    var s := Scene(None, {}, {});
    var o := Remove(r, st, gone, cs, None, order);
    PresentInAll(cs, s);
    PresentInAll(o.contacts, s);
    assert Removable(gone, cs, s) by {
      forall c | c in SetOf(cs) ensures c.id in Ids(cs) { IdOf(cs, c); }
    }
    RemoveKeepsBooks(r, pts, st, gone, gone, cs, s, order);
    RemovedDupes(r, st, gone, cs, order);
  }

  lemma PresentInAll(cs: seq<Contact>, s: Scene)
    requires s.out == {} && s.leaving == {}
    ensures Present(cs, s) == SetOf(cs)
  {
  }

  lemma IdOf(cs: seq<Contact>, c: Contact)
    requires c in SetOf(cs)
    ensures c.id in Ids(cs)
  {
  }

  lemma AllBut(cs: seq<Contact>, id: int)
    requires id !in Ids(cs)
    ensures Live(cs, {id}) == SetOf(cs)
  {
    assert forall c :: c in cs ==> c.id in Ids(cs);
  }

  lemma RemovedDupes(r: Rules, st: Ledger, gone: Contact, cs: seq<Contact>, order: Order)
    requires Distinct(cs) && gone.id !in Ids(cs) && UniqueIds(SetOf(cs) + {gone})
    requires DupesOk(st.dupeCounts, st.dupeOwners, SetOf(cs) + {gone})
    ensures var o := Remove(r, st, gone, cs, None, order);
            DupesOk(o.ledger.dupeCounts, o.ledger.dupeOwners, SetOf(o.contacts))
  {
    var out, o := {gone.id}, Remove(r, st, gone, cs, None, order);
    RemoveRelabels(r, st, gone, cs, None, order);
    SameIds(cs, o.contacts);
    hide Remove, Ids, KeyCountsOk, DupesStand;
    AllBut(cs, gone.id);
    AllBut(o.contacts, gone.id);
    assert PromotesPresent(st, gone, cs, None, out) by { assert forall c :: c in cs ==> c in SetOf(cs); IdsOf(cs); }
    DupesStandAtFirst(st.dupeCounts, st.dupeOwners, cs, out, {gone});
    RemoveDupes(r, st, gone, cs, None, order, out);
    assert SetOf(cs) + {gone} - {gone} == SetOf(cs) by { IdsOf(cs); }
    KeyCountsLeave(st.dupeCounts, SetOf(cs) + {gone}, gone);
    RelabelledCounts(o.ledger.dupeCounts, cs, o.contacts, o.changed, out);
    NothingLeft(st, gone, cs, SetOf(cs) + {gone});
    RemoveDupeOwners(r, st, gone, cs, None, order);
    hide DupesOk, Relabelled, Replaced;
    DupesInOrder(o.ledger.dupeCounts, o.ledger.dupeOwners, o.contacts, out);
    assert Settled(o.ledger.dupeOwners, out) == o.ledger.dupeOwners;
  }

  lemma IdsOf(cs: seq<Contact>)
    ensures forall c :: c in cs ==> c.id in Ids(cs)
  {
  }

  /** A contact that leaves for good owns no dupe key any more. */
  lemma NothingLeft(st: Ledger, gone: Contact, cs: seq<Contact>, live: set<Contact>)
    requires DupesOk(st.dupeCounts, st.dupeOwners, live) && UniqueIds(live) && gone in live && gone.id !in Ids(cs)
    ensures var owners := Replaced(st, gone, cs, None).ledger.dupeOwners;
            forall k :: k in owners ==> owners[k] != gone.id
  {
    ReplacedDupeOwners(st, gone, cs, None);
    hide Replaced, KeyCountsOk;
    var heir := DupeHeir(st, gone, cs, None);
    assert heir.Some? ==> cs[heir.value].id in Ids(cs);
    forall k | k in st.dupeOwners && st.dupeOwners[k] == gone.id ensures gone.facts.dupeKey == Some(k) {
      var e :| e in live && e.facts.dupeKey == Some(k) && e.id == st.dupeOwners[k];
    }
  }

  // ----- removals that nobody contests -----

  /** No contact that is listed without being in the ledger has or offers what a leaving one owns. */
  ghost predicate NothingContested(st: Ledger, gone: Contact, cs: seq<Contact>, s: Scene) {
    && (OwnsDupeKey(st, gone) ==> forall c :: c in cs && c.id in s.out && !Skips(s.skip, c) ==>
          c.facts.dupeKey != gone.facts.dupeKey)
    && (forall k :: k in Owned(st.multOwners, gone.id) ==> Uncontested(Multiplier, k, cs, s))
    && (forall k :: k in Owned(st.bonusOwners, gone.id) ==> Uncontested(Bonus, k, cs, s))
  }

  /** A dupe key that passes on passes to a contact in the ledger. */
  ghost predicate DupeHeirPresent(st: Ledger, gone: Contact, cs: seq<Contact>, s: Scene) {
    var heir := DupeHeir(st, gone, cs, s.skip);
    heir.Some? ==> cs[heir.value].id !in s.out
  }

  lemma FreedOwned(st: Ledger, gone: Contact, dupeOwners: map<string, int>, id: int)
    ensures var tt := Freed(st, gone, dupeOwners);
            && Owned(tt.multOwners, id) == (if id == gone.id then {} else Owned(st.multOwners, id))
            && Owned(tt.bonusOwners, id) == (if id == gone.id then {} else Owned(st.bonusOwners, id))
  {
    hide Debited;
  }

  lemma PromotedOwned(st: Ledger, cs: seq<Contact>, i: nat, id: int)
    requires i < |cs| && cs[i].id != id
    ensures var tt := Promote(st, cs, i).ledger;
            Owned(tt.multOwners, id) == Owned(st.multOwners, id) && Owned(tt.bonusOwners, id) == Owned(st.bonusOwners, id)
  {
    hide ClaimMultipliers, ClaimBonuses, BumpAll, Owned;
    ClaimMultipliersSpares(st.multOwners, st.multCounts, cs[i].facts.multipliers, cs[i].id);
    ClaimBonusesSpares(st.bonusOwners, cs[i].facts.bonuses, cs[i].id);
  }

  /** Replacing a contact frees what it owned, and claims keys for its heir only. */
  lemma ReplacedOwned(st: Ledger, gone: Contact, cs: seq<Contact>, skip: Option<int>, id: int)
    requires var heir := DupeHeir(st, gone, cs, skip);
             heir.Some? ==> cs[heir.value].id != id
    ensures var tt := Replaced(st, gone, cs, skip).ledger;
            && Owned(tt.multOwners, id) == (if id == gone.id then {} else Owned(st.multOwners, id))
            && Owned(tt.bonusOwners, id) == (if id == gone.id then {} else Owned(st.bonusOwners, id))
  {
    hide Debited, Owned, Promote, FirstIndex, SharesDupeKey;
    var heir := DupeHeir(st, gone, cs, skip);
    if heir.None? {
      var tt := Replaced(st, gone, cs, skip).ledger;
      assert tt == Freed(st, gone, tt.dupeOwners);
      FreedOwned(st, gone, tt.dupeOwners, id);
    } else {
      var st2 := Freed(st, gone, st.dupeOwners[gone.facts.dupeKey.value := cs[heir.value].id]);
      assert Replaced(st, gone, cs, skip) == Promote(st2, cs, heir.value);
      FreedOwned(st, gone, st2.dupeOwners, id);
      PromotedOwned(st2, cs, heir.value, id);
    }
  }

  /** Where nobody contests what it owns, a removal gives nothing to contacts about to come or go. */
  lemma RemoveSpares(r: Rules, st: Ledger, gone: Contact, cs: seq<Contact>, s: Scene, order: Order)
    requires NothingContested(st, gone, cs, s) && (s.skip.Some? ==> s.skip.value == gone.id)
    requires FreedOrder(st, gone, order)
    ensures GivesNothing(st, Remove(r, st, gone, cs, s.skip, order).ledger, gone, s)
    ensures DupeHeirPresent(st, gone, cs, s)
  {
    hide Replaced, HandOn, Uncontested, Score, Owned, DupeHeir;
    var o := Replaced(st, gone, cs, s.skip);
    UncontestedDupeHeir(st, gone, cs, s);
    ReplacedRelabels(st, gone, cs, s.skip);
    StaysUncontested(Multiplier, cs, o.contacts, o.changed, s);
    StaysUncontested(Bonus, cs, o.contacts, o.changed, s);
    var h := MultiplierHands(o);
    HandOnRelabels(Multiplier, h, order.mults, s.skip);
    var m := HandOn(Multiplier, h, order.mults, s.skip);
    StaysUncontested(Bonus, h.contacts, m.contacts, m.changed, s);
    forall id | id in s.out
      ensures var tt := Remove(r, st, gone, cs, s.skip, order).ledger;
              if id == gone.id then OwnsNothing(tt, id) else OwnsTheSame(st, tt, id)
    {
      ReplacedOwned(st, gone, cs, s.skip, id);
      HandOnSpares(Multiplier, h, order.mults, s, id);
      HandOnSpares(Bonus, BonusHands(o, order, s.skip), order.bonuses, s, id);
    }
  }

  lemma UncontestedDupeHeir(st: Ledger, gone: Contact, cs: seq<Contact>, s: Scene)
    requires NothingContested(st, gone, cs, s)
    ensures DupeHeirPresent(st, gone, cs, s)
  {
  }

  // ----- what operations leave alone -----

  lemma RemoveRelabels(r: Rules, st: Ledger, gone: Contact, cs: seq<Contact>, skip: Option<int>, order: Order)
    ensures var o := Remove(r, st, gone, cs, skip, order);
            Relabelled(cs, o.contacts, o.changed)
  {
    hide Score, Replaced;
    var o := Replaced(st, gone, cs, skip);
    ReplacedRelabels(st, gone, cs, skip);
    var h := Hands(o.ledger.multOwners, o.ledger.raw, o.contacts, o.changed);
    HandOnRelabels(Multiplier, h, order.mults, skip);
    var m := HandOn(Multiplier, h, order.mults, skip);
    HandOnRelabels(Bonus, Hands(o.ledger.bonusOwners, o.ledger.direct, m.contacts, m.changed), order.bonuses, skip);
  }

  lemma SameIds(cs: seq<Contact>, ds: seq<Contact>)
    requires |cs| == |ds| && forall i :: 0 <= i < |cs| ==> ds[i].id == cs[i].id
    ensures Ids(cs) == Ids(ds)
  {
    forall id ensures id in Ids(cs) <==> id in Ids(ds) {
      if id in Ids(cs) {
        var i :| 0 <= i < |cs| && cs[i].id == id;
        assert ds[i] in ds;
      }
      if id in Ids(ds) {
        var i :| 0 <= i < |ds| && ds[i].id == id;
        assert cs[i] in cs;
      }
    }
  }
}

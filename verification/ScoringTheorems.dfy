/** The incremental ledger agrees with the left-to-right scorer. */
module ScoringTheorems {
  import opened Sums
  import opened ScoringSpec
  import opened ScoringLedger
  import opened ScoringOperations
  import opened ScoringBatches
  import opened ScoringRuns

  // ----- resetting the ledger is scoring, caps included -----

  predicate Mirrors(st: Ledger, s: Scorer) {
    && st.totals == s.totals && st.raw == s.raw && st.direct == s.direct
    && st.dupeCounts == s.dupeKeys && st.counts == s.counts
    && st.multOwners.Keys == s.multKeys && st.multCounts == s.multCounts
    && st.bonusOwners.Keys == s.bonusKeys
  }

  lemma {:induction false} ClaimsMirror(owners: map<string, int>, counts: map<string, nat>, cands: seq<Candidate>, id: int)
    ensures var (os, cs, n) := ClaimMultipliers(owners, counts, cands, id);
            (os.Keys, cs, n) == TakeMultipliers(owners.Keys, counts, cands)
  {
    if cands != [] {
      ClaimsMirror(owners, counts, cands[..|cands| - 1], id);
      var (os, cs, n) := ClaimMultipliers(owners, counts, cands[..|cands| - 1], id);
      var key := cands[|cands| - 1].key;
      assert os[key := id].Keys == os.Keys + {key};
    }
  }

  lemma {:induction false} BonusesMirror(owners: map<string, int>, offers: seq<(string, int)>, id: int)
    ensures var (os, n) := ClaimBonuses(owners, offers, id);
            (os.Keys, n) == TakeBonuses(owners.Keys, offers)
  {
    if offers != [] {
      BonusesMirror(owners, offers[..|offers| - 1], id);
      var (os, n) := ClaimBonuses(owners, offers[..|offers| - 1], id);
      var key := offers[|offers| - 1].0;
      assert os[key := id].Keys == os.Keys + {key};
    }
  }

  lemma AddMirrors(r: Rules, st: Ledger, s: Scorer, c: Contact)
    requires Mirrors(st, s)
    ensures Mirrors(Add(r, st, c).0, AddQso(r, s, c).0)
    ensures Add(r, st, c).1 == AddQso(r, s, c).1
  {
    hide Tally, ClaimMultipliers, ClaimBonuses, TakeMultipliers, TakeBonuses, BumpAll, Bump, Get;
    ClaimsMirror(st.multOwners, st.multCounts, c.facts.multipliers, c.id);
    BonusesMirror(st.bonusOwners, c.facts.bonuses, c.id);
  }

  /** Loading a log gives the same totals and marks as scoring it, whatever caps the rules set. */
  lemma {:induction false} ResetAgrees(r: Rules, cs: seq<Contact>)
    ensures Mirrors(Reset(r, cs).0, ScoreContacts(r, cs).0)
    ensures Reset(r, cs).1 == ScoreContacts(r, cs).1
  {
    if cs != [] {
      ResetAgrees(r, cs[..|cs| - 1]);
      AddMirrors(r, Reset(r, cs[..|cs| - 1]).0, ScoreContacts(r, cs[..|cs| - 1]).0, cs[|cs| - 1]);
    }
  }

  // ----- caps -----

  /** Every candidate of a group carries the same maximum. */
  predicate SharedCap(cs: seq<Contact>, group: string, cap: nat) {
    forall i, j :: 0 <= i < |cs| && 0 <= j < |cs[i].facts.multipliers| && cs[i].facts.multipliers[j].Group() == group
      ==> cs[i].facts.multipliers[j].maxCount == Some(cap)
  }

  /** The keys awarded in a group. */
  function AwardedIn(award: map<string, string>, group: string): set<string> {
    set k | k in award && award[k] == group
  }

  /** Each awarded key has a group, and the table counts the keys of each group. */
  ghost predicate Accounted(award: map<string, string>, keys: set<string>, counts: map<string, nat>) {
    award.Keys == keys && forall group :: Get(counts, group) == |AwardedIn(award, group)|
  }

  predicate Offering(cand: Candidate, key: string, group: string) {
    cand.key == key && cand.Group() == group
  }

  /** A candidate is awarded, or its cap is exhausted. */
  predicate Served(keys: set<string>, counts: map<string, nat>, cand: Candidate) {
    cand.key in keys || CapReached(counts, cand)
  }

  lemma AwardedMore(award: map<string, string>, key: string, group: string, g: string)
    requires key !in award
    ensures |AwardedIn(award[key := group], g)| == |AwardedIn(award, g)| + (if g == group then 1 else 0)
  {
    if g == group {
      assert AwardedIn(award[key := group], g) == AwardedIn(award, g) + {key};
    } else {
      assert AwardedIn(award[key := group], g) == AwardedIn(award, g);
    }
  }

  lemma AwardOne(award: map<string, string>, counts: map<string, nat>, key: string, group: string)
    requires Accounted(award, award.Keys, counts) && key !in award
    ensures Accounted(award[key := group], award.Keys + {key}, Bump(counts, group))
  {
    hide AwardedIn;
    forall g ensures Get(Bump(counts, group), g) == |AwardedIn(award[key := group], g)| {
      AwardedMore(award, key, group, g);
    }
  }

  /** What a sequence of candidates adds to the awards. */
  ghost predicate Adds(award: map<string, string>, counts: map<string, nat>, cands: seq<Candidate>,
                       next: map<string, string>, keys: set<string>, counts': map<string, nat>)
  {
    && Accounted(next, keys, counts')
    && (forall k :: k in award ==> k in next && next[k] == award[k])
    && (forall k :: k in next && k !in award ==> exists j :: 0 <= j < |cands| && Offering(cands[j], k, next[k]))
    && (forall j :: 0 <= j < |cands| ==> Served(keys, counts', cands[j]))
    && (forall g :: Get(counts, g) <= Get(counts', g))
  }

  lemma PassOver(award: map<string, string>, counts: map<string, nat>, cands: seq<Candidate>,
                 next: map<string, string>, keys: set<string>, counts': map<string, nat>, cand: Candidate)
    requires Adds(award, counts, cands, next, keys, counts') && (cand.key in keys || CapReached(counts', cand))
    ensures Adds(award, counts, cands + [cand], next, keys, counts')
  {
    hide Accounted;
    forall k | k in next && k !in award
      ensures exists j :: 0 <= j < |cands + [cand]| && Offering((cands + [cand])[j], k, next[k])
    {
      var j :| 0 <= j < |cands| && Offering(cands[j], k, next[k]);
      assert (cands + [cand])[j] == cands[j];
    }
  }

  lemma AwardedServes(keys: set<string>, counts: map<string, nat>, cands: seq<Candidate>, cand: Candidate)
    requires forall j :: 0 <= j < |cands| ==> Served(keys, counts, cands[j])
    ensures forall g :: Get(counts, g) <= Get(Bump(counts, cand.Group()), g)
    ensures forall j :: 0 <= j < |cands + [cand]| ==>
              Served(keys + {cand.key}, Bump(counts, cand.Group()), (cands + [cand])[j])
  {
    var more := Bump(counts, cand.Group());
    forall j | 0 <= j < |cands + [cand]| ensures Served(keys + {cand.key}, more, (cands + [cand])[j]) {
      if j < |cands| {
        assert Served(keys, counts, cands[j]);
        assert Get(counts, cands[j].Group()) <= Get(more, cands[j].Group());
      }
    }
  }

  lemma AwardedOffers(award: map<string, string>, cands: seq<Candidate>, next: map<string, string>, cand: Candidate)
    requires cand.key !in next
    requires forall k :: k in award ==> k in next && next[k] == award[k]
    requires forall k :: k in next && k !in award ==> exists j :: 0 <= j < |cands| && Offering(cands[j], k, next[k])
    ensures var more := next[cand.key := cand.Group()];
            && (forall k :: k in award ==> k in more && more[k] == award[k])
            && forall k :: k in more && k !in award ==>
                 exists j :: 0 <= j < |cands + [cand]| && Offering((cands + [cand])[j], k, more[k])
  {
    var more := next[cand.key := cand.Group()];
    var all := cands + [cand];
    forall k | k in more && k !in award ensures exists j :: 0 <= j < |all| && Offering(all[j], k, more[k]) {
      if k == cand.key {
        assert Offering(all[|cands|], k, more[k]);
      } else {
        var j :| 0 <= j < |cands| && Offering(cands[j], k, next[k]);
        assert all[j] == cands[j];
      }
    }
  }

  lemma AwardCandidate(award: map<string, string>, counts: map<string, nat>, cands: seq<Candidate>,
                       next: map<string, string>, keys: set<string>, counts': map<string, nat>, cand: Candidate)
    requires Adds(award, counts, cands, next, keys, counts') && cand.key !in keys
    ensures Adds(award, counts, cands + [cand], next[cand.key := cand.Group()], keys + {cand.key},
                 Bump(counts', cand.Group()))
    ensures |next[cand.key := cand.Group()]| == |next| + 1
  {
    hide Bump, Get, Served, Offering, AwardedIn;
    AccountedKeys(next, keys, counts');
    hide Accounted;
    AwardOne(next, counts', cand.key, cand.Group());
    AwardSize(next, cand.key, cand.Group());
    AwardedServes(keys, counts', cands, cand);
    AwardedOffers(award, cands, next, cand);
  }

  /** What taking the candidates of one contact adds to the awards. */
  lemma {:induction false} TakeAwards(award: map<string, string>, counts: map<string, nat>, cands: seq<Candidate>)
    returns (next: map<string, string>)
    requires Accounted(award, award.Keys, counts)
    ensures var (ks, cs, n) := TakeMultipliers(award.Keys, counts, cands);
            Adds(award, counts, cands, next, ks, cs) && n == |next| - |award|
  {
    if cands == [] {
      next := award;
    } else {
      hide Accounted, Adds, CapReached, Bump;
      var init, cand := cands[..|cands| - 1], cands[|cands| - 1];
      var before := TakeAwards(award, counts, init);
      var (ks, cs, n) := TakeMultipliers(award.Keys, counts, init);
      assert init + [cand] == cands;
      if cand.key in ks || CapReached(cs, cand) {
        next := before;
        PassOver(award, counts, init, before, ks, cs, cand);
      } else {
        next := before[cand.key := cand.Group()];
        AwardCandidate(award, counts, init, before, ks, cs, cand);
      }
    }
  }

  lemma AccountedKeys(award: map<string, string>, keys: set<string>, counts: map<string, nat>)
    requires Accounted(award, keys, counts)
    ensures award.Keys == keys
  {
  }

  lemma AwardSize(award: map<string, string>, key: string, group: string)
    requires key !in award
    ensures |award[key := group]| == |award| + 1
  {
    assert award[key := group].Keys == award.Keys + {key};
    assert |award[key := group].Keys| == |award[key := group]| && |award.Keys| == |award|;
  }

  predicate OfferedIn(cs: seq<Contact>, key: string, group: string, i: int, j: int) {
    && 0 <= i < |cs| && !cs[i].marks.dupe
    && 0 <= j < |cs[i].facts.multipliers| && Offering(cs[i].facts.multipliers[j], key, group)
  }

  /** The awards of a scored log: each key offered where it is awarded, and no candidate passed over. */
  ghost predicate AwardsOk(award: map<string, string>, s: Scorer, done: seq<Contact>) {
    && Accounted(award, s.multKeys, s.multCounts)
    && s.raw == |award|
    && (forall k :: k in award ==> exists i, j :: OfferedIn(done, k, award[k], i, j))
    && (forall i, j :: 0 <= i < |done| && !done[i].marks.dupe && 0 <= j < |done[i].facts.multipliers| ==>
          Served(s.multKeys, s.multCounts, done[i].facts.multipliers[j]))
  }

  lemma AwardNext(r: Rules, s: Scorer, done: seq<Contact>, before: map<string, string>, c: Contact)
    returns (award: map<string, string>)
    requires AwardsOk(before, s, done)
    ensures var (s', d) := AddQso(r, s, c);
            AwardsOk(award, s', done + [d])
  {
    hide Score, Accounted, Served, TakeMultipliers, TakeBonuses, BumpAll;
    AccountedKeys(before, s.multKeys, s.multCounts);
    var (s', d) := AddQso(r, s, c);
    award := before;
    var next := TakeAwards(before, s.multCounts, c.facts.multipliers);
    if !d.marks.dupe { award := next; }
    var all := done + [d];
    forall k | k in award ensures exists i, j :: OfferedIn(all, k, award[k], i, j) {
      if k in before {
        var i, j :| OfferedIn(done, k, before[k], i, j);
        assert OfferedIn(all, k, award[k], i, j);
      } else {
        var j :| 0 <= j < |c.facts.multipliers| && Offering(c.facts.multipliers[j], k, next[k]);
        assert OfferedIn(all, k, award[k], |done|, j);
      }
    }
    forall i, j | 0 <= i < |all| && !all[i].marks.dupe && 0 <= j < |all[i].facts.multipliers|
      ensures Served(s'.multKeys, s'.multCounts, all[i].facts.multipliers[j])
    {
      if i < |done| {
        assert all[i] == done[i];
        AwardsGrow(r, s, c, before, next);
        StillServed(s, s', done[i].facts.multipliers[j]);
      }
    }
  }

  lemma AwardsGrow(r: Rules, s: Scorer, c: Contact, before: map<string, string>, next: map<string, string>)
    requires Accounted(before, s.multKeys, s.multCounts)
    requires var (ks, cs, n) := TakeMultipliers(s.multKeys, s.multCounts, c.facts.multipliers);
             && Accounted(next, ks, cs) && (forall k :: k in before ==> k in next)
             && forall g :: Get(s.multCounts, g) <= Get(cs, g)
    ensures var s' := AddQso(r, s, c).0;
            s.multKeys <= s'.multKeys && forall g :: Get(s.multCounts, g) <= Get(s'.multCounts, g)
  {
    hide Score, TakeMultipliers, TakeBonuses, BumpAll;
  }

  lemma StillServed(s: Scorer, t: Scorer, cand: Candidate)
    requires s.multKeys <= t.multKeys && forall g :: Get(s.multCounts, g) <= Get(t.multCounts, g)
    requires Served(s.multKeys, s.multCounts, cand)
    ensures Served(t.multKeys, t.multCounts, cand)
  {
  }

  lemma {:induction false} AwardsAccount(r: Rules, cs: seq<Contact>) returns (award: map<string, string>)
    ensures var (s, done) := ScoreContacts(r, cs);
            |done| == |cs| && AwardsOk(award, s, done)
  {
    if cs == [] {
      award := map[];
      assert forall g :: AwardedIn(award, g) == {};
    } else {
      hide AwardsOk, AddQso;
      var before := AwardsAccount(r, cs[..|cs| - 1]);
      var (s, done) := ScoreContacts(r, cs[..|cs| - 1]);
      award := AwardNext(r, s, done, before, cs[|cs| - 1]);
    }
  }

  lemma {:induction false} TakeRespectsCap(keys: set<string>, counts: map<string, nat>, cands: seq<Candidate>,
                                           group: string, cap: nat)
    requires Get(counts, group) <= cap
    requires forall j :: 0 <= j < |cands| && cands[j].Group() == group ==> cands[j].maxCount == Some(cap)
    ensures Get(TakeMultipliers(keys, counts, cands).1, group) <= cap
  {
    if cands != [] {
      TakeRespectsCap(keys, counts, cands[..|cands| - 1], group, cap);
    }
  }

  lemma {:induction false} GroupRespectsCap(r: Rules, cs: seq<Contact>, group: string, cap: nat)
    requires SharedCap(cs, group, cap)
    ensures Get(ScoreContacts(r, cs).0.multCounts, group) <= cap
  {
    if cs != [] {
      hide Score;
      var init, last := cs[..|cs| - 1], cs[|cs| - 1];
      assert SharedCap(init, group, cap) by {
        assert forall i :: 0 <= i < |init| ==> init[i] == cs[i];
      }
      GroupRespectsCap(r, init, group, cap);
      var s := ScoreContacts(r, init).0;
      TakeRespectsCap(s.multKeys, s.multCounts, last.facts.multipliers, group, cap);
    }
  }

  /**
   The multipliers of a scored log. Each group's entry is the number of keys awarded in the group, each of
   them offered there by a contact that counts; every candidate of a counting contact is awarded or meets
   a cap that is exhausted; and no group awards more than a maximum that all its candidates share.
   */
  lemma CapsHold(r: Rules, cs: seq<Contact>) returns (award: map<string, string>)
    ensures var (s, done) := ScoreContacts(r, cs);
            |done| == |cs| && AwardsOk(award, s, done)
    ensures forall group, cap: nat :: SharedCap(cs, group, cap) ==> |AwardedIn(award, group)| <= cap
  {
    hide AwardsOk, ScoreContacts, SharedCap;
    award := AwardsAccount(r, cs);
    var (s, done) := ScoreContacts(r, cs);
    forall group, cap: nat | SharedCap(cs, group, cap) ensures |AwardedIn(award, group)| <= cap {
      GroupRespectsCap(r, cs, group, cap);
      GroupIsCounted(award, s, done, group);
    }
  }

  lemma GroupIsCounted(award: map<string, string>, s: Scorer, done: seq<Contact>, group: string)
    requires AwardsOk(award, s, done)
    ensures Get(s.multCounts, group) == |AwardedIn(award, group)|
  {
    hide AwardedIn, Get;
  }

  /** Under capped rules every callback rescores the log it is given. */
  lemma CappedStepsRescore(r: Rules, log: Log, step: Step)
    requires r.capped
    ensures var after := Perform(r, log, step);
            && after.ledger.totals == ScoreContacts(r, step.arranged).0.totals
            && after.contacts == ScoreContacts(r, step.arranged).1
  {
    ResetAgrees(r, step.arranged);
  }

  // ----- the totals are determined by which contacts count -----

  /** A contact without the parts of its marks that follow from who owns what. */
  const STRIP: Contact -> Contact := (c: Contact) => c.(marks := Marks(0, 0, 0, c.marks.dupe))

  function Stripped(live: set<Contact>): set<Contact> {
    set c | c in live :: STRIP(c)
  }

  lemma StrippedSums(live: set<Contact>)
    requires UniqueIds(live)
    ensures Sum(live, PointWeight()) == Sum(Stripped(live), PointWeight())
    ensures forall k :: Sum(live, CountWeight(k)) == Sum(Stripped(live), CountWeight(k))
    ensures |live| == |Stripped(live)|
  {
    SumImage(live, PointWeight(), STRIP, Stripped(live), PointWeight());
    forall k ensures Sum(live, CountWeight(k)) == Sum(Stripped(live), CountWeight(k)) {
      var w := CountWeight(k);
      SumImage(live, w, STRIP, Stripped(live), w);
    }
  }

  /** The keys that counting contacts offer. */
  ghost function Offered(kind: Kind, live: set<Contact>): set<string> {
    set c, k | c in live && !c.marks.dupe && k in OfferKeys(kind, c.facts) :: k
  }

  lemma OwnedIsOffered(kind: Kind, worth: string -> int, owners: map<string, int>, total: int, live: set<Contact>)
    requires ClaimsOk(kind, worth, owners, total, live, {})
    ensures owners.Keys == Offered(kind, live)
  {
    hide Sum, Booked;
    forall k ensures k in owners.Keys <==> k in Offered(kind, live) {
      if k in owners {
        var c :| Holds(kind, c, k, live) && c.id == owners[k];
      }
      if k in Offered(kind, live) {
        var c :| c in live && !c.marks.dupe && k in OfferKeys(kind, c.facts);
        assert Holds(kind, c, k, live);
      }
    }
  }

  lemma StrippedOffered(kind: Kind, live: set<Contact>)
    ensures Offered(kind, live) == Offered(kind, Stripped(live))
  {
    forall k ensures k in Offered(kind, live) <==> k in Offered(kind, Stripped(live)) {
      if k in Offered(kind, live) {
        var c :| c in live && !c.marks.dupe && k in OfferKeys(kind, c.facts);
        assert STRIP(c) in Stripped(live);
      }
    }
  }

  lemma EqualTallies(r: Rules, pts: string -> int, st: Ledger, live: set<Contact>, tt: Ledger, mive: set<Contact>)
    requires LedgerOk(pts, st, live, NOTHING_PENDING) && LedgerOk(pts, tt, mive, NOTHING_PENDING)
    requires |live| == |mive| && Sum(live, PointWeight()) == Sum(mive, PointWeight())
    requires forall k :: Sum(live, CountWeight(k)) == Sum(mive, CountWeight(k))
    requires Offered(Multiplier, live) == Offered(Multiplier, mive)
    requires Offered(Bonus, live) == Offered(Bonus, mive)
    ensures Tallied(r, st).totals == Tallied(r, tt).totals
  {
    hide Sum, DupesOk, Score, Offered;
    OwnedIsOffered(Multiplier, ONE, st.multOwners, st.raw, live);
    OwnedIsOffered(Multiplier, ONE, tt.multOwners, tt.raw, mive);
    OwnedIsOffered(Bonus, pts, st.bonusOwners, st.direct, live);
    OwnedIsOffered(Bonus, pts, tt.bonusOwners, tt.direct, mive);
    EqualTables(st.counts, tt.counts);
  }

  /** Which contacts count, and what the rules make of them, fix the totals. */
  lemma TotalsDetermined(r: Rules, pts: string -> int, st: Ledger, live: set<Contact>, tt: Ledger, mive: set<Contact>)
    requires LedgerOk(pts, st, live, NOTHING_PENDING) && LedgerOk(pts, tt, mive, NOTHING_PENDING)
    requires Stripped(live) == Stripped(mive)
    ensures Tallied(r, st).totals == Tallied(r, tt).totals
  {
    hide Sum, DupesOk, ClaimsOk, SumsOk, Score, Offered, Admissible, Stripped;
    StrippedSums(live);
    StrippedSums(mive);
    StrippedOffered(Multiplier, live);
    StrippedOffered(Multiplier, mive);
    StrippedOffered(Bonus, live);
    StrippedOffered(Bonus, mive);
    EqualTallies(r, pts, st, live, tt, mive);
  }

  // ----- scoring the surviving contacts, non-dupes first -----

  function Where(cs: seq<Contact>, dupe: bool): (ds: seq<Contact>)
    ensures forall c :: c in ds <==> c in cs && c.marks.dupe == dupe
    ensures Distinct(cs) ==> Distinct(ds)
  {
    if cs == [] then []
    else
      assert cs == [cs[0]] + cs[1..];
      (if cs[0].marks.dupe == dupe then [cs[0]] else []) + Where(cs[1..], dupe)
  }

  function NonDupesFirst(cs: seq<Contact>): (ds: seq<Contact>)
    ensures SetOf(ds) == SetOf(cs)
    ensures |ds| == |cs|
    ensures Distinct(cs) ==> Distinct(ds)
  {
    var ds := Where(cs, false) + Where(cs, true);
    assert Distinct(cs) ==> Distinct(ds) by {
      if Distinct(cs) { DistinctParts(cs, Where(cs, false), Where(cs, true)); }
    }
    WhereParts(cs);
    ds
  }

  lemma {:induction false} WhereParts(cs: seq<Contact>)
    ensures |Where(cs, false)| + |Where(cs, true)| == |cs|
  {
    if cs != [] { WhereParts(cs[1..]); }
  }

  lemma DistinctParts(cs: seq<Contact>, a: seq<Contact>, b: seq<Contact>)
    requires Distinct(cs) && Distinct(a) && Distinct(b)
    requires forall c :: c in a ==> c in cs && !c.marks.dupe
    requires forall c :: c in b ==> c in cs && c.marks.dupe
    ensures Distinct(a + b)
  {
    forall i, j | 0 <= i < j < |a + b| ensures (a + b)[i].id != (a + b)[j].id {
      if i < |a| <= j {
        var c, d := a[i], b[j - |a|];
        assert c in a && d in b;
        var k :| 0 <= k < |cs| && cs[k] == c;
        var l :| 0 <= l < |cs| && cs[l] == d;
        assert k != l;
      }
    }
  }

  /** In non-dupes-first order the scorer finds exactly the same dupes. */
  lemma SameDupes(dupeCounts: map<string, nat>, dupeOwners: map<string, int>, cs: seq<Contact>, i: nat)
    requires Distinct(cs) && DupesOk(dupeCounts, dupeOwners, SetOf(cs))
    requires i < |cs|
    ensures KeyTaken(NonDupesFirst(cs), i) <==> NonDupesFirst(cs)[i].marks.dupe
  {
    var ds := NonDupesFirst(cs);
    var c := ds[i];
    assert c in SetOf(cs) by { assert c in SetOf(ds); }
    hide KeyCountsOk, NonDupesFirst;
    if c.marks.dupe {
      var key := c.facts.dupeKey.value;
      var d :| d in SetOf(cs) && d.facts.dupeKey == Some(key) && d.id == dupeOwners[key];
      hide DupesOk;
      CountsBefore(cs, i, d);
    }
    if j :| 0 <= j < i && ds[j].facts.dupeKey.Some? && ds[j].facts.dupeKey == c.facts.dupeKey {
      assert ds[j] in SetOf(cs) by { assert ds[j] in SetOf(ds); }
      assert ds[j].id != c.id;
      if !c.marks.dupe {
        assert ds[j].marks.dupe;
        CountsBefore(cs, j, c);
      }
    }
  }

  /** What counts comes before what does not. */
  lemma CountsBefore(cs: seq<Contact>, i: nat, d: Contact)
    requires i < |cs| && d in SetOf(cs) && !d.marks.dupe && NonDupesFirst(cs)[i].marks.dupe
    ensures exists j :: 0 <= j < i && NonDupesFirst(cs)[j] == d
    ensures forall j :: i <= j < |cs| ==> NonDupesFirst(cs)[j] != d
  {
    var a, b := Where(cs, false), Where(cs, true);
    assert NonDupesFirst(cs) == a + b;
    assert d in a;
    var j :| 0 <= j < |a| && a[j] == d;
    assert forall k :: 0 <= k < |a| ==> a[k] in a && !a[k].marks.dupe;
    forall k | i <= k < |cs| ensures (a + b)[k] != d { assert b[k - |a|] in b; }
    assert (a + b)[j] == d;
  }

  lemma StrippedLoad(r: Rules, pts: string -> int, dupeCounts: map<string, nat>, dupeOwners: map<string, int>, cs: seq<Contact>)
    requires Distinct(cs) && DupesOk(dupeCounts, dupeOwners, SetOf(cs)) && AllAdmissible(pts, cs)
    ensures Distinct(NonDupesFirst(cs)) && AllAdmissible(pts, NonDupesFirst(cs))
    ensures Stripped(SetOf(Load(r, NonDupesFirst(cs)).contacts)) == Stripped(SetOf(cs))
  {
    hide DupesOk, Reset;
    var ds := NonDupesFirst(cs);
    forall i | 0 <= i < |ds| ensures Admissible(pts, ds[i].facts) {
      assert ds[i] in SetOf(cs);
    }
    hide NonDupesFirst, Admissible;
    LoadKeeps(r, pts, ds);
    var es := Load(r, ds).contacts;
    forall i | 0 <= i < |ds| ensures STRIP(es[i]) == STRIP(ds[i]) {
      assert LoadedAs(ds, i, es[i]);
      SameDupes(dupeCounts, dupeOwners, cs, i);
    }
    SameStripped(ds, es);
  }

  lemma SameStripped(ds: seq<Contact>, es: seq<Contact>)
    requires |ds| == |es| && forall i :: 0 <= i < |ds| ==> STRIP(es[i]) == STRIP(ds[i])
    ensures Stripped(SetOf(ds)) == Stripped(SetOf(es))
  {
    forall c | c in SetOf(ds) ensures STRIP(c) in Stripped(SetOf(es)) {
      var i :| 0 <= i < |ds| && ds[i] == c;
      assert es[i] in SetOf(es);
    }
    forall c | c in SetOf(es) ensures STRIP(c) in Stripped(SetOf(ds)) {
      var i :| 0 <= i < |es| && es[i] == c;
      assert ds[i] in SetOf(ds);
    }
  }

  const EMPTIED := (r: Rules) => Tally(r, 0, 0, 0, 0, {}, map[])

  lemma EmptyLedger(pts: string -> int, r: Rules, st: Ledger)
    requires LedgerOk(pts, st, {}, NOTHING_PENDING)
    ensures Tallied(r, st).totals == EMPTIED(r)
  {
    hide Score;
    hide DupesOk;
    OwnedIsOffered(Multiplier, ONE, st.multOwners, st.raw, {});
    OwnedIsOffered(Bonus, pts, st.bonusOwners, st.direct, {});
    EqualTables(st.counts, map[]);
  }

  lemma LogTotals(r: Rules, pts: string -> int, log: Log)
    requires LogOk(r, pts, log) && AllAdmissible(pts, log.contacts)
    ensures log.contacts != [] ==>
              log.ledger.totals == ScoreContacts(r, NonDupesFirst(log.contacts)).0.totals
    ensures log.contacts == [] ==> log.ledger.totals in {NO_TOTALS, EMPTIED(r)}
  {
    hide Score, Reset, ScoreContacts;
    var cs := log.contacts;
    if cs == [] {
      assert SetOf(cs) == {};
      EmptyLedger(pts, r, log.ledger);
    } else {
      assert cs[0] in SetOf(cs);
      hide DupesOk, ClaimsOk, SumsOk, Admissible, Stripped, NonDupesFirst, LoadedAs;
      var ds := NonDupesFirst(cs);
      StrippedLoad(r, pts, log.ledger.dupeCounts, log.ledger.dupeOwners, cs);
      LoadKeeps(r, pts, ds);
      TotalsDetermined(r, pts, log.ledger, SetOf(cs), Load(r, ds).ledger, SetOf(Load(r, ds).contacts));
      ResetAgrees(r, ds);
    }
  }

  /**
   The main result: after loading any log and any run of deletes and of batches, new contacts and
   edits mixed, whose removals hand no key to a contact of the batch, the running totals are what
   the scorer computes from scratch on the surviving contacts, taken non-dupes first. A log that
   has been emptied is the one exception; see EmptiedLogTotals.
   */
  lemma RunTotals(r: Rules, pts: string -> int, given: seq<Contact>, steps: seq<Step>)
    requires !r.capped && Distinct(given) && AllAdmissible(pts, given)
    requires CanRun(r, Load(r, given), steps)
    requires forall i :: 0 <= i < |steps| ==> AllAdmissible(pts, NewContacts(steps[i]))
    ensures var log := Replay(r, Load(r, given), steps);
            && LogOk(r, pts, log)
            && (log.contacts != [] ==>
                  log.ledger.totals == ScoreContacts(r, NonDupesFirst(log.contacts)).0.totals)
            && (log.contacts == [] ==> log.ledger.totals in {NO_TOTALS, EMPTIED(r)})
  {
    hide LogOk, CanRun, Replay, ScoreContacts, NonDupesFirst, LoadedAs, Admissible, Score;
    LoadKeeps(r, pts, given);
    var start := Load(r, given);
    forall i | 0 <= i < |start.contacts| ensures Admissible(pts, start.contacts[i].facts) {
      LoadedFacts(given, i, start.contacts[i]);
    }
    RunKeeps(r, pts, start, steps);
    LogTotals(r, pts, Replay(r, start, steps));
  }

  lemma LoadedFacts(cs: seq<Contact>, i: nat, d: Contact)
    requires i < |cs| && LoadedAs(cs, i, d)
    ensures d.facts == cs[i].facts
  {
  }
}

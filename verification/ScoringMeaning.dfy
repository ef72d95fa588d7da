/**
 What a score is, said without the scorer: which contacts count, which multiplier candidates are awarded,
 which bonus offers are paid, and what the headline numbers are made of.
 */
module ScoringMeaning {
  import opened Sums
  import opened ScoringSpec
  import opened ScoringLedger
  import opened ScoringOperations
  import opened ScoringBatches
  import opened ScoringRuns
  import opened ScoringTheorems

  /** The contacts of a log that count: those whose dupe key did not occur before. */
  function Counting(cs: seq<Contact>, n: nat): set<int>
    requires n <= |cs|
  {
    set i | 0 <= i < n && !KeyTaken(cs, i)
  }

  /** An offer of a log: of which contact, and which one of its offers. */
  datatype Place = Place(contact: nat, offer: nat)

  predicate Before(p: Place, q: Place) {
    p.contact < q.contact || (p.contact == q.contact && p.offer < q.offer)
  }

  // ----- multipliers -----

  predicate HasCandidate(cs: seq<Contact>, p: Place) {
    p.contact < |cs| && !KeyTaken(cs, p.contact) && p.offer < |cs[p.contact].facts.multipliers|
  }

  function CandidateAt(cs: seq<Contact>, p: Place): Candidate
    requires HasCandidate(cs, p)
  {
    cs[p.contact].facts.multipliers[p.offer]
  }

  /** Candidates are capped together if they name the same cap group; one that names none goes by its id. */
  predicate CappedTogether(c: Candidate, d: Candidate) {
    match (c.capGroup, d.capGroup)
    case (Some(g), Some(h)) => g == h
    case (Some(g), None) => g == d.id
    case (None, Some(h)) => c.id == h
    case (None, None) => c.id == d.id
  }

  function EarlierInGroup(cs: seq<Contact>, awards: set<Place>, p: Place): set<Place>
    requires HasCandidate(cs, p)
  {
    set q | q in awards && HasCandidate(cs, q) && Before(q, p) && CappedTogether(CandidateAt(cs, q), CandidateAt(cs, p))
  }

  /** A candidate earns an award if its key has not been awarded before it and its cap is not exhausted. */
  ghost predicate Earns(cs: seq<Contact>, awards: set<Place>, p: Place)
    requires HasCandidate(cs, p)
  {
    && (forall q :: q in awards && HasCandidate(cs, q) && Before(q, p) ==> CandidateAt(cs, q).key != CandidateAt(cs, p).key)
    && (CandidateAt(cs, p).maxCount.Some? ==> |EarlierInGroup(cs, awards, p)| < CandidateAt(cs, p).maxCount.value)
  }

  /** Of the candidates before a place, exactly those that earn an award get one. */
  ghost predicate AwardedBefore(cs: seq<Contact>, awards: set<Place>, end: Place) {
    && (forall p :: p in awards ==> HasCandidate(cs, p) && Before(p, end))
    && forall p :: HasCandidate(cs, p) && Before(p, end) ==> (p in awards <==> Earns(cs, awards, p))
  }

  ghost predicate Awarded(cs: seq<Contact>, awards: set<Place>) {
    AwardedBefore(cs, awards, Place(|cs|, 0))
  }

  function AwardedKeys(cs: seq<Contact>, awards: set<Place>): set<string> {
    set p | p in awards && HasCandidate(cs, p) :: CandidateAt(cs, p).key
  }

  /** There is only one way to award. */
  lemma AwardsAreUnique(cs: seq<Contact>, awards: set<Place>, others: set<Place>)
    requires Awarded(cs, awards) && Awarded(cs, others)
    ensures awards == others
  {
    forall p | HasCandidate(cs, p) ensures p in awards <==> p in others {
      SameAward(cs, awards, others, p);
    }
  }

  lemma {:induction false} SameAward(cs: seq<Contact>, awards: set<Place>, others: set<Place>, p: Place)
    requires Awarded(cs, awards) && Awarded(cs, others) && HasCandidate(cs, p)
    ensures p in awards <==> p in others
    decreases p.contact, p.offer
  {
    forall q | HasCandidate(cs, q) && Before(q, p) ensures q in awards <==> q in others {
      SameAward(cs, awards, others, q);
    }
    assert EarlierInGroup(cs, awards, p) == EarlierInGroup(cs, others, p);
  }

  /** What the scorer knows after the candidates before a place. */
  ghost predicate KnowsAwards(cs: seq<Contact>, awards: set<Place>, end: Place, keys: set<string>,
                              counts: map<string, nat>, raw: int)
  {
    && AwardedBefore(cs, awards, end)
    && keys == AwardedKeys(cs, awards)
    && raw == |awards|
    && forall g :: Get(counts, g) == |InGroup(cs, awards, g)|
  }

  function InGroup(cs: seq<Contact>, awards: set<Place>, group: string): set<Place> {
    set p | p in awards && HasCandidate(cs, p) && CandidateAt(cs, p).Group() == group
  }

  lemma EarnsIff(cs: seq<Contact>, awards: set<Place>, p: Place, keys: set<string>, counts: map<string, nat>, raw: int)
    requires HasCandidate(cs, p) && KnowsAwards(cs, awards, p, keys, counts, raw)
    ensures var cand := CandidateAt(cs, p);
            Earns(cs, awards, p) <==> !(cand.key in keys || CapReached(counts, cand))
  {
    assert EarlierInGroup(cs, awards, p) == InGroup(cs, awards, CandidateAt(cs, p).Group());
  }

  lemma GroupGrows(cs: seq<Contact>, awards: set<Place>, p: Place, g: string)
    requires HasCandidate(cs, p) && p !in awards
    ensures |InGroup(cs, awards + {p}, g)| == |InGroup(cs, awards, g)| + if CandidateAt(cs, p).Group() == g then 1 else 0
  {
    hide HasCandidate, CandidateAt;
    var more := if CandidateAt(cs, p).Group() == g then InGroup(cs, awards, g) + {p} else InGroup(cs, awards, g);
    assert InGroup(cs, awards + {p}, g) == more;
  }

  lemma KeysGrow(cs: seq<Contact>, awards: set<Place>, p: Place)
    requires HasCandidate(cs, p)
    ensures AwardedKeys(cs, awards + {p}) == AwardedKeys(cs, awards) + {CandidateAt(cs, p).key}
  {
    hide HasCandidate, CandidateAt;
  }

  lemma TakesOne(cs: seq<Contact>, awards: set<Place>, p: Place, keys: set<string>, counts: map<string, nat>, raw: int)
    returns (more: set<Place>)
    requires HasCandidate(cs, p) && KnowsAwards(cs, awards, p, keys, counts, raw)
    ensures var cand := CandidateAt(cs, p);
            var next := Place(p.contact, p.offer + 1);
            if cand.key in keys || CapReached(counts, cand) then more == awards && KnowsAwards(cs, more, next, keys, counts, raw)
            else KnowsAwards(cs, more, next, keys + {cand.key}, Bump(counts, cand.Group()), raw + 1)
                 && more == awards + {p}
  {
    EarnsIff(cs, awards, p, keys, counts, raw);
    hide Earns, CapReached, AwardedBefore, CandidateAt, HasCandidate, InGroup, AwardedKeys;
    var cand := CandidateAt(cs, p);
    var earns := !(cand.key in keys || CapReached(counts, cand));
    more := if earns then awards + {p} else awards;
    AwardsExtended(cs, awards, p, more, earns);
    if earns {
      assert p !in awards by { NotYet(cs, awards, p); }
      forall g ensures Get(Bump(counts, cand.Group()), g) == |InGroup(cs, more, g)| {
        GroupGrows(cs, awards, p, g);
      }
      KeysGrow(cs, awards, p);
    }
  }

  lemma NotYet(cs: seq<Contact>, awards: set<Place>, p: Place)
    requires AwardedBefore(cs, awards, p)
    ensures p !in awards
  {
  }

  lemma AwardsExtended(cs: seq<Contact>, awards: set<Place>, p: Place, more: set<Place>, earns: bool)
    requires HasCandidate(cs, p) && AwardedBefore(cs, awards, p) && (earns <==> Earns(cs, awards, p))
    requires more == if earns then awards + {p} else awards
    ensures AwardedBefore(cs, more, Place(p.contact, p.offer + 1))
  {
    forall q | HasCandidate(cs, q) && Before(q, Place(p.contact, p.offer + 1))
      ensures q in more <==> Earns(cs, more, q)
    {
      assert q == p || Before(q, p);
      assert EarlierInGroup(cs, more, q) == EarlierInGroup(cs, awards, q);
      assert Earns(cs, more, q) <==> Earns(cs, awards, q);
    }
  }

  lemma {:induction false} TakesAll(cs: seq<Contact>, i: nat, m: nat, awards: set<Place>, keys: set<string>,
                                    counts: map<string, nat>, raw: int)
    returns (more: set<Place>)
    requires i < |cs| && !KeyTaken(cs, i) && m <= |cs[i].facts.multipliers|
    requires KnowsAwards(cs, awards, Place(i, 0), keys, counts, raw)
    ensures var (ks, ns, k) := TakeMultipliers(keys, counts, cs[i].facts.multipliers[..m]);
            KnowsAwards(cs, more, Place(i, m), ks, ns, raw + k)
    ensures awards <= more && forall p :: p in more && p !in awards ==> p.contact == i
  {
    hide KnowsAwards, CapReached, Bump;
    more := awards;
    if m > 0 {
      more := TakesAll(cs, i, m - 1, awards, keys, counts, raw);
      var cands := cs[i].facts.multipliers;
      assert cands[..m][..m - 1] == cands[..m - 1] && cands[..m][m - 1] == CandidateAt(cs, Place(i, m - 1));
      var (ks, ns, k) := TakeMultipliers(keys, counts, cands[..m - 1]);
      more := TakesOne(cs, more, Place(i, m - 1), ks, ns, raw + k);
    }
  }

  // ----- bonuses -----

  predicate HasBonus(cs: seq<Contact>, p: Place) {
    p.contact < |cs| && !KeyTaken(cs, p.contact) && p.offer < |cs[p.contact].facts.bonuses|
  }

  function BonusAt(cs: seq<Contact>, p: Place): (string, int)
    requires HasBonus(cs, p)
  {
    cs[p.contact].facts.bonuses[p.offer]
  }

  /** The first offer of a bonus key is paid, and no other. */
  ghost predicate PaidBefore(cs: seq<Contact>, paid: set<Place>, end: Place) {
    && (forall p :: p in paid ==> HasBonus(cs, p) && Before(p, end))
    && forall p :: HasBonus(cs, p) && Before(p, end) ==>
         (p in paid <==> forall q :: HasBonus(cs, q) && Before(q, p) ==> BonusAt(cs, q).0 != BonusAt(cs, p).0)
  }

  ghost predicate Paid(cs: seq<Contact>, paid: set<Place>) {
    PaidBefore(cs, paid, Place(|cs|, 0))
  }

  function BonusWorth(cs: seq<Contact>): Place -> int {
    (p: Place) => if HasBonus(cs, p) then BonusAt(cs, p).1 else 0
  }

  /** What the scorer knows after the bonus offers before a place. */
  ghost predicate KnowsPaid(cs: seq<Contact>, paid: set<Place>, end: Place, keys: set<string>, direct: int) {
    && PaidBefore(cs, paid, end)
    && (forall p :: HasBonus(cs, p) && Before(p, end) ==> BonusAt(cs, p).0 in keys)
    && (forall k :: k in keys ==> exists p :: HasBonus(cs, p) && Before(p, end) && BonusAt(cs, p).0 == k)
    && direct == Sum(paid, BonusWorth(cs))
  }

  lemma PaysOne(cs: seq<Contact>, paid: set<Place>, p: Place, keys: set<string>, direct: int)
    returns (more: set<Place>)
    requires HasBonus(cs, p) && KnowsPaid(cs, paid, p, keys, direct)
    ensures var (key, worth) := BonusAt(cs, p);
            var next := Place(p.contact, p.offer + 1);
            if key in keys then more == paid && KnowsPaid(cs, more, next, keys, direct)
            else more == paid + {p} && KnowsPaid(cs, more, next, keys + {key}, direct + worth)
  {
    hide Sum;
    var (key, worth) := BonusAt(cs, p);
    var next := Place(p.contact, p.offer + 1);
    more := if key in keys then paid else paid + {p};
    assert forall q :: Before(q, next) <==> q == p || Before(q, p);
    assert p !in paid;
    SumAdd(paid, BonusWorth(cs), p);
    forall k | k in keys + {key} ensures exists q :: HasBonus(cs, q) && Before(q, next) && BonusAt(cs, q).0 == k {
      if k in keys {
        var q :| HasBonus(cs, q) && Before(q, p) && BonusAt(cs, q).0 == k;
        assert Before(q, next);
      } else {
        assert Before(p, next);
      }
    }
  }

  lemma {:induction false} PaysAll(cs: seq<Contact>, i: nat, m: nat, paid: set<Place>, keys: set<string>, direct: int)
    returns (more: set<Place>)
    requires i < |cs| && !KeyTaken(cs, i) && m <= |cs[i].facts.bonuses|
    requires KnowsPaid(cs, paid, Place(i, 0), keys, direct)
    ensures var (ks, n) := TakeBonuses(keys, cs[i].facts.bonuses[..m]);
            KnowsPaid(cs, more, Place(i, m), ks, direct + n)
    ensures paid <= more && forall p :: p in more && p !in paid ==> p.contact == i
  {
    hide KnowsPaid;
    more := paid;
    if m > 0 {
      more := PaysAll(cs, i, m - 1, paid, keys, direct);
      var offers := cs[i].facts.bonuses;
      assert offers[..m][..m - 1] == offers[..m - 1] && offers[..m][m - 1] == BonusAt(cs, Place(i, m - 1));
      var (ks, n) := TakeBonuses(keys, offers[..m - 1]);
      more := PaysOne(cs, more, Place(i, m - 1), ks, direct + n);
    }
  }

  // ----- one contact after the other -----

  lemma NextRowAwards(cs: seq<Contact>, awards: set<Place>, i: nat, keys: set<string>, counts: map<string, nat>, raw: int)
    requires i < |cs|
    requires KnowsAwards(cs, awards, Place(i, if KeyTaken(cs, i) then 0 else |cs[i].facts.multipliers|), keys, counts, raw)
    ensures KnowsAwards(cs, awards, Place(i + 1, 0), keys, counts, raw)
  {
    hide Earns;
    var end := Place(i, if KeyTaken(cs, i) then 0 else |cs[i].facts.multipliers|);
    assert forall p :: HasCandidate(cs, p) ==> (Before(p, end) <==> Before(p, Place(i + 1, 0)));
  }

  lemma NextRowPaid(cs: seq<Contact>, paid: set<Place>, i: nat, keys: set<string>, direct: int)
    requires i < |cs|
    requires KnowsPaid(cs, paid, Place(i, if KeyTaken(cs, i) then 0 else |cs[i].facts.bonuses|), keys, direct)
    ensures KnowsPaid(cs, paid, Place(i + 1, 0), keys, direct)
  {
    hide Sum;
    var end, next := Place(i, if KeyTaken(cs, i) then 0 else |cs[i].facts.bonuses|), Place(i + 1, 0);
    assert forall p :: HasBonus(cs, p) ==> (Before(p, end) <==> Before(p, next));
  }

  function PointsAt(cs: seq<Contact>): int -> int {
    (i: int) => if 0 <= i < |cs| then cs[i].facts.points else 0
  }

  /** How often a contact adds to a count key: only if it scores. */
  function CountAt(cs: seq<Contact>, key: string): int -> int {
    (i: int) => if 0 <= i < |cs| && cs[i].facts.points > 0 then multiset(cs[i].facts.countKeys)[key] else 0
  }

  /** The table of the count keys, without entries for nothing. */
  ghost predicate CountsOf(cs: seq<Contact>, n: nat, counts: map<string, nat>)
    requires n <= |cs|
  {
    && (forall k :: Get(counts, k) == Sum(Counting(cs, n), CountAt(cs, k)))
    && (forall k :: k in counts ==> counts[k] > 0)
  }

  function InRow(places: set<Place>, i: nat): set<Place> {
    set p | p in places && p.contact == i
  }

  /** The contact as scoring leaves it: a dupe without score, or marked with what it earned. */
  ghost predicate MarkedBy(cs: seq<Contact>, awards: set<Place>, paid: set<Place>, i: nat, d: Contact)
    requires i < |cs|
  {
    d == cs[i].(marks := if KeyTaken(cs, i) then Marks(0, 0, 0, true)
                         else Marks(cs[i].facts.points, |InRow(awards, i)|, Sum(InRow(paid, i), BonusWorth(cs)), false))
  }

  /** The headline numbers, from what was awarded, paid and counted. */
  ghost predicate Headline(r: Rules, cs: seq<Contact>, n: nat, awards: set<Place>, paid: set<Place>,
                           counts: map<string, nat>, t: Totals)
    requires n <= |cs|
  {
    && t.qsoCount == n
    && t.qsoPoints == Sum(Counting(cs, n), PointsAt(cs))
    && t.multipliers == (if !r.hasMultipliers then 0
                         else if |awards| < r.minimumMultipliers then r.minimumMultipliers else |awards|)
    && t.bonusPoints == Sum(paid, BonusWorth(cs)) + r.multiplierCountBonus(AwardedKeys(cs, awards)) + r.qsoCountBonus(counts)
    && t.score == (if r.hasMultipliers then t.qsoPoints * t.multipliers * r.scoreFactor else t.qsoPoints * r.scoreFactor)
                  + t.bonusPoints
  }

  ghost predicate KnowsKeys(cs: seq<Contact>, n: nat, dupeKeys: map<string, nat>)
    requires n <= |cs|
  {
    forall k :: Get(dupeKeys, k) > 0 <==> exists j :: 0 <= j < n && cs[j].facts.dupeKey == Some(k)
  }

  /** What the scorer knows of the first n contacts. */
  ghost predicate Knows(r: Rules, cs: seq<Contact>, n: nat, s: Scorer, done: seq<Contact>, awards: set<Place>, paid: set<Place>)
    requires n <= |cs|
  {
    && |done| == n
    && KnowsKeys(cs, n, s.dupeKeys)
    && KnowsAwards(cs, awards, Place(n, 0), s.multKeys, s.multCounts, s.raw)
    && KnowsPaid(cs, paid, Place(n, 0), s.bonusKeys, s.direct)
    && CountsOf(cs, n, s.counts)
    && (if n == 0 then s.totals == NO_TOTALS else Headline(r, cs, n, awards, paid, s.counts, s.totals))
    && forall i :: 0 <= i < n ==> MarkedBy(cs, awards, paid, i, done[i])
  }

  lemma KeysNext(cs: seq<Contact>, n: nat, dupeKeys: map<string, nat>)
    requires n < |cs| && KnowsKeys(cs, n, dupeKeys)
    ensures var key := cs[n].facts.dupeKey;
            && (KeyTaken(cs, n) <==> key.Some? && Get(dupeKeys, key.value) > 0)
            && KnowsKeys(cs, n + 1, if key.Some? then Bump(dupeKeys, key.value) else dupeKeys)
  {
    var key := cs[n].facts.dupeKey;
    var next := if key.Some? then Bump(dupeKeys, key.value) else dupeKeys;
    forall k ensures Get(next, k) > 0 <==> exists j :: 0 <= j < n + 1 && cs[j].facts.dupeKey == Some(k) {
      if j :| 0 <= j < n && cs[j].facts.dupeKey == Some(k) {
        assert 0 <= j < n + 1;
      }
      assert key == Some(k) ==> cs[n].facts.dupeKey == Some(k);
    }
  }

  lemma CountingNext(cs: seq<Contact>, n: nat, w: int -> int)
    requires n < |cs|
    ensures Sum(Counting(cs, n + 1), w) == Sum(Counting(cs, n), w) + if KeyTaken(cs, n) then 0 else w(n)
  {
    hide Sum, KeyTaken;
    if KeyTaken(cs, n) {
      assert Counting(cs, n + 1) == Counting(cs, n);
    } else {
      assert Counting(cs, n + 1) == Counting(cs, n) + {n};
      SumAdd(Counting(cs, n), w, n);
    }
  }

  lemma CountsNext(cs: seq<Contact>, n: nat, counts: map<string, nat>)
    requires n < |cs| && CountsOf(cs, n, counts)
    ensures CountsOf(cs, n + 1, if !KeyTaken(cs, n) && cs[n].facts.points > 0 then BumpAll(counts, cs[n].facts.countKeys) else counts)
  {
    hide Sum, Counting, KeyTaken, BumpAll;
    BumpAllGet(counts, cs[n].facts.countKeys);
    forall k { CountingNext(cs, n, CountAt(cs, k)); }
    var next := if !KeyTaken(cs, n) && cs[n].facts.points > 0 then BumpAll(counts, cs[n].facts.countKeys) else counts;
    forall k ensures Get(next, k) == Sum(Counting(cs, n + 1), CountAt(cs, k)) {
      CountingNext(cs, n, CountAt(cs, k));
    }
  }

  lemma RowsOf(cs: seq<Contact>, places: set<Place>, more: set<Place>, n: nat)
    requires places <= more && (forall p :: p in places ==> p.contact < n)
    requires forall p :: p in more && p !in places ==> p.contact == n
    ensures forall i :: 0 <= i < n ==> InRow(more, i) == InRow(places, i)
    ensures |InRow(more, n)| == |more| - |places|
    ensures forall w: Place -> int :: Sum(InRow(more, n), w) == Sum(more, w) - Sum(places, w)
  {
    hide Sum;
    assert InRow(more, n) == more - places;
    assert more == places + InRow(more, n);
    forall w: Place -> int { SumUnion(places, InRow(more, n), w); }
  }

  lemma PlacesBefore(cs: seq<Contact>, n: nat, awards: set<Place>, keys: set<string>, counts: map<string, nat>, raw: int,
                     paid: set<Place>, bonusKeys: set<string>, direct: int)
    requires KnowsAwards(cs, awards, Place(n, 0), keys, counts, raw) && KnowsPaid(cs, paid, Place(n, 0), bonusKeys, direct)
    ensures forall p :: p in awards || p in paid ==> p.contact < n
    ensures raw == |awards| && keys == AwardedKeys(cs, awards) && direct == Sum(paid, BonusWorth(cs))
  {
  }

  lemma EarnsNext(cs: seq<Contact>, n: nat, s: Scorer, awards: set<Place>, paid: set<Place>)
    returns (awards': set<Place>, paid': set<Place>)
    requires n < |cs|
    requires KnowsAwards(cs, awards, Place(n, 0), s.multKeys, s.multCounts, s.raw)
    requires KnowsPaid(cs, paid, Place(n, 0), s.bonusKeys, s.direct)
    ensures awards <= awards' && forall p :: p in awards' && p !in awards ==> p.contact == n
    ensures paid <= paid' && forall p :: p in paid' && p !in paid ==> p.contact == n
    ensures var (mk, mc, mults) := TakeMultipliers(s.multKeys, s.multCounts, cs[n].facts.multipliers);
            if KeyTaken(cs, n) then KnowsAwards(cs, awards', Place(n + 1, 0), s.multKeys, s.multCounts, s.raw)
            else KnowsAwards(cs, awards', Place(n + 1, 0), mk, mc, s.raw + mults)
    ensures var (bk, bonus) := TakeBonuses(s.bonusKeys, cs[n].facts.bonuses);
            if KeyTaken(cs, n) then KnowsPaid(cs, paid', Place(n + 1, 0), s.bonusKeys, s.direct)
            else KnowsPaid(cs, paid', Place(n + 1, 0), bk, s.direct + bonus)
  {
    hide KnowsAwards, KnowsPaid, TakeMultipliers, TakeBonuses, KeyTaken;
    awards', paid' := awards, paid;
    if KeyTaken(cs, n) {
      NextRowAwards(cs, awards, n, s.multKeys, s.multCounts, s.raw);
      NextRowPaid(cs, paid, n, s.bonusKeys, s.direct);
    } else {
      var cands, offers := cs[n].facts.multipliers, cs[n].facts.bonuses;
      assert cands[..|cands|] == cands && offers[..|offers|] == offers;
      awards' := TakesAll(cs, n, |cands|, awards, s.multKeys, s.multCounts, s.raw);
      paid' := PaysAll(cs, n, |offers|, paid, s.bonusKeys, s.direct);
      var (mk, mc, mults) := TakeMultipliers(s.multKeys, s.multCounts, cands);
      var (bk, bonus) := TakeBonuses(s.bonusKeys, offers);
      NextRowAwards(cs, awards', n, mk, mc, s.raw + mults);
      NextRowPaid(cs, paid', n, bk, s.direct + bonus);
    }
  }

  lemma KnowsNext(r: Rules, cs: seq<Contact>, n: nat, s: Scorer, done: seq<Contact>, awards: set<Place>, paid: set<Place>)
    returns (awards': set<Place>, paid': set<Place>)
    requires n < |cs| && Knows(r, cs, n, s, done, awards, paid)
    ensures var (t, d) := AddQso(r, s, cs[n]);
            Knows(r, cs, n + 1, t, done + [d], awards', paid')
  {
    hide KnowsAwards, KnowsPaid, TakeMultipliers, TakeBonuses, KeyTaken, KnowsKeys, CountsOf, BumpAll, Sum, AwardedKeys, InRow,
         BonusWorth, Counting;
    KeysNext(cs, n, s.dupeKeys);
    CountsNext(cs, n, s.counts);
    CountingNext(cs, n, PointsAt(cs));
    NothingCounts(cs);
    awards', paid' := EarnsNext(cs, n, s, awards, paid);
    PlacesBefore(cs, n, awards, s.multKeys, s.multCounts, s.raw, paid, s.bonusKeys, s.direct);
    RowsOf(cs, awards, awards', n);
    RowsOf(cs, paid, paid', n);
    var (t, d) := AddQso(r, s, cs[n]);
    assert KnowsAwards(cs, awards', Place(n + 1, 0), t.multKeys, t.multCounts, t.raw);
    assert KnowsPaid(cs, paid', Place(n + 1, 0), t.bonusKeys, t.direct);
    PlacesBefore(cs, n + 1, awards', t.multKeys, t.multCounts, t.raw, paid', t.bonusKeys, t.direct);
    assert MarkedBy(cs, awards', paid', n, d);
    assert forall i :: 0 <= i < n ==> MarkedBy(cs, awards', paid', i, done[i]);
  }

  lemma NothingCounts(cs: seq<Contact>)
    ensures Sum(Counting(cs, 0), PointsAt(cs)) == 0
  {
    assert Counting(cs, 0) == {};
  }

  lemma KnowsNothing(r: Rules, cs: seq<Contact>)
    ensures Knows(r, cs, 0, NEW_SCORER, [], {}, {})
  {
    assert Counting(cs, 0) == {};
    assert forall g :: InGroup(cs, {}, g) == {};
  }

  lemma {:induction false} KnowsSoFar(r: Rules, cs: seq<Contact>, n: nat) returns (awards: set<Place>, paid: set<Place>)
    requires n <= |cs|
    ensures var (s, done) := ScoreContacts(r, cs[..n]);
            Knows(r, cs, n, s, done, awards, paid)
  {
    if n == 0 {
      awards, paid := {}, {};
      KnowsNothing(r, cs);
    } else {
      hide Knows, AddQso;
      awards, paid := KnowsSoFar(r, cs, n - 1);
      assert cs[..n][..n - 1] == cs[..n - 1] && cs[..n][n - 1] == cs[n - 1];
      var (s, done) := ScoreContacts(r, cs[..n - 1]);
      awards, paid := KnowsNext(r, cs, n - 1, s, done, awards, paid);
    }
  }

  /**
   What the scorer computes, in terms of the contacts alone and with caps. The first contact with a dupe key
   counts. A multiplier candidate of a counting contact earns an award unless its key has been awarded before
   or its cap is exhausted, and the first offer of a bonus key is paid. The score is the points times the
   multipliers, at least the minimum, times the score factor, plus the bonus points.
   */
  lemma ScoreIs(r: Rules, cs: seq<Contact>) returns (awards: set<Place>, paid: set<Place>, counts: map<string, nat>)
    ensures Awarded(cs, awards) && Paid(cs, paid) && CountsOf(cs, |cs|, counts)
    ensures cs == [] ==> ScoreContacts(r, cs).0.totals == Totals(0, 0, 0, 0, 0)
    ensures cs != [] ==> Headline(r, cs, |cs|, awards, paid, counts, ScoreContacts(r, cs).0.totals)
    ensures |ScoreContacts(r, cs).1| == |cs|
    ensures forall i :: 0 <= i < |cs| ==> MarkedBy(cs, awards, paid, i, ScoreContacts(r, cs).1[i])
  {
    hide ScoreContacts, Headline, MarkedBy, CountsOf, AwardedBefore, PaidBefore, KnowsKeys;
    awards, paid := KnowsSoFar(r, cs, |cs|);
    assert cs[..|cs|] == cs;
    counts := ScoreContacts(r, cs).0.counts;
  }

  // ----- runs -----

  /** Of the contacts with one dupe key exactly one counts, and contacts without a dupe key all count. */
  ghost predicate OneCounts(cs: seq<Contact>) {
    && (forall c :: c in cs && c.facts.dupeKey.None? ==> !c.marks.dupe)
    && (forall c :: c in cs && c.facts.dupeKey.Some? ==>
          exists d :: d in cs && d.facts.dupeKey == c.facts.dupeKey && !d.marks.dupe)
    && (forall c, d :: c in cs && d in cs && !c.marks.dupe && !d.marks.dupe ==>
          c == d || c.facts.dupeKey.None? || c.facts.dupeKey != d.facts.dupeKey)
  }

  /** A count key is counted once for each time a scoring contact that counts has it. */
  ghost predicate CountsOfLog(cs: seq<Contact>, counts: map<string, nat>) {
    && (forall k :: Get(counts, k) == Sum(SetOf(cs), CountWeight(k)))
    && (forall k :: k in counts ==> counts[k] > 0)
  }

  /** The headline numbers of an uncapped log, from the contacts that are marked as counting. */
  ghost predicate Standing(r: Rules, pts: string -> int, cs: seq<Contact>, counts: map<string, nat>, t: Totals) {
    var mults, bonuses := Offered(Multiplier, SetOf(cs)), Offered(Bonus, SetOf(cs));
    && t.qsoCount == |cs|
    && t.qsoPoints == Sum(SetOf(cs), (c: Contact) => if c.marks.dupe then 0 else c.facts.points)
    && t.multipliers == (if !r.hasMultipliers then 0
                         else if |mults| < r.minimumMultipliers then r.minimumMultipliers else |mults|)
    && t.bonusPoints == Sum(bonuses, pts) + r.multiplierCountBonus(mults) + r.qsoCountBonus(counts)
    && t.score == (if r.hasMultipliers then t.qsoPoints * t.multipliers * r.scoreFactor else t.qsoPoints * r.scoreFactor)
                  + t.bonusPoints
  }

  lemma {:induction false} SumOnes(s: set<string>)
    ensures Sum(s, ONE) == |s|
  {
    if s != {} {
      var x :| x in s;
      SumPick(s, ONE, x);
      SumOnes(s - {x});
    }
  }

  lemma {:induction false} AsManyAs(cs: seq<Contact>)
    requires Distinct(cs)
    ensures |SetOf(cs)| == |cs|
  {
    if cs != [] {
      var n := |cs| - 1;
      AsManyAs(cs[..n]);
      assert SetOf(cs) == SetOf(cs[..n]) + {cs[n]} by { assert cs == cs[..n] + [cs[n]]; }
      assert cs[n] !in SetOf(cs[..n]);
    } else {
      assert SetOf(cs) == {};
    }
  }

  lemma OwnersCount(cs: seq<Contact>, dupeCounts: map<string, nat>, dupeOwners: map<string, int>)
    requires DupesOk(dupeCounts, dupeOwners, SetOf(cs)) && UniqueIds(SetOf(cs))
    ensures OneCounts(cs)
  {
    hide KeyCountsOk;
    assert forall c :: c in cs ==> c in SetOf(cs);
  }

  /** The score of a log in good order. */
  lemma LogScore(r: Rules, pts: string -> int, log: Log) returns (counts: map<string, nat>)
    requires LogOk(r, pts, log)
    ensures OneCounts(log.contacts) && CountsOfLog(log.contacts, counts)
    ensures log.contacts != [] ==> Standing(r, pts, log.contacts, counts, log.ledger.totals)
  {
    hide Sum, DupesOk, ClaimsOk, Offered, Admissible, OneCounts;
    var st, cs := log.ledger, log.contacts;
    counts := st.counts;
    OwnersCount(cs, st.dupeCounts, st.dupeOwners);
    OwnedIsOffered(Multiplier, ONE, st.multOwners, st.raw, SetOf(cs));
    OwnedIsOffered(Bonus, pts, st.bonusOwners, st.direct, SetOf(cs));
    SumOnes(st.multOwners.Keys);
    ClaimTotals(pts, st, SetOf(cs));
    AsManyAs(cs);
    SumSame(SetOf(cs), PointWeight(), (c: Contact) => if c.marks.dupe then 0 else c.facts.points);
    assert cs != [] ==> cs[0] in SetOf(cs);
  }

  lemma ClaimTotals(pts: string -> int, st: Ledger, live: set<Contact>)
    requires BooksOk(pts, st, live, NOTHING_PENDING)
    ensures st.raw == Sum(st.multOwners.Keys, ONE) && st.direct == Sum(st.bonusOwners.Keys, pts)
  {
    hide Sum, SumsOk, Held, Covered, Booked;
  }

  /**
   What the running totals are after loading any log and any run, in terms of the contacts in it: points of
   those that count, multiplier keys and bonus keys that those offer, and the score made of them.
   */
  lemma RunScore(r: Rules, pts: string -> int, given: seq<Contact>, steps: seq<Step>) returns (counts: map<string, nat>)
    requires !r.capped && Distinct(given) && AllAdmissible(pts, given)
    requires CanRun(r, Load(r, given), steps)
    requires forall i :: 0 <= i < |steps| ==> AllAdmissible(pts, NewContacts(steps[i]))
    ensures var log := Replay(r, Load(r, given), steps);
            && OneCounts(log.contacts) && CountsOfLog(log.contacts, counts)
            && (log.contacts != [] ==> Standing(r, pts, log.contacts, counts, log.ledger.totals))
  {
    hide LogOk, CanRun, Replay, ScoreContacts, NonDupesFirst, Admissible, Standing;
    RunTotals(r, pts, given, steps);
    counts := LogScore(r, pts, Replay(r, Load(r, given), steps));
  }
}

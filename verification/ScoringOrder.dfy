/**
 When contacts that share a dupe key are worth the same, the order of the log does not matter,
 neither to the scorer nor to an incremental run.
 */
module ScoringOrder {
  import opened Sums
  import opened ScoringSpec
  import opened ScoringLedger
  import opened ScoringOperations
  import opened ScoringBatches
  import opened ScoringRuns
  import opened ScoringTheorems

  /** Contacts with one dupe key agree on everything that earns points. */
  ghost predicate Interchangeable(live: set<Contact>) {
    forall c, d :: c in live && d in live && c.facts.dupeKey.Some? && c.facts.dupeKey == d.facts.dupeKey ==>
      && c.facts.points == d.facts.points
      && OfferKeys(Multiplier, c.facts) == OfferKeys(Multiplier, d.facts)
      && OfferKeys(Bonus, c.facts) == OfferKeys(Bonus, d.facts)
      && multiset(c.facts.countKeys) == multiset(d.facts.countKeys)
  }

  /** A contact without its marks. */
  const BARE: Contact -> Contact := (c: Contact) => c.(marks := Marks(0, 0, 0, false))

  function Bared(live: set<Contact>): set<Contact> {
    set c | c in live :: BARE(c)
  }

  /** What counts once: a contact without a dupe key, or all contacts with one dupe key together. */
  datatype Unit = Loner(id: int) | Keyed(key: string)

  const UNIT_OF: Contact -> Unit := (c: Contact) =>
    if c.facts.dupeKey.None? then Loner(c.id) else Keyed(c.facts.dupeKey.value)

  function Units(live: set<Contact>): set<Unit> {
    set c | c in live :: UNIT_OF(c)
  }

  /** Some contact of a unit. */
  ghost function Member(live: set<Contact>, u: Unit): (c: Contact)
    requires u in Units(live)
    ensures c in live && UNIT_OF(c) == u
  {
    var c :| c in live && UNIT_OF(c) == u;
    c
  }

  ghost function UnitValue(live: set<Contact>, v: Facts -> int): Unit -> int {
    (u: Unit) => if u in Units(live) then v(Member(live, u).facts) else 0
  }

  /** A weight that agrees on interchangeable contacts. */
  ghost predicate Agrees(live: set<Contact>, v: Facts -> int) {
    forall c, d :: c in live && d in live && c.facts.dupeKey.Some? && c.facts.dupeKey == d.facts.dupeKey ==>
      v(c.facts) == v(d.facts)
  }

  function Counting(live: set<Contact>): set<Contact> {
    set c | c in live && !c.marks.dupe
  }

  lemma CountingSum(live: set<Contact>, w: Contact -> int)
    requires forall c :: c in live && c.marks.dupe ==> w(c) == 0
    ensures Sum(live, w) == Sum(Counting(live), w)
  {
    var dupes := live - Counting(live);
    assert live == Counting(live) + dupes;
    SumUnion(Counting(live), dupes, w);
    SumSame(dupes, w, c => 0);
    SumZero(dupes);
    SumSame(dupes, c => 0, w);
  }

  lemma UnitIsWorth(live: set<Contact>, v: Facts -> int, c: Contact)
    requires c in live && UniqueIds(live) && Agrees(Bared(live), v)
    ensures UNIT_OF(c) in Units(Bared(live)) && UnitValue(Bared(live), v)(UNIT_OF(c)) == v(c.facts)
  {
    assert BARE(c) in Bared(live) && UNIT_OF(BARE(c)) == UNIT_OF(c);
    var d := Member(Bared(live), UNIT_OF(c));
    if c.facts.dupeKey.None? {
      var e :| e in live && BARE(e) == d;
      assert e == c;
    } else {
      assert d.facts.dupeKey == BARE(c).facts.dupeKey;
    }
  }

  /** A dupe key has an owner, so its unit is counted. */
  lemma UnitIsCounted(dupeCounts: map<string, nat>, dupeOwners: map<string, int>, live: set<Contact>, u: Unit)
    requires DupesOk(dupeCounts, dupeOwners, live) && u in Units(Bared(live))
    ensures exists c :: c in Counting(live) && UNIT_OF(c) == u
  {
    hide Sum, KeyWeight;
    var d := Member(Bared(live), u);
    var c :| c in live && BARE(c) == d;
    if c.facts.dupeKey.Some? {
      var o :| o in live && o.facts.dupeKey == c.facts.dupeKey && o.id == dupeOwners[c.facts.dupeKey.value];
      assert o in Counting(live) && UNIT_OF(o) == u;
    } else {
      assert c in Counting(live) && UNIT_OF(c) == u;
    }
  }

  /** Only the owner of a dupe key counts. */
  lemma OneCounts(dupeCounts: map<string, nat>, dupeOwners: map<string, int>, live: set<Contact>)
    requires DupesOk(dupeCounts, dupeOwners, live) && UniqueIds(live)
    ensures forall c, d :: c in Counting(live) && d in Counting(live) && UNIT_OF(c) == UNIT_OF(d) ==> c == d
  {
    hide Sum, KeyWeight;
  }

  /** Exactly one contact of each unit counts, so a sum over contacts is a sum over units. */
  lemma SumByUnit(dupeCounts: map<string, nat>, dupeOwners: map<string, int>, live: set<Contact>,
                  w: Contact -> int, v: Facts -> int)
    requires DupesOk(dupeCounts, dupeOwners, live) && UniqueIds(live)
    requires Agrees(Bared(live), v)
    requires forall c :: c in live ==> w(c) == if c.marks.dupe then 0 else v(c.facts)
    ensures Sum(live, w) == Sum(Units(Bared(live)), UnitValue(Bared(live), v))
  {
    hide Sum, KeyWeight, Agrees, Bared, Units, UnitValue, DupesOk;
    CountingSum(live, w);
    OneCounts(dupeCounts, dupeOwners, live);
    forall c | c in Counting(live)
      ensures UNIT_OF(c) in Units(Bared(live)) && w(c) == UnitValue(Bared(live), v)(UNIT_OF(c))
    {
      UnitIsWorth(live, v, c);
    }
    forall u | u in Units(Bared(live)) ensures exists c :: c in Counting(live) && UNIT_OF(c) == u {
      UnitIsCounted(dupeCounts, dupeOwners, live, u);
    }
    SumImage(Counting(live), w, UNIT_OF, Units(Bared(live)), UnitValue(Bared(live), v));
  }

  lemma OfferedByAny(kind: Kind, dupeCounts: map<string, nat>, dupeOwners: map<string, int>, live: set<Contact>)
    requires DupesOk(dupeCounts, dupeOwners, live) && Interchangeable(live)
    ensures Offered(kind, live) == set c, k | c in Bared(live) && k in OfferKeys(kind, c.facts) :: k
  {
    hide Sum, KeyWeight;
    var all := set c, k | c in Bared(live) && k in OfferKeys(kind, c.facts) :: k;
    forall k | k in Offered(kind, live) ensures k in all {
      var c :| c in live && !c.marks.dupe && k in OfferKeys(kind, c.facts);
      assert BARE(c) in Bared(live);
    }
    forall k | k in all ensures k in Offered(kind, live) {
      var d :| d in Bared(live) && k in OfferKeys(kind, d.facts);
      var c :| c in live && BARE(c) == d;
      if c.marks.dupe {
        var o :| o in live && o.facts.dupeKey == c.facts.dupeKey && o.id == dupeOwners[c.facts.dupeKey.value];
        assert k in OfferKeys(kind, o.facts);
      }
    }
  }

  lemma BaredAgree(live: set<Contact>)
    requires Interchangeable(live)
    ensures Agrees(Bared(live), POINTS_OF)
    ensures forall k :: Agrees(Bared(live), CountOf(k))
  {
  }

  const POINTS_OF: Facts -> int := (f: Facts) => f.points

  function CountOf(key: string): Facts -> int {
    (f: Facts) => if f.points <= 0 then 0 else multiset(f.countKeys)[key]
  }

  lemma BaredSize(live: set<Contact>)
    requires UniqueIds(live)
    ensures |Bared(live)| == |live|
  {
    SumImage(live, c => 0, BARE, Bared(live), c => 0);
  }

  /** Ledgers of the same interchangeable contacts tally to the same totals, whoever is the dupe. */
  lemma SameTotals(r: Rules, pts: string -> int, st: Ledger, live: set<Contact>, tt: Ledger, mive: set<Contact>)
    requires LedgerOk(pts, st, live, NOTHING_PENDING) && LedgerOk(pts, tt, mive, NOTHING_PENDING)
    requires Bared(live) == Bared(mive)
    requires Interchangeable(live) && Interchangeable(mive)
    ensures Tallied(r, st).totals == Tallied(r, tt).totals
  {
    hide Sum, DupesOk, ClaimsOk, SumsOk, Score, Offered, Admissible, Bared, Interchangeable, Agrees, Units, UnitValue;
    BaredSize(live);
    BaredSize(mive);
    BaredAgree(live);
    SumByUnit(st.dupeCounts, st.dupeOwners, live, PointWeight(), POINTS_OF);
    SumByUnit(tt.dupeCounts, tt.dupeOwners, mive, PointWeight(), POINTS_OF);
    forall k ensures Sum(live, CountWeight(k)) == Sum(mive, CountWeight(k)) {
      SumByUnit(st.dupeCounts, st.dupeOwners, live, CountWeight(k), CountOf(k));
      SumByUnit(tt.dupeCounts, tt.dupeOwners, mive, CountWeight(k), CountOf(k));
    }
    OfferedByAny(Multiplier, st.dupeCounts, st.dupeOwners, live);
    OfferedByAny(Multiplier, tt.dupeCounts, tt.dupeOwners, mive);
    OfferedByAny(Bonus, st.dupeCounts, st.dupeOwners, live);
    OfferedByAny(Bonus, tt.dupeCounts, tt.dupeOwners, mive);
    EqualTallies(r, pts, st, live, tt, mive);
  }

  lemma InterchangeableBare(live: set<Contact>, mive: set<Contact>)
    requires Bared(live) == Bared(mive) && Interchangeable(live)
    ensures Interchangeable(mive)
  {
    forall c, d | c in mive && d in mive && c.facts.dupeKey.Some? && c.facts.dupeKey == d.facts.dupeKey
      ensures c.facts.points == d.facts.points
      ensures OfferKeys(Multiplier, c.facts) == OfferKeys(Multiplier, d.facts)
      ensures OfferKeys(Bonus, c.facts) == OfferKeys(Bonus, d.facts)
      ensures multiset(c.facts.countKeys) == multiset(d.facts.countKeys)
    {
      assert BARE(c) in Bared(live) && BARE(d) in Bared(live);
      var c' :| c' in live && BARE(c') == BARE(c);
      var d' :| d' in live && BARE(d') == BARE(d);
    }
  }

  lemma LoadIsBare(r: Rules, pts: string -> int, cs: seq<Contact>)
    requires Distinct(cs) && AllAdmissible(pts, cs)
    ensures Bared(SetOf(Load(r, cs).contacts)) == Bared(SetOf(cs))
  {
    hide Reset, Admissible;
    LoadKeeps(r, pts, cs);
    var ds := Load(r, cs).contacts;
    hide Load;
    forall i | 0 <= i < |cs| ensures BARE(ds[i]) == BARE(cs[i]) {
      assert LoadedAs(cs, i, ds[i]);
    }
    forall c | c in SetOf(cs) ensures BARE(c) in Bared(SetOf(ds)) {
      var i :| 0 <= i < |cs| && cs[i] == c;
      assert ds[i] in SetOf(ds);
    }
    forall d | d in SetOf(ds) ensures BARE(d) in Bared(SetOf(cs)) {
      var i :| 0 <= i < |ds| && ds[i] == d;
      assert cs[i] in SetOf(cs);
    }
  }

  /** A log with a valid ledger has the totals of any arrangement of its contacts. */
  lemma AnyArrangement(r: Rules, pts: string -> int, log: Log, cs: seq<Contact>)
    requires LogOk(r, pts, log) && log.contacts != [] && Interchangeable(SetOf(log.contacts))
    requires Distinct(cs) && AllAdmissible(pts, cs) && Bared(SetOf(cs)) == Bared(SetOf(log.contacts))
    ensures log.ledger.totals == ScoreContacts(r, cs).0.totals
  {
    hide Sum, DupesOk, ClaimsOk, SumsOk, Score, Admissible, Bared, Interchangeable, ScoreContacts, LoadedAs, Reset;
    assert log.contacts[0] in SetOf(log.contacts);
    if cs == [] {
      assert BARE(log.contacts[0]) in Bared(SetOf(cs)) by { InBared(SetOf(log.contacts), log.contacts[0]); }
      EmptyBared();
    }
    LoadKeeps(r, pts, cs);
    LoadIsBare(r, pts, cs);
    var loaded := Load(r, cs);
    InterchangeableBare(SetOf(log.contacts), SetOf(loaded.contacts));
    SameTotals(r, pts, log.ledger, SetOf(log.contacts), loaded.ledger, SetOf(loaded.contacts));
    ResetAgrees(r, cs);
  }

  lemma InBared(live: set<Contact>, c: Contact)
    requires c in live
    ensures BARE(c) in Bared(live)
  {
  }

  lemma EmptyBared()
    ensures Bared(SetOf([])) == {}
  {
  }

  /** Uncapped scoring does not depend on the order of the log. */
  lemma OrderIndependent(r: Rules, pts: string -> int, cs: seq<Contact>, ds: seq<Contact>)
    requires Distinct(cs) && AllAdmissible(pts, cs) && Interchangeable(SetOf(cs))
    requires multiset(cs) == multiset(ds)
    ensures ScoreContacts(r, cs).0.totals == ScoreContacts(r, ds).0.totals
  {
    hide Interchangeable, Admissible, ScoreContacts, LogOk, Bared, LoadedAs, Load, Reset;
    assert |cs| == |multiset(cs)| && |ds| == |multiset(ds)|;
    PermutedSet(cs, ds);
    if cs != [] {
      forall i | 0 <= i < |ds| ensures Admissible(pts, ds[i].facts) {
        assert ds[i] in SetOf(ds);
      }
      LoadKeeps(r, pts, cs);
      LoadIsBare(r, pts, cs);
      var log := Load(r, cs);
      InterchangeableBare(SetOf(cs), SetOf(log.contacts));
      AnyArrangement(r, pts, log, cs);
      AnyArrangement(r, pts, log, ds);
    } else {
      assert ds == [];
    }
  }

  lemma PermutedSet(cs: seq<Contact>, ds: seq<Contact>)
    requires multiset(cs) == multiset(ds)
    ensures SetOf(cs) == SetOf(ds)
    ensures Distinct(cs) ==> Distinct(ds)
  {
    forall c ensures c in SetOf(cs) <==> c in SetOf(ds) {
      assert c in multiset(cs) <==> c in cs;
      assert c in multiset(ds) <==> c in ds;
    }
    if Distinct(cs) {
      forall i, j | 0 <= i < j < |ds| ensures ds[i].id != ds[j].id {
        DistinctOnce(cs, ds[i]);
        TwicePresent(ds, i, j);
        assert ds[i] in SetOf(cs) && ds[j] in SetOf(cs);
        var k :| 0 <= k < |cs| && cs[k] == ds[i];
        var l :| 0 <= l < |cs| && cs[l] == ds[j];
      }
    }
  }

  lemma TwicePresent(cs: seq<Contact>, i: nat, j: nat)
    requires i < j < |cs|
    ensures cs[i] == cs[j] ==> multiset(cs)[cs[i]] >= 2
  {
    assert cs == cs[..i] + [cs[i]] + cs[i + 1..j] + [cs[j]] + cs[j + 1..];
  }

  lemma {:induction false} DistinctOnce(cs: seq<Contact>, c: Contact)
    requires Distinct(cs)
    ensures multiset(cs)[c] <= 1
  {
    if cs != [] {
      DistinctOnce(cs[1..], c);
      assert cs == [cs[0]] + cs[1..];
      forall i | 0 <= i < |cs[1..]| ensures cs[1..][i] != cs[0] {
        assert cs[1..][i] == cs[i + 1];
      }
    }
  }

  /** An incremental run ends with the totals that the scorer gives in every order of the survivors. */
  lemma RunOrderIndependent(r: Rules, pts: string -> int, given: seq<Contact>, steps: seq<Step>, cs: seq<Contact>)
    requires !r.capped && Distinct(given) && AllAdmissible(pts, given)
    requires CanRun(r, Load(r, given), steps)
    requires forall i :: 0 <= i < |steps| ==> AllAdmissible(pts, NewContacts(steps[i]))
    requires var log := Replay(r, Load(r, given), steps);
             && log.contacts != [] && Interchangeable(SetOf(log.contacts))
             && multiset(cs) == multiset(log.contacts)
    ensures Replay(r, Load(r, given), steps).ledger.totals == ScoreContacts(r, cs).0.totals
  {
    hide LogOk, CanRun, Replay, ScoreContacts, LoadedAs, Admissible, Score, Interchangeable, Load;
    LoadKeeps(r, pts, given);
    var start := Load(r, given);
    forall i | 0 <= i < |start.contacts| ensures Admissible(pts, start.contacts[i].facts) {
      LoadedFacts(given, i, start.contacts[i]);
    }
    RunKeeps(r, pts, start, steps);
    var log := Replay(r, start, steps);
    PermutedSet(log.contacts, cs);
    assert Distinct(log.contacts) by { LogDistinct(r, pts, log); }
    forall i | 0 <= i < |cs| ensures Admissible(pts, cs[i].facts) {
      assert cs[i] in SetOf(cs);
    }
    AnyArrangement(r, pts, log, cs);
  }

  lemma LogDistinct(r: Rules, pts: string -> int, log: Log)
    requires LogOk(r, pts, log)
    ensures Distinct(log.contacts)
  {
  }
}

/**
 Whole runs of the score tracker. A run loads a log and then commits batches of new and edited
 contacts, or deletes contacts, in any arrangement of the log.
 */
module ScoringRuns {
  import opened Sums
  import opened ScoringSpec
  import opened ScoringLedger
  import opened ScoringOperations
  import opened ScoringBatches
  import opened ScoringShades

  /** Every contact whose marks an upsert or delete changed is reported, unless it was just committed. */
  lemma ChangesAreReported(r: Rules, st: Ledger, cs: seq<Contact>, batch: seq<Contact>, previous: seq<Contact>,
                           orders: seq<Order>, gone: Contact, order: Order)
    requires !r.capped && |orders| == |previous|
    ensures var o := OnUpserted(r, st, cs, batch, previous, orders);
            Relabelled(cs, o.contacts, o.changed + Ids(batch))
    ensures var o := OnDeleted(r, st, cs, gone, order);
            Relabelled(cs, o.contacts, o.changed)
  {
    hide Remove, RemoveEach, AddEach;
    RemoveRelabels(r, st, gone, cs, None, order);
    RemoveEachRelabels(r, st, cs, previous, orders);
    var o := RemoveEach(r, Outcome(st, cs, {}), previous, orders);
    AddEachRelabels(r, o.ledger, o.contacts, batch);
  }

  lemma OneRemoval(r: Rules, st: Ledger, cs: seq<Contact>, prior: Contact, order: Order)
    ensures var o := Remove(r, st, prior, cs, Some(prior.id), order);
            RemoveEach(r, Outcome(st, cs, {}), [prior], [order]) == o
  {
    hide Remove;
    var start := Outcome(st, cs, {});
    assert [prior][..0] == [] && [order][..0] == [];
    assert RemoveEach(r, start, [], []) == start;
    var o := Remove(r, st, prior, cs, Some(prior.id), order);
    assert {} + o.changed == o.changed;
  }

  // ----- one step -----

  datatype Log = Log(ledger: Ledger, contacts: seq<Contact>)

  /** A contact as it was before an edit, and the order in which its keys happen to be handed on. */
  datatype Replacing = Replacing(prior: Contact, order: Order)

  function Priors(edits: seq<Replacing>): (r: seq<Contact>)
    ensures |r| == |edits|
  {
    seq(|edits|, i requires 0 <= i < |edits| => edits[i].prior)
  }

  function Orders(edits: seq<Replacing>): (r: seq<Order>)
    ensures |r| == |edits|
  {
    seq(|edits|, i requires 0 <= i < |edits| => edits[i].order)
  }

  /** `arranged` is the log as it is displayed afterwards, before it is scored. */
  datatype Step =
    | Upsert(edits: seq<Replacing>, batch: seq<Contact>, arranged: seq<Contact>)
    | Delete(gone: Contact, arranged: seq<Contact>, order: Order)

  /**
   What the log cache passes to the tracker: the old version of every contact of the batch that the
   log had, and the log as it is afterwards.
   */
  ghost predicate Delivered(r: Rules, log: Log, step: Step) {
    && Distinct(step.arranged)
    && match step
       case Upsert(edits, batch, arranged) =>
         && Distinct(batch) && Distinct(Priors(edits))
         && SetOf(Priors(edits)) <= SetOf(log.contacts)
         && Ids(batch) * Ids(log.contacts) == Ids(Priors(edits))
         && SetOf(arranged) == SetOf(log.contacts) - SetOf(Priors(edits)) + SetOf(batch)
         && FreedOrders(r, Outcome(log.ledger, arranged, {}), Priors(edits), Orders(edits))
       case Delete(gone, arranged, order) =>
         && gone in log.contacts
         && SetOf(arranged) == SetOf(log.contacts) - {gone}
         && FreedOrder(log.ledger, gone, order)
  }

  /**
   What the removals of a batch hand on to contacts of the batch itself, which are not scored yet, does no
   harm: no search for an heir of a multiplier or bonus key stops at one, and dupe keys pass only to those
   that will count for them.
   */
  ghost predicate PassesWell(r: Rules, log: Log, step: Step) {
    step.Upsert? ==>
      var st, cs, priors, orders, out := log.ledger, step.arranged, Priors(step.edits), Orders(step.edits), Ids(step.batch);
      && NoSearchStops(r, st, cs, priors, orders, out) && NonePromoted(r, st, cs, priors, orders, out)
      && WaitingKeysFit(AfterRemovals(r, st, cs, priors, orders, |priors|).ledger, step.batch)
  }

  ghost predicate CanStep(r: Rules, log: Log, step: Step) {
    Delivered(r, log, step) && PassesWell(r, log, step)
  }

  function Perform(r: Rules, log: Log, step: Step): Log {
    var o := match step
      case Upsert(edits, batch, arranged) =>
        OnUpserted(r, log.ledger, arranged, batch, Priors(edits), Orders(edits))
      case Delete(gone, arranged, order) => OnDeleted(r, log.ledger, arranged, gone, order);
    Log(o.ledger, o.contacts)
  }

  function NewContacts(step: Step): seq<Contact> {
    match step
    case Upsert(_, batch, _) => batch
    case Delete(_, _, _) => []
  }

  function Load(r: Rules, cs: seq<Contact>): Log {
    Log(Reset(r, cs).0, Reset(r, cs).1)
  }

  ghost predicate CanRun(r: Rules, log: Log, steps: seq<Step>)
    decreases |steps|
  {
    steps != [] ==> CanStep(r, log, steps[0]) && CanRun(r, Perform(r, log, steps[0]), steps[1..])
  }

  function Replay(r: Rules, log: Log, steps: seq<Step>): Log
    decreases |steps|
  {
    if steps == [] then log else Replay(r, Perform(r, log, steps[0]), steps[1..])
  }

  ghost predicate AllAdmissible(pts: string -> int, cs: seq<Contact>) {
    forall i :: 0 <= i < |cs| ==> Admissible(pts, cs[i].facts)
  }

  ghost predicate LogOk(r: Rules, pts: string -> int, log: Log) {
    Distinct(log.contacts) && Inv(r, pts, log.ledger, SetOf(log.contacts))
  }

  // ----- each step keeps the invariant -----

  lemma LiveAdmit(cs: seq<Contact>, out: set<int>, i: nat, d: Contact)
    requires Distinct(cs) && i < |cs| && d.id == cs[i].id && d.id in out
    ensures Distinct(cs[i := d])
    ensures Live(cs[i := d], out - {d.id}) == Live(cs, out) + {d}
  {
    var ds := cs[i := d];
    forall c | c in Live(cs, out) + {d} ensures c in Live(ds, out - {d.id}) {
      if c == d { assert ds[i] == d; } else {
        var j :| 0 <= j < |cs| && cs[j] == c;
        assert ds[j] == c;
      }
    }
  }

  lemma AddById(r: Rules, pts: string -> int, st: Ledger, cs: seq<Contact>, out: set<int>, id: int)
    requires Distinct(cs) && AllAdmissible(pts, cs)
    requires Inv(r, pts, st, Live(cs, out))
    requires id in out && id in Ids(cs)
    ensures FirstIndex(cs, WithId(id)).Some?
    ensures var i := FirstIndex(cs, WithId(id)).value;
            var (st', c) := Add(r, st, cs[i]);
            && Distinct(cs[i := c])
            && Inv(r, pts, st', Live(cs[i := c], out - {id}))
            && st'.totals == Tallied(r, st').totals
  {
    hide Inv, Add, Admissible, Tallied;
    var c :| c in cs && c.id == id;
    var j :| 0 <= j < |cs| && cs[j] == c;
    assert WithId(id)(cs[j]);
    var i := FirstIndex(cs, WithId(id)).value;
    assert WithId(id)(cs[i]);
    AddKeeps(r, pts, st, Live(cs, out), cs[i]);
    LiveAdmit(cs, out, i, Add(r, st, cs[i]).1);
  }

  lemma IdsFrom(committed: seq<Contact>, n: nat)
    requires n < |committed| && Distinct(committed)
    ensures committed[n].id in Ids(committed[n..])
    ensures Ids(committed[n + 1..]) == Ids(committed[n..]) - {committed[n].id}
  {
    assert committed[n..] == [committed[n]] + committed[n + 1..];
    forall d | d in committed[n + 1..] ensures d.id != committed[n].id {
      var k :| n < k < |committed| && committed[k] == d;
    }
    assert forall d :: d in committed[n..] <==> d == committed[n] || d in committed[n + 1..];
  }

  lemma {:induction false} AddEachKeeps(r: Rules, pts: string -> int, st: Ledger, cs: seq<Contact>,
                                        committed: seq<Contact>, n: nat)
    requires n <= |committed| && Distinct(committed) && Distinct(cs)
    requires Inv(r, pts, st, Live(cs, Ids(committed)))
    requires AllAdmissible(pts, cs)
    requires Ids(committed) <= Ids(cs)
    ensures var (st', cs') := AddEach(r, st, cs, committed[..n]);
            && Distinct(cs')
            && Inv(r, pts, st', Live(cs', Ids(committed[n..])))
            && (n > 0 ==> st'.totals == Tallied(r, st').totals)
  {
    hide Inv, Add, Admissible, Tallied;
    if n == 0 {
      assert committed[0..] == committed;
    } else {
      AddEachKeeps(r, pts, st, cs, committed, n - 1);
      assert committed[..n][..n - 1] == committed[..n - 1];
      var (st1, cs1) := AddEach(r, st, cs, committed[..n - 1]);
      IdsFrom(committed, n - 1);
      assert committed[n - 1].id in Ids(cs) by {
        assert committed[n - 1] in committed;
      }
      assert Ids(cs1) == Ids(cs) && AllAdmissible(pts, cs1) by {
        AddEachRelabels(r, st, cs, committed[..n - 1]);
        SameIds(cs, cs1);
      }
      AddById(r, pts, st1, cs1, Ids(committed[n - 1..]), committed[n - 1].id);
    }
  }

  // ----- scoring contacts whose dupe keys wait for them -----

  lemma InitIds(committed: seq<Contact>)
    requires committed != [] && Distinct(committed)
    ensures Ids(committed) == Ids(committed[..|committed| - 1]) + {committed[|committed| - 1].id}
    ensures committed[|committed| - 1].id !in Ids(committed[..|committed| - 1])
  {
    assert committed == committed[..|committed| - 1] + [committed[|committed| - 1]];
  }

  lemma IdIsFound(cs: seq<Contact>, id: int)
    requires id in Ids(cs)
    ensures var i := FirstIndex(cs, WithId(id));
            i.Some? && cs[i.value].id == id
  {
    var c :| c in cs && c.id == id;
    var j :| 0 <= j < |cs| && cs[j] == c;
    assert WithId(id)(cs[j]);
    assert WithId(id)(cs[FirstIndex(cs, WithId(id)).value]);
  }

  lemma OthersStay(cs: seq<Contact>, i: nat, c: Contact)
    requires i < |cs| && Distinct(cs) && c.id == cs[i].id
    ensures forall d :: d in cs[i := c] ==> d == c || (d in cs && d.id != c.id)
  {
    forall d | d in cs[i := c] ensures d == c || (d in cs && d.id != c.id) {
      var j :| 0 <= j < |cs| && cs[i := c][j] == d;
    }
  }

  /** A log lists some contacts, perhaps with other marks. */
  ghost predicate Lists(cs: seq<Contact>, committed: seq<Contact>) {
    && Ids(committed) <= Ids(cs)
    && forall c, d :: c in cs && d in committed && c.id == d.id ==> c.facts == d.facts
  }

  /** The contact of the log that is scored last. */
  lemma LastScored(r: Rules, st: Ledger, cs: seq<Contact>, committed: seq<Contact>)
    requires committed != [] && Lists(cs, committed)
    ensures var init, last := committed[..|committed| - 1], committed[|committed| - 1];
            var (tt, ds) := AddEach(r, st, cs, init);
            var i := FirstIndex(ds, WithId(last.id));
            && Lists(cs, init)
            && i.Some? && ds[i.value].id == last.id && ds[i.value].facts == last.facts
            && AddEach(r, st, cs, committed) == (Add(r, tt, ds[i.value]).0, ds[i.value := Add(r, tt, ds[i.value]).1])
  {
    hide Add;
    var init, last := committed[..|committed| - 1], committed[|committed| - 1];
    assert committed == init + [last];
    assert Ids(init) <= Ids(committed);
    AddEachRelabels(r, st, cs, init);
    var (tt, ds) := AddEach(r, st, cs, init);
    SameIds(cs, ds);
    assert last in committed && last.id in Ids(committed);
    IdIsFound(ds, last.id);
    var i := FirstIndex(ds, WithId(last.id)).value;
    assert cs[i] in cs && cs[i].facts == ds[i].facts;
  }

  lemma AddDupeTables(r: Rules, st: Ledger, c: Contact)
    ensures var (tt, d) := Add(r, st, c);
            && d.id == c.id && d.facts == c.facts
            && (d.marks.dupe <==> c.facts.dupeKey.Some? && Get(st.dupeCounts, c.facts.dupeKey.value) > 0)
            && tt.dupeCounts == (if c.facts.dupeKey.Some? then Bump(st.dupeCounts, c.facts.dupeKey.value) else st.dupeCounts)
            && tt.dupeOwners == (if c.facts.dupeKey.Some? && !d.marks.dupe && c.facts.dupeKey.value !in st.dupeOwners
                                 then st.dupeOwners[c.facts.dupeKey.value := c.id] else st.dupeOwners)
  {
    hide ClaimMultipliers, ClaimBonuses, BumpAll, Tally;
  }

  lemma AddWithOwners(r: Rules, st: Ledger, dupeOwners: map<string, int>, c: Contact)
    ensures Add(r, st.(dupeOwners := dupeOwners), c).1 == Add(r, st, c).1
    ensures var uu := Add(r, st.(dupeOwners := dupeOwners), c).0;
            uu == Add(r, st, c).0.(dupeOwners := uu.dupeOwners)
  {
    hide ClaimMultipliers, ClaimBonuses, BumpAll, Tally;
  }

  ghost predicate NobodyHas(cs: seq<Contact>, key: string) {
    forall c :: c in cs ==> c.facts.dupeKey != Some(key)
  }

  /** A dupe key is in nobody's count exactly if it was in nobody's and no scored contact has it. */
  lemma {:induction false} AddEachCounts(r: Rules, st: Ledger, cs: seq<Contact>, committed: seq<Contact>, k: string)
    requires Lists(cs, committed)
    ensures Get(AddEach(r, st, cs, committed).0.dupeCounts, k) == 0 <==>
              Get(st.dupeCounts, k) == 0 && NobodyHas(committed, k)
    decreases |committed|
  {
    hide Add, Lists;
    if committed != [] {
      var init := committed[..|committed| - 1];
      LastScored(r, st, cs, committed);
      hide AddEach;
      AddEachCounts(r, st, cs, init, k);
      var (tt, ds) := AddEach(r, st, cs, init);
      AddDupeTables(r, tt, ds[FirstIndex(ds, WithId(committed[|committed| - 1].id)).value]);
      assert committed == init + [committed[|committed| - 1]];
    }
  }

  /** The keys that still stand under contacts which are not scored yet are those that did at first. */
  ghost predicate StillWaiting(st: Ledger, tt: Ledger, rest: seq<Contact>) {
    forall k :: k in tt.dupeOwners && tt.dupeOwners[k] in Ids(rest) ==>
      k in st.dupeOwners && st.dupeOwners[k] == tt.dupeOwners[k]
  }

  lemma TablesAlike(owners: map<string, int>, key: Option<string>, dupe: bool, id: int, out: set<int>)
    requires id in out && (dupe ==> key.Some?)
    requires forall k :: k in owners && owners[k] in out ==> (owners[k] == id <==> key == Some(k) && !dupe)
    requires forall k :: k in owners && owners[k] !in out && key == Some(k) ==> dupe
    ensures var rest := Settled(owners, out);
            Settled(if key.Some? && !dupe && key.value !in owners then owners[key.value := id] else owners, out - {id})
            == if key.Some? && !dupe && key.value !in rest then rest[key.value := id] else rest
  {
  }

  lemma NextAlike(r: Rules, st: Ledger, tt: Ledger, c: Contact, committed: seq<Contact>, n: nat)
    requires n < |committed| && Distinct(committed) && c.id == committed[n].id && c.facts == committed[n].facts
    requires WaitingKeysFit(st, committed) && StillWaiting(st, tt, committed[n..])
    requires forall k :: Get(tt.dupeCounts, k) == 0 <==>
               Get(st.dupeCounts, k) == 0 && NobodyHas(committed[..n], k)
    requires forall k :: k in tt.dupeOwners && tt.dupeOwners[k] !in Ids(committed[n..]) ==> Get(tt.dupeCounts, k) > 0
    ensures var t', u' := Add(r, tt, c).0, Add(r, WithoutWaiting(tt, Ids(committed[n..])), c).0;
            u'.dupeOwners == Settled(t'.dupeOwners, Ids(committed[n + 1..])) && StillWaiting(st, t', committed[n + 1..])
  {
    hide Add, WaitingKeysFit, Settled, Ids, NobodyHas, Get;
    var out := Ids(committed[n..]);
    IdsFrom(committed, n);
    AddDupeTables(r, tt, c);
    AddDupeTables(r, WithoutWaiting(tt, out), c);
    var d := Add(r, tt, c).1;
    forall k | k in tt.dupeOwners && tt.dupeOwners[k] in out
      ensures tt.dupeOwners[k] == c.id <==> c.facts.dupeKey == Some(k) && !d.marks.dupe
    {
      WaitingFor(st, tt, c, committed, n, k);
    }
    TablesAlike(tt.dupeOwners, c.facts.dupeKey, d.marks.dupe, c.id, out);
  }

  /** Whom a waiting key waits for. */
  lemma WaitingFor(st: Ledger, tt: Ledger, c: Contact, committed: seq<Contact>, n: nat, k: string)
    requires n < |committed| && Distinct(committed) && c.id == committed[n].id && c.facts == committed[n].facts
    requires WaitingKeysFit(st, committed) && StillWaiting(st, tt, committed[n..])
    requires Get(tt.dupeCounts, k) == 0 <==>
               Get(st.dupeCounts, k) == 0 && NobodyHas(committed[..n], k)
    requires k in tt.dupeOwners && tt.dupeOwners[k] in Ids(committed[n..])
    ensures tt.dupeOwners[k] == c.id <==> c.facts.dupeKey == Some(k) && Get(tt.dupeCounts, k) == 0
  {
    forall d | d in committed[n..] ensures d in committed { }
    assert st.dupeOwners[k] in Ids(committed);
    var i := FirstIndex(committed, SharesDupeKey(k, None)).value;
    assert SharesDupeKey(k, None)(committed[i]) && Get(st.dupeCounts, k) == 0;
    var d :| d in committed[n..] && d.id == tt.dupeOwners[k];
    var j :| n <= j < |committed| && committed[j] == d;
    assert i == j;
    forall e | e in committed[..n] ensures e.facts.dupeKey != Some(k) {
      var m :| 0 <= m < n && committed[m] == e;
      assert !SharesDupeKey(k, None)(committed[m]);
    }
    if j > n { assert !SharesDupeKey(k, None)(committed[n]); }
  }

  /** Scoring a batch does the same whether or not the keys that wait for its contacts stand in the table. */
  lemma {:induction false} AddEachAlike(r: Rules, pts: string -> int, st: Ledger, cs: seq<Contact>,
                                        committed: seq<Contact>, n: nat)
    requires n <= |committed| && Distinct(committed) && Distinct(cs) && Lists(cs, committed) && AllAdmissible(pts, cs)
    requires Inv(r, pts, WithoutWaiting(st, Ids(committed)), Live(cs, Ids(committed))) && WaitingKeysFit(st, committed)
    ensures var (tt, ds) := AddEach(r, st, cs, committed[..n]);
            && AddEach(r, WithoutWaiting(st, Ids(committed)), cs, committed[..n])
               == (WithoutWaiting(tt, Ids(committed[n..])), ds)
            && StillWaiting(st, tt, committed[n..])
  {
    hide Inv, Add, Admissible, Lists, WaitingKeysFit;
    var uu := WithoutWaiting(st, Ids(committed));
    if n == 0 {
      assert committed[0..] == committed && committed[..0] == [];
    } else {
      AddEachAlike(r, pts, st, cs, committed, n - 1);
      ScoredBefore(committed, n);
      ListsPrefix(cs, committed, n);
      LastScored(r, st, cs, committed[..n]);
      LastScored(r, uu, cs, committed[..n]);
      hide AddEach, StillWaiting;
      var (tt, ds) := AddEach(r, st, cs, committed[..n - 1]);
      var c := ds[FirstIndex(ds, WithId(committed[n - 1].id)).value];
      forall k { AddEachCounts(r, st, cs, committed[..n - 1], k); }
      OwnersAreCounted(r, pts, st, cs, committed, n - 1);
      NextAlike(r, st, tt, c, committed, n - 1);
      AddWithOwners(r, tt, Settled(tt.dupeOwners, Ids(committed[n - 1..])), c);
    }
  }

  lemma ScoredBefore(committed: seq<Contact>, n: nat)
    requires 0 < n <= |committed|
    ensures committed[..n][..n - 1] == committed[..n - 1] && committed[..n][n - 1] == committed[n - 1]
  {
  }

  lemma ListsPrefix(cs: seq<Contact>, committed: seq<Contact>, n: nat)
    requires 0 < n <= |committed| && Lists(cs, committed)
    ensures Lists(cs, committed[..n]) && Lists(cs, committed[..n - 1]) && Ids(committed) <= Ids(cs)
  {
    forall d | d in committed[..n] ensures d in committed { }
    forall d | d in committed[..n - 1] ensures d in committed { }
    assert Ids(committed[..n]) <= Ids(committed) && Ids(committed[..n - 1]) <= Ids(committed);
  }

  lemma OwnersAreCounted(r: Rules, pts: string -> int, st: Ledger, cs: seq<Contact>, committed: seq<Contact>, n: nat)
    requires n <= |committed| && Distinct(committed) && Distinct(cs) && Ids(committed) <= Ids(cs) && AllAdmissible(pts, cs)
    requires Inv(r, pts, WithoutWaiting(st, Ids(committed)), Live(cs, Ids(committed)))
    requires var (tt, ds) := AddEach(r, st, cs, committed[..n]);
             AddEach(r, WithoutWaiting(st, Ids(committed)), cs, committed[..n]) == (WithoutWaiting(tt, Ids(committed[n..])), ds)
    ensures var tt := AddEach(r, st, cs, committed[..n]).0;
            forall k :: k in tt.dupeOwners && tt.dupeOwners[k] !in Ids(committed[n..]) ==> Get(tt.dupeCounts, k) > 0
  {
    hide AddEach, BooksOk, Admissible, Sum;
    AddEachKeeps(r, pts, WithoutWaiting(st, Ids(committed)), cs, committed, n);
    var (tt, ds) := AddEach(r, st, cs, committed[..n]);
    var live := Live(ds, Ids(committed[n..]));
    var uu := WithoutWaiting(tt, Ids(committed[n..]));
    forall k | k in uu.dupeOwners ensures Get(tt.dupeCounts, k) > 0 {
      KeyPresent(live, k);
    }
  }

  lemma NobodyOut(cs: seq<Contact>)
    ensures Live(cs, {}) == SetOf(cs)
    ensures Live(cs, Ids([])) == SetOf(cs)
  {
    assert Ids([]) == {};
  }

  /** Before a batch is scored, the ledger holds what stays of the log and the old versions of the batch. */
  lemma UpsertStarts(r: Rules, log: Log, step: Step)
    requires Distinct(log.contacts) && step.Upsert? && Delivered(r, log, step)
    ensures Live(step.arranged, Ids(step.batch)) + SetOf(Priors(step.edits)) == SetOf(log.contacts)
    ensures Ids(step.batch) <= Ids(step.arranged)
    ensures Newcomers(step.arranged, Ids(step.batch)) == SetOf(step.batch)
  {
    hide FreedOrders;
    var batch, cs, priors := step.batch, step.arranged, Priors(step.edits);
    forall c | c in batch ensures c in cs { assert c in SetOf(cs); }
    forall c | c in log.contacts ensures c in priors <==> c.id in Ids(batch) {
      assert c.id in Ids(log.contacts);
      if c.id in Ids(batch) {
        assert c.id in Ids(priors);
        var p :| p in priors && p.id == c.id;
        assert p in SetOf(log.contacts);
        var i :| 0 <= i < |log.contacts| && log.contacts[i] == c;
        var j :| 0 <= j < |log.contacts| && log.contacts[j] == p;
      }
      if c in priors { assert c.id in Ids(priors); }
    }
    forall d | d in cs && d.id in Ids(batch) ensures d in batch { assert d in SetOf(cs); }
    forall c ensures c in Live(cs, Ids(batch)) + SetOf(priors) <==> c in SetOf(log.contacts) {
      assert c in cs <==> c in SetOf(cs);
    }
  }

  /** A batch in which no new version contests what another contact owned can be scored. */
  lemma UndisturbedCanStep(r: Rules, pts: string -> int, log: Log, step: Step)
    requires LogOk(r, pts, log) && step.Upsert? && Delivered(r, log, step)
    requires Undisturbed(log.ledger, SetOf(Priors(step.edits)), SetOf(step.batch))
    ensures CanStep(r, log, step)
  {
    hide Inv, FreedOrders, Undisturbed, Spared, NoSearchStops, NonePromoted, AfterRemovals;
    UpsertStarts(r, log, step);
    BatchHasPriors(r, log, step);
    UndisturbedIsSpared(r, pts, log.ledger, step.arranged, Priors(step.edits), Orders(step.edits), Ids(step.batch));
    SparedIff(r, pts, log.ledger, step.arranged, Priors(step.edits), Orders(step.edits), Ids(step.batch));
  }

  lemma BatchHasPriors(r: Rules, log: Log, step: Step)
    requires step.Upsert? && Delivered(r, log, step)
    ensures Ids(Priors(step.edits)) <= Ids(step.batch)
  {
    hide FreedOrders;
  }

  /** An upsert removes the old versions and then scores the new ones. */
  lemma ScoredInTwo(r: Rules, log: Log, step: Step)
    requires !r.capped && step.Upsert?
    ensures var o := AfterRemovals(r, log.ledger, step.arranged, Priors(step.edits), Orders(step.edits), |step.edits|);
            var after := Perform(r, log, step);
            AddEach(r, o.ledger, o.contacts, step.batch) == (after.ledger, after.contacts)
  {
    hide RemoveEach, AddEach;
    NoRemoval(r, log.ledger, step.arranged, Priors(step.edits), Orders(step.edits));
  }

  lemma BatchIsListed(r: Rules, pts: string -> int, log: Log, step: Step)
    requires Distinct(log.contacts) && step.Upsert? && Delivered(r, log, step) && AllAdmissible(pts, step.arranged)
    ensures var o := AfterRemovals(r, log.ledger, step.arranged, Priors(step.edits), Orders(step.edits), |step.edits|);
            && Lists(o.contacts, step.batch) && Ids(step.batch) <= Ids(o.contacts)
            && AllAdmissible(pts, o.contacts) && Distinct(o.contacts)
  {
    hide FreedOrders, Admissible, AfterRemovals;
    var cs, priors, orders := step.arranged, Priors(step.edits), Orders(step.edits);
    UpsertStarts(r, log, step);
    StillRelabelled(r, log.ledger, cs, priors, orders, |priors|);
    var o := AfterRemovals(r, log.ledger, cs, priors, orders, |priors|);
    SameIds(cs, o.contacts);
    forall c, d | c in o.contacts && d in step.batch && c.id == d.id ensures c.facts == d.facts {
      var i :| 0 <= i < |cs| && o.contacts[i] == c;
      assert d in SetOf(step.batch) && d in Newcomers(cs, Ids(step.batch));
      var j :| 0 <= j < |cs| && cs[j] == d;
    }
  }

  lemma NobodyWaits(st: Ledger)
    ensures WithoutWaiting(st, Ids([])) == st
  {
    assert Settled(st.dupeOwners, Ids([])) == st.dupeOwners;
  }

  lemma UpsertKeeps(r: Rules, pts: string -> int, log: Log, step: Step)
    requires !r.capped && LogOk(r, pts, log) && step.Upsert? && CanStep(r, log, step)
    requires AllAdmissible(pts, step.arranged)
    ensures LogOk(r, pts, Perform(r, log, step))
  {
    hide Inv, Admissible, FreedOrders, AfterRemovals, AddEach, Spared, NoSearchStops, NonePromoted, Perform, Lists;
    var batch, priors, orders := step.batch, Priors(step.edits), Orders(step.edits);
    UpsertStarts(r, log, step);
    BatchHasPriors(r, log, step);
    SparedIff(r, pts, log.ledger, step.arranged, priors, orders, Ids(batch));
    OldVersionsLeave(r, pts, log.ledger, step.arranged, priors, orders, Ids(batch));
    var o := AfterRemovals(r, log.ledger, step.arranged, priors, orders, |priors|);
    ScoredInTwo(r, log, step);
    BatchIsListed(r, pts, log, step);
    AddEachAlike(r, pts, o.ledger, o.contacts, batch, |batch|);
    AddEachKeeps(r, pts, WithoutWaiting(o.ledger, Ids(batch)), o.contacts, batch, |batch|);
    assert batch[..|batch|] == batch && batch[|batch|..] == [];
    NobodyOut(Perform(r, log, step).contacts);
    NobodyWaits(Perform(r, log, step).ledger);
  }

  lemma DeleteKeeps(r: Rules, pts: string -> int, log: Log, step: Step)
    requires !r.capped && LogOk(r, pts, log) && step.Delete? && CanStep(r, log, step)
    ensures LogOk(r, pts, Perform(r, log, step))
    ensures Perform(r, log, step).ledger.totals == Tallied(r, Perform(r, log, step).ledger).totals
  {
    hide Inv, Remove, FreedOrder, Tallied;
    var cs := step.arranged;
    assert SetOf(cs) + {step.gone} == SetOf(log.contacts);
    forall c | c in cs ensures c.id != step.gone.id {
      assert c in SetOf(cs) && c in log.contacts && c != step.gone;
      var i :| 0 <= i < |log.contacts| && log.contacts[i] == c;
      var j :| 0 <= j < |log.contacts| && log.contacts[j] == step.gone;
    }
    RemoveKeeps(r, pts, log.ledger, step.gone, cs, step.order);
  }

  lemma StepKeeps(r: Rules, pts: string -> int, log: Log, step: Step)
    requires !r.capped && LogOk(r, pts, log) && CanStep(r, log, step)
    requires AllAdmissible(pts, log.contacts) && AllAdmissible(pts, NewContacts(step))
    ensures LogOk(r, pts, Perform(r, log, step))
    ensures AllAdmissible(pts, Perform(r, log, step).contacts)
  {
    hide Inv, FreedOrder, Perform, Admissible;
    var cs := step.arranged;
    forall i | 0 <= i < |cs| ensures Admissible(pts, cs[i].facts) {
      assert cs[i] in SetOf(cs);
      assert cs[i] in log.contacts || cs[i] in NewContacts(step);
    }
    StepRelabels(r, log, step);
    match step
    case Upsert(_, _, _) => UpsertKeeps(r, pts, log, step);
    case Delete(_, _, _) => DeleteKeeps(r, pts, log, step);
  }

  lemma StepRelabels(r: Rules, log: Log, step: Step)
    requires !r.capped
    ensures var cs := Perform(r, log, step).contacts;
            |cs| == |step.arranged| && forall i :: 0 <= i < |cs| ==>
              cs[i].id == step.arranged[i].id && cs[i].facts == step.arranged[i].facts
  {
    hide Remove, RemoveEach, AddEach;
    match step
    case Upsert(edits, batch, cs) =>
      RemoveEachRelabels(r, log.ledger, cs, Priors(edits), Orders(edits));
      var o := RemoveEach(r, Outcome(log.ledger, cs, {}), Priors(edits), Orders(edits));
      AddEachRelabels(r, o.ledger, o.contacts, batch);
    case Delete(gone, cs, order) => RemoveRelabels(r, log.ledger, gone, cs, None, order);
  }

  // ----- loading, and whole runs -----

  predicate KeyTaken(cs: seq<Contact>, i: nat)
    requires i < |cs|
  {
    exists j :: 0 <= j < i && cs[j].facts.dupeKey.Some? && cs[j].facts.dupeKey == cs[i].facts.dupeKey
  }

  /** The i-th contact of a log as loading marks it: a dupe exactly when its dupe key came before. */
  predicate LoadedAs(cs: seq<Contact>, i: nat, d: Contact)
    requires i < |cs|
  {
    d.id == cs[i].id && d.facts == cs[i].facts && (d.marks.dupe <==> KeyTaken(cs, i))
  }

  lemma LoadedPrefix(cs: seq<Contact>, n: nat, i: nat, d: Contact)
    requires i < n <= |cs|
    requires LoadedAs(cs[..n], i, d)
    ensures LoadedAs(cs, i, d)
  {
    if j :| 0 <= j < i && cs[j].facts.dupeKey.Some? && cs[j].facts.dupeKey == cs[i].facts.dupeKey {
      assert cs[..n][j] == cs[j];
    }
  }

  lemma LoadOne(r: Rules, pts: string -> int, before: Log, c: Contact)
    requires LogOk(r, pts, before) && Admissible(pts, c.facts)
    requires forall d :: d in SetOf(before.contacts) ==> d.id != c.id
    ensures var (st, d) := Add(r, before.ledger, c);
            && LogOk(r, pts, Log(st, before.contacts + [d]))
            && d.id == c.id && d.facts == c.facts
            && (d.marks.dupe <==> exists e :: e in SetOf(before.contacts) && e.facts.dupeKey.Some? && e.facts.dupeKey == c.facts.dupeKey)
            && st.totals == Tallied(r, st).totals
  {
    hide Inv, Add, Admissible, Tallied;
    AddKeeps(r, pts, before.ledger, SetOf(before.contacts), c);
    var (st, d) := Add(r, before.ledger, c);
    var after := before.contacts + [d];
    assert SetOf(after) == SetOf(before.contacts) + {d};
    forall i, j | 0 <= i < j < |after| ensures after[i].id != after[j].id {
      if j == |before.contacts| { assert before.contacts[i] in SetOf(before.contacts); }
    }
  }

  lemma {:induction false} LoadKeeps(r: Rules, pts: string -> int, cs: seq<Contact>)
    requires Distinct(cs) && AllAdmissible(pts, cs)
    ensures LogOk(r, pts, Load(r, cs))
    ensures |Load(r, cs).contacts| == |cs|
    ensures forall i :: 0 <= i < |cs| ==> LoadedAs(cs, i, Load(r, cs).contacts[i])
    ensures cs != [] ==> Load(r, cs).ledger.totals == Tallied(r, Load(r, cs).ledger).totals
  {
    if cs == [] {
      EmptyOk(r, pts);
    } else {
      hide LogOk, Add, Admissible, Tallied, LoadedAs;
      LoadUnrolls(r, cs);
      hide Load;
      LoadKeeps(r, pts, cs[..|cs| - 1]);
      LoadNext(r, pts, cs, Load(r, cs[..|cs| - 1]));
    }
  }

  lemma LoadUnrolls(r: Rules, cs: seq<Contact>)
    requires cs != []
    ensures var before := Load(r, cs[..|cs| - 1]);
            var (st, c) := Add(r, before.ledger, cs[|cs| - 1]);
            Load(r, cs) == Log(st, before.contacts + [c])
  {
    hide Add;
  }

  /** Loading one contact more, the last of `cs`, after all those before it. */
  lemma LoadNext(r: Rules, pts: string -> int, cs: seq<Contact>, before: Log)
    requires cs != [] && Distinct(cs) && AllAdmissible(pts, cs)
    requires LogOk(r, pts, before) && |before.contacts| == |cs| - 1
    requires forall i :: 0 <= i < |cs| - 1 ==> LoadedAs(cs[..|cs| - 1], i, before.contacts[i])
    ensures var (st, c) := Add(r, before.ledger, cs[|cs| - 1]);
            var ds := before.contacts + [c];
            && LogOk(r, pts, Log(st, ds))
            && (forall i :: 0 <= i < |cs| ==> LoadedAs(cs, i, ds[i]))
            && st.totals == Tallied(r, st).totals
  {
    hide LogOk, Add, Admissible, Tallied, LoadedAs;
    var n := |cs| - 1;
    forall d | d in SetOf(before.contacts) ensures d.id != cs[n].id {
      var i :| 0 <= i < n && before.contacts[i] == d;
      SameIdAs(cs, n, i, d);
    }
    LoadOne(r, pts, before, cs[n]);
    var c := Add(r, before.ledger, cs[n]).1;
    LastLoaded(cs, before.contacts, n, c);
    forall i | 0 <= i < |cs| ensures LoadedAs(cs, i, (before.contacts + [c])[i]) {
      if i < n { LoadedPrefix(cs, n, i, before.contacts[i]); }
    }
  }

  lemma SameIdAs(cs: seq<Contact>, n: nat, i: nat, d: Contact)
    requires i < n < |cs| && Distinct(cs) && LoadedAs(cs[..n], i, d)
    ensures d.id != cs[n].id
  {
  }

  lemma LastLoaded(cs: seq<Contact>, done: seq<Contact>, n: nat, c: Contact)
    requires n < |cs| && |done| == n
    requires forall i :: 0 <= i < n ==> LoadedAs(cs[..n], i, done[i])
    requires c.id == cs[n].id && c.facts == cs[n].facts
    requires c.marks.dupe <==> exists d :: d in SetOf(done) && d.facts.dupeKey.Some? && d.facts.dupeKey == cs[n].facts.dupeKey
    ensures LoadedAs(cs, n, c)
  {
    if j :| 0 <= j < n && cs[j].facts.dupeKey.Some? && cs[j].facts.dupeKey == cs[n].facts.dupeKey {
      assert LoadedAs(cs[..n], j, done[j]);
      assert done[j] in SetOf(done);
    }
    if d :| d in SetOf(done) && d.facts.dupeKey.Some? && d.facts.dupeKey == cs[n].facts.dupeKey {
      var j :| 0 <= j < n && done[j] == d;
      assert LoadedAs(cs[..n], j, done[j]);
      assert cs[j].facts.dupeKey == d.facts.dupeKey;
    }
  }

  lemma EmptyOk(r: Rules, pts: string -> int)
    ensures Inv(r, pts, NEW_LEDGER, {})
  {
  }

  /** Every run keeps the invariant. */
  lemma {:induction false} RunKeeps(r: Rules, pts: string -> int, log: Log, steps: seq<Step>)
    requires !r.capped && LogOk(r, pts, log) && CanRun(r, log, steps)
    requires AllAdmissible(pts, log.contacts)
    requires forall i :: 0 <= i < |steps| ==> AllAdmissible(pts, NewContacts(steps[i]))
    ensures LogOk(r, pts, Replay(r, log, steps))
    ensures AllAdmissible(pts, Replay(r, log, steps).contacts)
    decreases |steps|
  {
    hide Inv, Perform, Admissible, CanStep;
    if steps != [] {
      StepKeeps(r, pts, log, steps[0]);
      RunKeeps(r, pts, Perform(r, log, steps[0]), steps[1..]);
    }
  }
}

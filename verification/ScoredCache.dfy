/**
 The log cache together with the score tracker. Whenever the cache installs, changes or drops the copy of
 a log, it tells the tracker; meanwhile other tasks, and direct writers of the database, go their own way.
 A copy that counts as loaded always has the score of its contacts.
 */
module ScoredCache {
  import opened Sums
  import opened ScoringSpec
  import opened ScoringLedger
  import opened ScoringOperations
  import opened ScoringBatches
  import opened ScoringShades
  import opened ScoringRuns
  import opened ScoringTheorems
  import R = LogRevisions
  import P = LogProgress

  /** The tracker has a ledger and the marked contacts of the logs it knows. */
  datatype State = State(system: R.System, tracked: map<int, Log>)

  const START := State(R.START, map[])

  /** What the rules of the contest make of the logged part of a contact. */
  type Reading = string -> Facts

  /** These are the contacts of a log with these contents, in some order. */
  ghost predicate Matches(rule: Reading, contents: R.Contents, cs: seq<Contact>) {
    && Distinct(cs) && Ids(cs) == contents.Keys
    && forall c :: c in cs && c.id in contents ==> c.facts == rule(contents[c.id])
  }

  // ----- moves -----

  /** A step of the cache, with the order in which a log is shown when it is loaded, or the change for the tracker. */
  datatype Move = Move(action: R.Action, shown: seq<Contact>, step: Step)

  predicate InPhase(s: R.System, a: R.Action) {
    a.Step? && a.log in s.holders
  }

  /** The holder hands a snapshot to the tracker. */
  predicate Loads(s: R.System, a: R.Action) {
    && InPhase(s, a) && s.holders[a.log].Installing?
    && R.Unmoved(s, a.log, s.holders[a.log].snapshot.revision)
  }

  /** The holder drops the copy of the log. */
  predicate Drops(s: R.System, a: R.Action) {
    && InPhase(s, a)
    && match s.holders[a.log]
       case Checking(op) => op.Remove?
       case Fetching(_) => a.log !in s.db.logs
       case Confirming(_, snapshot) => !R.Unmoved(s, a.log, snapshot.revision)
       case _ => false
  }

  /** The holder changes the copy of the log. */
  predicate Changes(s: R.System, a: R.Action) {
    && InPhase(s, a) && s.holders[a.log].Applying? && a.log in s.cache
    && !(s.holders[a.log].op.Delete? && s.holders[a.log].op.id !in s.cache[a.log].contacts)
  }

  function ChangedContents(fill: string -> string, s: R.System, a: R.Action): R.Contents
    requires Changes(s, a)
  {
    R.Changed(fill, s.holders[a.log].op, s.cache[a.log].contacts)
  }

  function UpsertedIds(op: R.Op): set<int>
    requires op.Upsert?
  {
    set i | 0 <= i < |op.contacts| :: op.contacts[i].0
  }

  /** What the tracker is told is what the operation changes. */
  ghost predicate Tells(rule: Reading, op: R.Op, contents: R.Contents, step: Step) {
    && Matches(rule, contents, step.arranged)
    && (op.Upsert? ==> step.Upsert? && Ids(step.batch) == UpsertedIds(op))
    && (op.Delete? ==> step.Delete? && step.gone.id == op.id)
  }

  ghost predicate CanMove(r: Rules, rule: Reading, fill: string -> string, s: State, m: Move) {
    && R.CanAct(s.system, m.action)
    && (Loads(s.system, m.action) ==>
          Matches(rule, R.Filled(fill, s.system.holders[m.action.log].snapshot.contacts), m.shown))
    && (Changes(s.system, m.action) && m.action.log in s.tracked ==>
          && Delivered(r, s.tracked[m.action.log], m.step)
          && Tells(rule, s.system.holders[m.action.log].op, ChangedContents(fill, s.system, m.action), m.step))
  }

  function Tracked(r: Rules, s: State, m: Move): map<int, Log> {
    if Loads(s.system, m.action) then s.tracked[m.action.log := Load(r, m.shown)]
    else if Drops(s.system, m.action) then s.tracked - {m.action.log}
    else if Changes(s.system, m.action) && m.action.log in s.tracked then
      s.tracked[m.action.log := Perform(r, s.tracked[m.action.log], m.step)]
    else s.tracked
  }

  ghost function Moved(r: Rules, rule: Reading, fill: string -> string, s: State, m: Move): State
    requires CanMove(r, rule, fill, s, m)
  {
    State(R.Act(fill, s.system, m.action), Tracked(r, s, m))
  }

  /** What the batch of this move hands on to its own contacts does no harm. */
  ghost predicate Calm(r: Rules, s: State, m: Move) {
    Changes(s.system, m.action) && m.action.log in s.tracked ==> PassesWell(r, s.tracked[m.action.log], m.step)
  }

  // ----- the invariant -----

  ghost predicate Follows(r: Rules, pts: string -> int, rule: Reading, contents: R.Contents, log: Log) {
    LogOk(r, pts, log) && Matches(rule, contents, log.contacts)
  }

  /** The tracker has the score of the cached copy. */
  ghost predicate UpToDate(r: Rules, pts: string -> int, rule: Reading, s: State, log: int) {
    log in s.system.cache ==>
      log in s.tracked && Follows(r, pts, rule, s.system.cache[log].contacts, s.tracked[log])
  }

  predicate Reloading(p: R.Phase) {
    p.Fetching? || p.Installing? || p.Confirming?
  }

  predicate Changing(p: R.Phase) {
    p.Mutating? || p.Comparing? || p.Comparing2? || p.Applying?
  }

  /**
   The score of a loaded copy is up to date, and stays so while the holder is about to change it. While
   the holder reloads the log, the copy does not count as loaded; once it has told the tracker, the tracker
   has the score of the snapshot.
   */
  ghost predicate InvAt(r: Rules, pts: string -> int, rule: Reading, fill: string -> string, s: State, log: int) {
    && (R.IsLoaded(s.system, log) ==> UpToDate(r, pts, rule, s, log))
    && (log in s.system.holders ==>
          var p := s.system.holders[log];
          && (Changing(p) ==> UpToDate(r, pts, rule, s, log))
          && (Reloading(p) ==> !R.IsLoaded(s.system, log))
          && (p.Confirming? ==>
                && log in s.tracked
                && Follows(r, pts, rule, R.Filled(fill, p.snapshot.contacts), s.tracked[log])))
  }

  ghost predicate Inv(r: Rules, pts: string -> int, rule: Reading, fill: string -> string, s: State) {
    R.Inv(fill, s.system) && forall log :: InvAt(r, pts, rule, fill, s, log)
  }

  // ----- what the tracker does with a log -----

  /** All contacts the rules can read earn bonus points by key alone, and no multiplier has a cap. */
  ghost predicate AllReadable(pts: string -> int, rule: Reading) {
    forall text :: Admissible(pts, rule(text))
  }

  lemma MatchesIsAdmissible(pts: string -> int, rule: Reading, contents: R.Contents, cs: seq<Contact>)
    requires AllReadable(pts, rule) && Matches(rule, contents, cs)
    ensures AllAdmissible(pts, cs)
  {
    hide Admissible;
    forall i | 0 <= i < |cs| ensures Admissible(pts, cs[i].facts) {
      assert cs[i] in cs && cs[i].id in Ids(cs);
      assert cs[i].facts == rule(contents[cs[i].id]);
    }
  }

  lemma RelabelledMatches(rule: Reading, contents: R.Contents, cs: seq<Contact>, ds: seq<Contact>)
    requires Matches(rule, contents, cs) && |ds| == |cs|
    requires forall i :: 0 <= i < |cs| ==> ds[i].id == cs[i].id && ds[i].facts == cs[i].facts
    ensures Matches(rule, contents, ds)
  {
    SameIds(cs, ds);
    forall d | d in ds && d.id in contents ensures d.facts == rule(contents[d.id]) {
      var i :| 0 <= i < |ds| && ds[i] == d;
      assert cs[i] in cs;
    }
  }

  lemma LoadFollows(r: Rules, pts: string -> int, rule: Reading, contents: R.Contents, cs: seq<Contact>)
    requires AllReadable(pts, rule) && Matches(rule, contents, cs)
    ensures Follows(r, pts, rule, contents, Load(r, cs))
  {
    hide LogOk, Matches, Load, Admissible, Tallied;
    MatchesIsAdmissible(pts, rule, contents, cs);
    assert Distinct(cs) by { MatchesDistinct(rule, contents, cs); }
    LoadKeeps(r, pts, cs);
    forall i | 0 <= i < |cs| ensures Load(r, cs).contacts[i].id == cs[i].id && Load(r, cs).contacts[i].facts == cs[i].facts {
      assert LoadedAs(cs, i, Load(r, cs).contacts[i]);
    }
    RelabelledMatches(rule, contents, cs, Load(r, cs).contacts);
  }

  lemma MatchesDistinct(rule: Reading, contents: R.Contents, cs: seq<Contact>)
    requires Matches(rule, contents, cs)
    ensures Distinct(cs)
  {
  }

  lemma ChangeFollows(r: Rules, pts: string -> int, rule: Reading, op: R.Op, contents: R.Contents, changed: R.Contents,
                      log: Log, step: Step)
    requires !r.capped && AllReadable(pts, rule) && Follows(r, pts, rule, contents, log)
    requires Delivered(r, log, step) && PassesWell(r, log, step) && Tells(rule, op, changed, step)
    ensures Follows(r, pts, rule, changed, Perform(r, log, step))
  {
    hide LogOk, Matches, Admissible, Perform, Delivered, PassesWell;
    MatchesIsAdmissible(pts, rule, changed, step.arranged);
    if step.Upsert? { UpsertKeeps(r, pts, log, step); } else { DeleteKeeps(r, pts, log, step); }
    StepRelabels(r, log, step);
    RelabelledMatches(rule, changed, step.arranged, Perform(r, log, step).contacts);
  }

  // ----- every move keeps the invariant -----

  /** A move that changes nothing about a log but perhaps the phase of its holder. */
  lemma OtherLogKeeps(r: Rules, pts: string -> int, rule: Reading, fill: string -> string, s: State, t: State, log: int)
    requires InvAt(r, pts, rule, fill, s, log)
    requires (log in t.system.cache <==> log in s.system.cache) && (log in s.system.cache ==> t.system.cache[log] == s.system.cache[log])
    requires (log in t.tracked <==> log in s.tracked) && (log in s.tracked ==> t.tracked[log] == s.tracked[log])
    requires R.IsLoaded(t.system, log) ==> R.IsLoaded(s.system, log)
    requires log in t.system.holders ==> log in s.system.holders && t.system.holders[log] == s.system.holders[log]
    ensures InvAt(r, pts, rule, fill, t, log)
  {
    hide Follows;
  }

  /** A new revision is not that of any cached copy. */
  lemma CommitUnloads(fill: string -> string, s: R.System, log: int, contents: R.Contents)
    requires R.Inv(fill, s)
    ensures !R.IsLoaded(R.Commit(s, log, contents), log)
    ensures forall l :: l != log ==> (R.IsLoaded(R.Commit(s, log, contents), l) <==> R.IsLoaded(s, l))
  {
    hide R.Filled, R.PhaseOk;
    if log in s.cache { assert R.CachedOk(fill, s, log); }
  }

  lemma QuietMoveKeeps(r: Rules, pts: string -> int, rule: Reading, fill: string -> string, s: State, m: Move, log: int)
    requires Inv(r, pts, rule, fill, s) && CanMove(r, rule, fill, s, m) && !m.action.Step?
    ensures InvAt(r, pts, rule, fill, Moved(r, rule, fill, s, m), log)
  {
    hide Follows, R.Inv;
    assert InvAt(r, pts, rule, fill, s, log);
    var t := Moved(r, rule, fill, s, m);
    match m.action
    case Write(l, contents) =>
      CommitUnloads(fill, s.system, l, contents);
      OtherLogKeeps(r, pts, rule, fill, s, t, log);
    case Drop(l) => OtherLogKeeps(r, pts, rule, fill, s, t, log);
    case Enter(l, op) => if log != l { OtherLogKeeps(r, pts, rule, fill, s, t, log); }
    case Abandon(l) => OtherLogKeeps(r, pts, rule, fill, s, t, log);
    case Step(_) =>
  }

  lemma StepElsewhereKeeps(r: Rules, pts: string -> int, rule: Reading, fill: string -> string, s: State, m: Move, log: int)
    requires Inv(r, pts, rule, fill, s) && CanMove(r, rule, fill, s, m) && m.action.Step? && m.action.log != log
    ensures InvAt(r, pts, rule, fill, Moved(r, rule, fill, s, m), log)
  {
    hide Follows, R.Inv, R.Changed, R.Filled;
    assert InvAt(r, pts, rule, fill, s, log);
    var h := s.system.holders[m.action.log];
    if h.Mutating? {
      var op := h.op;
      if m.action.log in s.system.db.logs {
        CommitUnloads(fill, s.system, m.action.log, R.Changed(fill, op, s.system.db.logs[m.action.log].contacts));
      }
    }
    OtherLogKeeps(r, pts, rule, fill, s, Moved(r, rule, fill, s, m), log);
  }

  lemma LoadingStepKeeps(r: Rules, pts: string -> int, rule: Reading, fill: string -> string, s: State, m: Move, log: int)
    requires Inv(r, pts, rule, fill, s) && CanMove(r, rule, fill, s, m) && m.action == R.Step(log)
    requires AllReadable(pts, rule)
    requires var p := s.system.holders[log]; p.Checking? || Reloading(p)
    ensures InvAt(r, pts, rule, fill, Moved(r, rule, fill, s, m), log)
  {
    hide Follows, R.Inv, R.Filled, Matches, Load;
    assert InvAt(r, pts, rule, fill, s, log);
    if Loads(s.system, m.action) {
      LoadFollows(r, pts, rule, R.Filled(fill, s.system.holders[log].snapshot.contacts), m.shown);
    }
  }

  lemma ChangingStepKeeps(r: Rules, pts: string -> int, rule: Reading, fill: string -> string, s: State, m: Move, log: int)
    requires Inv(r, pts, rule, fill, s) && CanMove(r, rule, fill, s, m) && m.action == R.Step(log)
    requires AllReadable(pts, rule) && !r.capped && Calm(r, s, m)
    requires Changing(s.system.holders[log])
    ensures InvAt(r, pts, rule, fill, Moved(r, rule, fill, s, m), log)
  {
    hide Follows, R.Inv, R.Filled, R.Changed, Matches, Load, Perform, Delivered, PassesWell, Tells;
    assert InvAt(r, pts, rule, fill, s, log);
    var p := s.system.holders[log];
    if p.Mutating? && log in s.system.db.logs {
      CommitUnloads(fill, s.system, log, R.Changed(fill, p.op, s.system.db.logs[log].contacts));
    }
    if Changes(s.system, m.action) {
      ChangeFollows(r, pts, rule, p.op, s.system.cache[log].contacts, ChangedContents(fill, s.system, m.action),
                    s.tracked[log], m.step);
    }
  }

  lemma MoveKeeps(r: Rules, pts: string -> int, rule: Reading, fill: string -> string, s: State, m: Move)
    requires Inv(r, pts, rule, fill, s) && CanMove(r, rule, fill, s, m) && Calm(r, s, m)
    requires AllReadable(pts, rule) && !r.capped && R.FillsOnce(fill)
    ensures Inv(r, pts, rule, fill, Moved(r, rule, fill, s, m))
  {
    R.ActKeeps(fill, s.system, m.action);
    hide R.Inv, R.Act, InvAt;
    forall log ensures InvAt(r, pts, rule, fill, Moved(r, rule, fill, s, m), log) {
      if !m.action.Step? {
        QuietMoveKeeps(r, pts, rule, fill, s, m, log);
      } else if m.action.log != log {
        StepElsewhereKeeps(r, pts, rule, fill, s, m, log);
      } else if Changing(s.system.holders[log]) {
        ChangingStepKeeps(r, pts, rule, fill, s, m, log);
      } else {
        LoadingStepKeeps(r, pts, rule, fill, s, m, log);
      }
    }
  }

  // ----- whole runs -----

  ghost predicate CanRun(r: Rules, rule: Reading, fill: string -> string, s: State, moves: seq<Move>)
    decreases |moves|
  {
    moves != [] ==>
      && CanMove(r, rule, fill, s, moves[0]) && Calm(r, s, moves[0])
      && CanRun(r, rule, fill, Moved(r, rule, fill, s, moves[0]), moves[1..])
  }

  ghost function Run(r: Rules, rule: Reading, fill: string -> string, s: State, moves: seq<Move>): State
    requires CanRun(r, rule, fill, s, moves)
    decreases |moves|
  {
    if moves == [] then s else Run(r, rule, fill, Moved(r, rule, fill, s, moves[0]), moves[1..])
  }

  lemma {:induction false} RunKeeps(r: Rules, pts: string -> int, rule: Reading, fill: string -> string, s: State,
                                    moves: seq<Move>)
    requires Inv(r, pts, rule, fill, s) && CanRun(r, rule, fill, s, moves)
    requires AllReadable(pts, rule) && !r.capped && R.FillsOnce(fill)
    ensures Inv(r, pts, rule, fill, Run(r, rule, fill, s, moves))
    decreases |moves|
  {
    hide Inv, Moved, CanMove, Calm, AllReadable;
    if moves != [] {
      MoveKeeps(r, pts, rule, fill, s, moves[0]);
      RunKeeps(r, pts, rule, fill, Moved(r, rule, fill, s, moves[0]), moves[1..]);
    }
  }

  lemma StartKeeps(r: Rules, pts: string -> int, rule: Reading, fill: string -> string)
    ensures Inv(r, pts, rule, fill, START)
  {
  }

  /**
   Whatever loads, upserts, deletes, removals, cancellations and direct writes interleave: when a log
   counts as loaded, the tracker's contacts are those of the database, read by the rules, and its totals are
   what the scorer computes from nothing on them, non-dupes first.
   */
  lemma LoadedIsScored(r: Rules, pts: string -> int, rule: Reading, fill: string -> string, moves: seq<Move>, log: int)
    requires CanRun(r, rule, fill, START, moves)
    requires AllReadable(pts, rule) && !r.capped && R.FillsOnce(fill)
    ensures var s := Run(r, rule, fill, START, moves);
            R.IsLoaded(s.system, log) ==>
              && log in s.tracked
              && s.system.cache[log].contacts == R.Filled(fill, s.system.db.logs[log].contacts)
              && Matches(rule, s.system.cache[log].contacts, s.tracked[log].contacts)
              && (s.tracked[log].contacts != [] ==>
                    s.tracked[log].ledger.totals
                    == ScoreContacts(r, NonDupesFirst(s.tracked[log].contacts)).0.totals)
              && (s.tracked[log].contacts == [] ==> s.tracked[log].ledger.totals in {NO_TOTALS, EMPTIED(r)})
  {
    StartKeeps(r, pts, rule, fill);
    RunKeeps(r, pts, rule, fill, START, moves);
    var s := Run(r, rule, fill, START, moves);
    hide Run, CanRun, AllReadable, Matches, NonDupesFirst, ScoreContacts, R.Filled;
    assert InvAt(r, pts, rule, fill, s, log);
    if R.IsLoaded(s.system, log) {
      assert R.CachedOk(fill, s.system, log);
      assert R.Was(s.system, log, s.system.db.logs[log].revision, s.system.db.logs[log].contacts);
      MatchesIsAdmissible(pts, rule, s.system.cache[log].contacts, s.tracked[log].contacts);
      LogTotals(r, pts, s.tracked[log]);
    }
  }

  // ----- no move is missing -----

  lemma {:induction false} Listed(keys: set<string>) returns (order: seq<string>)
    ensures Enumerates(order, keys)
    decreases keys
  {
    order := [];
    if keys != {} {
      var k :| k in keys;
      var rest := Listed(keys - {k});
      order := rest + [k];
    }
  }

  lemma OneOrder(st: Ledger, c: Contact) returns (order: Order)
    ensures FreedOrder(st, c, order)
  {
    var mults := Listed(Owned(st.multOwners, c.id));
    var bonuses := Listed(Owned(st.bonusOwners, c.id));
    order := Order(mults, bonuses);
  }

  lemma {:induction false} OrdersOf(r: Rules, o: Outcome, priors: seq<Contact>) returns (orders: seq<Order>)
    ensures |orders| == |priors| && FreedOrders(r, o, priors, orders)
    decreases |priors|
  {
    orders := [];
    if priors != [] {
      hide RemoveEach, FreedOrder;
      var init := priors[..|priors| - 1];
      var first := OrdersOf(r, o, init);
      var last := OneOrder(RemoveEach(r, o, init, first).ledger, priors[|priors| - 1]);
      orders := first + [last];
      assert orders[..|priors| - 1] == first;
    }
  }

  /** Some arrangement of a log. */
  lemma {:induction false} Arrangement(rule: Reading, contents: R.Contents) returns (cs: seq<Contact>)
    ensures Matches(rule, contents, cs)
    decreases |contents|
  {
    cs := [];
    if contents != map[] {
      var entry :| entry in contents.Items;
      var id := entry.0;
      var rest := contents - {id};
      assert rest.Keys == contents.Keys - {id};
      var ds := Arrangement(rule, rest);
      cs := ds + [Contact(id, rule(contents[id]), Marks(0, 0, 0, false))];
      AppendMatches(rule, contents, id, ds);
    }
  }

  lemma AppendMatches(rule: Reading, contents: R.Contents, id: int, ds: seq<Contact>)
    requires id in contents && Matches(rule, contents - {id}, ds)
    ensures Matches(rule, contents, ds + [Contact(id, rule(contents[id]), Marks(0, 0, 0, false))])
  {
    var c := Contact(id, rule(contents[id]), Marks(0, 0, 0, false));
    var cs := ds + [c];
    forall d | d in ds ensures d.id in contents && d.id != id { assert d.id in Ids(ds); }
    assert Ids(cs) == Ids(ds) + {id} by {
      assert forall d :: d in cs <==> d in ds || d == c;
    }
    forall i, j | 0 <= i < j < |cs| ensures cs[i].id != cs[j].id {
      if j == |ds| { assert ds[i] in ds; }
    }
  }

  lemma {:induction false} MergedAt(contents: R.Contents, batch: seq<(int, string)>)
    ensures R.Merged(contents, batch).Keys == contents.Keys + set i | 0 <= i < |batch| :: batch[i].0
    ensures forall id :: id in contents && (forall i :: 0 <= i < |batch| ==> batch[i].0 != id) ==>
              R.Merged(contents, batch)[id] == contents[id]
  {
    if batch != [] {
      var init := batch[..|batch| - 1];
      MergedAt(contents, init);
      assert (set i | 0 <= i < |batch| :: batch[i].0) == (set i | 0 <= i < |init| :: init[i].0) + {batch[|batch| - 1].0} by {
        assert forall i :: 0 <= i < |init| ==> init[i] == batch[i];
      }
      forall id | id in contents && forall i :: 0 <= i < |batch| ==> batch[i].0 != id
        ensures R.Merged(contents, batch)[id] == contents[id]
      {
        assert forall i :: 0 <= i < |init| ==> init[i].0 == batch[i].0;
      }
    }
  }

  lemma {:induction false} KeptDistinct(cs: seq<Contact>, test: Contact -> bool)
    requires Distinct(cs)
    ensures Distinct(Kept(cs, test))
  {
    if cs != [] {
      KeptDistinct(cs[1..], test);
      assert cs == [cs[0]] + cs[1..];
      var rest := Kept(cs[1..], test);
      forall i | 0 <= i < |rest| ensures rest[i].id != cs[0].id {
        assert rest[i] in rest && rest[i] in cs[1..];
        var j :| 0 <= j < |cs[1..]| && cs[1..][j] == rest[i];
        assert cs[j + 1] == rest[i];
      }
    }
  }

  lemma IdsOfParts(cs: seq<Contact>, ids: set<int>, stay: seq<Contact>, batch: seq<Contact>)
    requires Ids(batch) == ids && forall c :: c in stay <==> c in cs && c.id !in ids
    ensures Ids(stay + batch) == Ids(cs) + ids
  {
    forall c ensures c in stay + batch <==> c in stay || c in batch { }
    forall id | id in Ids(cs) ensures id in Ids(stay + batch) {
      var c :| c in cs && c.id == id;
      assert id in ids || c in stay;
    }
  }

  /** The contacts that stay, and then the batch, are an arrangement of the changed log. */
  lemma StayAndBatch(rule: Reading, contents: R.Contents, changed: R.Contents, ids: set<int>, cs: seq<Contact>,
                     stay: seq<Contact>, batch: seq<Contact>)
    requires Matches(rule, contents, cs) && changed.Keys == contents.Keys + ids
    requires forall id :: id in contents && id !in ids ==> changed[id] == contents[id]
    requires Distinct(stay) && forall c :: c in stay <==> c in cs && c.id !in ids
    requires Matches(rule, map id | id in changed && id in ids :: changed[id], batch)
    ensures Matches(rule, changed, stay + batch) && Ids(batch) == ids
  {
    var all := stay + batch;
    assert Ids(batch) == ids;
    forall c | c in batch ensures c.id in ids { assert c.id in Ids(batch); }
    forall i, j | 0 <= i < j < |all| ensures all[i].id != all[j].id {
      if i < |stay| && j >= |stay| { assert stay[i] in stay && batch[j - |stay|] in batch; }
    }
    IdsOfParts(cs, ids, stay, batch);
    forall c | c in all && c.id in changed ensures c.facts == rule(changed[c.id]) {
      if c in stay { assert c.id in Ids(cs) && c.facts == rule(contents[c.id]); }
    }
  }

  lemma UpsertChanges(fill: string -> string, op: R.Op, contents: R.Contents)
    requires op.Upsert?
    ensures var changed := R.Changed(fill, op, contents);
            && changed.Keys == contents.Keys + UpsertedIds(op)
            && forall id :: id in contents && id !in UpsertedIds(op) ==> changed[id] == contents[id]
  {
    var filled := R.FilledBatch(fill, op.contacts);
    var ids := UpsertedIds(op);
    MergedAt(contents, filled);
    assert (set i | 0 <= i < |filled| :: filled[i].0) == ids by {
      assert forall i :: 0 <= i < |filled| ==> filled[i].0 == op.contacts[i].0;
    }
    forall id | id in contents && id !in ids ensures R.Merged(contents, filled)[id] == contents[id] {
      assert forall i :: 0 <= i < |filled| ==> filled[i].0 in ids;
    }
  }

  lemma UpsertExists(r: Rules, rule: Reading, fill: string -> string, op: R.Op, contents: R.Contents, log: Log)
    returns (step: Step)
    requires op.Upsert? && Matches(rule, contents, log.contacts)
    ensures Delivered(r, log, step) && Tells(rule, op, R.Changed(fill, op, contents), step)
  {
    var changed := R.Changed(fill, op, contents);
    var ids := UpsertedIds(op);
    UpsertChanges(fill, op, contents);
    hide R.Changed, UpsertedIds, Distinct, Ids, FreedOrders, Delivered;
    var batch := Arrangement(rule, map id | id in changed && id in ids :: changed[id]);
    var cs := log.contacts;
    MatchesDistinct(rule, contents, cs);
    var stay, priors := Split(cs, ids);
    StayAndBatch(rule, contents, changed, ids, cs, stay, batch);
    MatchesDistinct(rule, changed, stay + batch);
    MatchesDistinct(rule, map id | id in changed && id in ids :: changed[id], batch);
    hide Matches;
    step := PartsDelivered(r, log, priors, batch, stay, ids);
  }

  lemma Split(cs: seq<Contact>, ids: set<int>) returns (stay: seq<Contact>, priors: seq<Contact>)
    requires Distinct(cs)
    ensures Distinct(stay) && forall c :: c in stay <==> c in cs && c.id !in ids
    ensures Distinct(priors) && forall c :: c in priors <==> c in cs && c.id in ids
  {
    stay, priors := Kept(cs, (c: Contact) => c.id !in ids), Kept(cs, (c: Contact) => c.id in ids);
    KeptDistinct(cs, (c: Contact) => c.id !in ids);
    KeptDistinct(cs, (c: Contact) => c.id in ids);
  }

  lemma PartsDelivered(r: Rules, log: Log, priors: seq<Contact>, batch: seq<Contact>, stay: seq<Contact>, ids: set<int>)
    returns (step: Step)
    requires Distinct(stay + batch) && Distinct(batch) && Distinct(priors) && Ids(batch) == ids
    requires forall c :: c in stay <==> c in log.contacts && c.id !in ids
    requires forall c :: c in priors <==> c in log.contacts && c.id in ids
    ensures Delivered(r, log, step)
    ensures step.Upsert? && step.batch == batch && step.arranged == stay + batch
  {
    hide FreedOrders;
    var cs := log.contacts;
    var orders := OrdersOf(r, Outcome(log.ledger, stay + batch, {}), priors);
    var edits := seq(|priors|, i requires 0 <= i < |priors| => Replacing(priors[i], orders[i]));
    assert Priors(edits) == priors && Orders(edits) == orders;
    step := Step.Upsert(edits, batch, stay + batch);
    assert SetOf(stay + batch) == SetOf(cs) - SetOf(priors) + SetOf(batch);
    forall id | id in Ids(batch) * Ids(cs) ensures id in Ids(priors) {
      var c :| c in cs && c.id == id;
      assert c in priors;
    }
  }

  lemma DeleteExists(r: Rules, rule: Reading, fill: string -> string, op: R.Op, contents: R.Contents, log: Log)
    returns (step: Step)
    requires op.Delete? && op.id in contents && Matches(rule, contents, log.contacts)
    ensures Delivered(r, log, step) && Tells(rule, op, R.Changed(fill, op, contents), step)
  {
    var cs := log.contacts;
    assert op.id in Ids(cs);
    var gone :| gone in cs && gone.id == op.id;
    var arranged := Kept(cs, (c: Contact) => c.id != op.id);
    KeptDistinct(cs, (c: Contact) => c.id != op.id);
    var order := OneOrder(log.ledger, gone);
    step := Step.Delete(gone, arranged, order);
    forall c | c in cs && c.id == op.id ensures c == gone {
      var i :| 0 <= i < |cs| && cs[i] == c;
      var j :| 0 <= j < |cs| && cs[j] == gone;
    }
    RestMatches(rule, contents, cs, op.id, arranged);
    hide Matches, FreedOrder, Distinct, Kept;
    assert SetOf(arranged) == SetOf(cs) - {gone};
  }

  lemma RestMatches(rule: Reading, contents: R.Contents, cs: seq<Contact>, id: int, rest: seq<Contact>)
    requires Matches(rule, contents, cs) && Distinct(rest) && forall c :: c in rest <==> c in cs && c.id != id
    ensures Matches(rule, contents - {id}, rest)
  {
    forall other | other in Ids(cs) && other != id ensures other in Ids(rest) {
      var c :| c in cs && c.id == other;
      assert c in rest;
    }
    forall c | c in rest ensures c.facts == rule(contents[c.id]) && c.id in contents { assert c.id in Ids(cs); }
  }

  /** Whatever the cache can do next, there is a move for it: the tracker never stands in its way. */
  lemma NeverInTheWay(r: Rules, pts: string -> int, rule: Reading, fill: string -> string, s: State, a: R.Action)
    returns (m: Move)
    requires Inv(r, pts, rule, fill, s) && R.CanAct(s.system, a)
    ensures m.action == a && CanMove(r, rule, fill, s, m)
    ensures Changes(s.system, a) ==> a.log in s.tracked
  {
    hide LogOk, Matches, Delivered, Tells, R.Filled, R.Changed, R.CachedOk, R.DatabaseOk;
    var shown: seq<Contact>, step := [], Step.Upsert([], [], []);
    if Loads(s.system, a) {
      shown := Arrangement(rule, R.Filled(fill, s.system.holders[a.log].snapshot.contacts));
    } else if Changes(s.system, a) {
      assert InvAt(r, pts, rule, fill, s, a.log) && R.PhaseOk(fill, s.system, a.log);
      var op, contents := s.system.holders[a.log].op, s.system.cache[a.log].contacts;
      if op.Upsert? {
        step := UpsertExists(r, rule, fill, op, contents, s.tracked[a.log]);
      } else {
        step := DeleteExists(r, rule, fill, op, contents, s.tracked[a.log]);
      }
    }
    m := Move(a, shown, step);
  }

  /** The copy of a log and its score are dropped together. */
  lemma ForgetsWithCopy(r: Rules, rule: Reading, fill: string -> string, s: State, m: Move, log: int)
    requires CanMove(r, rule, fill, s, m) && m.action == R.Step(log)
    ensures var t := Moved(r, rule, fill, s, m);
            && (log !in t.system.cache && (log in s.system.cache || s.system.holders[log] == R.Checking(R.Remove)) ==> log !in t.tracked)
            && (log in s.tracked && log !in t.tracked ==> log !in t.system.cache)
  {
    hide R.Changed, R.Filled, Load, Perform;
  }

  // ----- logs get scored -----

  /** The holder does nothing but load the log. */
  predicate JustLoads(s: R.System, log: int) {
    log in s.holders ==> s.holders[log].op.Load? && (s.holders[log].Checking? || Reloading(s.holders[log]))
  }

  lemma JustLoadsOn(fill: string -> string, s: R.System, log: int)
    requires log in s.holders && JustLoads(s, log)
    ensures JustLoads(R.Progress(fill, s, log), log)
  {
    hide R.Changed, R.Filled;
  }

  lemma {:induction false} LoadingMoves(r: Rules, pts: string -> int, rule: Reading, fill: string -> string, s: State,
                                        log: int, n: nat)
    returns (moves: seq<Move>)
    requires Inv(r, pts, rule, fill, s) && JustLoads(s.system, log)
    requires AllReadable(pts, rule) && !r.capped && R.FillsOnce(fill)
    ensures CanRun(r, rule, fill, s, moves)
    ensures Run(r, rule, fill, s, moves).system == P.Alone(fill, s.system, log, n)
    decreases n
  {
    hide Inv, AllReadable, R.Progress;
    moves := [];
    if n > 0 && log in s.system.holders {
      var m := NeverInTheWay(r, pts, rule, fill, s, R.Step(log));
      assert Calm(r, s, m);
      MoveKeeps(r, pts, rule, fill, s, m);
      JustLoadsOn(fill, s.system, log);
      var t := Moved(r, rule, fill, s, m);
      var rest := LoadingMoves(r, pts, rule, fill, t, log, n - 1);
      moves := [m] + rest;
      assert moves[1..] == rest;
    }
  }

  lemma EnteringIsCalm(r: Rules, s: State, m: Move)
    requires m.action.Enter?
    ensures Calm(r, s, m)
  {
  }

  /**
   A log that is in the database can be opened after any run: a load that nothing disturbs leaves a copy that
   counts as loaded, with the score of its contacts.
   */
  lemma OpenedIsScored(r: Rules, pts: string -> int, rule: Reading, fill: string -> string, s: State, log: int)
    returns (moves: seq<Move>)
    requires Inv(r, pts, rule, fill, s) && log in s.system.db.logs && log !in s.system.holders
    requires AllReadable(pts, rule) && !r.capped && R.FillsOnce(fill)
    ensures CanRun(r, rule, fill, s, moves)
    ensures var t := Run(r, rule, fill, s, moves);
            && t.system.db == s.system.db && R.IsLoaded(t.system, log) && UpToDate(r, pts, rule, t, log)
  {
    hide Follows, AllReadable, R.Inv, Loads, Drops, Changes;
    var enter := R.Enter(log, R.Load);
    var m := NeverInTheWay(r, pts, rule, fill, s, enter);
    EnteringIsCalm(r, s, m);
    MoveKeeps(r, pts, rule, fill, s, m);
    var t := Moved(r, rule, fill, s, m);
    var rest := LoadingMoves(r, pts, rule, fill, t, log, 8);
    moves := [m] + rest;
    assert moves[1..] == rest;
    RunKeeps(r, pts, rule, fill, t, rest);
    P.UndisturbedOperation(fill, s.system, log, R.Load);
    assert InvAt(r, pts, rule, fill, Run(r, rule, fill, t, rest), log);
  }
}

/**
 The derived copy of a log and the revision protocol that says when it may be trusted, while other
 writers change the database directly.
 */
module LogRevisions {
  import opened Sums

  /** The contacts of a log by id. */
  type Contents = map<int, string>

  datatype Stored = Stored(revision: nat, contacts: Contents)

  /** Revisions count up over all logs and never repeat. */
  datatype Database = Database(nextRevision: nat, logs: map<int, Stored>)

  datatype Op = Load | Upsert(contacts: seq<(int, string)>) | Delete(id: int) | Remove

  /** The database change of an operation: the revisions before and after it. */
  datatype Mutation = Mutation(previous: nat, revision: nat)

  /** How far the holder of the gate of a log has come. */
  datatype Phase =
    | Checking(op: Op)
    | Fetching(op: Op)
    | Installing(op: Op, snapshot: Stored)
    | Confirming(op: Op, snapshot: Stored)
    | Mutating(op: Op)
    | Comparing(op: Op, mutation: Mutation)
    | Comparing2(op: Op, mutation: Mutation)
    | Applying(op: Op, mutation: Mutation)

  /** `past` remembers which log had which contents at a revision. */
  datatype System = System(
    db: Database,
    past: map<nat, (int, Contents)>,
    cache: map<int, Stored>,
    holders: map<int, Phase>)

  const START := System(Database(0, map[]), map[], map[], map[])

  /** Values that are missing from a contact are filled in; `fill` does so for one contact. */
  function Filled(fill: string -> string, contacts: Contents): Contents {
    map id | id in contacts :: fill(contacts[id])
  }

  ghost predicate FillsOnce(fill: string -> string) {
    forall c :: fill(fill(c)) == fill(c)
  }

  function Merged(contacts: Contents, batch: seq<(int, string)>): Contents {
    if batch == [] then contacts
    else Merged(contacts, batch[..|batch| - 1])[batch[|batch| - 1].0 := batch[|batch| - 1].1]
  }

  function FilledBatch(fill: string -> string, batch: seq<(int, string)>): seq<(int, string)> {
    seq(|batch|, i requires 0 <= i < |batch| => (batch[i].0, fill(batch[i].1)))
  }

  /** What an operation makes of the contents, once its contacts are filled. */
  function Changed(fill: string -> string, op: Op, contacts: Contents): Contents {
    match op
    case Upsert(batch) => Merged(contacts, FilledBatch(fill, batch))
    case Delete(id) => contacts - {id}
    case _ => contacts
  }

  /** The database stores new contents of a log under a new revision. */
  function Commit(s: System, log: int, contacts: Contents): System {
    var revision := s.db.nextRevision + 1;
    s.(db := Database(revision, s.db.logs[log := Stored(revision, contacts)]),
       past := s.past[revision := (log, contacts)])
  }

  datatype Action =
    | Write(log: int, contacts: Contents)
    | Drop(log: int)
    | Enter(log: int, op: Op)
    | Step(log: int)
    | Abandon(log: int)

  predicate CanAct(s: System, a: Action) {
    match a
    case Write(_, _) => true
    case Drop(_) => true
    case Enter(log, _) => log !in s.holders
    case Step(log) => log in s.holders
    case Abandon(log) => log in s.holders
  }

  predicate IsLoaded(s: System, log: int) {
    log in s.cache && log in s.db.logs && s.cache[log].revision == s.db.logs[log].revision
  }

  function AtPhase(s: System, log: int, p: Phase): System {
    s.(holders := s.holders[log := p])
  }

  function Finished(s: System, log: int): System {
    s.(holders := s.holders - {log})
  }

  /** Once loaded, a load is finished, and the other operations change the database. */
  function AfterLoading(s: System, log: int, op: Op): System {
    if op.Load? then Finished(s, log) else AtPhase(s, log, Mutating(op))
  }

  predicate Unmoved(s: System, log: int, revision: nat) {
    log in s.db.logs && s.db.logs[log].revision == revision
  }

  /** One step of the holder of the gate of a log. */
  function Progress(fill: string -> string, s: System, log: int): System
    requires log in s.holders
  {
    match s.holders[log]
    case Checking(op) =>
      if op.Remove? then Finished(s.(cache := s.cache - {log}), log)
      else if IsLoaded(s, log) then AfterLoading(s, log, op)
      else AtPhase(s, log, Fetching(op))
    case Fetching(op) =>
      if log in s.db.logs then AtPhase(s, log, Installing(op, s.db.logs[log]))
      else Finished(s.(cache := s.cache - {log}), log)
    case Installing(op, snapshot) =>
      if Unmoved(s, log, snapshot.revision) then AtPhase(s, log, Confirming(op, snapshot))
      else AtPhase(s, log, Fetching(op))
    case Confirming(op, snapshot) =>
      if Unmoved(s, log, snapshot.revision) then
        AfterLoading(s.(cache := s.cache[log := Stored(snapshot.revision, Filled(fill, snapshot.contacts))]), log, op)
      else AtPhase(s.(cache := s.cache - {log}), log, Fetching(op))
    case Mutating(op) =>
      if log !in s.db.logs || (op.Delete? && op.id !in s.db.logs[log].contacts) then Finished(s, log) else
        AtPhase(Commit(s, log, Changed(fill, op, s.db.logs[log].contacts)), log,
                Comparing(op, Mutation(s.db.logs[log].revision, s.db.nextRevision + 1)))
    case Comparing(op, m) =>
      if log in s.cache && s.cache[log].revision == m.previous then AtPhase(s, log, Comparing2(op, m))
      else AtPhase(s, log, Checking(Load))
    case Comparing2(op, m) =>
      if Unmoved(s, log, m.revision) then AtPhase(s, log, Applying(op, m))
      else AtPhase(s, log, Checking(Load))
    case Applying(op, m) =>
      if log !in s.cache || (op.Delete? && op.id !in s.cache[log].contacts) then Finished(s, log) else
        Finished(s.(cache := s.cache[log := Stored(m.revision, Changed(fill, op, s.cache[log].contacts))]), log)
  }

  function Act(fill: string -> string, s: System, a: Action): System
    requires CanAct(s, a)
  {
    match a
    case Write(log, contacts) => Commit(s, log, contacts)
    case Drop(log) => s.(db := s.db.(logs := s.db.logs - {log}))
    case Enter(log, op) => AtPhase(s, log, Checking(op))
    case Step(log) => Progress(fill, s, log)
    case Abandon(log) => Finished(s, log)
  }

  // ----- the invariant -----

  /** These are the contents that the log had at this revision. */
  predicate Was(s: System, log: int, revision: nat, contacts: Contents) {
    revision in s.past && s.past[revision] == (log, contacts)
  }

  ghost predicate DatabaseOk(s: System) {
    && (forall r :: r in s.past ==> r <= s.db.nextRevision)
    && forall l :: l in s.db.logs ==> Was(s, l, s.db.logs[l].revision, s.db.logs[l].contacts)
  }

  /** The cached contacts are the filled contents of the cached revision. */
  ghost predicate CachedOk(fill: string -> string, s: System, log: int)
    requires log in s.cache
  {
    && s.cache[log].revision in s.past
    && s.past[s.cache[log].revision].0 == log
    && s.cache[log].contacts == Filled(fill, s.past[s.cache[log].revision].1)
  }

  ghost predicate MutationOk(fill: string -> string, s: System, log: int, op: Op, m: Mutation) {
    && (op.Upsert? || op.Delete?)
    && m.previous in s.past && s.past[m.previous].0 == log
    && (op.Delete? ==> op.id in s.past[m.previous].1)
    && Was(s, log, m.revision, Changed(fill, op, s.past[m.previous].1))
  }

  ghost predicate PhaseOk(fill: string -> string, s: System, log: int)
    requires log in s.holders
  {
    match s.holders[log]
    case Installing(op, snapshot) => !op.Remove? && Was(s, log, snapshot.revision, snapshot.contacts)
    case Confirming(op, snapshot) => !op.Remove? && Was(s, log, snapshot.revision, snapshot.contacts)
    case Mutating(op) => op.Upsert? || op.Delete?
    case Comparing(op, m) => MutationOk(fill, s, log, op, m)
    case Comparing2(op, m) => MutationOk(fill, s, log, op, m) && log in s.cache && s.cache[log].revision == m.previous
    case Applying(op, m) => MutationOk(fill, s, log, op, m) && log in s.cache && s.cache[log].revision == m.previous
    case Checking(_) => true
    case Fetching(op) => !op.Remove?
  }

  ghost predicate Inv(fill: string -> string, s: System) {
    && DatabaseOk(s)
    && (forall l :: l in s.cache ==> CachedOk(fill, s, l))
    && (forall l :: l in s.holders ==> PhaseOk(fill, s, l))
  }

  // ----- filling in -----

  lemma FilledBatchJoin(fill: string -> string, batch: seq<(int, string)>)
    requires batch != []
    ensures FilledBatch(fill, batch)[..|batch| - 1] == FilledBatch(fill, batch[..|batch| - 1])
  {
  }

  lemma {:induction false} FilledMerge(fill: string -> string, contacts: Contents, batch: seq<(int, string)>)
    requires FillsOnce(fill)
    ensures Filled(fill, Merged(contacts, FilledBatch(fill, batch))) == Merged(Filled(fill, contacts), FilledBatch(fill, batch))
    decreases |batch|
  {
    if batch == [] {
      assert FilledBatch(fill, batch) == [];
    } else {
      FilledBatchJoin(fill, batch);
      FilledMerge(fill, contacts, batch[..|batch| - 1]);
      var all := FilledBatch(fill, batch);
      var before := Merged(contacts, all[..|all| - 1]);
      var (id, c) := all[|all| - 1];
      assert c == fill(batch[|batch| - 1].1) && fill(fill(batch[|batch| - 1].1)) == c;
      assert Filled(fill, before[id := c]) == Filled(fill, before)[id := c];
    }
  }

  /** Filling in the changed contents is changing the filled contents. */
  lemma FilledChange(fill: string -> string, op: Op, contacts: Contents)
    requires FillsOnce(fill)
    ensures Filled(fill, Changed(fill, op, contacts)) == Changed(fill, op, Filled(fill, contacts))
  {
    match op
    case Upsert(batch) => FilledMerge(fill, contacts, batch);
    case _ =>
  }

  // ----- every step keeps the invariant -----

  lemma CommitKeeps(fill: string -> string, s: System, log: int, contacts: Contents)
    requires Inv(fill, s)
    ensures Inv(fill, Commit(s, log, contacts))
    ensures forall r :: r in s.past ==> r in Commit(s, log, contacts).past && Commit(s, log, contacts).past[r] == s.past[r]
  {
    hide Filled, Changed;
    var t := Commit(s, log, contacts);
    assert s.db.nextRevision + 1 !in s.past;
    forall l | l in t.holders ensures PhaseOk(fill, t, l) {
      assert PhaseOk(fill, s, l);
    }
    forall l | l in t.cache ensures CachedOk(fill, t, l) {
      assert CachedOk(fill, s, l);
    }
  }

  /** A change to one log's phase and cached copy leaves the other logs alone. */
  lemma LocalKeeps(fill: string -> string, s: System, t: System, log: int)
    requires Inv(fill, s) && t.db == s.db && t.past == s.past
    requires forall l :: l != log ==> (l in t.cache <==> l in s.cache) && (l in t.holders <==> l in s.holders)
    requires forall l :: l != log && l in s.cache ==> t.cache[l] == s.cache[l]
    requires forall l :: l != log && l in s.holders ==> t.holders[l] == s.holders[l]
    requires log in t.cache ==> CachedOk(fill, t, log)
    requires log in t.holders ==> PhaseOk(fill, t, log)
    ensures Inv(fill, t)
  {
    hide Filled, Changed;
    forall l | l in t.holders ensures PhaseOk(fill, t, l) {
      if l != log { assert PhaseOk(fill, s, l); }
    }
    forall l | l in t.cache ensures CachedOk(fill, t, l) {
      if l != log { assert CachedOk(fill, s, l); }
    }
  }

  lemma MutatingKeeps(fill: string -> string, s: System, log: int)
    requires Inv(fill, s) && log in s.holders && s.holders[log].Mutating?
    ensures Inv(fill, Progress(fill, s, log))
  {
    hide Filled, Changed;
    var op := s.holders[log].op;
    assert PhaseOk(fill, s, log);
    if log !in s.db.logs || (op.Delete? && op.id !in s.db.logs[log].contacts) {
      LocalKeeps(fill, s, Finished(s, log), log);
    } else {
      var next := Changed(fill, op, s.db.logs[log].contacts);
      var t := Commit(s, log, next);
      CommitKeeps(fill, s, log, next);
      assert Was(s, log, s.db.logs[log].revision, s.db.logs[log].contacts);
      var m := Mutation(s.db.logs[log].revision, s.db.nextRevision + 1);
      assert MutationOk(fill, t, log, op, m);
      LocalKeeps(fill, t, AtPhase(t, log, Comparing(op, m)), log);
    }
  }

  lemma ApplyingKeeps(fill: string -> string, s: System, log: int)
    requires Inv(fill, s) && FillsOnce(fill) && log in s.holders && s.holders[log].Applying?
    ensures Inv(fill, Progress(fill, s, log))
  {
    var op, m := s.holders[log].op, s.holders[log].mutation;
    assert PhaseOk(fill, s, log) && CachedOk(fill, s, log);
    FilledChange(fill, op, s.past[m.previous].1);
    hide Filled, Changed;
    LocalKeeps(fill, s, Progress(fill, s, log), log);
  }

  lemma ProgressKeeps(fill: string -> string, s: System, log: int)
    requires Inv(fill, s) && FillsOnce(fill) && log in s.holders
    ensures Inv(fill, Progress(fill, s, log))
  {
    hide Filled, Changed;
    match s.holders[log]
    case Mutating(_) => MutatingKeeps(fill, s, log);
    case Applying(_, _) => ApplyingKeeps(fill, s, log);
    case _ =>
      assert PhaseOk(fill, s, log);
      assert log in s.cache ==> CachedOk(fill, s, log);
      LocalKeeps(fill, s, Progress(fill, s, log), log);
  }

  lemma ActKeeps(fill: string -> string, s: System, a: Action)
    requires Inv(fill, s) && FillsOnce(fill) && CanAct(s, a)
    ensures Inv(fill, Act(fill, s, a))
  {
    match a
    case Write(log, contacts) => CommitKeeps(fill, s, log, contacts);
    case Drop(log) => DropKeeps(fill, s, log);
    case Enter(log, op) =>
      assert log in s.cache ==> CachedOk(fill, s, log);
      LocalKeeps(fill, s, Act(fill, s, a), log);
    case Step(log) => ProgressKeeps(fill, s, log);
    case Abandon(log) =>
      assert log in s.cache ==> CachedOk(fill, s, log);
      LocalKeeps(fill, s, Act(fill, s, a), log);
  }

  lemma DropKeeps(fill: string -> string, s: System, log: int)
    requires Inv(fill, s)
    ensures Inv(fill, s.(db := s.db.(logs := s.db.logs - {log})))
  {
    hide Filled, Changed;
    var t := s.(db := s.db.(logs := s.db.logs - {log}));
    forall l | l in t.holders ensures PhaseOk(fill, t, l) {
      assert PhaseOk(fill, s, l);
    }
    forall l | l in t.cache ensures CachedOk(fill, t, l) {
      assert CachedOk(fill, s, l);
    }
  }

  ghost predicate CanRun(fill: string -> string, s: System, actions: seq<Action>)
    decreases |actions|
  {
    actions != [] ==> CanAct(s, actions[0]) && CanRun(fill, Act(fill, s, actions[0]), actions[1..])
  }

  function Run(fill: string -> string, s: System, actions: seq<Action>): System
    requires CanRun(fill, s, actions)
    decreases |actions|
  {
    if actions == [] then s else Run(fill, Act(fill, s, actions[0]), actions[1..])
  }

  lemma {:induction false} RunKeeps(fill: string -> string, s: System, actions: seq<Action>)
    requires Inv(fill, s) && FillsOnce(fill) && CanRun(fill, s, actions)
    ensures Inv(fill, Run(fill, s, actions))
    decreases |actions|
  {
    hide Inv, Act;
    if actions != [] {
      ActKeeps(fill, s, actions[0]);
      RunKeeps(fill, Act(fill, s, actions[0]), actions[1..]);
    }
  }

  /**
   Whatever loads, upserts, deletes, removals, cancellations and direct writes interleave, the cached
   contacts of a log are the filled contents of the revision it names, and so a copy that counts as loaded
   is never stale.
   */
  lemma NeverStale(fill: string -> string, actions: seq<Action>, log: int)
    requires FillsOnce(fill) && CanRun(fill, START, actions)
    ensures var s := Run(fill, START, actions);
            && (log in s.cache ==> CachedOk(fill, s, log))
            && (IsLoaded(s, log) ==> s.cache[log].contacts == Filled(fill, s.db.logs[log].contacts))
  {
    RunKeeps(fill, START, actions);
    hide Run, CanRun, Filled, PhaseOk;
    var s := Run(fill, START, actions);
    if IsLoaded(s, log) {
      assert CachedOk(fill, s, log);
      assert Was(s, log, s.db.logs[log].revision, s.db.logs[log].contacts);
    }
  }
}

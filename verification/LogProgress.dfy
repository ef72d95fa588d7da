/** What the tasks of the log cache achieve: logs get loaded, and changes reach the database and the copy. */
module LogProgress {
  import opened Sums
  import opened LogRevisions

  // ----- what an operation asks for -----

  /** These are the contents after a change: the last contact of the batch with an id, or all but the deleted one. */
  ghost predicate IsChanged(fill: string -> string, op: Op, before: Contents, after: Contents) {
    match op
    case Upsert(batch) =>
      && after.Keys == before.Keys + (set i | 0 <= i < |batch| :: batch[i].0)
      && (forall i :: 0 <= i < |batch| && (forall j :: i < j < |batch| ==> batch[j].0 != batch[i].0) ==>
            after[batch[i].0] == fill(batch[i].1))
      && (forall id :: id in before && (forall i :: 0 <= i < |batch| ==> batch[i].0 != id) ==> after[id] == before[id])
    case Delete(gone) =>
      && after.Keys == before.Keys - {gone}
      && forall id :: id in after ==> after[id] == before[id]
    case _ => after == before
  }

  /** The same contacts, each filled in. */
  ghost predicate IsFilled(fill: string -> string, contacts: Contents, filled: Contents) {
    filled.Keys == contacts.Keys && forall id :: id in contacts ==> filled[id] == fill(contacts[id])
  }

  lemma FilledIs(fill: string -> string, contacts: Contents)
    ensures IsFilled(fill, contacts, Filled(fill, contacts))
  {
  }

  lemma {:induction false} MergedKeys(contacts: Contents, batch: seq<(int, string)>)
    ensures Merged(contacts, batch).Keys == contacts.Keys + (set i | 0 <= i < |batch| :: batch[i].0)
  {
    if batch != [] {
      var n := |batch| - 1;
      MergedKeys(contacts, batch[..n]);
      hide Merged;
      assert (set i | 0 <= i < |batch| :: batch[i].0) == (set i | 0 <= i < n :: batch[..n][i].0) + {batch[n].0};
    }
  }

  /** Of several changes to one contact the last counts. */
  lemma {:induction false} LastChangeWins(contacts: Contents, batch: seq<(int, string)>, i: nat)
    requires i < |batch| && forall j :: i < j < |batch| ==> batch[j].0 != batch[i].0
    ensures batch[i].0 in Merged(contacts, batch) && Merged(contacts, batch)[batch[i].0] == batch[i].1
    decreases |batch|
  {
    var n := |batch| - 1;
    if i < n {
      assert batch[n].0 != batch[i].0;
      LastChangeWins(contacts, batch[..n], i);
    }
  }

  lemma {:induction false} UnchangedStays(contacts: Contents, batch: seq<(int, string)>, id: int)
    requires id in contacts && forall i :: 0 <= i < |batch| ==> batch[i].0 != id
    ensures id in Merged(contacts, batch) && Merged(contacts, batch)[id] == contacts[id]
  {
    if batch != [] {
      assert batch[|batch| - 1].0 != id;
      UnchangedStays(contacts, batch[..|batch| - 1], id);
    }
  }

  lemma MergedIs(contacts: Contents, batch: seq<(int, string)>)
    ensures var after := Merged(contacts, batch);
            && after.Keys == contacts.Keys + (set i | 0 <= i < |batch| :: batch[i].0)
            && (forall i :: 0 <= i < |batch| && (forall j :: i < j < |batch| ==> batch[j].0 != batch[i].0) ==>
                  after[batch[i].0] == batch[i].1)
            && (forall id :: id in contacts && (forall i :: 0 <= i < |batch| ==> batch[i].0 != id) ==> after[id] == contacts[id])
  {
    hide Merged;
    MergedKeys(contacts, batch);
    var after := Merged(contacts, batch);
    forall i | 0 <= i < |batch| && (forall j :: i < j < |batch| ==> batch[j].0 != batch[i].0)
      ensures after[batch[i].0] == batch[i].1
    {
      LastChangeWins(contacts, batch, i);
    }
    forall id | id in contacts && (forall i :: 0 <= i < |batch| ==> batch[i].0 != id) ensures after[id] == contacts[id] {
      UnchangedStays(contacts, batch, id);
    }
  }

  lemma FilledBatchIs(fill: string -> string, contacts: Contents, batch: seq<(int, string)>)
    ensures IsChanged(fill, Upsert(batch), contacts, Merged(contacts, FilledBatch(fill, batch)))
  {
    hide Merged;
    var filled := FilledBatch(fill, batch);
    MergedIs(contacts, filled);
    assert forall i :: 0 <= i < |batch| ==> filled[i].0 == batch[i].0 && filled[i].1 == fill(batch[i].1);
    hide FilledBatch;
    var after := Merged(contacts, filled);
    assert (set i | 0 <= i < |filled| :: filled[i].0) == (set i | 0 <= i < |batch| :: batch[i].0);
    forall i | 0 <= i < |batch| && (forall j :: i < j < |batch| ==> batch[j].0 != batch[i].0)
      ensures after[batch[i].0] == fill(batch[i].1)
    {
      assert forall j :: i < j < |filled| ==> filled[j].0 != filled[i].0;
    }
  }

  lemma ChangedIs(fill: string -> string, op: Op, contacts: Contents)
    ensures IsChanged(fill, op, contacts, Changed(fill, op, contacts))
  {
    match op
    case Upsert(batch) =>
      hide IsChanged, Merged;
      FilledBatchIs(fill, contacts, batch);
    case _ =>
  }

  // ----- a holder left alone -----

  /** The holder of the gate of a log takes so many steps, or all it has, and nobody else takes any. */
  function Alone(fill: string -> string, s: System, log: int, steps: nat): System
    decreases steps
  {
    if steps == 0 || log !in s.holders then s else Alone(fill, Progress(fill, s, log), log, steps - 1)
  }

  lemma {:induction false} AloneOn(fill: string -> string, s: System, log: int, a: nat, b: nat)
    ensures Alone(fill, s, log, a + b) == Alone(fill, Alone(fill, s, log, a), log, b)
    decreases a
  {
    hide Progress;
    if a > 0 && log in s.holders {
      AloneOn(fill, Progress(fill, s, log), log, a - 1, b);
    } else if a > 0 {
      assert Alone(fill, s, log, b) == s;
    }
  }

  lemma {:induction false} AloneKeeps(fill: string -> string, s: System, log: int, n: nat)
    requires Inv(fill, s) && FillsOnce(fill)
    ensures Inv(fill, Alone(fill, s, log, n))
    decreases n
  {
    hide Inv, Progress;
    if n > 0 && log in s.holders {
      ProgressKeeps(fill, s, log);
      AloneKeeps(fill, Progress(fill, s, log), log, n - 1);
    }
  }

  /** A step concerns one log only. */
  ghost predicate OnlyLog(s: System, t: System, log: int) {
    && (forall l :: l != log ==> (l in t.cache <==> l in s.cache) && (l in t.db.logs <==> l in s.db.logs)
                                 && (l in t.holders <==> l in s.holders))
    && (forall l :: l != log && l in s.cache ==> t.cache[l] == s.cache[l])
    && (forall l :: l != log && l in s.db.logs ==> t.db.logs[l] == s.db.logs[l])
    && (forall l :: l != log && l in s.holders ==> t.holders[l] == s.holders[l])
  }

  lemma CommitIsLocal(s: System, log: int, contents: Contents)
    ensures OnlyLog(s, Commit(s, log, contents), log)
  {
  }

  lemma ProgressIsLocal(fill: string -> string, s: System, log: int)
    requires log in s.holders
    ensures OnlyLog(s, Progress(fill, s, log), log)
  {
    hide Changed, Filled, Commit;
    if s.holders[log].Mutating? && log in s.db.logs {
      CommitIsLocal(s, log, Changed(fill, s.holders[log].op, s.db.logs[log].contacts));
    }
  }

  lemma {:induction false} AloneIsLocal(fill: string -> string, s: System, log: int, n: nat)
    ensures OnlyLog(s, Alone(fill, s, log, n), log)
    decreases n
  {
    hide Progress;
    if log in s.holders { ProgressIsLocal(fill, s, log); }
    if n > 0 && log in s.holders {
      AloneIsLocal(fill, Progress(fill, s, log), log, n - 1);
    }
  }

  lemma FourSteps(fill: string -> string, s: System, log: int)
    requires log in s.holders
    ensures var s1 := Progress(fill, s, log);
            log in s1.holders ==>
              var s2 := Progress(fill, s1, log);
              log in s2.holders ==>
                var s3 := Progress(fill, s2, log);
                log in s3.holders ==> Alone(fill, s, log, 4) == Progress(fill, s3, log)
  {
    hide Progress;
  }

  /** The copy counts as loaded, and holds the contents of the database, filled in. */
  ghost predicate IsReady(fill: string -> string, s: System, log: int) {
    IsLoaded(s, log) && IsFilled(fill, s.db.logs[log].contacts, s.cache[log].contacts)
  }

  lemma LoadedIsReady(fill: string -> string, s: System, log: int)
    requires Inv(fill, s) && IsLoaded(s, log)
    ensures IsReady(fill, s, log)
  {
    hide PhaseOk, Filled;
    assert CachedOk(fill, s, log) && Was(s, log, s.db.logs[log].revision, s.db.logs[log].contacts);
    FilledIs(fill, s.db.logs[log].contacts);
  }

  /**
   A log that is in the database gets loaded: its holder, left alone, ends up with a copy that is ready, in four
   steps at most, and then is finished or about to make its change.
   */
  lemma GetsLoaded(fill: string -> string, s: System, log: int, op: Op) returns (n: nat)
    requires Inv(fill, s) && FillsOnce(fill)
    requires log in s.holders && s.holders[log] == Checking(op) && !op.Remove? && log in s.db.logs
    ensures 1 <= n <= 4
    ensures var t := Alone(fill, s, log, n);
            && t.db == s.db && t.past == s.past && IsReady(fill, t, log)
            && (if op.Load? then log !in t.holders else log in t.holders && t.holders[log] == Mutating(op))
  {
    hide Inv, Filled, Changed;
    n := if IsLoaded(s, log) then 1 else 4;
    if n == 4 {
      var s1 := Progress(fill, s, log);
      var s2 := Progress(fill, s1, log);
      var s3 := Progress(fill, s2, log);
      FourSteps(fill, s, log);
    } else {
      assert Alone(fill, s, log, 1) == Progress(fill, s, log);
    }
    AloneKeeps(fill, s, log, n);
    LoadedIsReady(fill, Alone(fill, s, log, n), log);
  }

  lemma ChangeStarts(fill: string -> string, s: System, log: int, op: Op)
    requires Inv(fill, s) && log in s.holders && s.holders[log] == Mutating(op) && IsLoaded(s, log)
    requires op.Delete? ==> op.id in s.db.logs[log].contacts
    ensures op.Delete? ==> op.id in s.cache[log].contacts
    ensures op.Upsert? || op.Delete?
  {
    hide Changed;
    assert PhaseOk(fill, s, log);
    assert CachedOk(fill, s, log) && Was(s, log, s.db.logs[log].revision, s.db.logs[log].contacts);
  }

  /** A change of a log whose copy counts as loaded is made in the database and in the copy. */
  lemma GetsChanged(fill: string -> string, s: System, log: int, op: Op)
    requires Inv(fill, s) && FillsOnce(fill)
    requires log in s.holders && s.holders[log] == Mutating(op) && IsLoaded(s, log)
    requires op.Delete? ==> op.id in s.db.logs[log].contacts
    ensures var t := Alone(fill, s, log, 4);
            && log !in t.holders && IsReady(fill, t, log)
            && IsChanged(fill, op, s.db.logs[log].contacts, t.db.logs[log].contacts)
  {
    hide Inv, Changed, Filled, IsChanged;
    ChangeStarts(fill, s, log, op);
    var s1 := Progress(fill, s, log);
    var s2 := Progress(fill, s1, log);
    var s3 := Progress(fill, s2, log);
    FourSteps(fill, s, log);
    AloneKeeps(fill, s, log, 4);
    LoadedIsReady(fill, Alone(fill, s, log, 4), log);
    ChangedIs(fill, op, s.db.logs[log].contacts);
  }

  /** What an operation comes to if nobody interferes. */
  ghost predicate Done(fill: string -> string, s: System, t: System, log: int, op: Op) {
    && log !in t.holders && OnlyLog(s, t, log)
    && if op.Remove? || log !in s.db.logs then log !in t.cache && t.db == s.db
       else if op.Load? || (op.Delete? && op.id !in s.db.logs[log].contacts) then IsReady(fill, t, log) && t.db == s.db
       else IsReady(fill, t, log) && IsChanged(fill, op, s.db.logs[log].contacts, t.db.logs[log].contacts)
  }

  lemma EndsAtOnce(fill: string -> string, s: System, log: int, op: Op)
    requires log in s.holders && s.holders[log] == Checking(op) && (op.Remove? || log !in s.db.logs)
    ensures var t := Alone(fill, s, log, 8);
            log !in t.holders && log !in t.cache && t.db == s.db
  {
    hide Filled, Changed;
    var s1 := Progress(fill, s, log);
    if op.Remove? {
      assert Alone(fill, s1, log, 7) == s1;
    } else {
      var s2 := Progress(fill, s1, log);
      assert Alone(fill, s, log, 8) == Alone(fill, s2, log, 6) == s2;
    }
  }

  lemma DeletesNothing(fill: string -> string, s: System, log: int, op: Op, n: nat)
    requires log in s.holders && s.holders[log] == Mutating(op) && op.Delete? && n > 0
    requires IsReady(fill, s, log) && op.id !in s.db.logs[log].contacts
    ensures var t := Alone(fill, s, log, n);
            log !in t.holders && IsReady(fill, t, log) && t.db == s.db
  {
    hide Filled, Changed, IsFilled;
    var t := Progress(fill, s, log);
    assert Alone(fill, s, log, n) == Alone(fill, t, log, n - 1) == t;
  }

  lemma FinishedStays(fill: string -> string, s: System, log: int, n: nat)
    requires log !in s.holders
    ensures Alone(fill, s, log, n) == s
  {
  }

  /**
   Every operation that nothing disturbs does what it is for, whether or not the log was loaded before, in eight
   steps at most: a load leaves a copy that is ready, an upsert or delete changes the database and leaves a copy
   of the changed contents, a removal leaves none. Only if the log or the contact is not in the database nothing
   is changed.
   */
  lemma UndisturbedChange(fill: string -> string, s: System, log: int, op: Op)
    requires Inv(fill, s) && FillsOnce(fill) && log in s.holders && s.holders[log] == Checking(op)
    ensures Done(fill, s, Alone(fill, s, log, 8), log, op)
  {
    hide Inv, IsReady, IsChanged, OnlyLog, Alone, Progress;
    AloneIsLocal(fill, s, log, 8);
    if op.Remove? || log !in s.db.logs {
      EndsAtOnce(fill, s, log, op);
    } else {
      var n := GetsLoaded(fill, s, log, op);
      var t := Alone(fill, s, log, n);
      AloneKeeps(fill, s, log, n);
      AloneOn(fill, s, log, n, 8 - n);
      if op.Load? {
        FinishedStays(fill, t, log, 8 - n);
      } else if op.Delete? && op.id !in s.db.logs[log].contacts {
        DeletesNothing(fill, t, log, op, 8 - n);
      } else {
        ReadyIsLoaded(fill, t, log);
        GetsChanged(fill, t, log, op);
        AloneOn(fill, t, log, 4, 4 - n);
        FinishedStays(fill, Alone(fill, t, log, 4), log, 4 - n);
      }
    }
  }

  lemma OnlyPhase(s: System, t: System, u: System, log: int)
    requires t.db == s.db && t.cache == s.cache && t.holders - {log} == s.holders - {log} && OnlyLog(t, u, log)
    ensures OnlyLog(s, u, log)
  {
    forall l | l != log ensures (l in t.holders <==> l in s.holders) && (l in s.holders ==> t.holders[l] == s.holders[l]) {
      assert l in t.holders - {log} <==> l in s.holders - {log};
      if l in s.holders { assert (t.holders - {log})[l] == (s.holders - {log})[l]; }
    }
  }

  /**
   The same from the moment a task enters, which it can whenever nobody works on its log: tasks that work on
   others are not in its way.
   */
  lemma UndisturbedOperation(fill: string -> string, s: System, log: int, op: Op)
    requires Inv(fill, s) && FillsOnce(fill) && log !in s.holders
    ensures CanAct(s, Enter(log, op)) && Done(fill, s, Alone(fill, Act(fill, s, Enter(log, op)), log, 8), log, op)
  {
    hide Inv, IsReady, IsChanged, Alone, OnlyLog, Progress;
    ActKeeps(fill, s, Enter(log, op));
    var t := Act(fill, s, Enter(log, op));
    UndisturbedChange(fill, t, log, op);
    OnlyPhase(s, t, Alone(fill, t, log, 8), log);
  }

  /** A task can be cancelled at any point. The next one finds the database as it was, and does what it is for. */
  lemma AfterCancelling(fill: string -> string, s: System, log: int, op: Op)
    requires Inv(fill, s) && FillsOnce(fill) && log in s.holders
    ensures CanAct(s, Abandon(log))
    ensures var t := Act(fill, s, Abandon(log));
            && t.db == s.db && t.cache == s.cache && CanAct(t, Enter(log, op))
            && Done(fill, s, Alone(fill, Act(fill, t, Enter(log, op)), log, 8), log, op)
  {
    hide Inv, IsReady, IsChanged, Alone, OnlyLog, Progress;
    ActKeeps(fill, s, Abandon(log));
    var t := Act(fill, s, Abandon(log));
    UndisturbedOperation(fill, t, log, op);
    OnlyPhase(s, t, Alone(fill, Act(fill, t, Enter(log, op)), log, 8), log);
  }

  /** Once a log was dropped from the database, the next load finds that out and forgets the copy. */
  lemma AfterDropping(fill: string -> string, s: System, log: int)
    requires Inv(fill, s) && FillsOnce(fill) && log !in s.holders
    ensures CanAct(s, Drop(log))
    ensures var t := Act(fill, s, Drop(log));
            log !in t.db.logs && log !in Alone(fill, Act(fill, t, Enter(log, Load)), log, 8).cache
  {
    ActKeeps(fill, s, Drop(log));
    hide Inv, IsReady, IsChanged, Alone;
    UndisturbedOperation(fill, Act(fill, s, Drop(log)), log, Load);
  }

  lemma ReadyIsLoaded(fill: string -> string, s: System, log: int)
    requires IsReady(fill, s, log)
    ensures IsLoaded(s, log)
  {
  }

  // ----- a holder that was disturbed -----

  /** The phases from which a task, left alone, may end without a copy that is ready. */
  predicate TooLate(s: System, log: int)
    requires log in s.holders
  {
    match s.holders[log]
    case Applying(_, m) => !Unmoved(s, log, m.revision)
    case Mutating(op) => op.Delete? && log in s.db.logs && op.id !in s.db.logs[log].contacts && !IsLoaded(s, log)
    case _ => false
  }

  predicate AtFetching(s: System, log: int) {
    log in s.holders && s.holders[log].Fetching? && log in s.db.logs
  }

  lemma FetchingLoads(fill: string -> string, s: System, log: int)
    requires Inv(fill, s) && FillsOnce(fill) && AtFetching(s, log)
    ensures var t, op := Alone(fill, s, log, 3), s.holders[log].op;
            && Inv(fill, t) && t.db == s.db && IsReady(fill, t, log)
            && (if op.Load? then log !in t.holders else log in t.holders && t.holders[log] == Mutating(op))
  {
    hide Inv, Filled, Changed;
    var s1 := Progress(fill, s, log);
    var s2 := Progress(fill, s1, log);
    assert Alone(fill, s, log, 3) == Progress(fill, s2, log);
    AloneKeeps(fill, s, log, 3);
    LoadedIsReady(fill, Alone(fill, s, log, 3), log);
  }

  /** With the log loaded, its holder ends in four more steps. */
  lemma MutatingEnds(fill: string -> string, s: System, log: int, n: nat)
    requires Inv(fill, s) && FillsOnce(fill) && log in s.holders && s.holders[log].Mutating? && IsReady(fill, s, log) && n >= 4
    ensures var t := Alone(fill, s, log, n);
            log !in t.holders && IsReady(fill, t, log)
  {
    hide Inv, IsReady, Alone, Progress;
    var op := s.holders[log].op;
    ReadyIsLoaded(fill, s, log);
    if op.Delete? && op.id !in s.db.logs[log].contacts {
      DeletesNothing(fill, s, log, op, n);
    } else {
      GetsChanged(fill, s, log, op);
      AloneOn(fill, s, log, 4, n - 4);
      FinishedStays(fill, Alone(fill, s, log, 4), log, n - 4);
    }
  }

  lemma FetchingEnds(fill: string -> string, s: System, log: int, n: nat)
    requires Inv(fill, s) && FillsOnce(fill) && AtFetching(s, log) && n >= 7
    ensures var t := Alone(fill, s, log, n);
            log !in t.holders && IsReady(fill, t, log)
  {
    hide Inv, IsReady, Alone, Progress;
    FetchingLoads(fill, s, log);
    var t := Alone(fill, s, log, 3);
    AloneOn(fill, s, log, 3, n - 3);
    if s.holders[log].op.Load? {
      FinishedStays(fill, t, log, n - 3);
    } else {
      MutatingEnds(fill, t, log, n - 3);
    }
  }

  lemma CheckingLoads(fill: string -> string, s: System, log: int, n: nat)
    requires Inv(fill, s) && FillsOnce(fill) && log in s.holders && s.holders[log] == Checking(Load) && log in s.db.logs && n >= 4
    ensures var t := Alone(fill, s, log, n);
            log !in t.holders && IsReady(fill, t, log)
  {
    hide Inv, IsReady, Alone, Progress;
    var k := GetsLoaded(fill, s, log, Load);
    AloneOn(fill, s, log, k, n - k);
    FinishedStays(fill, Alone(fill, s, log, k), log, n - k);
  }

  lemma FirstStep(fill: string -> string, s: System, log: int, n: nat)
    requires Inv(fill, s) && FillsOnce(fill) && log in s.holders && n > 0
    ensures Alone(fill, s, log, n) == Alone(fill, Progress(fill, s, log), log, n - 1)
    ensures Inv(fill, Progress(fill, s, log))
  {
    hide Inv, Progress;
    ProgressKeeps(fill, s, log);
  }

  lemma BuildingEnds(fill: string -> string, s: System, log: int)
    requires Inv(fill, s) && FillsOnce(fill) && log in s.holders && log in s.db.logs
    requires s.holders[log].Installing? || s.holders[log].Confirming?
    ensures var t := Alone(fill, s, log, 8);
            log !in t.holders && IsReady(fill, t, log)
  {
    hide Inv, IsReady, Alone, Filled, Changed;
    var p := s.holders[log];
    FirstStep(fill, s, log, 8);
    var t := Progress(fill, s, log);
    if !Unmoved(s, log, p.snapshot.revision) {
      FetchingEnds(fill, t, log, 7);
    } else {
      var u, n := t, 7;
      if p.Installing? {
        FirstStep(fill, t, log, 7);
        u, n := Progress(fill, t, log), 6;
      }
      LoadedIsReady(fill, u, log);
      if p.op.Load? { FinishedStays(fill, u, log, n); } else { MutatingEnds(fill, u, log, n); }
    }
  }

  lemma ComparingEnds(fill: string -> string, s: System, log: int, n: nat)
    requires Inv(fill, s) && FillsOnce(fill) && log in s.holders && log in s.db.logs && n >= 6
    requires s.holders[log].Comparing?
    ensures var t := Alone(fill, s, log, n);
            log !in t.holders && IsReady(fill, t, log)
  {
    hide Inv, IsReady, Alone, Filled, Changed;
    FirstStep(fill, s, log, n);
    var t := Progress(fill, s, log);
    if t.holders[log].Checking? {
      CheckingLoads(fill, t, log, n - 1);
    } else {
      Comparing2Ends(fill, t, log, n - 1);
    }
  }

  lemma Comparing2Ends(fill: string -> string, s: System, log: int, n: nat)
    requires Inv(fill, s) && FillsOnce(fill) && log in s.holders && log in s.db.logs && n >= 5
    requires s.holders[log].Comparing2?
    ensures var t := Alone(fill, s, log, n);
            log !in t.holders && IsReady(fill, t, log)
  {
    hide Inv, IsReady, Alone, Filled, Changed;
    FirstStep(fill, s, log, n);
    var t := Progress(fill, s, log);
    if t.holders[log].Checking? {
      CheckingLoads(fill, t, log, n - 1);
    } else {
      ApplyingEnds(fill, t, log, n - 1);
    }
  }

  lemma ApplyingEnds(fill: string -> string, s: System, log: int, n: nat)
    requires Inv(fill, s) && FillsOnce(fill) && log in s.holders && log in s.db.logs && s.holders[log].Applying? && n > 0
    ensures var t := Alone(fill, s, log, n);
            log !in t.holders && (IsReady(fill, t, log) <==> Unmoved(s, log, s.holders[log].mutation.revision))
  {
    hide Inv, Alone, Filled, Changed, IsFilled;
    FirstStep(fill, s, log, n);
    AppliesToCopy(fill, s, log);
    var t := Progress(fill, s, log);
    FinishedStays(fill, t, log, n - 1);
    if IsLoaded(t, log) { LoadedIsReady(fill, t, log); }
  }

  lemma DisturbedMutatingEnds(fill: string -> string, s: System, log: int)
    requires Inv(fill, s) && FillsOnce(fill) && log in s.holders && log in s.db.logs && s.holders[log].Mutating?
    ensures var t := Alone(fill, s, log, 8);
            log !in t.holders && (IsReady(fill, t, log) <==> !TooLate(s, log))
  {
    hide Inv, Alone, Filled, Changed, IsFilled;
    if IsLoaded(s, log) {
      LoadedIsReady(fill, s, log);
      MutatingEnds(fill, s, log, 8);
    } else {
      FirstStep(fill, s, log, 8);
      var t := Progress(fill, s, log);
      if log in t.holders { ComparingEnds(fill, t, log, 7); } else { FinishedStays(fill, t, log, 7); }
    }
  }

  /**
   Whatever happened before, and however far a load, upsert or delete has come: left alone it ends in eight steps
   at most, and with a copy that is ready, unless it was too late for that. It is too late exactly if the database
   has moved on between the last comparison of revisions and the change of the copy, or before a contact is deleted
   that is not there.
   */
  lemma LeftAlone(fill: string -> string, s: System, log: int)
    requires Inv(fill, s) && FillsOnce(fill) && log in s.holders && log in s.db.logs && !s.holders[log].op.Remove?
    ensures var t := Alone(fill, s, log, 8);
            log !in t.holders && (IsReady(fill, t, log) <==> !TooLate(s, log))
  {
    hide Inv, IsReady, Alone, IsChanged, OnlyLog, Progress;
    match s.holders[log]
    case Checking(op) => UndisturbedChange(fill, s, log, op);
    case Fetching(_) => FetchingEnds(fill, s, log, 8);
    case Installing(_, _) => BuildingEnds(fill, s, log);
    case Confirming(_, _) => BuildingEnds(fill, s, log);
    case Mutating(_) => DisturbedMutatingEnds(fill, s, log);
    case Comparing(_, _) => ComparingEnds(fill, s, log, 8);
    case Comparing2(_, _) => Comparing2Ends(fill, s, log, 8);
    case Applying(_, _) => ApplyingEnds(fill, s, log, 8);
  }

  // ----- in every interleaving -----

  /** The operation makes its change of the database in this step. */
  ghost predicate Makes(fill: string -> string, s: System, t: System, log: int, op: Op) {
    && log in s.db.logs && log in t.db.logs
    && IsChanged(fill, op, s.db.logs[log].contacts, t.db.logs[log].contacts)
    && t.db.logs[log].revision > s.db.nextRevision
  }

  /** There is nothing in the database that the operation could change. */
  predicate Missing(s: System, log: int, op: Op) {
    log !in s.db.logs || (op.Delete? && op.id !in s.db.logs[log].contacts)
  }

  /** The holder has yet to make the change of its operation. */
  predicate Owes(p: Phase, op: Op) {
    (op.Upsert? || op.Delete?) && p.op == op && (p.Checking? || p.Fetching? || p.Installing? || p.Confirming? || p.Mutating?)
  }

  lemma OwesUntilMade(fill: string -> string, s: System, log: int, op: Op)
    requires log in s.holders && Owes(s.holders[log], op)
    ensures var t := Progress(fill, s, log);
            || (log in t.holders && Owes(t.holders[log], op))
            || Makes(fill, s, t, log, op)
            || (log !in t.holders && Missing(s, log, op))
  {
    hide Changed, Filled, IsChanged;
    if log in s.db.logs { ChangedIs(fill, op, s.db.logs[log].contacts); }
  }

  /** At some step of its holder the operation makes its change, or finds nothing to change. */
  ghost predicate SettledIn(fill: string -> string, s: System, actions: seq<Action>, log: int, op: Op)
    requires CanRun(fill, s, actions)
    decreases |actions|
  {
    actions != [] &&
      var t := Act(fill, s, actions[0]);
      || (actions[0] == Step(log) && (Makes(fill, s, t, log, op) || Missing(s, log, op)))
      || SettledIn(fill, t, actions[1..], log, op)
  }

  /**
   No change is lost. Whatever other tasks and direct writers do meanwhile: an upsert or delete that was not
   cancelled and is no longer under way has changed the database as asked, or has found that the log, or the
   contact to be deleted, was not there.
   */
  lemma {:induction false} NothingIsLost(fill: string -> string, s: System, actions: seq<Action>, log: int, op: Op)
    requires CanRun(fill, s, actions) && log in s.holders && Owes(s.holders[log], op)
    requires forall i :: 0 <= i < |actions| ==> actions[i] != Abandon(log)
    ensures var t := Run(fill, s, actions);
            (log in t.holders && Owes(t.holders[log], op)) || SettledIn(fill, s, actions, log, op)
    decreases |actions|
  {
    hide Progress, Makes, Commit;
    if actions != [] {
      var a := actions[0];
      var t := Act(fill, s, a);
      if a == Step(log) {
        OwesUntilMade(fill, s, log, op);
      } else {
        OthersLeave(fill, s, a, log);
      }
      if log in t.holders && Owes(t.holders[log], op) {
        NothingIsLost(fill, t, actions[1..], log, op);
      }
    }
  }

  lemma OthersLeave(fill: string -> string, s: System, a: Action, log: int)
    requires CanAct(s, a) && log in s.holders && a != Step(log) && a != Abandon(log)
    ensures var t := Act(fill, s, a);
            log in t.holders && t.holders[log] == s.holders[log]
  {
    hide Progress;
    if a.Step? { ProgressIsLocal(fill, s, a.log); }
  }

  /**
   How a task ends by itself: after a removal there is no copy; a load leaves a copy that is ready; a change leaves
   the copy of the revision it made; otherwise the log or the contact was not in the database, and then nothing
   was written.
   */
  lemma HowItEnds(fill: string -> string, s: System, log: int)
    requires Inv(fill, s) && FillsOnce(fill) && log in s.holders && log !in Progress(fill, s, log).holders
    ensures var t, p := Progress(fill, s, log), s.holders[log];
            && t.db == s.db
            && (|| (p.op.Remove? && log !in t.cache)
                || (p.op.Load? && IsReady(fill, t, log))
                || Missing(s, log, p.op)
                || (p.Applying? && log in t.cache && t.cache[log].revision == p.mutation.revision && CachedOk(fill, t, log)))
  {
    hide Filled, Changed;
    var t, p := Progress(fill, s, log), s.holders[log];
    ProgressKeeps(fill, s, log);
    assert PhaseOk(fill, s, log) && (log in s.cache ==> CachedOk(fill, s, log));
    assert log in t.cache ==> CachedOk(fill, t, log);
    if p.op.Load? && IsLoaded(t, log) { LoadedIsReady(fill, t, log); }
    if p.Applying? { AppliesToCopy(fill, s, log); }
  }

  lemma AppliesToCopy(fill: string -> string, s: System, log: int)
    requires Inv(fill, s) && log in s.holders && s.holders[log].Applying?
    ensures var p := s.holders[log];
            log in s.cache && (p.op.Delete? ==> p.op.id in s.cache[log].contacts)
  {
    hide Changed;
    assert PhaseOk(fill, s, log) && CachedOk(fill, s, log);
  }
}

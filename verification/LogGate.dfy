/**
 The gates that let one task at a time work on a log. The table holds them weakly: a gate lives as long
 as some task refers to it, and dead entries are collected when the next task arrives.
 */
module LogGate {
  import opened Sums

  /** A task between asking for a gate and letting go of it. */
  datatype Task =
    | Collecting(log: int)
    | Looking(log: int)
    | Waiting(log: int, gate: nat)
    | Inside(log: int, gate: nat)

  /** Gates are numbered as they are made; at most one task holds the table. */
  datatype Gates = Gates(table: map<int, nat>, made: nat, tasks: map<nat, Task>)

  const NO_GATES := Gates(map[], 0, map[])

  datatype Action =
    | Arrive(task: nat, log: int)
    | Collect(task: nat)
    | LookUp(task: nat)
    | Enter(task: nat)
    | Leave(task: nat)

  predicate HoldsGate(t: Task) {
    t.Waiting? || t.Inside?
  }

  /** Some task keeps the gate alive. */
  predicate Alive(s: Gates, gate: nat) {
    exists t :: t in s.tasks && HoldsGate(s.tasks[t]) && s.tasks[t].gate == gate
  }

  predicate TableFree(s: Gates) {
    forall t :: t in s.tasks ==> HoldsGate(s.tasks[t])
  }

  predicate CanAct(s: Gates, a: Action) {
    match a
    case Arrive(t, _) => t !in s.tasks && TableFree(s)
    case Collect(t) => t in s.tasks && s.tasks[t].Collecting?
    case LookUp(t) => t in s.tasks && s.tasks[t].Looking?
    case Enter(t) =>
      && t in s.tasks && s.tasks[t].Waiting?
      && forall u :: u in s.tasks && s.tasks[u].Inside? ==> s.tasks[u].gate != s.tasks[t].gate
    case Leave(t) => t in s.tasks && HoldsGate(s.tasks[t])
  }

  /** Leaving may be the end of the work or the cancellation of a task that still waits. */
  function Act(s: Gates, a: Action): Gates
    requires CanAct(s, a)
  {
    match a
    case Arrive(t, log) => s.(tasks := s.tasks[t := Collecting(log)])
    case Collect(t) =>
      s.(table := map l | l in s.table && Alive(s, s.table[l]) :: s.table[l],
         tasks := s.tasks[t := Looking(s.tasks[t].log)])
    case LookUp(t) =>
      var log := s.tasks[t].log;
      if log in s.table && Alive(s, s.table[log]) then
        s.(tasks := s.tasks[t := Waiting(log, s.table[log])])
      else
        Gates(s.table[log := s.made], s.made + 1, s.tasks[t := Waiting(log, s.made)])
    case Enter(t) => s.(tasks := s.tasks[t := Inside(s.tasks[t].log, s.tasks[t].gate)])
    case Leave(t) => s.(tasks := s.tasks - {t})
  }

  ghost predicate Inv(s: Gates) {
    && (forall l :: l in s.table ==> s.table[l] < s.made)
    && (forall l, m :: l in s.table && m in s.table && s.table[l] == s.table[m] ==> l == m)
    && (forall t :: t in s.tasks && HoldsGate(s.tasks[t]) ==>
          s.tasks[t].log in s.table && s.table[s.tasks[t].log] == s.tasks[t].gate)
    && (forall t, u :: (t in s.tasks && u in s.tasks && s.tasks[t].Inside? && s.tasks[u].Inside?
                        && s.tasks[t].gate == s.tasks[u].gate) ==> t == u)
  }

  lemma CollectKeeps(s: Gates, t: nat)
    requires Inv(s) && CanAct(s, Collect(t))
    ensures Inv(Act(s, Collect(t)))
  {
    var s' := Act(s, Collect(t));
    forall u | u in s'.tasks && HoldsGate(s'.tasks[u])
      ensures s'.tasks[u].log in s'.table && s'.table[s'.tasks[u].log] == s'.tasks[u].gate
    {
      assert u in s.tasks && HoldsGate(s.tasks[u]);
      assert Alive(s, s.tasks[u].gate);
    }
  }

  lemma LookUpKeeps(s: Gates, t: nat)
    requires Inv(s) && CanAct(s, LookUp(t))
    ensures Inv(Act(s, LookUp(t)))
  {
    var s' := Act(s, LookUp(t));
    forall u | u in s'.tasks && HoldsGate(s'.tasks[u])
      ensures s'.tasks[u].log in s'.table && s'.table[s'.tasks[u].log] == s'.tasks[u].gate
    {
      if u != t {
        assert u in s.tasks && HoldsGate(s.tasks[u]);
        assert Alive(s, s.tasks[u].gate);
      }
    }
  }

  lemma ActKeeps(s: Gates, a: Action)
    requires Inv(s) && CanAct(s, a)
    ensures Inv(Act(s, a))
  {
    hide Alive;
    match a
    case Collect(t) => CollectKeeps(s, t);
    case LookUp(t) => LookUpKeeps(s, t);
    case _ =>
  }

  ghost predicate CanRun(s: Gates, actions: seq<Action>)
    decreases |actions|
  {
    actions != [] ==> CanAct(s, actions[0]) && CanRun(Act(s, actions[0]), actions[1..])
  }

  function Run(s: Gates, actions: seq<Action>): Gates
    requires CanRun(s, actions)
    decreases |actions|
  {
    if actions == [] then s else Run(Act(s, actions[0]), actions[1..])
  }

  lemma {:induction false} RunKeeps(s: Gates, actions: seq<Action>)
    requires Inv(s) && CanRun(s, actions)
    ensures Inv(Run(s, actions))
    decreases |actions|
  {
    if actions != [] {
      ActKeeps(s, actions[0]);
      RunKeeps(Act(s, actions[0]), actions[1..]);
    }
  }

  /**
   In every interleaving of arrival, collection, release and cancellation, all live tasks of a log share
   one gate, and at most one of them is inside.
   */
  lemma OneAtATime(actions: seq<Action>)
    requires CanRun(NO_GATES, actions)
    ensures var s := Run(NO_GATES, actions);
            && (forall t, u :: (t in s.tasks && u in s.tasks && HoldsGate(s.tasks[t]) && HoldsGate(s.tasks[u])
                                && s.tasks[t].log == s.tasks[u].log) ==> s.tasks[t].gate == s.tasks[u].gate)
            && (forall t, u :: (t in s.tasks && u in s.tasks && s.tasks[t].Inside? && s.tasks[u].Inside?
                                && s.tasks[t].log == s.tasks[u].log) ==> t == u)
  {
    RunKeeps(NO_GATES, actions);
    hide Run, CanRun;
  }

  // ----- getting in -----

  /** Logs do not get in each other's way: a task waits exactly while a task of its own log is inside. */
  lemma WaitsForItsLogOnly(s: Gates, t: nat)
    requires Inv(s) && t in s.tasks && s.tasks[t].Waiting?
    ensures CanAct(s, Enter(t)) <==> forall u :: u in s.tasks && s.tasks[u].Inside? ==> s.tasks[u].log != s.tasks[t].log
  {
    assert HoldsGate(s.tasks[t]);
    forall u | u in s.tasks && s.tasks[u].Inside?
      ensures s.tasks[u].gate == s.tasks[t].gate <==> s.tasks[u].log == s.tasks[t].log
    {
      assert HoldsGate(s.tasks[u]);
    }
  }

  /** When the one inside leaves, each task that waits for its log can enter. */
  lemma LeavingLetsIn(s: Gates, u: nat, t: nat)
    requires Inv(s) && u in s.tasks && s.tasks[u].Inside? && t in s.tasks && s.tasks[t].Waiting?
    requires s.tasks[u].log == s.tasks[t].log
    ensures CanAct(s, Leave(u)) && CanAct(Act(s, Leave(u)), Enter(t))
  {
    assert HoldsGate(s.tasks[u]) && HoldsGate(s.tasks[t]);
    ActKeeps(s, Leave(u));
    WaitsForItsLogOnly(Act(s, Leave(u)), t);
  }

  /** The next thing that a task does to get in. */
  function NextOf(s: Gates, t: nat): Action
    requires t in s.tasks && !s.tasks[t].Inside?
  {
    match s.tasks[t]
    case Collecting(_) => Collect(t)
    case Looking(_) => LookUp(t)
    case _ => Enter(t)
  }

  lemma NextMoves(s: Gates, t: nat)
    requires Inv(s) && t in s.tasks && !s.tasks[t].Inside?
    requires forall u :: u in s.tasks && s.tasks[u].Inside? ==> s.tasks[u].log != s.tasks[t].log
    ensures CanAct(s, NextOf(s, t))
    ensures var after := Act(s, NextOf(s, t)).tasks;
            && t in after && after[t].log == s.tasks[t].log && after - {t} == s.tasks - {t}
            && match s.tasks[t] {
                 case Collecting(_) => after[t].Looking?
                 case Looking(_) => after[t].Waiting?
                 case _ => after[t].Inside?
               }
  {
    hide Alive, Inv;
    if s.tasks[t].Waiting? { WaitsForItsLogOnly(s, t); }
    assert Act(s, NextOf(s, t)).tasks - {t} == s.tasks - {t};
  }

  /**
   A task that has arrived gets inside by at most three steps of its own if no other task of its log is
   inside, and nothing happens to the others meanwhile.
   */
  lemma GetsIn(s: Gates, t: nat) returns (steps: seq<Action>)
    requires Inv(s) && t in s.tasks && !s.tasks[t].Inside?
    requires forall u :: u in s.tasks && s.tasks[u].Inside? ==> s.tasks[u].log != s.tasks[t].log
    ensures |steps| <= 3 && steps == [Collect(t), LookUp(t), Enter(t)][3 - |steps|..]
    ensures |steps| == if s.tasks[t].Collecting? then 3 else if s.tasks[t].Looking? then 2 else 1
    ensures CanRun(s, steps)
    ensures var after := Run(s, steps);
            && Inv(after) && after.tasks - {t} == s.tasks - {t}
            && t in after.tasks && after.tasks[t].Inside? && after.tasks[t].log == s.tasks[t].log
    decreases if s.tasks[t].Collecting? then 2 else if s.tasks[t].Looking? then 1 else 0
  {
    hide Inv, Act, CanAct;
    var own := NextOf(s, t);
    NextMoves(s, t);
    ActKeeps(s, own);
    var next := Act(s, own);
    if next.tasks[t].Inside? {
      steps := [own];
      assert Run(next, steps[1..]) == next && CanRun(next, steps[1..]);
    } else {
      forall u | u in next.tasks && next.tasks[u].Inside? ensures next.tasks[u].log != next.tasks[t].log {
        assert u in next.tasks - {t} && (next.tasks - {t})[u] == (s.tasks - {t})[u];
      }
      var more := GetsIn(next, t);
      steps := [own] + more;
      assert steps[1..] == more;
    }
  }

  /** After a collection the table lists just the logs for which some task holds the gate. */
  lemma CollectionIsComplete(s: Gates, t: nat)
    requires Inv(s) && CanAct(s, Collect(t))
    ensures var table := Act(s, Collect(t)).table;
            forall l :: l in table <==> exists u :: u in s.tasks && HoldsGate(s.tasks[u]) && s.tasks[u].log == l
  {
    var table := Act(s, Collect(t)).table;
    forall l | l in table ensures exists u :: u in s.tasks && HoldsGate(s.tasks[u]) && s.tasks[u].log == l {
      var u :| u in s.tasks && HoldsGate(s.tasks[u]) && s.tasks[u].gate == s.table[l];
      assert s.tasks[u].log == l;
    }
    forall u | u in s.tasks && HoldsGate(s.tasks[u]) ensures s.tasks[u].log in table {
      assert Alive(s, s.tasks[u].gate);
    }
  }
}

/**
 The team task loop (src/application/teams/manager.ts, task-list.ts): in each round the first
 few unblocked tasks run concurrently; the loop ends when no task is left that could run.

 An oracle says of each task whether its prompt succeeds.
 */
module TeamScheduler {

  datatype TaskStatus = Pending | InProgress | Completed | Failed | Blocked

  datatype TeamTask = TeamTask(id: string, status: TaskStatus, dependencies: seq<string>)

  /** A JavaScript Map from ids to tasks: `order` is the insertion order of its keys. */
  datatype Tasks = Tasks(order: seq<string>, table: map<string, TeamTask>)

  type Oracle = string -> bool

  ghost predicate NoRepeats(s: seq<string>) {
    forall i, j :: 0 <= i < j < |s| ==> s[i] != s[j]
  }

  ghost predicate WellFormed(m: Tasks) {
    && NoRepeats(m.order)
    && (forall id :: id in m.order <==> id in m.table)
    && (forall id :: id in m.table ==> m.table[id].id == id)
  }

  predicate HasStatus(m: Tasks, id: string, status: TaskStatus) {
    id in m.table && m.table[id].status == status
  }

  predicate IsBlocked(m: Tasks, id: string) {
    id in m.table && exists dep :: dep in m.table[id].dependencies && !HasStatus(m, dep, Completed)
  }

  predicate CanRun(m: Tasks, id: string) {
    HasStatus(m, id, Pending) && !IsBlocked(m, id)
  }

  function Filtered(m: Tasks, ids: seq<string>): (r: seq<string>)
    ensures forall id :: id in r <==> id in ids && CanRun(m, id)
    ensures |r| <= |ids|
  {
    if ids == [] then [] else (if CanRun(m, ids[0]) then [ids[0]] else []) + Filtered(m, ids[1..])
  }

  /** The pending tasks that are not blocked, in insertion order. */
  function Available(m: Tasks): seq<string> {
    Filtered(m, m.order)
  }

  /** `s.slice(0, limit)`. */
  function Slice(s: seq<string>, limit: int): (r: seq<string>)
    ensures r <= s
    ensures limit >= 0 ==> |r| <= limit
  {
    if limit >= |s| then s
    else if limit >= 0 then s[..limit]
    else if |s| + limit >= 0 then s[..|s| + limit]
    else []
  }

  function SetStatus(m: Tasks, id: string, status: TaskStatus): Tasks {
    if id in m.table then m.(table := m.table[id := m.table[id].(status := status)]) else m
  }

  predicate Unfinished(m: Tasks) {
    exists id :: id in m.table && m.table[id].status != Completed && m.table[id].status != Failed
  }

  predicate AnyInProgress(m: Tasks) {
    exists id :: id in m.table && m.table[id].status == InProgress
  }

  /** The loop ends here. */
  predicate Halted(m: Tasks) {
    !Unfinished(m) || (Available(m) == [] && !AnyInProgress(m))
  }

  function Outcome(oracle: Oracle, id: string): TaskStatus {
    if oracle(id) then Completed else Failed
  }

  /** The tasks a round runs. */
  function Picked(m: Tasks, limit: int): seq<string> {
    Slice(Available(m), limit)
  }

  /** All tasks of `ids` have run. */
  function Settled(m: Tasks, ids: seq<string>, oracle: Oracle): Tasks {
    m.(table := map id | id in m.table ::
      if id in ids then m.table[id].(status := Outcome(oracle, id)) else m.table[id])
  }

  function Round(m: Tasks, limit: int, oracle: Oracle): Tasks {
    Settled(m, Picked(m, limit), oracle)
  }

  /** At most `n` rounds. */
  function Rounds(m: Tasks, limit: int, oracle: Oracle, n: nat): Tasks
    decreases n
  {
    if n == 0 || Halted(m) then m else Rounds(Round(m, limit, oracle), limit, oracle, n - 1)
  }

  /** The batches of tasks that `n` rounds run. */
  function Batches(m: Tasks, limit: int, oracle: Oracle, n: nat): seq<seq<string>>
    decreases n
  {
    if n == 0 || Halted(m) then []
    else [Picked(m, limit)] + Batches(Round(m, limit, oracle), limit, oracle, n - 1)
  }

  // ----- the loop ends -----

  /** At the head of the loop nothing runs. */
  ghost predicate Idle(m: Tasks) {
    WellFormed(m) && !AnyInProgress(m)
  }

  function PendingIn(m: Tasks, ids: seq<string>): nat {
    if ids == [] then 0
    else (if HasStatus(m, ids[0], Pending) then 1 else 0) + PendingIn(m, ids[1..])
  }

  lemma PickedCanRun(m: Tasks, limit: int)
    ensures forall id :: id in Picked(m, limit) ==> CanRun(m, id)
  {
  }

  lemma PickedPending(m: Tasks, limit: int)
    ensures forall id :: id in Picked(m, limit) ==> HasStatus(m, id, Pending)
  {
    PickedCanRun(m, limit);
  }

  lemma PickedUnblocked(m: Tasks, limit: int)
    ensures forall id, dep :: (id in Picked(m, limit) && id in m.table && dep in m.table[id].dependencies) ==>
              HasStatus(m, dep, Completed)
  {
    PickedCanRun(m, limit);
    forall id, dep | id in Picked(m, limit) && id in m.table && dep in m.table[id].dependencies
      ensures HasStatus(m, dep, Completed)
    {
      assert CanRun(m, id);
    }
  }

  lemma RoundIdle(m: Tasks, limit: int, oracle: Oracle)
    requires Idle(m)
    ensures Idle(Round(m, limit, oracle))
  {
  }

  lemma {:induction false} PendingShrinks(m: Tasks, ids: seq<string>, picked: seq<string>, oracle: Oracle)
    requires forall id :: id in picked ==> HasStatus(m, id, Pending)
    ensures PendingIn(Settled(m, picked, oracle), ids) <= PendingIn(m, ids)
    ensures (exists id :: id in ids && id in picked) ==>
              PendingIn(Settled(m, picked, oracle), ids) < PendingIn(m, ids)
  {
    if ids != [] {
      PendingShrinks(m, ids[1..], picked, oracle);
      assert forall id :: id in ids <==> id == ids[0] || id in ids[1..];
    }
  }

  lemma RoundShrinks(m: Tasks, limit: int, oracle: Oracle)
    requires Idle(m) && limit >= 1 && !Halted(m)
    ensures Round(m, limit, oracle).order == m.order
    ensures PendingIn(Round(m, limit, oracle), m.order) < PendingIn(m, m.order)
  {
    var picked := Picked(m, limit);
    PickedCanRun(m, limit);
    PendingShrinks(m, m.order, picked, oracle);
    assert picked[0] in Available(m) && picked[0] in picked;
  }

  lemma {:induction false} PendingBound(m: Tasks, ids: seq<string>)
    ensures PendingIn(m, ids) <= |ids|
  {
    if ids != [] {
      PendingBound(m, ids[1..]);
    }
  }

  lemma {:induction false} EnoughRounds(m: Tasks, limit: int, oracle: Oracle, n: nat)
    requires Idle(m) && limit >= 1 && PendingIn(m, m.order) <= n
    ensures Halted(Rounds(m, limit, oracle, n)) && Idle(Rounds(m, limit, oracle, n))
    decreases n
  {
    hide PendingIn, Halted, Round, Idle;
    if !Halted(m) {
      RoundShrinks(m, limit, oracle);
      RoundIdle(m, limit, oracle);
      EnoughRounds(Round(m, limit, oracle), limit, oracle, n - 1);
    }
  }

  /** The loop ends within as many rounds as there are tasks, for every graph and every outcome. */
  lemma EndsWithinTaskCount(m: Tasks, limit: int, oracle: Oracle)
    requires Idle(m) && limit >= 1
    ensures Halted(Rounds(m, limit, oracle, |m.order|)) && Idle(Rounds(m, limit, oracle, |m.order|))
  {
    PendingBound(m, m.order);
    EnoughRounds(m, limit, oracle, |m.order|);
  }

  ghost predicate EndsAfter(m: Tasks, limit: int, oracle: Oracle, n: nat) {
    Halted(Rounds(m, limit, oracle, n))
  }

  ghost predicate Ends(m: Tasks, limit: int, oracle: Oracle) {
    exists n: nat :: EndsAfter(m, limit, oracle, n)
  }

  ghost predicate AlwaysEnds(limit: int) {
    forall m, oracle :: Idle(m) ==> Ends(m, limit, oracle)
  }

  const LONE := Tasks(["a"], map["a" := TeamTask("a", Pending, [])])

  lemma {:induction false} LoneTaskIsStarved(limit: int, oracle: Oracle, n: nat)
    requires limit <= 0
    ensures !Halted(Rounds(LONE, limit, oracle, n))
  {
    assert "a" in LONE.table && CanRun(LONE, "a") && "a" in LONE.order && "a" in Available(LONE);
    if n > 0 {
      assert Picked(LONE, limit) == [];
      assert Round(LONE, limit, oracle).table == LONE.table;
      LoneTaskIsStarved(limit, oracle, n - 1);
    }
  }

  /** The loop always ends exactly when the parallel limit is at least one. */
  lemma EndsExactlyForPositiveLimit(limit: int)
    ensures AlwaysEnds(limit) <==> limit >= 1
  {
    if limit >= 1 {
      forall m, oracle | Idle(m) ensures Ends(m, limit, oracle) {
        EndsWithinTaskCount(m, limit, oracle);
        assert EndsAfter(m, limit, oracle, |m.order|);
      }
    } else {
      var oracle := (id: string) => true;
      assert Idle(LONE);
      forall n: nat ensures !EndsAfter(LONE, limit, oracle, n) {
        LoneTaskIsStarved(limit, oracle, n);
      }
      assert !Ends(LONE, limit, oracle);
    }
  }

  // ----- which tasks run -----

  /** A task that runs, by a chain of at most `d` dependencies that complete. */
  ghost predicate Runs(m: Tasks, oracle: Oracle, id: string, d: nat)
    decreases d
  {
    && HasStatus(m, id, Pending)
    && forall dep :: dep in m.table[id].dependencies ==>
         HasStatus(m, dep, Completed) || (d > 0 && Runs(m, oracle, dep, d - 1) && oracle(dep))
  }

  ghost predicate EventuallyRuns(m: Tasks, oracle: Oracle, id: string) {
    exists d :: Runs(m, oracle, id, d)
  }

  /** The status that a task ends in. */
  ghost function FinalStatus(m: Tasks, oracle: Oracle, id: string): TaskStatus
    requires id in m.table
  {
    if EventuallyRuns(m, oracle, id) then Outcome(oracle, id) else m.table[id].status
  }

  /** `now` is reached from `m` by running only tasks that eventually run. */
  ghost predicate ReachedFrom(m: Tasks, oracle: Oracle, now: Tasks) {
    && now.order == m.order && now.table.Keys == m.table.Keys
    && forall id :: id in m.table ==>
         && now.table[id].dependencies == m.table[id].dependencies
         && (now.table[id].status == m.table[id].status
             || (EventuallyRuns(m, oracle, id) && now.table[id].status == Outcome(oracle, id)))
  }

  lemma {:induction false} RunsDeeper(m: Tasks, oracle: Oracle, id: string, d: nat, e: nat)
    requires d <= e && Runs(m, oracle, id, d)
    ensures Runs(m, oracle, id, e)
    decreases d
  {
    forall dep | dep in m.table[id].dependencies && !HasStatus(m, dep, Completed)
      ensures e > 0 && Runs(m, oracle, dep, e - 1) && oracle(dep)
    {
      RunsDeeper(m, oracle, dep, d - 1, e - 1);
    }
  }

  /** Finitely many dependencies that complete have a common depth. */
  lemma {:induction false} CommonDepth(m: Tasks, oracle: Oracle, deps: seq<string>) returns (d: nat)
    requires forall dep :: dep in deps ==>
               HasStatus(m, dep, Completed) || (EventuallyRuns(m, oracle, dep) && oracle(dep))
    ensures forall dep :: dep in deps ==>
              HasStatus(m, dep, Completed) || (Runs(m, oracle, dep, d) && oracle(dep))
  {
    d := 0;
    if deps != [] {
      var rest := CommonDepth(m, oracle, deps[1..]);
      d := rest;
      if !HasStatus(m, deps[0], Completed) {
        assert deps[0] in deps;
        var e :| Runs(m, oracle, deps[0], e);
        d := if e > rest then e else rest;
        RunsDeeper(m, oracle, deps[0], e, d);
      }
      forall dep | dep in deps && !HasStatus(m, dep, Completed)
        ensures Runs(m, oracle, dep, d) && oracle(dep)
      {
        if dep in deps[1..] {
          RunsDeeper(m, oracle, dep, rest, d);
        }
      }
    }
  }

  lemma UnblockedRuns(m: Tasks, oracle: Oracle, now: Tasks, id: string)
    requires ReachedFrom(m, oracle, now) && CanRun(now, id)
    requires HasStatus(m, id, Pending)
    ensures EventuallyRuns(m, oracle, id)
  {
    var deps := m.table[id].dependencies;
    forall dep | dep in deps
      ensures HasStatus(m, dep, Completed) || (EventuallyRuns(m, oracle, dep) && oracle(dep))
    {
      assert HasStatus(now, dep, Completed);
    }
    var d := CommonDepth(m, oracle, deps);
    assert Runs(m, oracle, id, d + 1);
  }

  lemma OutcomeIsFinal(m: Tasks, oracle: Oracle, now: Tasks, id: string)
    requires ReachedFrom(m, oracle, now) && HasStatus(now, id, Pending)
    ensures HasStatus(m, id, Pending)
  {
  }

  lemma RoundReached(m: Tasks, oracle: Oracle, now: Tasks, limit: int)
    requires ReachedFrom(m, oracle, now)
    ensures ReachedFrom(m, oracle, Round(now, limit, oracle))
  {
    PickedCanRun(now, limit);
    forall id | id in Picked(now, limit) ensures EventuallyRuns(m, oracle, id) {
      OutcomeIsFinal(m, oracle, now, id);
      UnblockedRuns(m, oracle, now, id);
    }
  }

  lemma {:induction false} RoundsReached(m: Tasks, oracle: Oracle, now: Tasks, limit: int, n: nat)
    requires ReachedFrom(m, oracle, now)
    ensures ReachedFrom(m, oracle, Rounds(now, limit, oracle, n))
    decreases n
  {
    if n > 0 && !Halted(now) {
      RoundReached(m, oracle, now, limit);
      RoundsReached(m, oracle, Round(now, limit, oracle), limit, n - 1);
    }
  }

  lemma PendingIsBlocked(now: Tasks, id: string)
    requires WellFormed(now) && Halted(now) && HasStatus(now, id, Pending)
    ensures IsBlocked(now, id)
  {
  }

  /** Where the loop has ended, a task that eventually runs has run. */
  lemma {:induction false} HaltedHasRun(m: Tasks, oracle: Oracle, now: Tasks, id: string, d: nat)
    requires WellFormed(now) && ReachedFrom(m, oracle, now) && Halted(now) && Runs(m, oracle, id, d)
    ensures HasStatus(now, id, Outcome(oracle, id))
    decreases d
  {
    forall dep | dep in m.table[id].dependencies ensures HasStatus(now, dep, Completed) {
      if !HasStatus(m, dep, Completed) {
        HaltedHasRun(m, oracle, now, dep, d - 1);
      }
    }
    if now.table[id].status == Pending {
      PendingIsBlocked(now, id);
    }
  }

  /** For every graph, with cycles or not: a task is run exactly if, following its dependencies,
      all of them complete after finitely many steps; every other task keeps its status. */
  lemma FinalStatusOfEveryTask(m: Tasks, limit: int, oracle: Oracle, id: string)
    requires Idle(m) && limit >= 1 && id in m.table
    ensures HasStatus(Rounds(m, limit, oracle, |m.order|), id, FinalStatus(m, oracle, id))
  {
    var end := Rounds(m, limit, oracle, |m.order|);
    EndsWithinTaskCount(m, limit, oracle);
    RoundsReached(m, oracle, m, limit, |m.order|);
    if EventuallyRuns(m, oracle, id) {
      var d :| Runs(m, oracle, id, d);
      HaltedHasRun(m, oracle, end, id, d);
    }
  }

  // ----- acyclic graphs -----

  ghost predicate AllPending(m: Tasks) {
    WellFormed(m) && forall id :: id in m.table ==> m.table[id].status == Pending
  }

  /** Every dependency has a smaller rank. */
  ghost predicate Ranked(m: Tasks, rank: string -> nat) {
    forall id, dep :: id in m.table && dep in m.table[id].dependencies && dep in m.table ==> rank(dep) < rank(id)
  }

  predicate FailedOrMissing(m: Tasks, id: string) {
    id in m.table ==> m.table[id].status == Failed
  }

  /** `path` leads from its first task, from task to dependency, to one that failed or is missing. */
  ghost predicate LeadsToFailure(m: Tasks, path: seq<string>) {
    && |path| >= 2
    && FailedOrMissing(m, path[|path| - 1])
    && forall k :: 0 <= k < |path| - 1 ==>
         path[k] in m.table && path[k + 1] in m.table[path[k]].dependencies
  }

  ghost predicate DependsOnFailure(m: Tasks, id: string) {
    exists path :: LeadsToFailure(m, path) && path[0] == id
  }

  /** A task that has run had all its dependencies completed. */
  ghost predicate RanAfterDependencies(now: Tasks) {
    forall id, dep ::
      (id in now.table && now.table[id].status != Pending && dep in now.table[id].dependencies) ==>
        HasStatus(now, dep, Completed)
  }

  lemma RoundAfterDependencies(now: Tasks, limit: int, oracle: Oracle)
    requires RanAfterDependencies(now)
    ensures RanAfterDependencies(Round(now, limit, oracle))
  {
    PickedCanRun(now, limit);
    var next := Round(now, limit, oracle);
    forall id, dep | id in next.table && next.table[id].status != Pending
                     && dep in next.table[id].dependencies
      ensures HasStatus(next, dep, Completed)
    {
      assert HasStatus(now, dep, Completed);
    }
  }

  lemma {:induction false} RoundsAfterDependencies(now: Tasks, limit: int, oracle: Oracle, n: nat)
    requires RanAfterDependencies(now)
    ensures RanAfterDependencies(Rounds(now, limit, oracle, n))
    decreases n
  {
    if n > 0 && !Halted(now) {
      RoundAfterDependencies(now, limit, oracle);
      RoundsAfterDependencies(Round(now, limit, oracle), limit, oracle, n - 1);
    }
  }

  lemma {:induction false} FailureBlocks(now: Tasks, path: seq<string>)
    requires RanAfterDependencies(now) && LeadsToFailure(now, path)
    ensures HasStatus(now, path[0], Pending)
    decreases |path|
  {
    if |path| > 2 {
      FailureBlocks(now, path[1..]);
    }
    assert !HasStatus(now, path[1], Completed);
  }

  lemma {:induction false} PendingDependsOnFailure(now: Tasks, rank: string -> nat, id: string)
    returns (path: seq<string>)
    requires WellFormed(now) && Halted(now) && Ranked(now, rank)
    requires forall x :: x in now.table ==> now.table[x].status in {Pending, Completed, Failed}
    requires HasStatus(now, id, Pending)
    ensures LeadsToFailure(now, path) && path[0] == id
    decreases rank(id)
  {
    hide Halted;
    PendingIsBlocked(now, id);
    var dep :| dep in now.table[id].dependencies && !HasStatus(now, dep, Completed);
    if HasStatus(now, dep, Pending) {
      var rest := PendingDependsOnFailure(now, rank, dep);
      path := [id] + rest;
    } else {
      path := [id, dep];
    }
  }

  /** On an acyclic graph the loop leaves a task pending exactly when it depends, directly or not,
      on a task that failed or does not exist. */
  lemma PendingExactlyBehindFailure(m: Tasks, limit: int, oracle: Oracle, rank: string -> nat, id: string)
    requires AllPending(m) && limit >= 1 && Ranked(m, rank) && id in m.table
    ensures var end := Rounds(m, limit, oracle, |m.order|);
            HasStatus(end, id, Pending) <==> DependsOnFailure(end, id)
  {
    var end := Rounds(m, limit, oracle, |m.order|);
    EndsWithinTaskCount(m, limit, oracle);
    RoundsReached(m, oracle, m, limit, |m.order|);
    RoundsAfterDependencies(m, limit, oracle, |m.order|);
    if HasStatus(end, id, Pending) {
      var path := PendingDependsOnFailure(end, rank, id);
    }
    if DependsOnFailure(end, id) {
      var path :| LeadsToFailure(end, path) && path[0] == id;
      FailureBlocks(end, path);
    }
  }

  // ----- the order of execution -----

  function Flatten(batches: seq<seq<string>>): seq<string> {
    if batches == [] then [] else batches[0] + Flatten(batches[1..])
  }

  lemma {:induction false} FilteredNoRepeats(m: Tasks, ids: seq<string>)
    requires NoRepeats(ids)
    ensures NoRepeats(Filtered(m, ids))
  {
    if ids != [] {
      FilteredNoRepeats(m, ids[1..]);
      assert ids[0] !in ids[1..];
    }
  }

  lemma PickedNoRepeats(m: Tasks, limit: int)
    requires NoRepeats(m.order)
    ensures NoRepeats(Picked(m, limit))
  {
    FilteredNoRepeats(m, m.order);
  }

  lemma AppendNoRepeats(a: seq<string>, b: seq<string>)
    requires NoRepeats(a) && NoRepeats(b) && forall x :: x in a ==> x !in b
    ensures NoRepeats(a + b)
  {
    forall i, j | 0 <= i < j < |a + b| ensures (a + b)[i] != (a + b)[j] {
      if i < |a| <= j {
        assert (a + b)[i] in a && (a + b)[j] in b;
      }
    }
  }

  lemma FlattenBatches(m: Tasks, limit: int, oracle: Oracle, n: nat)
    requires n > 0 && !Halted(m)
    ensures Flatten(Batches(m, limit, oracle, n))
            == Picked(m, limit) + Flatten(Batches(Round(m, limit, oracle), limit, oracle, n - 1))
  {
  }

  lemma StillPending(m: Tasks, picked: seq<string>, oracle: Oracle, id: string)
    requires HasStatus(Settled(m, picked, oracle), id, Pending)
    ensures id !in picked && HasStatus(m, id, Pending)
  {
  }

  /** No task runs twice, and only tasks that were pending run. */
  lemma {:induction false} EachTaskRunsOnce(m: Tasks, limit: int, oracle: Oracle, n: nat) returns (all: seq<string>)
    requires NoRepeats(m.order)
    ensures all == Flatten(Batches(m, limit, oracle, n))
    ensures RunnableOnce(m, all)
    decreases n
  {
    if n > 0 && !Halted(m) {
      var picked := Picked(m, limit);
      var later := EachTaskRunsOnce(Round(m, limit, oracle), limit, oracle, n - 1);
      FlattenBatches(m, limit, oracle, n);
      PickedPending(m, limit);
      PickedNoRepeats(m, limit);
      BatchThenLater(m, picked, oracle, later);
      all := picked + later;
    } else {
      all := [];
    }
  }

  /** Pending tasks of `m`, none of them twice. */
  ghost predicate RunnableOnce(m: Tasks, ids: seq<string>) {
    NoRepeats(ids) && forall id :: id in ids ==> HasStatus(m, id, Pending)
  }

  lemma BatchThenLater(m: Tasks, picked: seq<string>, oracle: Oracle, later: seq<string>)
    requires RunnableOnce(m, picked) && RunnableOnce(Settled(m, picked, oracle), later)
    ensures RunnableOnce(m, picked + later)
  {
    forall id | id in later ensures id !in picked && HasStatus(m, id, Pending) {
      StillPending(m, picked, oracle, id);
    }
    AppendNoRepeats(picked, later);
  }

  /** Every dependency of a task has completed in an earlier batch, and no batch exceeds the limit. */
  ghost predicate DependenciesFirst(m: Tasks, oracle: Oracle, limit: int, batches: seq<seq<string>>)
    decreases batches
  {
    batches != [] ==>
      && (limit >= 0 ==> |batches[0]| <= limit)
      && (forall id, dep :: id in batches[0] && id in m.table && dep in m.table[id].dependencies ==>
            HasStatus(m, dep, Completed))
      && DependenciesFirst(Settled(m, batches[0], oracle), oracle, limit, batches[1..])
  }

  lemma {:induction false} TasksRunAfterDependencies(m: Tasks, limit: int, oracle: Oracle, n: nat)
    ensures DependenciesFirst(m, oracle, limit, Batches(m, limit, oracle, n))
    decreases n
  {
    if n > 0 && !Halted(m) {
      PickedUnblocked(m, limit);
      var next := Round(m, limit, oracle);
      TasksRunAfterDependencies(next, limit, oracle, n - 1);
      assert Batches(m, limit, oracle, n)[1..] == Batches(next, limit, oracle, n - 1);
    }
  }

  // ----- the classes -----

  class SharedTaskList {
    var tasks: Tasks

    ghost predicate Valid()
      reads this
    {
      WellFormed(tasks)
    }

    constructor ()
      ensures Valid() && tasks == Tasks([], map[])
    {
      tasks := Tasks([], map[]);
    }

    method AddTask(task: TeamTask)
      requires Valid()
      modifies this
      ensures Valid() && tasks.table == old(tasks.table)[task.id := task]
      ensures tasks.order == if task.id in old(tasks.table) then old(tasks.order) else old(tasks.order) + [task.id]
    {
      var order := if task.id in tasks.table then tasks.order else tasks.order + [task.id];
      tasks := Tasks(order, tasks.table[task.id := task]);
    }

    method UpdateStatus(id: string, status: TaskStatus)
      requires Valid()
      modifies this
      ensures Valid() && tasks == SetStatus(old(tasks), id, status)
    {
      if id in tasks.table {
        tasks := tasks.(table := tasks.table[id := tasks.table[id].(status := status)]);
      }
    }
  }

  class TeamManager {
    const taskList: SharedTaskList
    const parallelLimit: int

    constructor (taskList: SharedTaskList, parallelLimit: int)
      ensures this.taskList == taskList && this.parallelLimit == parallelLimit
    {
      this.taskList := taskList;
      this.parallelLimit := parallelLimit;
    }

    method StartTasks(ids: seq<string>, oracle: Oracle)
      requires taskList.Valid() && forall id :: id in ids ==> id in taskList.tasks.table
      modifies taskList
      ensures taskList.Valid() && Underway(old(taskList.tasks), taskList.tasks, ids, {}, oracle)
    {
      var i := 0;
      while i < |ids|
        invariant 0 <= i <= |ids| && taskList.Valid()
        invariant Underway(old(taskList.tasks), taskList.tasks, ids[..i], {}, oracle)
      {
        StartOne(old(taskList.tasks), taskList.tasks, ids[..i], oracle, ids[i]);
        taskList.UpdateStatus(ids[i], InProgress);
        assert ids[..i + 1] == ids[..i] + [ids[i]];
        i := i + 1;
      }
      assert ids[..i] == ids;
    }

    /** The tasks of a round start together and end in any order. */
    method ExecuteTasks(ids: seq<string>, oracle: Oracle)
      requires taskList.Valid() && forall id :: id in ids ==> id in taskList.tasks.table
      modifies taskList
      ensures taskList.Valid() && taskList.tasks == Settled(old(taskList.tasks), ids, oracle)
    {
      hide Settled, Underway;
      ghost var start := taskList.tasks;
      StartTasks(ids, oracle);
      var all := set id | id in ids;
      var running := all;
      ghost var ended: set<string> := {};
      while running != {}
        invariant running !! ended && running + ended == all && taskList.Valid()
        invariant Underway(start, taskList.tasks, ids, ended, oracle)
        decreases running
      {
        var id :| id in running;
        EndOne(start, taskList.tasks, ids, ended, oracle, id);
        taskList.UpdateStatus(id, if oracle(id) then Completed else Failed);
        running, ended := running - {id}, ended + {id};
      }
      AllEnded(start, taskList.tasks, ids, oracle);
    }

    method RunRound(oracle: Oracle)
      requires Idle(taskList.tasks)
      modifies taskList
      ensures taskList.tasks == Round(old(taskList.tasks), parallelLimit, oracle)
      ensures Idle(taskList.tasks)
    {
      RoundIdle(taskList.tasks, parallelLimit, oracle);
      PickedPending(taskList.tasks, parallelLimit);
      var tasksToRun := Slice(Available(taskList.tasks), parallelLimit);
      ExecuteTasks(tasksToRun, oracle);
    }

    /** The execution phase. */
    method RunLoop(oracle: Oracle) returns (rounds: nat)
      requires Idle(taskList.tasks) && parallelLimit >= 1
      modifies taskList
      ensures Idle(taskList.tasks) && Halted(taskList.tasks)
      ensures rounds <= |old(taskList.tasks).order|
      ensures taskList.tasks == Rounds(old(taskList.tasks), parallelLimit, oracle, |old(taskList.tasks).order|)
    {
      rounds := 0;
      ghost var run := [taskList.tasks];
      PendingBound(taskList.tasks, taskList.tasks.order);
      while Unfinished(taskList.tasks)
        invariant Idle(taskList.tasks) && |run| == rounds + 1 && taskList.tasks == run[rounds]
        invariant run[0] == old(taskList.tasks) && IsRun(run, parallelLimit, oracle)
        invariant rounds + PendingIn(taskList.tasks, taskList.tasks.order) <= |run[0].order|
        decreases PendingIn(taskList.tasks, taskList.tasks.order)
      {
        if Available(taskList.tasks) == [] {
          break;               // nothing is in progress at the head of the loop, so the wait is never reached
        }
        RoundShrinks(taskList.tasks, parallelLimit, oracle);
        RunRound(oracle);
        ExtendRun(run, parallelLimit, oracle, taskList.tasks);
        run, rounds := run + [taskList.tasks], rounds + 1;
      }
      RunIsRounds(run, parallelLimit, oracle, |run[0].order|);
    }
  }

  /** A run of the loop: the state at its head, round after round. */
  ghost predicate IsRun(run: seq<Tasks>, limit: int, oracle: Oracle) {
    forall i :: 0 <= i < |run| - 1 ==> !Halted(run[i]) && run[i + 1] == Round(run[i], limit, oracle)
  }

  lemma ExtendRun(run: seq<Tasks>, limit: int, oracle: Oracle, next: Tasks)
    requires run != [] && IsRun(run, limit, oracle)
    requires !Halted(run[|run| - 1]) && next == Round(run[|run| - 1], limit, oracle)
    ensures IsRun(run + [next], limit, oracle)
  {
  }

  lemma {:induction false} RunIsRounds(run: seq<Tasks>, limit: int, oracle: Oracle, n: nat)
    requires 0 < |run| <= n + 1 && IsRun(run, limit, oracle) && Halted(run[|run| - 1])
    ensures Rounds(run[0], limit, oracle, n) == run[|run| - 1]
    decreases |run|
  {
    if |run| > 1 {
      RunIsRounds(run[1..], limit, oracle, n - 1);
    }
  }

  /** The tasks of `ids` have been started and those of `ended` have ended. */
  ghost predicate Underway(start: Tasks, now: Tasks, ids: seq<string>, ended: set<string>, oracle: Oracle) {
    && now.order == start.order && now.table.Keys == start.table.Keys
    && forall id :: id in start.table ==>
         now.table[id] == if id in ended then start.table[id].(status := Outcome(oracle, id))
                          else if id in ids then start.table[id].(status := InProgress)
                          else start.table[id]
  }

  lemma StartOne(start: Tasks, now: Tasks, ids: seq<string>, oracle: Oracle, id: string)
    requires Underway(start, now, ids, {}, oracle) && id in start.table
    ensures id in now.table && Underway(start, SetStatus(now, id, InProgress), ids + [id], {}, oracle)
  {
  }

  lemma EndOne(start: Tasks, now: Tasks, ids: seq<string>, ended: set<string>, oracle: Oracle, id: string)
    requires Underway(start, now, ids, ended, oracle) && id in start.table && id in ids
    ensures id in now.table && Underway(start, SetStatus(now, id, Outcome(oracle, id)), ids, ended + {id}, oracle)
  {
  }

  lemma AllEnded(start: Tasks, now: Tasks, ids: seq<string>, oracle: Oracle)
    requires Underway(start, now, ids, (set id | id in ids), oracle)
    ensures now == Settled(start, ids, oracle)
  {
  }
}

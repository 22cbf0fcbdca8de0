/**
 The runner: one execution guard per relationship, created on first use and never replaced,
 keeps loops, triggers and forced resyncs of one relationship apart; and the retry after a
 transient failure backs off by doubling.
 */
module Runner {
  import opened Prelude

  type TaskId = nat

  type LockId = nat

  /** Where a task stands: a sync loop, a request, or a status query. */
  datatype Task =
    | Idle(rel: string)                       // a loop between syncs, or a request or query about to begin
    | Ready(rel: string, lock: LockId)        // has the guard, does not hold it
    | Executing(rel: string, lock: LockId)
    | Peeking(rel: string, lock: LockId)      // a query that holds the guard, for a moment, to see that it is free
  {
    predicate Holds() { Executing? || Peeking? }
  }

  datatype RunnerState = RunnerState(
    running: map<string, TaskId>,             // `running`: the loop of a relationship
    guards: map<string, LockId>,              // `execution_guards`
    held: map<LockId, TaskId>,                // who holds which lock
    tasks: map<TaskId, Task>)

  const NOTHING_RUNS := RunnerState(map[], map[], map[], map[])

  datatype Step =
    | Start(task: TaskId, rel: string)
    | Stop(rel: string)
    | Request(task: TaskId, rel: string)      // trigger, force-resync or status query
    | GetGuard(task: TaskId, lock: LockId)
    | Lock(task: TaskId)                      // a loop waits for the guard
    | TryLock(task: TaskId)                   // a request gives up if the guard is held
    | Peek(task: TaskId)                      // a query tries the guard
    | Finish(task: TaskId)
    | Abort(task: TaskId)                     // at an await, at any time after a stop; a request may be dropped

  function NewLock(guards: map<string, LockId>, rel: string, lock: LockId): map<string, LockId> {
    if rel in guards then guards else guards[rel := lock]
  }

  /** May this step happen now? A new lock is one that no relationship has. */
  predicate Enabled(s: RunnerState, step: Step) {
    match step
    case Start(task, rel) => rel !in s.running && task !in s.tasks
    case Stop(rel) => rel in s.running
    case Request(task, rel) => task !in s.tasks
    case GetGuard(task, lock) => task in s.tasks && s.tasks[task].Idle? && (lock in s.guards.Values ==> Get(s.guards, s.tasks[task].rel).Some?)
    case Lock(task) => task in s.tasks && s.tasks[task].Ready? && s.tasks[task].lock !in s.held
    case TryLock(task) => task in s.tasks && s.tasks[task].Ready?
    case Peek(task) => task in s.tasks && s.tasks[task].Ready?
    case Finish(task) => task in s.tasks && s.tasks[task].Executing?
    case Abort(task) => task in s.tasks
  }

  function WithoutHolder(held: map<LockId, TaskId>, t: Task): map<LockId, TaskId> {
    if t.Holds() then held - {t.lock} else held
  }

  function Acquired(s: RunnerState, task: TaskId): RunnerState
    requires task in s.tasks && s.tasks[task].Ready?
  {
    var t := s.tasks[task];
    s.(held := s.held[t.lock := task], tasks := s.tasks[task := Executing(t.rel, t.lock)])
  }

  function Peeked(s: RunnerState, task: TaskId): RunnerState
    requires task in s.tasks && s.tasks[task].Ready?
  {
    var t := s.tasks[task];
    s.(held := s.held[t.lock := task], tasks := s.tasks[task := Peeking(t.rel, t.lock)])
  }

  function Dropped(s: RunnerState, task: TaskId): RunnerState
    requires task in s.tasks
  {
    s.(held := WithoutHolder(s.held, s.tasks[task]), tasks := s.tasks - {task})
  }

  function Apply(s: RunnerState, step: Step): RunnerState
    requires Enabled(s, step)
  {
    match step
    case Start(task, rel) => s.(running := s.running[rel := task], tasks := s.tasks[task := Idle(rel)])
    case Stop(rel) => s.(running := s.running - {rel})
    case Request(task, rel) => s.(tasks := s.tasks[task := Idle(rel)])
    case GetGuard(task, lock) =>
      var rel := s.tasks[task].rel;
      var guards := NewLock(s.guards, rel, lock);
      s.(guards := guards, tasks := s.tasks[task := Ready(rel, guards[rel])])
    case Lock(task) => Acquired(s, task)
    case TryLock(task) => if s.tasks[task].lock in s.held then Dropped(s, task) else Acquired(s, task)
    case Peek(task) => if s.tasks[task].lock in s.held then Dropped(s, task) else Peeked(s, task)
    case Finish(task) =>
      var t := s.tasks[task];
      s.(held := s.held - {t.lock}, tasks := s.tasks[task := Idle(t.rel)])
    case Abort(task) => Dropped(s, task)
  }

  /** Guards are distinct, tasks use the guard of their relationship, and executing, or peeking, means holding it. */
  ghost predicate Inv(s: RunnerState) {
    (forall a, b :: a in s.guards && b in s.guards && s.guards[a] == s.guards[b] ==> a == b) &&
    (forall t :: t in s.tasks && !s.tasks[t].Idle? ==> Get(s.guards, s.tasks[t].rel) == Some(s.tasks[t].lock)) &&
    (forall t :: t in s.tasks && s.tasks[t].Holds() ==> Get(s.held, s.tasks[t].lock) == Some(t)) &&
    (forall l :: l in s.held ==> s.held[l] in s.tasks && s.tasks[s.held[l]].Holds() && s.tasks[s.held[l]].lock == l)
  }

  lemma {:induction false} GetGuardKeepsInv(s: RunnerState, task: TaskId, lock: LockId)
    requires Inv(s) && Enabled(s, GetGuard(task, lock))
    ensures Inv(Apply(s, GetGuard(task, lock)))
  {
    var rel := s.tasks[task].rel;
    if rel !in s.guards {
      forall a | a in s.guards ensures s.guards[a] != lock {
        assert s.guards[a] in s.guards.Values;
      }
    }
  }

  lemma {:induction false} TakingKeepsInv(s: RunnerState, task: TaskId, t: Task)
    requires Inv(s) && task in s.tasks && s.tasks[task].Ready? && s.tasks[task].lock !in s.held
    requires t.Holds() && t.rel == s.tasks[task].rel && t.lock == s.tasks[task].lock
    ensures Inv(s.(held := s.held[t.lock := task], tasks := s.tasks[task := t]))
  {
  }

  lemma {:induction false} NewTaskKeepsInv(s: RunnerState, task: TaskId, rel: string, running: map<string, TaskId>)
    requires Inv(s) && task !in s.tasks
    ensures Inv(s.(running := running, tasks := s.tasks[task := Idle(rel)]))
  {
  }

  lemma {:induction false} FinishKeepsInv(s: RunnerState, task: TaskId)
    requires Inv(s) && Enabled(s, Finish(task))
    ensures Inv(Apply(s, Finish(task)))
  {
  }

  lemma {:induction false} DroppingKeepsInv(s: RunnerState, task: TaskId)
    requires Inv(s) && task in s.tasks
    ensures Inv(Dropped(s, task))
  {
  }

  lemma {:induction false} TryingKeepsInv(s: RunnerState, task: TaskId, t: Task)
    requires Inv(s) && task in s.tasks && s.tasks[task].Ready?
    requires t.Holds() && t.rel == s.tasks[task].rel && t.lock == s.tasks[task].lock
    ensures Inv(if t.lock in s.held then Dropped(s, task) else s.(held := s.held[t.lock := task], tasks := s.tasks[task := t]))
  {
    if t.lock in s.held {
      DroppingKeepsInv(s, task);
    } else {
      TakingKeepsInv(s, task, t);
    }
  }

  lemma {:induction false} StepKeepsInv(s: RunnerState, step: Step)
    requires Inv(s) && Enabled(s, step)
    ensures Inv(Apply(s, step))
  {
    match step
    case Start(task, rel) => NewTaskKeepsInv(s, task, rel, s.running[rel := task]);
    case Stop(rel) =>
    case Request(task, rel) => NewTaskKeepsInv(s, task, rel, s.running);
    case GetGuard(task, lock) => GetGuardKeepsInv(s, task, lock);
    case Lock(task) => TakingKeepsInv(s, task, Executing(s.tasks[task].rel, s.tasks[task].lock));
    case TryLock(task) => TryingKeepsInv(s, task, Executing(s.tasks[task].rel, s.tasks[task].lock));
    case Peek(task) => TryingKeepsInv(s, task, Peeking(s.tasks[task].rel, s.tasks[task].lock));
    case Finish(task) => FinishKeepsInv(s, task);
    case Abort(task) => DroppingKeepsInv(s, task);
  }

  ghost predicate Execution(states: seq<RunnerState>, steps: seq<Step>) {
    |states| == |steps| + 1 && states[0] == NOTHING_RUNS &&
    forall i :: 0 <= i < |steps| ==> Enabled(states[i], steps[i]) && states[i + 1] == Apply(states[i], steps[i])
  }

  lemma {:induction false} ExecutionKeepsInv(states: seq<RunnerState>, steps: seq<Step>, i: nat)
    requires Execution(states, steps) && i < |states|
    ensures Inv(states[i])
  {
    if i > 0 {
      ExecutionKeepsInv(states, steps, i - 1);
      StepKeepsInv(states[i - 1], steps[i - 1]);
    }
  }

  predicate Executes(s: RunnerState, task: TaskId, rel: string) {
    task in s.tasks && s.tasks[task].Executing? && s.tasks[task].rel == rel
  }

  /** Whatever starts, stops, triggers and resyncs interleave: at most one sync executes per relationship. */
  lemma {:induction false} OneSyncPerRelationship(states: seq<RunnerState>, steps: seq<Step>, i: nat, rel: string, a: TaskId, b: TaskId)
    requires Execution(states, steps) && i < |states|
    requires Executes(states[i], a, rel) && Executes(states[i], b, rel)
    ensures a == b
  {
    ExecutionKeepsInv(states, steps, i);
  }

  predicate Peeks(s: RunnerState, task: TaskId, rel: string) {
    task in s.tasks && s.tasks[task].Peeking? && s.tasks[task].rel == rel
  }

  /** Nobody syncs the relationship, and no status query is just trying its guard. */
  ghost predicate Free(s: RunnerState, rel: string) {
    forall task :: !Executes(s, task, rel) && !Peeks(s, task, rel)
  }

  /**
   The guard of a task is free exactly when nobody executes its relationship and no status query
   holds the guard for its moment: then a loop goes ahead, and a request is not refused.
   */
  lemma {:induction false} GoesAheadIffFree(states: seq<RunnerState>, steps: seq<Step>, i: nat, task: TaskId)
    requires Execution(states, steps) && i < |states| && task in states[i].tasks && states[i].tasks[task].Ready?
    ensures Enabled(states[i], Lock(task)) <==> Free(states[i], states[i].tasks[task].rel)
    ensures Executes(Apply(states[i], TryLock(task)), task, states[i].tasks[task].rel) <==> Free(states[i], states[i].tasks[task].rel)
  {
    ExecutionKeepsInv(states, steps, i);
    HeldIffNotFree(states[i], states[i].tasks[task].rel, states[i].tasks[task].lock);
  }

  lemma {:induction false} HeldIffNotFree(s: RunnerState, rel: string, lock: LockId)
    requires Inv(s) && Get(s.guards, rel) == Some(lock)
    ensures lock in s.held <==> !Free(s, rel)
  {
    if lock in s.held {
      var task := s.held[lock];
      assert Get(s.guards, s.tasks[task].rel) == Some(lock);
      assert Executes(s, task, rel) || Peeks(s, task, rel);
    }
  }

  /** A trigger that comes while a status query tries the guard is refused, though nobody executes. */
  lemma {:induction false} QueryRefusesTrigger(rel: string) returns (states: seq<RunnerState>, steps: seq<Step>)
    ensures Execution(states, steps) && states != []
    ensures var s := states[|states| - 1];
            1 in s.tasks && s.tasks[1].Ready? && s.tasks[1].rel == rel && (forall task :: !Executes(s, task, rel)) &&
            1 !in Apply(s, TryLock(1)).tasks
  {
    var a := Apply(NOTHING_RUNS, Request(0, rel));
    var b := Apply(a, GetGuard(0, 0));
    var c := Apply(b, Peek(0));
    var d := Apply(c, Request(1, rel));
    assert Enabled(d, GetGuard(1, 0));
    var e := Apply(d, GetGuard(1, 0));
    states, steps := [NOTHING_RUNS, a, b, c, d, e], [Request(0, rel), GetGuard(0, 0), Peek(0), Request(1, rel), GetGuard(1, 0)];
  }

  /** Of the first n steps the i-th starts this loop, and none after it stops the relationship. */
  ghost predicate StartedAt(steps: seq<Step>, i: nat, n: nat, rel: string, task: TaskId) {
    i < n <= |steps| && steps[i] == Start(task, rel) && forall j :: i < j < n ==> steps[j] != Stop(rel)
  }

  ghost predicate Started(steps: seq<Step>, n: nat, rel: string, task: TaskId) {
    exists i :: StartedAt(steps, i, n, rel, task)
  }

  /** What one step does to the loop of a relationship. */
  lemma {:induction false} StepOnLoop(s: RunnerState, step: Step, rel: string)
    requires Enabled(s, step)
    ensures Get(Apply(s, step).running, rel) ==
            if step.Start? && step.rel == rel then Some(step.task) else if step == Stop(rel) then None else Get(s.running, rel)
    ensures step.Start? && step.rel == rel ==> Get(s.running, rel) == None
  {
  }

  /** The loop of a relationship is the one last started, if the relationship has not been stopped since. */
  lemma {:induction false} RunsIffStarted(states: seq<RunnerState>, steps: seq<Step>, n: nat, rel: string, task: TaskId)
    requires Execution(states, steps) && n <= |steps|
    ensures Get(states[n].running, rel) == Some(task) <==> Started(steps, n, rel, task)
  {
    if n > 0 {
      RunsIffStarted(states, steps, n - 1, rel, task);
      StepOnLoop(states[n - 1], steps[n - 1], rel);
      OneMoreStep(steps, n - 1, rel, task);
    }
  }

  lemma {:induction false} OneMoreStep(steps: seq<Step>, m: nat, rel: string, task: TaskId)
    requires m < |steps|
    ensures Started(steps, m + 1, rel, task) <==>
            steps[m] == Start(task, rel) || (steps[m] != Stop(rel) && Started(steps, m, rel, task))
  {
    if steps[m] == Start(task, rel) {
      assert StartedAt(steps, m, m + 1, rel, task);
    }
    if Started(steps, m + 1, rel, task) {
      var i: nat :| StartedAt(steps, i, m + 1, rel, task);
      assert i < m ==> StartedAt(steps, i, m, rel, task);
    }
    if Started(steps, m, rel, task) {
      var i: nat :| StartedAt(steps, i, m, rel, task);
      assert steps[m] != Stop(rel) ==> StartedAt(steps, i, m + 1, rel, task);
    }
  }

  /** A relationship can be started exactly when it was never started or has been stopped since. */
  lemma {:induction false} StartsIffStopped(states: seq<RunnerState>, steps: seq<Step>, n: nat, rel: string, task: TaskId)
    requires Execution(states, steps) && n <= |steps| && task !in states[n].tasks
    ensures Enabled(states[n], Start(task, rel)) <==> forall other: TaskId :: !Started(steps, n, rel, other)
  {
    forall other: TaskId
      ensures Get(states[n].running, rel) == Some(other) <==> Started(steps, n, rel, other)
    {
      RunsIffStarted(states, steps, n, rel, other);
    }
    if rel in states[n].running {
      assert Started(steps, n, rel, states[n].running[rel]);
    }
  }

  /** A guard once made is the guard of its relationship for good. */
  lemma {:induction false} GuardIsForGood(states: seq<RunnerState>, steps: seq<Step>, i: nat, j: nat, rel: string)
    requires Execution(states, steps) && i <= j < |states| && rel in states[i].guards
    ensures Get(states[j].guards, rel) == Get(states[i].guards, rel)
  {
    if i < j {
      GuardIsForGood(states, steps, i, j - 1, rel);
      assert states[j] == Apply(states[j - 1], steps[j - 1]) && Enabled(states[j - 1], steps[j - 1]);
    }
  }

  /**
   A loop stopped in the middle of a sync, and started again at once: both are there, the old one
   still executing; the new one waits until the old one is gone.
   */
  lemma {:induction false} RestartedLoopWaits(rel: string) returns (states: seq<RunnerState>, steps: seq<Step>)
    ensures Execution(states, steps) && states != []
    ensures var s := states[|states| - 1];
            Get(s.running, rel) == Some(1) && Executes(s, 0, rel) && 1 in s.tasks && s.tasks[1].Ready? &&
            !Enabled(s, Lock(1)) && Enabled(s, Abort(0)) && Enabled(Apply(s, Abort(0)), Lock(1))
  {
    var a := Apply(NOTHING_RUNS, Start(0, rel));
    var b := Apply(a, GetGuard(0, 0));
    var c := Apply(b, Lock(0));
    var d := Apply(c, Stop(rel));
    var e := Apply(d, Start(1, rel));
    assert Enabled(e, GetGuard(1, 0));
    var f := Apply(e, GetGuard(1, 0));
    states := [NOTHING_RUNS, a, b, c, d, e, f];
    steps := [Start(0, rel), GetGuard(0, 0), Lock(0), Stop(rel), Start(1, rel), GetGuard(1, 0)];
  }

  // ---------------------------------------------------------------------------------------
  // The runner's methods
  // ---------------------------------------------------------------------------------------

  datatype StartError = AlreadyRunning | NotFound | Disabled | NoConnection

  /** What the configuration says of a relationship. */
  datatype Configured = Missing | Relationship(enabled: bool, connectionKnown: bool)

  class SyncRunner {
    var running: map<string, TaskId>
    var executionGuards: map<string, LockId>
    var held: map<LockId, TaskId>
    var tasks: map<TaskId, Task>

    constructor ()
      ensures State() == NOTHING_RUNS
    {
      running, executionGuards, held, tasks := map[], map[], map[], map[];
    }

    function State(): RunnerState
      reads this
    {
      RunnerState(running, executionGuards, held, tasks)
    }

    method Start(task: TaskId, rel: string, configured: Configured) returns (error: Option<StartError>)
      requires task !in tasks
      modifies this`running, this`tasks
      ensures error.None? <==> rel !in old(running) && configured == Relationship(true, true)
      ensures error == Some(AlreadyRunning) <==> rel in old(running)
      ensures State() == if error.None? then Apply(old(State()), Step.Start(task, rel)) else old(State())
    {
      if rel in running {
        return Some(AlreadyRunning);
      }
      if configured.Missing? {
        return Some(NotFound);
      }
      if !configured.enabled {
        return Some(Disabled);
      }
      if !configured.connectionKnown {
        return Some(NoConnection);
      }
      tasks := tasks[task := Idle(rel)];
      running := running[rel := task];
      error := None;
    }

    /** The loop leaves the map at once; its task is aborted and may take a while to go. */
    method Stop(rel: string) returns (stopped: Option<TaskId>)
      modifies this`running
      ensures stopped == Get(old(running), rel)
      ensures State() == if stopped.Some? then Apply(old(State()), Step.Stop(rel)) else old(State())
    {
      stopped := Get(running, rel);
      if stopped.Some? {
        running := running - {rel};
      }
    }

    /** `get_execution_guard`: made on first use, the same one ever after. */
    method GetExecutionGuard(task: TaskId, fresh_: LockId) returns (lock: LockId)
      requires task in tasks && tasks[task].Idle? && fresh_ !in executionGuards.Values
      modifies this`executionGuards, this`tasks
      ensures Get(old(executionGuards), old(tasks)[task].rel) in {None, Some(lock)} && Get(executionGuards, old(tasks)[task].rel) == Some(lock)
      ensures State() == Apply(old(State()), GetGuard(task, fresh_)) && tasks[task] == Ready(old(tasks)[task].rel, lock)
    {
      var rel := tasks[task].rel;
      if rel !in executionGuards {
        executionGuards := executionGuards[rel := fresh_];
      }
      lock := executionGuards[rel];
      tasks := tasks[task := Ready(rel, lock)];
    }

    /** The guard of a request: refused while a sync of the relationship executes. */
    method TryExecute(task: TaskId) returns (acquired: bool)
      requires task in tasks && tasks[task].Ready?
      modifies this`held, this`tasks
      ensures acquired <==> old(tasks)[task].lock !in old(held)
      ensures State() == Apply(old(State()), TryLock(task))
    {
      var t := tasks[task];
      acquired := t.lock !in held;
      if acquired {
        held := held[t.lock := task];
        tasks := tasks[task := Executing(t.rel, t.lock)];
      } else {
        tasks := tasks - {task};
      }
    }

    /** `executing` of `status`: somebody holds the guard, which is made if there is none yet. */
    method Status(rel: string, fresh_: LockId) returns (executing: bool)
      requires Inv(State()) && fresh_ !in executionGuards.Values
      modifies this`executionGuards
      ensures executing <==> !Free(old(State()), rel)
      ensures State() == old(State()).(guards := NewLock(old(executionGuards), rel, fresh_)) && Inv(State())
    {
      if rel !in executionGuards {
        executionGuards := executionGuards[rel := fresh_];
      }
      NewLockKeepsInv(old(State()), rel, fresh_);
      executing := executionGuards[rel] in held;
      HeldIffNotFree(State(), rel, executionGuards[rel]);
      assert Free(State(), rel) <==> Free(old(State()), rel) by {
        assert forall task :: Executes(State(), task, rel) == Executes(old(State()), task, rel) && Peeks(State(), task, rel) == Peeks(old(State()), task, rel);
      }
    }
  }

  lemma {:induction false} NewLockKeepsInv(s: RunnerState, rel: string, lock: LockId)
    requires Inv(s) && lock !in s.guards.Values
    ensures Inv(s.(guards := NewLock(s.guards, rel, lock)))
  {
    forall a | a in s.guards ensures s.guards[a] != lock {
      assert s.guards[a] in s.guards.Values;
    }
  }

  // ---------------------------------------------------------------------------------------
  // Retries
  // ---------------------------------------------------------------------------------------

  const TRANSIENT_SYNC_RETRY_INITIAL_DELAY := 60

  const TRANSIENT_SYNC_RETRY_MAX_DELAY := 900

  const WATCHED_SAFETY_NET_MIN_SECONDS := 3600

  datatype SyncEnd = Succeeded | FailedTransiently | FailedOtherwise | TimerFired

  /** The timer is set for `setFor` seconds when armed; `delay` is what the next failure asks for. */
  datatype Retry = Retry(armed: bool, delay: nat, setFor: nat)

  const AT_FIRST := Retry(false, TRANSIENT_SYNC_RETRY_INITIAL_DELAY, TRANSIENT_SYNC_RETRY_INITIAL_DELAY)

  function Min(a: nat, b: nat): nat { if a < b then a else b }

  class RetryState {
    var armed: bool
    var delay: nat
    var setFor: nat

    constructor ()
      ensures State() == AT_FIRST
    {
      armed, delay, setFor := false, TRANSIENT_SYNC_RETRY_INITIAL_DELAY, TRANSIENT_SYNC_RETRY_INITIAL_DELAY;
    }

    function State(): Retry
      reads this
    {
      Retry(armed, delay, setFor)
    }

    method OnSuccess()
      modifies this
      ensures State() == Retried(old(State()), Succeeded)
    {
      delay := TRANSIENT_SYNC_RETRY_INITIAL_DELAY;
      armed := false;
    }

    /** `arm_transient_retry`. */
    method ArmTransientRetry(transient: bool) returns (armedFor: Option<nat>)
      modifies this
      ensures armedFor == if transient then Some(setFor) else None
      ensures State() == Retried(old(State()), if transient then FailedTransiently else FailedOtherwise)
    {
      if !transient {
        return None;
      }
      var wait := Min(delay, TRANSIENT_SYNC_RETRY_MAX_DELAY);
      setFor := wait;
      armed := true;
      delay := Min(wait * 2, TRANSIENT_SYNC_RETRY_MAX_DELAY);
      armedFor := Some(wait);
    }

    method Fire() returns (fires: bool)
      modifies this
      ensures fires == old(armed) && State() == Retried(old(State()), TimerFired)
    {
      fires := armed;
      armed := false;
    }
  }

  /** The loop's handling of one sync after the other, and of its timer. */
  method HandleEnds(ends: seq<SyncEnd>) returns (retry: RetryState)
    ensures fresh(retry) && retry.State() == After(ends)
  {
    retry := new RetryState();
    for n := 0 to |ends|
      invariant fresh(retry) && retry.State() == After(ends[..n])
    {
      assert ends[..n + 1][..n] == ends[..n];
      match ends[n] {
        case Succeeded => retry.OnSuccess();
        case FailedTransiently => var armedFor := retry.ArmTransientRetry(true);
        case FailedOtherwise => var armedFor := retry.ArmTransientRetry(false);
        case TimerFired => var fires := retry.Fire();
      }
    }
    assert ends[..|ends|] == ends;
  }

  function Retried(r: Retry, end: SyncEnd): Retry {
    match end
    case Succeeded => r.(armed := false, delay := TRANSIENT_SYNC_RETRY_INITIAL_DELAY)
    case FailedOtherwise => r
    case TimerFired => r.(armed := false)
    case FailedTransiently =>
      var wait := Min(r.delay, TRANSIENT_SYNC_RETRY_MAX_DELAY);
      Retry(true, Min(wait * 2, TRANSIENT_SYNC_RETRY_MAX_DELAY), wait)
  }

  function After(ends: seq<SyncEnd>): Retry {
    if ends == [] then AT_FIRST else Retried(After(ends[..|ends| - 1]), ends[|ends| - 1])
  }

  /** Transient failures since the last success. */
  function Streak(ends: seq<SyncEnd>): nat {
    if ends == [] then 0
    else
      var front := Streak(ends[..|ends| - 1]);
      match ends[|ends| - 1]
      case Succeeded => 0
      case FailedTransiently => front + 1
      case _ => front
  }

  function Pow2(k: nat): nat { if k == 0 then 1 else 2 * Pow2(k - 1) }

  /** min(60 * 2^k, 900) */
  function Backoff(k: nat): nat {
    Min(60 * Pow2(k), 900)
  }

  lemma {:induction false} DelayFollowsStreak(ends: seq<SyncEnd>)
    ensures After(ends).delay == Backoff(Streak(ends))
  {
    if ends != [] {
      DelayFollowsStreak(ends[..|ends| - 1]);
    }
  }

  /**
   After any history of successes, failures of either kind and timers fired, the k-th transient
   failure since the last success (counting from 0) arms a retry of exactly min(60 * 2^k, 900)
   seconds, and a failure of another kind changes nothing.
   */
  lemma {:induction false} KthFailureBacksOff(ends: seq<SyncEnd>)
    ensures var after := After(ends + [FailedTransiently]);
            after.armed && after.setFor == Backoff(Streak(ends))
    ensures After(ends + [FailedOtherwise]) == After(ends)
  {
    DelayFollowsStreak(ends);
    assert (ends + [FailedTransiently])[..|ends|] == ends && (ends + [FailedOtherwise])[..|ends|] == ends;
  }

  /** A transient failure after which nothing succeeded and no timer fired. */
  ghost predicate PendingSince(ends: seq<SyncEnd>, i: int) {
    0 <= i < |ends| && ends[i].FailedTransiently? && forall j :: i < j < |ends| ==> !ends[j].Succeeded? && !ends[j].TimerFired?
  }

  /** A retry is armed exactly when such a failure is pending. */
  lemma {:induction false} ArmedIffPending(ends: seq<SyncEnd>)
    ensures After(ends).armed <==> exists i :: PendingSince(ends, i)
  {
    if ends != [] {
      var n := |ends| - 1;
      ArmedIffPending(ends[..n]);
      forall i | i < n ensures PendingSince(ends, i) <==> PendingSince(ends[..n], i) && !ends[n].Succeeded? && !ends[n].TimerFired? {
        if PendingSince(ends, i) {
          assert ends[..n][i] == ends[i];
        }
        if PendingSince(ends[..n], i) {
          assert forall j :: i < j < n ==> ends[j] == ends[..n][j];
        }
      }
      assert PendingSince(ends, n) <==> ends[n].FailedTransiently?;
    }
  }

  /** `periodic_safety_net_interval_seconds`: with a watcher or a listener the safety net never runs more than hourly. */
  function PeriodicSafetyNetIntervalSeconds(configured: nat, fsWatcher: bool, sseListener: bool): (seconds: nat)
    ensures seconds >= configured && (fsWatcher || sseListener ==> seconds >= 3600)
    ensures seconds == configured || (seconds == 3600 && configured < 3600)
    ensures !fsWatcher && !sseListener ==> seconds == configured
  {
    if (fsWatcher || sseListener) && configured < WATCHED_SAFETY_NET_MIN_SECONDS then WATCHED_SAFETY_NET_MIN_SECONDS else configured
  }
}

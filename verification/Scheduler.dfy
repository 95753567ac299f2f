/** The daemon's scheduler: tasks wait for the tasks they depend on. */
module Scheduler {

  datatype Phase = New | Acked | ReadyForReview | EvidenceReady | Committed | Blocked | Stuck | Abandoned

  /** `deps` is empty when the task has no (readable) dependency list. */
  datatype Task = Task(phase: Phase, deps: seq<string>, hasBody: bool, knownExecutor: bool)

  type Store = map<string, Task>

  /** What an executor does with a task handed to it. */
  datatype Outcome = Raised | Session | NoSession

  predicate Failure(phase: Phase) {
    phase in [Blocked, Abandoned, Stuck]
  }

  predicate Success(phase: Phase) {
    phase in [ReadyForReview, EvidenceReady, Committed]
  }

  predicate Succeeded(store: Store, id: string) {
    id in store && Success(store[id].phase)
  }

  predicate FailedTask(store: Store, id: string) {
    id !in store || Failure(store[id].phase)
  }

  predicate IsNew(store: Store, id: string) {
    id in store && store[id].phase == New
  }

  predicate AllSucceeded(store: Store, deps: seq<string>) {
    forall i :: 0 <= i < |deps| ==> Succeeded(store, deps[i])
  }

  // ----- judging the dependencies -----

  datatype Verdict = Satisfied | Hopeless(dep: string) | Waiting

  /** The first dependency that has not succeeded decides. */
  function Judge(store: Store, deps: seq<string>): Verdict {
    if deps == [] then Satisfied
    else if FailedTask(store, deps[0]) then Hopeless(deps[0])
    else if !Succeeded(store, deps[0]) then Waiting
    else Judge(store, deps[1..])
  }

  lemma {:induction false} SatisfiedMeansAll(store: Store, deps: seq<string>)
    ensures Judge(store, deps) == Satisfied <==> AllSucceeded(store, deps)
  {
    if deps != [] {
      SatisfiedMeansAll(store, deps[1..]);
      assert deps == [deps[0]] + deps[1..];
    }
  }

  // ----- one pass over the waiting tasks, as a function -----

  predicate Ready(store: Store, id: string) {
    id in store && store[id].deps != [] && store[id].hasBody && store[id].knownExecutor
    && AllSucceeded(store, store[id].deps)
  }

  function WithPhase(store: Store, id: string, phase: Phase): Store
    requires id in store
  {
    store[id := store[id].(phase := phase)]
  }

  /** The store after one waiting task has been considered, and whether it was handed to its executor. */
  function Consider(store: Store, id: string, outcome: Outcome): (Store, bool)
    requires id in store
  {
    var task := store[id];
    if task.deps == [] then (store, false)
    else
      match Judge(store, task.deps)
      case Hopeless(_) => (WithPhase(store, id, Blocked), false)
      case Waiting => (store, false)
      case Satisfied =>
        if !task.hasBody || task.phase != New || !task.knownExecutor then (store, false)
        else
          match outcome
          case Raised => (WithPhase(store, id, Blocked), true)
          case Session => (WithPhase(store, id, Acked), true)
          case NoSession => (store, true)
  }

  predicate Distinct(ids: seq<string>) {
    forall i, j :: 0 <= i < j < |ids| ==> ids[i] != ids[j]
  }

  /** Some waiting tasks, each once. */
  predicate IsScan(store: Store, scan: seq<string>) {
    Distinct(scan) && forall i :: 0 <= i < |scan| ==> IsNew(store, scan[i])
  }

  const LIMIT: nat := 100

  /** What listing the new tasks returns: some of them when there are more than the limit, else all. */
  ghost predicate Listed(store: Store, scan: seq<string>) {
    && IsScan(store, scan) && |scan| <= LIMIT
    && (|scan| < LIMIT ==> forall id :: id in store && store[id].phase == New ==> id in scan)
  }

  /** The store after the pass, and the tasks handed to executors, in order. */
  function Tick(store: Store, scan: seq<string>, outcomes: string -> Outcome): (Store, seq<string>) {
    if scan == [] then (store, [])
    else
      var n := |scan| - 1;
      var (before, handed) := Tick(store, scan[..n], outcomes);
      if scan[n] !in before then (before, handed)
      else
        var (after, dispatched) := Consider(before, scan[n], outcomes(scan[n]));
        (after, if dispatched then handed + [scan[n]] else handed)
  }

  /** How many of the tasks handed over were taken without an exception. */
  function Advanced(handed: seq<string>, outcomes: string -> Outcome): nat {
    if handed == [] then 0
    else
      var n := |handed| - 1;
      Advanced(handed[..n], outcomes) + (if outcomes(handed[n]) == Raised then 0 else 1)
  }

  // ----- the daemon -----

  class TaskRepository {
    var tasks: Store

    constructor ()
      ensures tasks == map[]
    {
      tasks := map[];
    }

    /** The first loop over a task's dependencies. */
    method JudgeDependencies(deps: seq<string>) returns (satisfied: bool, hopeless: bool)
      ensures match Judge(tasks, deps)
        case Satisfied => satisfied && !hopeless
        case Hopeless(_) => !satisfied && hopeless
        case Waiting => !satisfied && !hopeless
    {
      satisfied, hopeless := true, false;
      assert deps[0..] == deps;
      for i := 0 to |deps|
        invariant satisfied && !hopeless && Judge(tasks, deps) == Judge(tasks, deps[i..])
      {
        assert deps[i..][1..] == deps[i + 1..];
        if FailedTask(tasks, deps[i]) {
          satisfied, hopeless := false, true;
          return;
        }
        if !Succeeded(tasks, deps[i]) {
          satisfied := false;
          return;
        }
      }
    }

    /** `scan` is what the repository lists as new; `outcomes` what the executors will do. */
    method AutoAdvanceDependentTasks(scan: seq<string>, outcomes: string -> Outcome) returns (count: nat)
      requires Listed(tasks, scan)
      modifies this
      ensures tasks == Tick(old(tasks), scan, outcomes).0
      ensures count == Advanced(Tick(old(tasks), scan, outcomes).1, outcomes)
    {
      count := 0;
      for n := 0 to |scan|
        invariant tasks == Tick(old(tasks), scan[..n], outcomes).0
        invariant count == Advanced(Tick(old(tasks), scan[..n], outcomes).1, outcomes)
        invariant tasks.Keys == old(tasks).Keys
      {
        hide Judge;
        assert scan[..n + 1][..n] == scan[..n];
        var id := scan[n];
        ghost var handed := Tick(old(tasks), scan[..n], outcomes).1;
        assert (handed + [id])[..|handed|] == handed;
        if tasks[id].deps == [] {
          continue;
        }
        var satisfied, hopeless := JudgeDependencies(tasks[id].deps);
        if hopeless {
          tasks := WithPhase(tasks, id, Blocked);
          continue;
        }
        if !satisfied || !tasks[id].hasBody {
          continue;
        }
        var again := tasks[id];
        if again.phase != New || !again.knownExecutor {
          continue;
        }
        match outcomes(id)
        case Raised =>
          tasks := WithPhase(tasks, id, Blocked);
        case Session =>
          tasks := WithPhase(tasks, id, Acked);
          count := count + 1;
        case NoSession =>
          count := count + 1;
      }
      assert scan[..|scan|] == scan;
    }
  }
}

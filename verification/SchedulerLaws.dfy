/** What the scheduler guarantees: order, progress, completion. */
module SchedulerLaws {
  import opened Scheduler

  // ----- what one pass can change -----

  /** A pass moves scanned tasks out of `New`, to `Blocked` or `Acked`, and changes nothing else. */
  predicate Evolved(a: Store, b: Store, scan: seq<string>) {
    && a.Keys == b.Keys
    && forall id :: id in a ==>
      && b[id] == a[id].(phase := b[id].phase)
      && (b[id].phase != a[id].phase ==> id in scan && a[id].phase == New && b[id].phase in [Blocked, Acked])
  }

  lemma ConsiderEvolves(store: Store, id: string, outcome: Outcome)
    requires IsNew(store, id)
    ensures Evolved(store, Consider(store, id, outcome).0, [id])
  {
    hide Judge;
  }

  lemma EvolvedTwice(a: Store, b: Store, c: Store, scan: seq<string>, id: string)
    requires Evolved(a, b, scan) && Evolved(b, c, [id]) && id !in scan
    ensures Evolved(a, c, scan + [id])
  {
  }

  lemma StillNew(a: Store, b: Store, scan: seq<string>, id: string)
    requires Evolved(a, b, scan) && id !in scan && IsNew(a, id)
    ensures IsNew(b, id) && b[id] == a[id]
  {
  }

  lemma {:induction false} TickEvolves(store: Store, scan: seq<string>, outcomes: string -> Outcome)
    requires IsScan(store, scan)
    ensures Evolved(store, Tick(store, scan, outcomes).0, scan)
  {
    hide Consider;
    hide Evolved;
    if scan == [] {
      NothingEvolves(store);
    } else {
      var n := |scan| - 1;
      TickEvolves(store, scan[..n], outcomes);
      var before := Tick(store, scan[..n], outcomes).0;
      assert scan == scan[..n] + [scan[n]];
      StillNew(store, before, scan[..n], scan[n]);
      ConsiderEvolves(before, scan[n], outcomes(scan[n]));
      EvolvedTwice(store, before, Consider(before, scan[n], outcomes(scan[n])).0, scan[..n], scan[n]);
    }
  }

  lemma NothingEvolves(store: Store)
    ensures Evolved(store, store, [])
  {
  }

  lemma SuccessIsStable(a: Store, b: Store, scan: seq<string>, deps: seq<string>)
    requires Evolved(a, b, scan)
    ensures AllSucceeded(a, deps) <==> AllSucceeded(b, deps)
  {
    forall i | 0 <= i < |deps| ensures Succeeded(a, deps[i]) <==> Succeeded(b, deps[i]) {
    }
  }

  /** A verdict other than `Waiting` does not change during a pass. */
  lemma {:induction false} VerdictIsStable(a: Store, b: Store, scan: seq<string>, deps: seq<string>)
    requires Evolved(a, b, scan) && Judge(a, deps) != Waiting
    ensures Judge(b, deps) == Judge(a, deps)
  {
    if deps != [] {
      if !FailedTask(a, deps[0]) {
        VerdictIsStable(a, b, scan, deps[1..]);
      }
    }
  }

  // ----- exactly which tasks are handed to their executors -----

  lemma HandedNow(store: Store, id: string, outcome: Outcome)
    requires IsNew(store, id)
    ensures Consider(store, id, outcome).1 <==> Ready(store, id)
  {
    SatisfiedMeansAll(store, store[id].deps);
  }

  /** A pass hands over exactly the scanned tasks whose dependencies had all succeeded when the pass began
      (and whose text and executor are known), each of them once. */
  lemma {:induction false} HandedIffReady(store: Store, scan: seq<string>, outcomes: string -> Outcome, id: string)
    requires IsScan(store, scan)
    ensures id in Tick(store, scan, outcomes).1 <==> id in scan && Ready(store, id)
    ensures Distinct(Tick(store, scan, outcomes).1)
  {
    hide Consider;
    hide Evolved;
    hide Ready;
    if scan != [] {
      var n := |scan| - 1;
      var last := scan[n];
      HandedIffReady(store, scan[..n], outcomes, id);
      HandedIffReady(store, scan[..n], outcomes, last);
      TickEvolves(store, scan[..n], outcomes);
      var before := Tick(store, scan[..n], outcomes).0;
      assert scan == scan[..n] + [last];
      StillNew(store, before, scan[..n], last);
      HandedNow(before, last, outcomes(last));
      ReadyIsStable(store, before, scan[..n], last);
    }
  }

  lemma ReadyIsStable(a: Store, b: Store, scan: seq<string>, id: string)
    requires Evolved(a, b, scan) && id in a && b[id] == a[id]
    ensures Ready(a, id) <==> Ready(b, id)
  {
    SuccessIsStable(a, b, scan, a[id].deps);
  }

  /** The number a pass returns: how many of the tasks it handed over were taken without an exception. */
  lemma {:induction false} AdvancedCounts(handed: seq<string>, outcomes: string -> Outcome)
    requires Distinct(handed)
    ensures Advanced(handed, outcomes) == |set id | id in handed && outcomes(id) != Raised|
  {
    if handed != [] {
      var n := |handed| - 1;
      AdvancedCounts(handed[..n], outcomes);
      var before := set id | id in handed[..n] && outcomes(id) != Raised;
      var all := set id | id in handed && outcomes(id) != Raised;
      assert handed[n] !in handed[..n] && handed == handed[..n] + [handed[n]];
      assert all == if outcomes(handed[n]) == Raised then before else before + {handed[n]};
    }
  }

  /** What becomes of a task whose fate is clear when the pass begins. */
  function Fate(store: Store, id: string, outcome: Outcome): Phase
    requires id in store
  {
    var task := store[id];
    if task.deps == [] then task.phase
    else if Judge(store, task.deps).Hopeless? then Blocked
    else if !Ready(store, id) then task.phase
    else match outcome case Raised => Blocked case Session => Acked case NoSession => task.phase
  }

  lemma ConsiderFate(store: Store, id: string, outcome: Outcome)
    requires IsNew(store, id)
    ensures Consider(store, id, outcome).0[id].phase == Fate(store, id, outcome)
  {
    SatisfiedMeansAll(store, store[id].deps);
  }

  lemma FateIsStable(a: Store, b: Store, scan: seq<string>, id: string, outcome: Outcome)
    requires Evolved(a, b, scan) && id in a && b[id] == a[id] && Judge(a, a[id].deps) != Waiting
    ensures Fate(b, id, outcome) == Fate(a, id, outcome)
  {
    hide Evolved;
    VerdictIsStable(a, b, scan, a[id].deps);
    ReadyIsStable(a, b, scan, id);
  }

  /** A scanned task that is not waiting when the pass begins: blocked if a dependency failed, handed over if all
      succeeded, and then blocked, acknowledged or left new as the executor answers. */
  lemma {:induction false} TickDecides(store: Store, scan: seq<string>, outcomes: string -> Outcome, id: string)
    requires IsScan(store, scan) && id in scan && Judge(store, store[id].deps) != Waiting
    ensures var after := Tick(store, scan, outcomes).0;
      id in after && after[id].phase == Fate(store, id, outcomes(id))
  {
    hide Consider;
    hide Fate;
    hide Evolved;
    hide Judge;
    var n := |scan| - 1;
    var last := scan[n];
    var before := Tick(store, scan[..n], outcomes).0;
    assert scan == scan[..n] + [last];
    TickEvolves(store, scan[..n], outcomes);
    StillNew(store, before, scan[..n], last);
    ConsiderEvolves(before, last, outcomes(last));
    if id == last {
      ConsiderFate(before, id, outcomes(id));
      FateIsStable(store, before, scan[..n], id, outcomes(id));
      KeepsKeys(before, Consider(before, last, outcomes(last)).0, [last], id);
    } else {
      TickDecides(store, scan[..n], outcomes, id);
      Untouched(before, Consider(before, last, outcomes(last)).0, last, id);
    }
  }

  lemma KeepsKeys(a: Store, b: Store, scan: seq<string>, id: string)
    requires Evolved(a, b, scan) && id in a
    ensures id in b
  {
  }

  lemma Untouched(a: Store, b: Store, other: string, id: string)
    requires Evolved(a, b, [other]) && id in a && id != other
    ensures id in b && b[id] == a[id]
  {
  }

  /** The phases in which a task has succeeded, and those in which it has failed. */
  predicate Done(phase: Phase) {
    phase == ReadyForReview || phase == EvidenceReady || phase == Committed
  }

  predicate Over(phase: Phase) {
    phase == Blocked || phase == Abandoned || phase == Stuck
  }

  /** Dependency `k` is missing or failed, and every one before it has succeeded. */
  predicate StopsAt(store: Store, deps: seq<string>, k: nat) {
    && k < |deps| && (deps[k] !in store || Over(store[deps[k]].phase))
    && forall j :: 0 <= j < k ==> deps[j] in store && Done(store[deps[j]].phase)
  }

  lemma {:induction false} HopelessIff(store: Store, deps: seq<string>)
    ensures Judge(store, deps).Hopeless? <==> exists k :: StopsAt(store, deps, k)
  {
    if deps != [] {
      HopelessIff(store, deps[1..]);
      if Succeeded(store, deps[0]) {
        forall k: nat ensures StopsAt(store, deps, k + 1) <==> StopsAt(store, deps[1..], k) {
          StopsLater(store, deps, k);
        }
        assert !StopsAt(store, deps, 0);
        if k: nat :| StopsAt(store, deps, k) {
          assert StopsAt(store, deps[1..], k - 1);
        }
        if k: nat :| StopsAt(store, deps[1..], k) {
          assert StopsAt(store, deps, k + 1);
        }
      } else if FailedTask(store, deps[0]) {
        assert StopsAt(store, deps, 0);
      }
    }
  }

  lemma StopsLater(store: Store, deps: seq<string>, k: nat)
    requires deps != [] && Succeeded(store, deps[0])
    ensures StopsAt(store, deps, k + 1) <==> StopsAt(store, deps[1..], k)
  {
    if StopsAt(store, deps, k + 1) {
      assert forall j :: 0 <= j < k ==> deps[1..][j] == deps[j + 1];
    }
    if StopsAt(store, deps[1..], k) {
      assert forall j :: 0 < j < k + 1 ==> deps[j] == deps[1..][j - 1];
    }
  }

  /** The table of decisions, in phases, by the store as it is when the pass comes to the task. A scanned task is handed
      over exactly when it has dependencies, a body and a known executor, and every dependency is ready for review, has
      evidence ready or is committed; for that the store at the start of the pass would do. It is blocked without being
      handed over exactly when a dependency is missing, blocked, abandoned or stuck, and those before it are fine. */
  lemma PassDecides(store: Store, scan: seq<string>, outcomes: string -> Outcome, k: nat)
    requires IsScan(store, scan) && k < |scan|
    ensures var (after, handed) := Tick(store, scan, outcomes);
      var id, seen := scan[k], Tick(store, scan[..k], outcomes).0;
      && id in store && id in seen && id in after && seen[id] == store[id]
      && (id in handed <==>
            store[id].deps != [] && store[id].hasBody && store[id].knownExecutor
            && forall d :: d in store[id].deps ==> d in store && Done(store[d].phase))
      && (after[id].phase == Blocked && id !in handed <==> exists n :: StopsAt(seen, store[id].deps, n))
      && (id in handed ==>
            after[id].phase == match outcomes(id) case Raised => Blocked case Session => Acked case NoSession => New)
      && (id !in handed && after[id].phase != Blocked ==> after[id].phase == New)
  {
    hide *;
    var id, seen := scan[k], Tick(store, scan[..k], outcomes).0;
    ScanPart(store, scan, k);
    TickEvolves(store, scan[..k], outcomes);
    StillNew(store, seen, scan[..k], id);
    HandedIffReady(store, scan, outcomes, id);
    ReadyIsStable(store, seen, scan[..k], id);
    ReadyIff(store, id);
    Considered(store, scan, outcomes, k, |scan|);
    assert scan[..|scan|] == scan;
    HopelessIff(seen, store[id].deps);
    ConsiderTable(seen, id, outcomes(id));
  }

  lemma ScanPart(store: Store, scan: seq<string>, k: nat)
    requires IsScan(store, scan) && k <= |scan|
    ensures IsScan(store, scan[..k]) && (k < |scan| ==> scan[k] !in scan[..k] && IsNew(store, scan[k]) && scan[k] in store)
  {
  }

  /** After its turn a task is left alone for the rest of the pass. */
  lemma {:induction false} Considered(store: Store, scan: seq<string>, outcomes: string -> Outcome, k: nat, n: nat)
    requires IsScan(store, scan) && k < n <= |scan|
    ensures var seen, after := Tick(store, scan[..k], outcomes).0, Tick(store, scan[..n], outcomes).0;
      && scan[k] in seen && scan[k] in Consider(seen, scan[k], outcomes(scan[k])).0
      && scan[k] in after && after[scan[k]] == Consider(seen, scan[k], outcomes(scan[k])).0[scan[k]]
  {
    hide Consider;
    hide Evolved;
    var id, last := scan[k], scan[n - 1];
    var before := Tick(store, scan[..n - 1], outcomes).0;
    assert scan[..n][..n - 1] == scan[..n - 1] && scan[..n][n - 1] == last;
    ScanPart(store, scan, n - 1);
    TickEvolves(store, scan[..n - 1], outcomes);
    StillNew(store, before, scan[..n - 1], last);
    ConsiderEvolves(before, last, outcomes(last));
    KeepsKeys(before, Consider(before, last, outcomes(last)).0, [last], last);
    if n > k + 1 {
      Considered(store, scan, outcomes, k, n - 1);
      Untouched(before, Consider(before, last, outcomes(last)).0, last, id);
    }
  }

  lemma ReadyIff(store: Store, id: string)
    requires id in store
    ensures Ready(store, id) <==>
      store[id].deps != [] && store[id].hasBody && store[id].knownExecutor
      && forall d :: d in store[id].deps ==> d in store && Done(store[d].phase)
  {
    SuccessIsDone(store, store[id].deps);
  }

  lemma ConsiderTable(store: Store, id: string, outcome: Outcome)
    requires IsNew(store, id) && id in store && id in Consider(store, id, outcome).0
    ensures var after, hopeless := Consider(store, id, outcome).0[id].phase, Judge(store, store[id].deps).Hopeless?;
      && (hopeless ==> after == Blocked && !Ready(store, id))
      && (Ready(store, id) ==> after == match outcome case Raised => Blocked case Session => Acked case NoSession => New)
      && (!hopeless && !Ready(store, id) ==> after == New)
  {
    SatisfiedMeansAll(store, store[id].deps);
  }

  lemma SuccessIsDone(store: Store, deps: seq<string>)
    ensures AllSucceeded(store, deps) <==> forall d :: d in deps ==> d in store && Done(store[d].phase)
  {
    assert forall d :: Succeeded(store, d) <==> d in store && Done(store[d].phase);
    forall i | 0 <= i < |deps| ensures deps[i] in deps {
    }
  }

  // ----- every dispatch comes after the dependencies' success -----

  /** The tasks, and every task id ever given out, in order. */
  datatype World = World(store: Store, born: seq<string>)

  /** `Start` is the start command, `Pass` a daemon pass; `Move` stands for everybody else's phase changes, retries
      and receipts included; `Delete` removes a task that is over. */
  datatype Step =
    | Start(id: string, deps: seq<string>, hasBody: bool, knownExecutor: bool, outcome: Outcome)
    | Pass(scan: seq<string>, outcomes: string -> Outcome)
    | Move(id: string, phase: Phase)
    | Delete(id: string)

  ghost predicate Enabled(w: World, step: Step) {
    match step
    case Start(id, _, _, _, _) => true
    case Pass(scan, _) => Listed(w.store, scan)
    case Move(id, _) => id in w.store
    case Delete(id) => id in w.store && (Success(w.store[id].phase) || Failure(w.store[id].phase))
  }

  /** The start command accepts a fresh id whose dependencies all exist. */
  predicate Accepts(w: World, id: string, deps: seq<string>) {
    id !in w.store && forall i :: 0 <= i < |deps| ==> deps[i] in w.store
  }

  function FirstPhase(w: World, deps: seq<string>, outcome: Outcome): Phase {
    if !AllSucceeded(w.store, deps) then New
    else match outcome case Raised => Blocked case Session => Acked case NoSession => New
  }

  ghost function Apply(w: World, step: Step): World
    requires Enabled(w, step)
  {
    match step
    case Start(id, deps, hasBody, knownExecutor, outcome) =>
      if !Accepts(w, id, deps) then w
      else World(w.store[id := Task(FirstPhase(w, deps, outcome), deps, hasBody, knownExecutor)], w.born + [id])
    case Pass(scan, outcomes) => w.(store := Tick(w.store, scan, outcomes).0)
    case Move(id, phase) => w.(store := WithPhase(w.store, id, phase))
    case Delete(id) => w.(store := w.store - {id})
  }

  /** The tasks handed to executors in the step. */
  ghost function Handed(w: World, step: Step): seq<string>
    requires Enabled(w, step)
  {
    match step
    case Start(id, deps, _, _, _) => if Accepts(w, id, deps) && AllSucceeded(w.store, deps) then [id] else []
    case Pass(scan, outcomes) => Tick(w.store, scan, outcomes).1
    case _ => []
  }

  /** Whoever hands a task over, every one of its dependencies exists and has succeeded at that moment. */
  lemma DispatchFollowsDependencies(w: World, step: Step, id: string)
    requires Enabled(w, step) && id in Handed(w, step)
    ensures id in Apply(w, step).store && AllSucceeded(w.store, Apply(w, step).store[id].deps)
  {
    if step.Pass? {
      hide Tick;
      HandedIffReady(w.store, step.scan, step.outcomes, id);
      TickEvolves(w.store, step.scan, step.outcomes);
    }
  }

  /** The start command, in phases: it accepts a fresh id whose dependencies all exist; it hands the task over at once
      exactly when they are all ready for review, have evidence ready or are committed, and leaves it new otherwise. */
  lemma StartDecides(w: World, id: string, deps: seq<string>, hasBody: bool, knownExecutor: bool, outcome: Outcome)
    ensures var step := Start(id, deps, hasBody, knownExecutor, outcome);
      var accepted := id !in w.store && forall d :: d in deps ==> d in w.store;
      var fine := forall d :: d in deps ==> d in w.store && Done(w.store[d].phase);
      && (!accepted ==> Apply(w, step) == w && Handed(w, step) == [])
      && (accepted ==>
            && Handed(w, step) == (if fine then [id] else [])
            && Apply(w, step).born == w.born + [id]
            && Apply(w, step).store == w.store[id := Task(
                 if !fine then New else match outcome case Raised => Blocked case Session => Acked case NoSession => New,
                 deps, hasBody, knownExecutor)])
  {
    SuccessIsDone(w.store, deps);
    assert (forall i :: 0 <= i < |deps| ==> deps[i] in w.store) <==> forall d :: d in deps ==> d in w.store;
    hide AllSucceeded;
    hide Done;
  }

  /** Only a task that has succeeded or failed can be deleted. */
  lemma DeletedIsOver(w: World, id: string)
    ensures Enabled(w, Delete(id)) <==> id in w.store && (Done(w.store[id].phase) || Over(w.store[id].phase))
  {
  }

  // ----- no cycles, as long as ids are not used again -----

  function Index(born: seq<string>, id: string): nat
    requires id in born
  {
    if born[0] == id then 0 else 1 + Index(born[1..], id)
  }

  /** Dependencies are older than the tasks that name them. */
  predicate Layered(w: World) {
    forall id :: id in w.store ==>
      (id in w.born && forall d :: d in w.store[id].deps ==> d in w.born && Index(w.born, d) < Index(w.born, id))
  }

  predicate UsesFreshId(w: World, step: Step) {
    step.Start? ==> step.id !in w.born
  }

  lemma {:induction false} IndexAppend(born: seq<string>, more: string, id: string)
    requires id in born
    ensures Index(born + [more], id) == Index(born, id) < |born|
  {
    if born[0] != id {
      assert (born + [more])[1..] == born[1..] + [more];
      IndexAppend(born[1..], more, id);
    }
  }

  lemma {:induction false} IndexOfLast(born: seq<string>, more: string)
    requires more !in born
    ensures Index(born + [more], more) == |born|
  {
    if born == [] {
      assert born + [more] == [more];
    } else {
      assert (born + [more])[1..] == born[1..] + [more];
      IndexOfLast(born[1..], more);
    }
  }

  lemma StartKeepsLayers(w: World, step: Step)
    requires Layered(w) && step.Start? && UsesFreshId(w, step)
    ensures Layered(Apply(w, step))
  {
    hide Index;
    hide FirstPhase;
    if Accepts(w, step.id, step.deps) {
      var v := Apply(w, step);
      forall d | d in w.born ensures d in v.born && Index(v.born, d) == Index(w.born, d) < |w.born| {
        IndexAppend(w.born, step.id, d);
      }
      IndexOfLast(w.born, step.id);
      forall id | id in v.store
        ensures id in v.born && forall d :: d in v.store[id].deps ==> d in v.born && Index(v.born, d) < Index(v.born, id)
      {
        if id == step.id {
          assert v.store[id].deps == step.deps;
        } else {
          assert id in w.store && v.store[id] == w.store[id];
        }
      }
    }
  }

  /** The graph of dependencies stays free of cycles. */
  lemma StepKeepsLayers(w: World, step: Step)
    requires Layered(w) && Enabled(w, step) && UsesFreshId(w, step)
    ensures Layered(Apply(w, step))
  {
    match step
    case Start(_, _, _, _, _) => StartKeepsLayers(w, step);
    case Pass(scan, outcomes) =>
      hide Tick;
      TickEvolves(w.store, scan, outcomes);
    case Move(_, _) =>
    case Delete(_) =>
  }

  ghost predicate Possible(w: World, steps: seq<Step>)
    decreases |steps|
  {
    steps == [] || (Enabled(w, steps[0]) && UsesFreshId(w, steps[0]) && Possible(Apply(w, steps[0]), steps[1..]))
  }

  ghost function Run(w: World, steps: seq<Step>): World
    requires Possible(w, steps)
    decreases |steps|
  {
    if steps == [] then w else Run(Apply(w, steps[0]), steps[1..])
  }

  lemma {:induction false} RunKeepsLayers(w: World, steps: seq<Step>)
    requires Layered(w) && Possible(w, steps)
    ensures Layered(Run(w, steps))
    decreases |steps|
  {
    hide Layered;
    if steps != [] {
      StepKeepsLayers(w, steps[0]);
      RunKeepsLayers(Apply(w, steps[0]), steps[1..]);
    }
  }

  // ----- progress -----

  /** Nothing is running, and every new task waits for others, has its text, and has an executor that answers. */
  predicate Quiet(store: Store, outcomes: string -> Outcome) {
    && (forall id :: id in store ==> store[id].phase != Acked)
    && (forall id :: id in store && store[id].phase == New ==>
          store[id].deps != [] && store[id].hasBody && store[id].knownExecutor && outcomes(id) != NoSession)
  }

  /** The scan leaves no new task out. */
  predicate Full(store: Store, scan: seq<string>) {
    IsScan(store, scan) && forall id :: id in store && store[id].phase == New ==> id in scan
  }

  ghost function NewTasks(store: Store): set<string> {
    set id | id in store && store[id].phase == New
  }

  function Members(path: seq<string>): set<string> {
    set x | x in path
  }

  lemma {:induction false} DistinctMembers(path: seq<string>)
    requires Distinct(path)
    ensures |Members(path)| == |path|
  {
    if path != [] {
      var n := |path| - 1;
      DistinctMembers(path[..n]);
      assert path[n] !in path[..n];
      assert Members(path) == Members(path[..n]) + {path[n]};
    }
  }

  lemma Smaller(a: set<string>, b: set<string>)
    requires a <= b
    ensures |a| <= |b| && (|a| == |b| ==> a == b)
  {
    assert b == a + (b - a);
  }

  /** Every store can be listed, however many tasks are new. */
  lemma ListingExists(store: Store) returns (scan: seq<string>)
    ensures Listed(store, scan)
  {
    scan := [];
    var left := NewTasks(store);
    while left != {} && |scan| < 100
      invariant Distinct(scan) && |scan| <= 100
      invariant forall id :: id in NewTasks(store) <==> id in left || id in scan
      invariant forall id :: id in left ==> id !in scan
      decreases |left|
    {
      var id :| id in left;
      scan := scan + [id];
      left := left - {id};
    }
    forall i | 0 <= i < |scan| ensures IsNew(store, scan[i]) {
      assert scan[i] in NewTasks(store);
    }
    if |scan| < 100 {
      forall id | id in store && store[id].phase == New ensures id in scan {
        assert id in NewTasks(store);
      }
    }
  }

  /** Listing leaves no new task out exactly when there are at most a hundred of them. */
  lemma FullIff(store: Store, scan: seq<string>)
    requires Listed(store, scan)
    ensures Full(store, scan) <==> |NewTasks(store)| <= 100
  {
    DistinctMembers(scan);
    assert Members(scan) <= NewTasks(store);
    Smaller(Members(scan), NewTasks(store));
    if Full(store, scan) {
      assert NewTasks(store) <= Members(scan);
      Smaller(NewTasks(store), Members(scan));
    } else {
      var id :| id in store && store[id].phase == New && id !in scan;
      assert id in NewTasks(store) && id !in Members(scan);
    }
  }

  /** Follows new dependencies down to a new task that waits for no new one. */
  lemma {:induction false} Bottom(w: World, id: string) returns (bottom: string)
    requires Layered(w) && IsNew(w.store, id)
    ensures IsNew(w.store, bottom) && forall d :: d in w.store[bottom].deps ==> !IsNew(w.store, d)
    decreases Index(w.born, id)
  {
    if d :| d in w.store[id].deps && IsNew(w.store, d) {
      bottom := Bottom(w, d);
    } else {
      bottom := id;
    }
  }

  lemma {:induction false} NobodyToWaitFor(store: Store, deps: seq<string>)
    requires forall d :: d in deps && d in store ==> store[d].phase != New && store[d].phase != Acked
    ensures Judge(store, deps) != Waiting
  {
    if deps != [] {
      assert deps[0] in deps;
      NobodyToWaitFor(store, deps[1..]);
    }
  }

  /** No deadlock: when nothing runs and something still waits, a full pass moves some waiting task on. */
  lemma NoDeadlock(w: World, scan: seq<string>, outcomes: string -> Outcome, waiting: string)
    returns (moved: string)
    requires Layered(w) && Listed(w.store, scan) && |NewTasks(w.store)| <= 100
    requires Quiet(w.store, outcomes) && IsNew(w.store, waiting)
    ensures IsNew(w.store, moved) && !IsNew(Tick(w.store, scan, outcomes).0, moved)
  {
    FullIff(w.store, scan);
    hide Layered;
    hide Tick;
    moved := Bottom(w, waiting);
    NobodyToWaitFor(w.store, w.store[moved].deps);
    TickDecides(w.store, scan, outcomes, moved);
    SatisfiedMeansAll(w.store, w.store[moved].deps);
  }

  // ----- exactly when nothing moves -----

  predicate Moves(store: Store, after: Store, id: string) {
    IsNew(store, id) && !IsNew(after, id)
  }

  predicate Waits(store: Store, id: string) {
    IsNew(store, id) && Judge(store, store[id].deps) == Waiting
  }

  lemma ConsiderWaiting(store: Store, id: string, outcome: Outcome)
    requires Waits(store, id)
    ensures Consider(store, id, outcome) == (store, false)
  {
  }

  lemma {:induction false} AllWaitingStays(store: Store, scan: seq<string>, outcomes: string -> Outcome)
    requires forall i :: 0 <= i < |scan| ==> Waits(store, scan[i])
    ensures Tick(store, scan, outcomes) == (store, [])
  {
    hide Consider;
    if scan != [] {
      var n := |scan| - 1;
      AllWaitingStays(store, scan[..n], outcomes);
      ConsiderWaiting(store, scan[n], outcomes(scan[n]));
    }
  }

  /** When nothing runs, a full pass moves some task on exactly if some new task does not wait. */
  lemma MovesIff(store: Store, scan: seq<string>, outcomes: string -> Outcome)
    requires Listed(store, scan) && |NewTasks(store)| <= 100 && Quiet(store, outcomes)
    ensures (exists id :: Moves(store, Tick(store, scan, outcomes).0, id)) <==>
            (exists id :: IsNew(store, id) && !Waits(store, id))
  {
    hide Tick;
    hide Judge;
    FullIff(store, scan);
    if id :| IsNew(store, id) && !Waits(store, id) {
      TickDecides(store, scan, outcomes, id);
      SatisfiedMeansAll(store, store[id].deps);
      assert Moves(store, Tick(store, scan, outcomes).0, id);
    } else {
      AllWaitingStays(store, scan, outcomes);
    }
  }

  // ----- and then there is a cycle -----

  /** The first dependency that has not succeeded, of a list whose verdict is to wait. */
  function FirstAwaited(store: Store, deps: seq<string>): (d: string)
    requires Judge(store, deps) == Waiting
    ensures d in deps && d in store && !Success(store[d].phase) && !Failure(store[d].phase)
  {
    if !Succeeded(store, deps[0]) then deps[0] else FirstAwaited(store, deps[1..])
  }

  function Awaited(store: Store, id: string): string
    requires Waits(store, id)
  {
    FirstAwaited(store, store[id].deps)
  }

  /** A walk along awaited tasks. */
  predicate Walk(store: Store, path: seq<string>) {
    && (forall i :: 0 <= i < |path| ==> Waits(store, path[i]))
    && forall i :: 0 <= i < |path| - 1 ==> Awaited(store, path[i]) == path[i + 1]
  }

  /** New tasks that wait for each other in a circle. */
  predicate Cycle(store: Store, path: seq<string>) {
    |path| >= 2 && Walk(store, path) && path[0] == path[|path| - 1]
  }

  ghost predicate AllWait(store: Store) {
    forall id :: id in store && store[id].phase == New ==> Waits(store, id)
  }

  lemma AwaitedIsNew(store: Store, id: string)
    requires Waits(store, id) && forall x :: x in store ==> store[x].phase != Acked
    ensures IsNew(store, Awaited(store, id))
  {
  }

  lemma {:induction false} LongWalk(store: Store, id: string, n: nat) returns (path: seq<string>)
    requires AllWait(store) && IsNew(store, id) && forall x :: x in store ==> store[x].phase != Acked
    ensures Walk(store, path) && |path| == n + 1
    decreases n
  {
    hide Judge;
    if n == 0 {
      path := [id];
    } else {
      var front := LongWalk(store, id, n - 1);
      AwaitedIsNew(store, front[|front| - 1]);
      path := front + [Awaited(store, front[|front| - 1])];
      assert Waits(store, path[|front|]);
    }
  }

  /** Nothing running, something new, and everything new waiting: some new tasks wait for each other in a circle. */
  lemma AllWaitingIsCircular(store: Store, id: string) returns (path: seq<string>)
    requires AllWait(store) && IsNew(store, id) && forall x :: x in store ==> store[x].phase != Acked
    ensures Cycle(store, path)
  {
    hide Judge;
    var long := LongWalk(store, id, |store|);
    if Distinct(long) {
      DistinctMembers(long);
      assert Members(long) <= store.Keys;
      Smaller(Members(long), store.Keys);
      assert false;
    }
    var i, j :| 0 <= i < j < |long| && long[i] == long[j];
    path := long[i..j + 1];
    hide Awaited;
    forall k | 0 <= k < |path| ensures path[k] == long[i + k] && Waits(store, path[k]) {
    }
    forall k | 0 <= k < |path| - 1 ensures Awaited(store, path[k]) == path[k + 1] {
      assert Awaited(store, long[i + k]) == long[i + k + 1];
    }
  }

  /** Deadlock, exactly: with nothing running and something new, a full pass changes nothing if and only if every new
      task waits; and then there is a circle among them, which no pass will ever open. */
  lemma DeadlockIff(store: Store, scan: seq<string>, outcomes: string -> Outcome, id: string)
    requires Listed(store, scan) && |NewTasks(store)| <= 100 && Quiet(store, outcomes) && IsNew(store, id)
    ensures Tick(store, scan, outcomes).0 == store <==> AllWait(store)
    ensures AllWait(store) ==> exists path :: Cycle(store, path)
  {
    hide Tick;
    hide Judge;
    MovesIff(store, scan, outcomes);
    if AllWait(store) {
      AllWaitingStays(store, scan, outcomes);
      var path := AllWaitingIsCircular(store, id);
    }
  }

  /** Tasks in a circle stay as they are, whatever else a pass does. */
  lemma {:induction false} CircleStays(store: Store, scan: seq<string>, outcomes: string -> Outcome, path: seq<string>)
    requires IsScan(store, scan) && Cycle(store, path)
    ensures Cycle(Tick(store, scan, outcomes).0, path)
    decreases |scan|
  {
    hide Judge;
    hide Consider;
    hide Waits;
    hide Awaited;
    if scan != [] {
      var n := |scan| - 1;
      var before := Tick(store, scan[..n], outcomes).0;
      CircleStays(store, scan[..n], outcomes, path);
      TickEvolves(store, scan[..n], outcomes);
      assert scan == scan[..n] + [scan[n]];
      StillNew(store, before, scan[..n], scan[n]);
      ConsiderCircle(before, scan[n], outcomes(scan[n]), path);
    }
  }

  lemma ConsiderCircle(store: Store, id: string, outcome: Outcome, path: seq<string>)
    requires IsNew(store, id) && Cycle(store, path)
    ensures Cycle(Consider(store, id, outcome).0, path)
  {
    hide Judge;
    if Waits(store, id) {
      ConsiderWaiting(store, id, outcome);
    } else {
      var after := Consider(store, id, outcome).0;
      ConsiderEvolves(store, id, outcome);
      forall k | 0 <= k < |path| ensures Waits(after, path[k]) && Awaited(after, path[k]) == Awaited(store, path[k]) {
        assert Waits(store, path[k]) && path[k] != id;
        assert Awaited(store, path[k]) != id by {
          if k < |path| - 1 {
            assert Awaited(store, path[k]) == path[k + 1];
          } else {
            assert Awaited(store, path[0]) == path[1];
          }
        }
        AwaitsStill(store, after, path[k], id);
      }
    }
  }

  lemma AwaitsStill(a: Store, b: Store, id: string, moved: string)
    requires Evolved(a, b, [moved]) && Waits(a, id) && id != moved && Awaited(a, id) != moved
    ensures Waits(b, id) && Awaited(b, id) == Awaited(a, id)
  {
    AwaitsFirst(a, b, a[id].deps, moved);
  }

  lemma {:induction false} AwaitsFirst(a: Store, b: Store, deps: seq<string>, moved: string)
    requires Evolved(a, b, [moved]) && Judge(a, deps) == Waiting && FirstAwaited(a, deps) != moved
    ensures Judge(b, deps) == Waiting && FirstAwaited(b, deps) == FirstAwaited(a, deps)
  {
    if Succeeded(a, deps[0]) {
      AwaitsFirst(a, b, deps[1..], moved);
    }
  }

  // ----- and in the end nothing waits -----

  /** Every running task comes to an end, in success or failure. */
  ghost predicate Ends(a: Store, b: Store) {
    && a.Keys == b.Keys
    && forall id :: id in a ==>
      if a[id].phase == Acked then b[id] == a[id].(phase := b[id].phase) && (Success(b[id].phase) || Failure(b[id].phase))
      else b[id] == a[id]
  }

  /** One round: a full pass, then everything handed over runs to its end. */
  datatype Round = Round(scan: seq<string>, outcomes: string -> Outcome, ended: Store)

  ghost predicate Rounds(store: Store, rounds: seq<Round>)
    decreases |rounds|
  {
    rounds == [] ||
    (Listed(store, rounds[0].scan) && Quiet(store, rounds[0].outcomes)
     && Ends(Tick(store, rounds[0].scan, rounds[0].outcomes).0, rounds[0].ended)
     && Rounds(rounds[0].ended, rounds[1..]))
  }

  function Last(store: Store, rounds: seq<Round>): Store {
    if rounds == [] then store else rounds[|rounds| - 1].ended
  }

  lemma RoundKeepsLayers(w: World, after: Store, ended: Store, scan: seq<string>)
    requires Layered(w) && Evolved(w.store, after, scan) && Ends(after, ended)
    ensures Layered(w.(store := ended))
  {
    hide Index;
    forall id | id in ended ensures id in w.store && ended[id].deps == w.store[id].deps {
    }
  }

  lemma FewerNew(store: Store, after: Store, ended: Store, scan: seq<string>, moved: string)
    requires Evolved(store, after, scan) && Ends(after, ended) && IsNew(store, moved) && !IsNew(after, moved)
    ensures NewTasks(ended) < NewTasks(store) && |NewTasks(ended)| < |NewTasks(store)|
  {
    assert NewTasks(ended) <= NewTasks(store) - {moved};
    Smaller(NewTasks(ended), NewTasks(store) - {moved});
  }

  lemma NoneAppear(store: Store, after: Store, ended: Store, scan: seq<string>)
    requires Evolved(store, after, scan) && Ends(after, ended)
    ensures |NewTasks(ended)| <= |NewTasks(store)|
  {
    assert NewTasks(ended) <= NewTasks(store);
    Smaller(NewTasks(ended), NewTasks(store));
  }

  /** After as many rounds as there were waiting tasks, nothing waits any more. */
  lemma {:induction false} EverythingRuns(w: World, rounds: seq<Round>)
    requires Layered(w) && |NewTasks(w.store)| <= 100 && Rounds(w.store, rounds) && |rounds| >= |NewTasks(w.store)|
    ensures NewTasks(Last(w.store, rounds)) == {}
    decreases |rounds|
  {
    hide Layered;
    hide Evolved;
    hide Ends;
    hide Tick;
    if rounds != [] {
      var r := rounds[0];
      var after := Tick(w.store, r.scan, r.outcomes).0;
      TickEvolves(w.store, r.scan, r.outcomes);
      RoundKeepsLayers(w, after, r.ended, r.scan);
      NoneAppear(w.store, after, r.ended, r.scan);
      if waiting :| waiting in NewTasks(w.store) {
        var moved := NoDeadlock(w, r.scan, r.outcomes, waiting);
        FewerNew(w.store, after, r.ended, r.scan, moved);
      }
      EverythingRuns(World(r.ended, w.born), rounds[1..]);
      assert Last(w.store, rounds) == Last(r.ended, rounds[1..]);
    }
  }

  // ----- the hypotheses are needed -----

  /** An executor that gives no session is handed the same task again in every pass. */
  lemma NoSessionRepeats(store: Store, scan: seq<string>, outcomes: string -> Outcome, id: string)
    requires IsScan(store, scan) && id in scan && Ready(store, id) && outcomes(id) == NoSession
    ensures var (after, handed) := Tick(store, scan, outcomes);
      id in handed && IsNew(after, id) && Ready(after, id)
  {
    hide Tick;
    HandedIffReady(store, scan, outcomes, id);
    TickEvolves(store, scan, outcomes);
    SatisfiedMeansAll(store, store[id].deps);
    TickDecides(store, scan, outcomes, id);
    ReadyIsStable(store, Tick(store, scan, outcomes).0, scan, id);
  }

  /** A new task that listing leaves out, which happens only when a hundred others come first, stays as it is. */
  lemma LeftOutStays(store: Store, scan: seq<string>, outcomes: string -> Outcome, id: string)
    requires Listed(store, scan) && id !in scan && IsNew(store, id)
    ensures |scan| == 100 && |NewTasks(store)| > 100
    ensures id in Tick(store, scan, outcomes).0 && Tick(store, scan, outcomes).0[id] == store[id]
    ensures id !in Tick(store, scan, outcomes).1
  {
    hide Tick;
    FullIff(store, scan);
    TickEvolves(store, scan, outcomes);
    HandedIffReady(store, scan, outcomes, id);
  }

  /** When an id is used again after its task was deleted, two tasks can wait for each other for ever. */
  lemma ReusedIdDeadlocks(outcomes: string -> Outcome)
    ensures var w := World(map[], []);
      var a := Start("A", [], true, true, Session);
      var b := Start("B", ["A"], true, true, Session);
      var again := Start("A", ["B"], true, true, Session);
      var w1 := Apply(Apply(w, a), b);
      var w2 := Apply(w1, Move("A", Blocked));
      && Enabled(w1, Move("A", Blocked)) && Enabled(w2, Delete("A"))
      && var stuck := Apply(Apply(w2, Delete("A")), again);
      Full(stuck.store, ["A", "B"]) && Tick(stuck.store, ["A", "B"], outcomes) == (stuck.store, [])
  {
    var store := map[
      "B" := Task(New, ["A"], true, true),
      "A" := Task(New, ["B"], true, true)];
    var w0 := Apply(World(map[], []), Start("A", [], true, true, Session));
    assert w0.store == map["A" := Task(Acked, [], true, true)];
    assert !Succeeded(w0.store, ["A"][0]);
    var w1 := Apply(w0, Start("B", ["A"], true, true, Session));
    assert w1.store == map["A" := Task(Acked, [], true, true), "B" := Task(New, ["A"], true, true)];
    var w2 := Apply(w1, Move("A", Blocked));
    var w3 := Apply(w2, Delete("A"));
    assert w3.store == map["B" := Task(New, ["A"], true, true)];
    assert !Succeeded(w3.store, ["B"][0]);
    var stuck := Apply(w3, Start("A", ["B"], true, true, Session));
    assert stuck.store == store;
    TwoWait(store, outcomes);
  }

  lemma TwoWait(store: Store, outcomes: string -> Outcome)
    requires store == map["B" := Task(New, ["A"], true, true), "A" := Task(New, ["B"], true, true)]
    ensures Full(store, ["A", "B"]) && Tick(store, ["A", "B"], outcomes) == (store, [])
  {
    assert Judge(store, ["A"]) == Waiting && Judge(store, ["B"]) == Waiting;
    assert ["A", "B"][..1] == ["A"] && ["A"][..0] == [];
    assert Tick(store, ["A"], outcomes) == (store, []);
  }
}

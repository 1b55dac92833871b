/** What every run of the worker pool guarantees: barrier exactness, no lost wake-up, a clean
    shutdown, and return of every call within a bounded number of steps under any scheduler. */
module WorkerPoolTheorems {
  import opened WorkerPool

  /** `acts` leads from s to t. */
  ghost predicate Steps(s: State, acts: seq<Action>, t: State)
    decreases |acts|
  {
    if acts == [] then s == t
    else Enabled(s, acts[0]) && Steps(Next(s, acts[0]), acts[1..], t)
  }

  ghost predicate Reachable(s: State) {
    exists n: nat, empty: Task, garbage: set<nat>, acts: seq<Action> :: Steps(Init(n, empty, garbage), acts, s)
  }

  lemma {:induction false} StepsKeepInv(s: State, acts: seq<Action>, t: State)
    requires Inv(s) && Steps(s, acts, t)
    ensures Inv(t)
    decreases |acts|
  {
    if acts != [] {
      StepKeepsInv(s, acts[0]);
      StepsKeepInv(Next(s, acts[0]), acts[1..], t);
    }
  }

  lemma ReachableInv(s: State)
    requires Reachable(s)
    ensures Inv(s)
  {
    var n: nat, empty: Task, garbage: set<nat>, acts: seq<Action> :| Steps(Init(n, empty, garbage), acts, s);
    InitInv(n, empty, garbage);
    StepsKeepInv(Init(n, empty, garbage), acts, s);
  }

  // ---------------------------------------------------------------- safety

  /** Whenever the constructor, run() or the destructor's wait has returned, every worker has
      executed every task ever submitted exactly once and in order. */
  lemma BarrierExact(s: State)
    requires Reachable(s) && (s.main.Idle? || s.main.Refuse?)
    ensures 0 < |s.log| && 0 < |s.submitted| && s.log[0] == s.submitted[1..]
    ensures s.n >= 2 ==> forall k: nat | IsWorker(s, k) :: s.log[k] == s.submitted
  {
    ReachableInv(s);
    forall k: nat | IsWorker(s, k) ensures s.n >= 2 ==> s.log[k] == s.submitted {
      assert WorkerOk(s, k);
    }
  }

  predicate NoSubmit(acts: seq<Action>) {
    forall i | 0 <= i < |acts| :: !acts[i].Submit?
  }

  lemma {:induction false} SubmittedFixed(s: State, acts: seq<Action>, t: State)
    requires Steps(s, acts, t) && NoSubmit(acts)
    ensures t.submitted == s.submitted && t.n == s.n
    decreases |acts|
  {
    if acts != [] {
      assert !acts[0].Submit?;
      SubmittedFixed(Next(s, acts[0]), acts[1..], t);
    }
  }

  lemma {:induction false} StepsThen(s: State, acts: seq<Action>, t: State, more: seq<Action>, u: State)
    requires Steps(s, acts, t) && Steps(t, more, u)
    ensures Steps(s, acts + more, u)
    decreases |acts|
  {
    if acts == [] {
      assert acts + more == more;
    } else {
      StepsThen(Next(s, acts[0]), acts[1..], t, more, u);
      assert (acts + more)[1..] == acts[1..] + more;
    }
  }

  lemma ReachableStep(s: State, acts: seq<Action>, t: State)
    requires Reachable(s) && Steps(s, acts, t)
    ensures Reachable(t)
  {
    var n: nat, empty: Task, garbage: set<nat>, prefix: seq<Action> :| Steps(Init(n, empty, garbage), prefix, s);
    StepsThen(Init(n, empty, garbage), prefix, s, acts, t);
  }

  /** One call of run(task): however the threads interleave until it returns, its whole effect on
      what was executed is one execution of `task` by each worker, worker 0 included. */
  lemma RunExecutesOnce(s: State, task: Task, acts: seq<Action>, t: State)
    requires Reachable(s) && Enabled(s, Submit(task))
    requires NoSubmit(acts) && Steps(Next(s, Submit(task)), acts, t) && t.main.Idle?
    ensures |t.log| == |s.log|
    ensures forall k: nat | k < |s.log| :: t.log[k] == s.log[k] + [task]
  {
    var first := Next(s, Submit(task));
    assert Steps(first, [], first);
    assert Steps(s, [Submit(task)], first);
    ReachableStep(s, [Submit(task)], first);
    ReachableStep(first, acts, t);
    SubmittedFixed(first, acts, t);
    BarrierExact(s);
    BarrierExact(t);
    ReachableInv(s);
    ReachableInv(t);
    assert s.log[0] + [task] == t.submitted[1..];
    forall k: nat | 1 <= k < |s.log| ensures t.log[k] == s.log[k] + [task] {
      assert IsWorker(s, k) && IsWorker(t, k);
    }
  }

  /** No worker runs ahead: a worker inside a task runs the task submitted last, having finished
      every earlier one. */
  lemma NoEarlyRound(s: State, k: nat)
    requires Reachable(s) && IsWorker(s, k) && s.workers[k].InTask?
    ensures s.workers[k].task == s.task
    ensures s.submitted == s.log[k] + [s.task]
  {
    ReachableInv(s);
    assert WorkerOk(s, k);
  }

  /** m_task is replaced only when every worker is past its call of it and cannot reach the next
      call before the bits are cleared again. */
  lemma TaskStable(s: State, a: Action, k: nat)
    requires Reachable(s) && Enabled(s, a) && IsWorker(s, k)
    requires Next(s, a).task != s.task || s.main.Refuse?
    ensures Post(s.workers[k]) && !s.workers[k].UnlockSleep? && k in s.done
  {
    ReachableInv(s);
    assert WorkerOk(s, k);
    if !a.Submit? { OnlySubmitInstalls(s, a); }
    assert k in All(s.n);
    hide All, WorkerLife, WorkerSync, WorkersOk, OnePairing;
  }

  lemma OnlySubmitInstalls(s: State, a: Action)
    requires Enabled(s, a) && !a.Submit?
    ensures Next(s, a).task == s.task
  {
    hide All;
  }

  /** After the destructor refused work no worker calls a task again, and it ends with every thread
      gone and every submitted task executed exactly once by each worker. */
  lemma ShutdownClean(s: State, k: nat)
    requires Reachable(s) && s.phase.Stopping? && IsWorker(s, k)
    ensures !s.workers[k].Call? && !s.workers[k].InTask? && !s.workers[k].Mark?
    ensures s.log[k] == s.submitted
    ensures s.main.Destroyed? ==> s.workers[k].Exited?
  {
    ReachableInv(s);
    assert WorkerOk(s, k);
  }

  /** No lost wake-up on m_signal_done: if the main thread sleeps although all bits are set, exactly
      one worker still has its lock, unlock or notify ahead. None on m_signal_work: a worker sleeps
      on a cleared bit only while start_work, holding the mutex, is about to notify. */
  lemma NoLostWakeup(s: State)
    requires Reachable(s)
    ensures s.main.Asleep? && s.done == All(s.n) ==>
              exists k: nat | IsWorker(s, k) ::
                Pairing(s.workers[k]) && forall j: nat | IsWorker(s, j) && Pairing(s.workers[j]) :: j == k
    ensures forall k: nat | IsWorker(s, k) && s.workers[k].Dozing? && k !in s.done :: s.main.NotifyAll? && s.mutex.Main?
  {
    ReachableInv(s);
    if s.main.Asleep? && s.done == All(s.n) {
      var k: nat :| IsWorker(s, k) && Pairing(s.workers[k]) && k in s.done;
    }
    forall k: nat | IsWorker(s, k) && s.workers[k].Dozing? && k !in s.done ensures s.main.NotifyAll? {
      assert WorkerOk(s, k);
    }
  }

  // ---------------------------------------------------------------- liveness

  /** Unless the pool is idle or gone, some thread has an enabled step of its own. */
  lemma NoDeadlock(s: State)
    requires Reachable(s) && !s.main.Idle? && !s.main.Destroyed?
    ensures exists a: Action :: Proper(a) && Enabled(s, a)
  {
    ReachableInv(s);
    SomeStep(s);
  }

  lemma SomeStep(s: State)
    requires Inv(s) && !s.main.Idle? && !s.main.Destroyed?
    ensures exists a: Action :: Proper(a) && Enabled(s, a)
  {
    if s.mutex.Worker? {
      var k := s.mutex.id;
      assert WorkerOk(s, k);
      assert Enabled(s, WorkerStep(k));
    } else if MainEnabled(s) {
      assert Enabled(s, MainStep);
    } else if s.main.Join? {
      var k := s.main.next;
      assert WorkerOk(s, k);
      assert Enabled(s, WorkerStep(k));
    } else {
      AsleepProgress(s);
    }
  }

  lemma AsleepProgress(s: State)
    requires Inv(s) && s.main.Asleep? && s.mutex.Free?
    ensures exists k: nat :: Enabled(s, WorkerStep(k))
  {
    if s.done == All(s.n) {
      var k: nat :| IsWorker(s, k) && Pairing(s.workers[k]) && k in s.done;
      assert WorkerOk(s, k);
      assert Enabled(s, WorkerStep(k));
    } else {
      var k: nat :| k in All(s.n) && k !in s.done;
      assert IsWorker(s, k) && WorkerOk(s, k);
      assert Enabled(s, WorkerStep(k));
    }
  }

  /** Steps left to worker pc before it sleeps or exits; `bit`: its bit is set. The weights leave
      room for the wake-ups each step may cause. */
  function WorkerRank(pc: WorkerPc, bit: bool): nat {
    var lap := if bit then 0 else 15;
    match pc
    case Exited => 0
    case Unborn => 13
    case Top => 12
    case Call => 11
    case InTask(_) => 10
    case Mark => 9
    case LockPair => lap + 8
    case UnlockPair => lap + 7
    case NotifyMain => lap + 6
    case Probe => lap + 3
    case LockSleep => lap + 2
    case Rewake => lap + 2
    case Pred => lap + 1
    case UnlockSleep => 13
    case Dozing => lap
  }

  function MainRank(pc: MainPc, n: nat): nat {
    match pc
    case Idle => 0
    case Destroyed => 0
    case UnlockWait => 1
    case Asleep => 2
    case Check => 3
    case Relock => 4
    case LockWait => 4
    case FastCheck => 5
    case RunSelf => 6
    case Spawn(k) => 6 + (if k <= n then n + 1 - k else 0)
    case Join(k) => 1 + (if k <= n then n + 1 - k else 0)
    case UnlockStart => 8 + n
    case NotifyAll => 12 + 4 * n
    case ClearBits => 28 + 30 * n
    case LockStart => 29 + 30 * n
    case Refuse => 30 + 30 * n
  }

  function Weights(workers: seq<WorkerPc>, done: set<nat>): (w: seq<nat>)
    ensures |w| == |workers|
  {
    seq(|workers|, i requires 0 <= i < |workers| => if i == 0 then 0 else WorkerRank(workers[i], i in done))
  }

  function Sum(w: seq<nat>): nat {
    if w == [] then 0 else Sum(w[..|w| - 1]) + w[|w| - 1]
  }

  function ControlRank(s: State): nat {
    MainRank(s.main, s.n) + (if s.phase.Draining? && !s.main.Refuse? then 31 + 30 * s.n else 0)
  }

  /** Bounds the proper steps left before the main thread is Idle or Destroyed. */
  function Rank(s: State): nat {
    ControlRank(s) + Sum(Weights(s.workers, s.done))
  }

  /** One entry changes: the sum changes by exactly as much. */
  lemma {:induction false} SumOfOne(v: seq<nat>, w: seq<nat>, i: nat)
    requires |v| == |w| && i < |v|
    requires forall j: nat | j < |v| && j != i :: v[j] == w[j]
    ensures Sum(v) + w[i] == Sum(w) + v[i]
  {
    var n := |v| - 1;
    if i == n {
      assert v[..n] == w[..n];
    } else {
      SumOfOne(v[..n], w[..n], i);
    }
  }

  /** Every entry grows by at most `most`. */
  lemma {:induction false} SumOfAll(v: seq<nat>, w: seq<nat>, most: nat)
    requires |v| == |w|
    requires forall j: nat | j < |v| :: v[j] <= w[j] + most
    ensures Sum(v) <= Sum(w) + most * |v|
  {
    if v != [] {
      var n := |v| - 1;
      SumOfAll(v[..n], w[..n], most);
      assert most * |v| == most * n + most;
    }
  }

  lemma OwnRankDrops(s: State, k: nat)
    requires WorkerEnabled(s, k)
    ensures WorkerRank(WorkerNext(s, k).workers[k], k in WorkerNext(s, k).done) + (if s.workers[k].NotifyMain? then 2 else 0)
          < WorkerRank(s.workers[k], k in s.done)
  {
    hide All;
  }

  lemma ControlRankKept(s: State, k: nat)
    requires WorkerEnabled(s, k)
    ensures ControlRank(WorkerNext(s, k)) <= ControlRank(s) + (if s.workers[k].NotifyMain? then 2 else 0)
  {
    var t := WorkerNext(s, k);
    assert t.n == s.n && t.phase == s.phase;
    assert t.main == s.main || (s.workers[k].NotifyMain? && s.main.Asleep? && t.main.Relock?);
    hide All, WorkerNext, WorkerEnabled;
  }

  lemma WorkerStepDescends(s: State, k: nat)
    requires Inv(s) && WorkerEnabled(s, k)
    ensures Rank(WorkerNext(s, k)) < Rank(s)
  {
    var t := WorkerNext(s, k);
    OwnRankDrops(s, k);
    ControlRankKept(s, k);
    forall j: nat | j < |s.workers| && j != k ensures t.workers[j] == s.workers[j] && (j in t.done <==> j in s.done) {
      OtherWorkersKept(s, k, j);
    }
    assert k > 0 && k < |s.workers| == |t.workers|;
    hide Inv, WorkerRank, ControlRank, All, WorkerNext, WorkerEnabled;
    SumOfOne(Weights(t.workers, t.done), Weights(s.workers, s.done), k);
  }

  lemma OtherWorkersKept(s: State, k: nat, j: nat)
    requires WorkerEnabled(s, k) && j < |s.workers| && j != k
    ensures WorkerNext(s, k).workers[j] == s.workers[j] && (j in WorkerNext(s, k).done <==> j in s.done)
  {
    hide All;
  }

  lemma WeightOfClearedBit(pc: WorkerPc, bit: bool)
    ensures WorkerRank(pc, false) <= WorkerRank(pc, bit) + 15
  {
  }

  lemma ClearingDescends(s: State)
    requires Inv(s) && s.main.ClearBits?
    ensures Rank(MainNext(s)) < Rank(s)
  {
    var t := MainNext(s);
    var v, w := Weights(t.workers, t.done), Weights(s.workers, s.done);
    forall j: nat | j < |v| ensures v[j] <= w[j] + 15 {
      WeightOfClearedBit(s.workers[j], j in s.done);
    }
    SumOfAll(v, w, 15);
    assert ControlRank(t) + 15 * (s.n + 1) < ControlRank(s);
  }

  lemma WeightOfWake(pc: WorkerPc, bit: bool)
    ensures WorkerRank(Rewake, bit) == WorkerRank(Dozing, bit) + 2
    ensures WorkerRank(if pc.Dozing? then Rewake else pc, bit) <= WorkerRank(pc, bit) + 2
  {
  }

  lemma NotifyingDescends(s: State)
    requires Inv(s) && s.main.NotifyAll?
    ensures Rank(MainNext(s)) < Rank(s)
  {
    var t := MainNext(s);
    assert t == s.(workers := WakeAll(s.workers), main := UnlockStart) && |s.workers| <= s.n + 1;
    assert ControlRank(t) + 4 + 3 * s.n == ControlRank(s);
    hide Inv, WorkerRank, MainNext, ControlRank, All;
    var v, w := Weights(t.workers, t.done), Weights(s.workers, s.done);
    forall j: nat | j < |v| ensures v[j] <= w[j] + 2 { WeightOfWake(s.workers[j], j in s.done); }
    SumOfAll(v, w, 2);
  }

  lemma SpawningDescends(s: State)
    requires Inv(s) && MainEnabled(s) && s.main.Spawn?
    ensures Rank(MainNext(s)) < Rank(s)
  {
    var t, k := MainNext(s), s.main.next;
    if k < s.n {
      assert WorkerOk(s, k);
      SumOfOne(Weights(t.workers, t.done), Weights(s.workers, s.done), k);
    }
  }

  lemma ControlDescends(s: State)
    requires Inv(s) && MainEnabled(s) && !s.main.ClearBits? && !s.main.NotifyAll? && !s.main.Spawn?
    ensures ControlRank(MainNext(s)) < ControlRank(s)
    ensures MainNext(s).workers == s.workers && MainNext(s).done == s.done
  {
    assert PhaseOk(s);
    hide Inv;
    if InStart(s.main) { StartDescends(s); } else if InWait(s.main) { WaitDescends(s); } else { EndDescends(s); }
    hide ControlRank, MainEnabled, All;
  }

  lemma StartDescends(s: State)
    requires PhaseOk(s) && MainEnabled(s) && (s.main.LockStart? || s.main.UnlockStart?)
    ensures ControlRank(MainNext(s)) < ControlRank(s)
  {
  }

  lemma WaitDescends(s: State)
    requires PhaseOk(s) && MainEnabled(s) && InWait(s.main)
    ensures ControlRank(MainNext(s)) < ControlRank(s)
  {
    hide All;
  }

  lemma EndDescends(s: State)
    requires PhaseOk(s) && MainEnabled(s) && !InStart(s.main) && !InWait(s.main) && !s.main.Spawn?
    ensures ControlRank(MainNext(s)) < ControlRank(s)
  {
  }

  lemma MainStepDescends(s: State)
    requires Inv(s) && MainEnabled(s)
    ensures Rank(MainNext(s)) < Rank(s)
  {
    match s.main
    case ClearBits => ClearingDescends(s);
    case NotifyAll => NotifyingDescends(s);
    case Spawn(_) => SpawningDescends(s);
    case _ => ControlDescends(s);
  }

  /** Neither run() nor the destructor is called. */
  predicate NoCalls(acts: seq<Action>) {
    forall i | 0 <= i < |acts| :: !acts[i].Submit? && !acts[i].Shutdown?
  }

  /** Spurious wake-ups. */
  function Wakes(acts: seq<Action>): nat {
    if acts == [] then 0 else (if Proper(acts[0]) then 0 else 1) + Wakes(acts[1..])
  }

  /** A spurious wake-up costs its thread two steps. */
  lemma WakeAscends(s: State, a: Action)
    requires Inv(s) && Enabled(s, a) && (a.SpuriousMain? || a.SpuriousWorker?)
    ensures Rank(Next(s, a)) <= Rank(s) + 2
  {
    hide Inv, All;
    if a.SpuriousMain? { MainWakes(s); } else { WorkerWakes(s, a.k); }
  }

  lemma MainWakes(s: State)
    requires s.main.Asleep?
    ensures Rank(s.(main := Relock)) == Rank(s) + 2
  {
    assert Weights(s.(main := Relock).workers, s.(main := Relock).done) == Weights(s.workers, s.done);
    hide WorkerRank, Weights, Sum;
  }

  lemma WorkerWakes(s: State, k: nat)
    requires IsWorker(s, k) && s.workers[k].Dozing?
    ensures Rank(At(s, k, Rewake)) == Rank(s) + 2
  {
    var t := At(s, k, Rewake);
    WeightOfWake(Dozing, k in s.done);
    assert ControlRank(t) == ControlRank(s);
    hide WorkerRank, ControlRank;
    SumOfOne(Weights(t.workers, t.done), Weights(s.workers, s.done), k);
  }

  lemma StepRank(s: State, a: Action)
    requires Inv(s) && Enabled(s, a) && !a.Submit? && !a.Shutdown?
    ensures Rank(Next(s, a)) + 1 <= Rank(s) + (if Proper(a) then 0 else 3)
  {
    hide Inv, Rank, MainEnabled, WorkerEnabled, MainNext, WorkerNext;
    match a
    case MainStep => MainStepDescends(s);
    case WorkerStep(k) => WorkerStepDescends(s, k);
    case _ => WakeAscends(s, a);
  }

  /** Every call returns under every scheduler. Until the next call the threads take at most Rank(s)
      steps and three more for every spurious wake-up; and when none of their own is left to take, the
      main thread is Idle or Destroyed. */
  lemma {:induction false} BoundedCompletion(s: State, acts: seq<Action>, t: State)
    requires Inv(s) && NoCalls(acts) && Steps(s, acts, t)
    ensures |acts| + Rank(t) <= Rank(s) + 3 * Wakes(acts)
    ensures (forall a: Action | Proper(a) :: !Enabled(t, a)) ==> t.main.Idle? || t.main.Destroyed?
    decreases |acts|
  {
    hide Inv, Rank, Enabled, Next;
    if acts == [] {
      if !s.main.Idle? && !s.main.Destroyed? { SomeStep(s); }
    } else {
      assert !acts[0].Submit? && !acts[0].Shutdown?;
      StepRank(s, acts[0]);
      StepKeepsInv(s, acts[0]);
      BoundedCompletion(Next(s, acts[0]), acts[1..], t);
    }
  }

  /** From every reachable state. */
  lemma EveryCallReturns(s: State, acts: seq<Action>, t: State)
    requires Reachable(s) && NoCalls(acts) && Steps(s, acts, t)
    ensures |acts| + Rank(t) <= Rank(s) + 3 * Wakes(acts)
    ensures (forall a: Action | Proper(a) :: !Enabled(t, a)) ==> t.main.Idle? || t.main.Destroyed?
  {
    hide *;
    ReachableInv(s);
    BoundedCompletion(s, acts, t);
  }
}

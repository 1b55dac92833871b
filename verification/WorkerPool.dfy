/** The worker pool of parallel_al.cpp as a system of atomic steps.

    Worker 0 is the main thread; workers 1..n-1 are threads of their own. Every shared access of
    `Parallel` (an atomic load, fetch_or or store, a lock, an unlock, a condition-variable wait or
    notify, a call of the task) is one action, and any interleaving of actions is a run. Spurious
    wake-ups of both condition variables are actions too. `m_tasks_done` is the set of worker ids
    whose bit is set, so the all-ones mask needs no special case at 64 workers.

    `submitted`, `clears` and `log` are history: the tasks ever installed in `m_task`, the number of
    times start_work cleared the bits, and the tasks each worker has finished, in order. */
module WorkerPool {

  type Task = nat

  datatype Phase = Starting | Running | Draining | Stopping

  datatype MainPc =
    | Idle
    | LockStart | ClearBits | NotifyAll | UnlockStart          // start_work
    | Spawn(next: nat)                                         // constructor's thread creation
    | RunSelf                                                  // m_task(0)
    | FastCheck | LockWait | Check | Asleep | Relock | UnlockWait  // wait
    | Refuse                                                   // m_accept_work = false
    | Join(next: nat) | Destroyed

  datatype WorkerPc =
    | Unborn
    | Top | Call | InTask(task: Task) | Mark                   // loop head, m_task(worker_id), fetch_or
    | LockPair | UnlockPair | NotifyMain                       // the completing worker's lock and notify
    | Probe | LockSleep | Pred | UnlockSleep | Dozing | Rewake // the sleep until the bit is cleared
    | Exited

  datatype Owner = Free | Main | Worker(id: nat)

  datatype State = State(
    n: nat, phase: Phase, main: MainPc, workers: seq<WorkerPc>,
    mutex: Owner, done: set<nat>, task: Task, accept: bool,
    submitted: seq<Task>, clears: nat, log: seq<seq<Task>>)

  datatype Action =
    | MainStep | WorkerStep(k: nat)
    | Submit(task: Task) | Shutdown
    | SpuriousMain | SpuriousWorker(k: nat)

  /** Slots for the main thread and the n-1 others; a pool of 0 behaves as a pool of 1. */
  function Slots(n: nat): nat {
    if n == 0 then 1 else n
  }

  /** m_all_tasks_done: every worker's bit but worker 0's. */
  function All(n: nat): set<nat> {
    set k: nat | k < n && IsOther(k)
  }

  predicate IsOther(k: nat) {
    k != 0
  }

  /** State on entry to the constructor's start_work; `garbage` is the unset initial bitmask. */
  function Init(n: nat, empty: Task, garbage: set<nat>): State {
    State(n, Starting, LockStart, seq(Slots(n), _ => Unborn), Free, garbage, empty, true,
          [empty], 0, seq(Slots(n), _ => []))
  }

  predicate IsWorker(s: State, k: nat) {
    1 <= k < s.n && k < |s.workers| && k < |s.log|
  }

  /** The threads of the pool are given once and for all. */
  predicate SameShape(s: State, t: State) {
    t.n == s.n && |t.workers| == |s.workers| && |t.log| == |s.log|
  }

  predicate MainEnabled(s: State) {
    match s.main
    case Idle => false
    case LockStart => s.mutex.Free?
    case LockWait => s.mutex.Free?
    case Relock => s.mutex.Free?
    case Asleep => false
    case Join(k) => k < s.n ==> IsWorker(s, k) && s.workers[k].Exited?
    case Spawn(k) => k < s.n ==> IsWorker(s, k)
    case RunSelf => 0 < |s.log|
    case Destroyed => false
    case _ => true
  }

  predicate WorkerEnabled(s: State, k: nat) {
    && IsWorker(s, k)
    && match s.workers[k]
       case Unborn => false
       case LockPair => s.mutex.Free?
       case LockSleep => s.mutex.Free?
       case Rewake => s.mutex.Free?
       case Dozing => false
       case Exited => false
       case _ => true
  }

  predicate Enabled(s: State, a: Action) {
    match a
    case MainStep => MainEnabled(s)
    case WorkerStep(k) => WorkerEnabled(s, k)
    case Submit(_) => s.main.Idle? && s.accept && 0 < |s.log|
    case Shutdown => s.main.Idle?
    case SpuriousMain => s.main.Asleep?
    case SpuriousWorker(k) => IsWorker(s, k) && s.workers[k].Dozing?
  }

  /** The steps that belong to a thread: neither a client's call nor a spurious wake-up. */
  predicate Proper(a: Action) {
    a.MainStep? || a.WorkerStep?
  }

  /** Where wait() returns to. */
  function Return(s: State): State {
    s.(main := if s.phase.Draining? then Refuse else Idle)
  }

  function WakeAll(ws: seq<WorkerPc>): seq<WorkerPc> {
    seq(|ws|, i requires 0 <= i < |ws| => if ws[i].Dozing? then Rewake else ws[i])
  }

  function MainNext(s: State): (t: State)
    requires MainEnabled(s)
    ensures SameShape(s, t)
  {
    match s.main
    case LockStart => s.(mutex := Main, main := ClearBits)
    case ClearBits => s.(done := {}, clears := s.clears + 1, main := NotifyAll)
    case NotifyAll => s.(workers := WakeAll(s.workers), main := UnlockStart)
    case UnlockStart =>
      s.(mutex := Free,
         main := if s.phase.Starting? then Spawn(1) else if s.phase.Running? then RunSelf else Join(1))
    case Spawn(k) =>
      if k < s.n then s.(workers := s.workers[k := Top], main := Spawn(k + 1)) else s.(main := FastCheck)
    case RunSelf => s.(log := s.log[0 := s.log[0] + [s.task]], main := FastCheck)
    case FastCheck => if s.done == All(s.n) then Return(s) else s.(main := LockWait)
    case LockWait => s.(mutex := Main, main := Check)
    case Check => if s.done == All(s.n) then s.(main := UnlockWait) else s.(mutex := Free, main := Asleep)
    case Relock => s.(mutex := Main, main := Check)
    case UnlockWait => Return(s.(mutex := Free))
    case Refuse => s.(accept := false, phase := Stopping, main := LockStart)
    case Join(k) => s.(main := if k < s.n then Join(k + 1) else Destroyed)
  }

  function WorkerNext(s: State, k: nat): (t: State)
    requires WorkerEnabled(s, k)
    ensures SameShape(s, t)
  {
    match s.workers[k]
    case Top => At(s, k, if s.accept then Call else Exited)
    case Call => At(s, k, InTask(s.task))
    case InTask(t) => At(s.(log := s.log[k := s.log[k] + [t]]), k, Mark)
    case Mark =>
      var marked := s.done + {k};
      At(s.(done := marked), k, if marked == All(s.n) then LockPair else Probe)
    case LockPair => At(s.(mutex := Worker(k)), k, UnlockPair)
    case UnlockPair => At(s.(mutex := Free), k, NotifyMain)
    case NotifyMain => At(s.(main := if s.main.Asleep? then Relock else s.main), k, Probe)
    case Probe => At(s, k, if k in s.done then LockSleep else Top)
    case LockSleep => At(s.(mutex := Worker(k)), k, Pred)
    case Pred => if k in s.done then At(s.(mutex := Free), k, Dozing) else At(s, k, UnlockSleep)
    case UnlockSleep => At(s.(mutex := Free), k, Top)
    case Rewake => At(s.(mutex := Worker(k)), k, Pred)
  }

  function At(s: State, k: nat, pc: WorkerPc): State
    requires k < |s.workers|
  {
    s.(workers := s.workers[k := pc])
  }

  /** run(): without other workers a plain call; otherwise install the task and start the round. */
  function SubmitNext(s: State, t: Task): State
    requires Enabled(s, Submit(t))
  {
    if s.n <= 1 then
      s.(log := s.log[0 := s.log[0] + [t]], submitted := s.submitted + [t])
    else
      s.(task := t, submitted := s.submitted + [t], phase := Running, main := LockStart)
  }

  function Next(s: State, a: Action): State
    requires Enabled(s, a)
  {
    match a
    case MainStep => MainNext(s)
    case WorkerStep(k) => WorkerNext(s, k)
    case Submit(t) => SubmitNext(s, t)
    case Shutdown => s.(phase := Draining, main := FastCheck)
    case SpuriousMain => s.(main := Relock)
    case SpuriousWorker(k) => At(s, k, Rewake)
  }

  // ---------------------------------------------------------------- the invariant

  predicate MainHolds(pc: MainPc) {
    pc.ClearBits? || pc.NotifyAll? || pc.UnlockStart? || pc.Check? || pc.UnlockWait?
  }

  predicate WorkerHolds(pc: WorkerPc) {
    pc.UnlockPair? || pc.Pred? || pc.UnlockSleep?
  }

  predicate Pairing(pc: WorkerPc) {
    pc.LockPair? || pc.UnlockPair? || pc.NotifyMain?
  }

  /** Past the fetch_or of some round and before the loop head. */
  predicate Post(pc: WorkerPc) {
    Pairing(pc) || pc.Probe? || pc.LockSleep? || pc.Pred? || pc.UnlockSleep? || pc.Dozing? || pc.Rewake?
  }

  /** Inside start_work, before the bits are cleared. */
  predicate Pending(pc: MainPc) {
    pc.LockStart? || pc.ClearBits?
  }

  predicate InStart(pc: MainPc) {
    Pending(pc) || pc.NotifyAll? || pc.UnlockStart?
  }

  predicate InWait(pc: MainPc) {
    pc.FastCheck? || pc.LockWait? || pc.Check? || pc.Asleep? || pc.Relock? || pc.UnlockWait?
  }

  /** The destructor's start_work has cleared the bits for the last time. */
  predicate Stopped(s: State) {
    s.phase.Stopping? && !Pending(s.main)
  }

  /** The main thread relies on every bit being set. */
  predicate Settled(s: State) {
    s.main.Idle? || s.main.UnlockWait? || s.main.Refuse? || s.phase.Draining? ||
    (Pending(s.main) && !s.phase.Starting?)
  }

  predicate WorkerRound(s: State, k: nat)
    requires IsWorker(s, k)
  {
    var pc, c, bit := s.workers[k], |s.log[k]|, k in s.done;
    if Stopped(s) then
      !bit && c == |s.submitted| && (Post(pc) || pc.Top? || pc.Exited?)
    else
      match pc
      case Unborn => c == 0 && s.clears <= 1 && (s.clears == 1 ==> !bit)
      case Exited => false
      case Mark => !bit && c == s.clears
      case _ =>
        if Post(pc) && !pc.UnlockSleep? then
          c + (if bit then 0 else 1) == s.clears
        else
          !bit && c + 1 == s.clears
  }

  /** The mutex, the sleep and the completing worker. */
  predicate WorkerSync(s: State, k: nat)
    requires IsWorker(s, k)
  {
    var pc := s.workers[k];
    && (pc.Dozing? ==> k in s.done || s.main.NotifyAll?)
    && (s.mutex == Worker(k) <==> WorkerHolds(pc))
    && (Pairing(pc) && k in s.done ==> s.done == All(s.n))
  }

  /** The task, and the thread's beginning and end. */
  predicate WorkerLife(s: State, k: nat)
    requires IsWorker(s, k)
  {
    var pc := s.workers[k];
    && (pc.InTask? ==> pc.task == s.task)
    && s.log[k] <= s.submitted
    && (pc.Unborn? <==> s.phase.Starting? && (InStart(s.main) || (s.main.Spawn? && s.main.next <= k)))
    && (s.main.Join? && k < s.main.next ==> pc.Exited?)
    && (s.main.Destroyed? ==> pc.Exited?)
  }

  predicate WorkerOk(s: State, k: nat)
    requires IsWorker(s, k)
  {
    WorkerRound(s, k) && WorkerSync(s, k) && WorkerLife(s, k)
  }

  predicate PhaseOk(s: State) {
    && (InStart(s.main) ==> !s.phase.Draining?)
    && (InWait(s.main) ==> !s.phase.Stopping?)
    && (s.main.Spawn? ==> s.phase.Starting? && 1 <= s.main.next <= s.n + 1)
    && (s.main.RunSelf? ==> s.phase.Running?)
    && (s.main.Idle? ==> s.phase.Starting? || s.phase.Running?)
    && (s.main.Refuse? ==> s.phase.Draining?)
    && (s.main.Join? ==> s.phase.Stopping? && 1 <= s.main.next <= s.n + 1)
    && (s.main.Destroyed? ==> s.phase.Stopping?)
    && (s.accept <==> !s.phase.Stopping?)
    && (s.n <= 1 ==> !s.phase.Running?)
  }

  predicate CountsOk(s: State)
    requires 0 < |s.log|
  {
    var r := |s.submitted|;
    && 1 <= r
    && (s.phase.Running? ==> 2 <= r)
    && (s.n >= 2 ==>
          && s.task == s.submitted[r - 1]
          && s.clears == r + (if s.phase.Stopping? then 1 else 0) - (if Pending(s.main) then 1 else 0))
    && (s.phase.Starting? && InStart(s.main) ==> r == 1)
    && (s.clears == 0 ==> s.phase.Starting? && Pending(s.main))
    && (s.phase.Starting? && Pending(s.main) ==> s.clears == 0)
    && s.log[0] == (if s.phase.Running? && (InStart(s.main) || s.main.RunSelf?)
                    then s.submitted[1..r - 1] else s.submitted[1..])
  }

  ghost predicate MainOk(s: State) {
    && (s.mutex.Main? <==> MainHolds(s.main))
    && (s.mutex.Worker? ==> IsWorker(s, s.mutex.id))
    && (s.clears > 0 ==> s.done <= All(s.n))
    && (Settled(s) ==> s.done == All(s.n))
    && (s.main.Asleep? && s.done == All(s.n) ==>
          exists k: nat | IsWorker(s, k) :: Pairing(s.workers[k]) && k in s.done)
  }

  ghost predicate OnePairing(s: State) {
    forall j: nat, k: nat ::
      IsWorker(s, j) && IsWorker(s, k) && Pairing(s.workers[j]) && Pairing(s.workers[k]) ==> j == k
  }

  ghost predicate WorkersOk(s: State) {
    forall k: nat | IsWorker(s, k) :: WorkerOk(s, k)
  }

  predicate ControlOk(s: State) {
    && |s.workers| == Slots(s.n) && |s.log| == Slots(s.n)
    && PhaseOk(s) && CountsOk(s)
  }

  ghost predicate Inv(s: State) {
    ControlOk(s) && MainOk(s) && OnePairing(s) && WorkersOk(s)
  }

  lemma InitInv(n: nat, empty: Task, garbage: set<nat>)
    ensures Inv(Init(n, empty, garbage))
  {
  }

  // ---------------------------------------------------------------- the main thread's steps

  /** What a step of the main thread leaves of worker k. */
  lemma MainFrame(s: State, k: nat)
    requires MainEnabled(s) && IsWorker(s, k) && !s.main.ClearBits? && (s.main.Refuse? ==> s.phase.Draining?)
    ensures var t := MainNext(s);
            && t.log[k] == s.log[k] && t.clears == s.clears && t.done == s.done && t.submitted == s.submitted && Stopped(t) == Stopped(s)
            && t.workers[k] == (if s.main.NotifyAll? && s.workers[k].Dozing? then Rewake
                                else if s.main == Spawn(k) then Top else s.workers[k])
  {
    hide All;
  }

  lemma MainKeepsRound(s: State, k: nat)
    requires ControlOk(s) && MainOk(s) && MainEnabled(s) && IsWorker(s, k) && WorkerOk(s, k)
    ensures WorkerRound(MainNext(s), k)
  {
    hide All, MainNext, MainEnabled;
    if s.main.ClearBits? {
      ClearKeepsRound(s, k);
    } else {
      MainFrame(s, k);
      assert s.main == Spawn(k) ==> s.clears == 1;
      hide ControlOk, MainOk, Stopped;
    }
  }

  lemma ClearKeepsRound(s: State, k: nat)
    requires ControlOk(s) && MainOk(s) && s.main.ClearBits? && IsWorker(s, k) && WorkerOk(s, k)
    ensures WorkerRound(MainNext(s), k)
  {
    assert !s.phase.Starting? ==> k in s.done by { assert k in All(s.n); }
    hide All, MainOk;
  }

  lemma MainKeepsSync(s: State, k: nat)
    requires ControlOk(s) && MainOk(s) && MainEnabled(s) && IsWorker(s, k) && WorkerOk(s, k)
    ensures WorkerSync(MainNext(s), k)
  {
    assert s.mutex.Main? <==> MainHolds(s.main);
    assert s.main.Spawn? && s.main.next == k ==> s.workers[k].Unborn?;
    hide MainOk, CountsOk, PhaseOk, All, WorkerRound, WorkerLife;
  }

  lemma MainKeepsLife(s: State, k: nat)
    requires ControlOk(s) && MainEnabled(s) && IsWorker(s, k) && WorkerLife(s, k)
    ensures WorkerLife(MainNext(s), k)
  {
    hide CountsOk, All;
  }

  lemma MainKeepsWorker(s: State, k: nat)
    requires Inv(s) && MainEnabled(s) && IsWorker(s, k)
    ensures WorkerOk(MainNext(s), k)
  {
    assert WorkerOk(s, k);
    hide ControlOk, MainOk, OnePairing, WorkersOk, WorkerRound, WorkerSync, WorkerLife, MainEnabled, MainNext;
    MainKeepsRound(s, k);
    MainKeepsSync(s, k);
    MainKeepsLife(s, k);
  }

  lemma MainKeepsWorkers(s: State)
    requires Inv(s) && MainEnabled(s)
    ensures WorkersOk(MainNext(s))
  {
    forall k: nat | IsWorker(MainNext(s), k) ensures WorkerOk(MainNext(s), k) {
      MainKeepsWorker(s, k);
    }
  }

  lemma MainKeepsPhase(s: State)
    requires ControlOk(s) && MainEnabled(s)
    ensures PhaseOk(MainNext(s))
  {
    var t := MainNext(s);
    assert t.n == s.n;
    if !s.main.Refuse? {
      assert t.phase == s.phase && t.accept == s.accept;
    }
  }

  lemma MainKeepsCounts(s: State)
    requires ControlOk(s) && MainEnabled(s)
    ensures |MainNext(s).log| == |s.log| && |MainNext(s).workers| == |s.workers| && CountsOk(MainNext(s))
  {
    hide All;
    if s.main.RunSelf? {
      var r := |s.submitted|;
      assert s.submitted[1..r - 1] + [s.task] == s.submitted[1..];
    } else if InStart(s.main) {
      StartKeepsCounts(s);
    } else if InWait(s.main) {
      WaitKeepsCounts(s);
    } else {
      EndKeepsCounts(s);
    }
  }

  lemma StartKeepsCounts(s: State)
    requires ControlOk(s) && MainEnabled(s) && InStart(s.main)
    ensures CountsOk(MainNext(s))
  {
    assert MainNext(s).log == s.log;
  }

  lemma WaitKeepsCounts(s: State)
    requires ControlOk(s) && MainEnabled(s) && InWait(s.main)
    ensures CountsOk(MainNext(s))
  {
    hide All;
    assert MainNext(s).log == s.log;
  }

  lemma EndKeepsCounts(s: State)
    requires ControlOk(s) && MainEnabled(s) && !InStart(s.main) && !InWait(s.main) && !s.main.RunSelf?
    ensures CountsOk(MainNext(s))
  {
    hide All;
    assert MainNext(s).log == s.log;
  }

  lemma MainStepPairing(s: State, k: nat)
    requires MainEnabled(s) && IsWorker(s, k) && (s.main == Spawn(k) ==> s.workers[k].Unborn?)
    ensures Pairing(MainNext(s).workers[k]) == Pairing(s.workers[k])
  {
    hide All;
  }

  lemma MainKeepsMain(s: State)
    requires Inv(s) && MainEnabled(s)
    ensures MainOk(MainNext(s)) && OnePairing(MainNext(s))
  {
    var t := MainNext(s);
    forall k: nat | IsWorker(t, k) ensures Pairing(t.workers[k]) == Pairing(s.workers[k]) {
      assert WorkerOk(s, k);
      MainStepPairing(s, k);
    }
    hide WorkersOk, WorkerOk;
    MainKeepsOwnOk(s);
    hide MainNext, MainOk, ControlOk, MainEnabled;
  }

  lemma MainKeepsOwnOk(s: State)
    requires ControlOk(s) && MainOk(s) && MainEnabled(s)
    ensures MainOk(MainNext(s))
  {
    hide CountsOk, Pairing;
    assert MainNext(s).n == s.n;
    hide All;
  }

  lemma MainKeepsInv(s: State)
    requires Inv(s) && MainEnabled(s)
    ensures Inv(MainNext(s))
  {
    MainKeepsPhase(s);
    MainKeepsCounts(s);
    MainKeepsMain(s);
    MainKeepsWorkers(s);
  }

  // ---------------------------------------------------------------- a worker's steps

  /** The rounds a worker can be in, from what the main thread relies on. */
  lemma WorkerFacts(s: State, k: nat)
    requires ControlOk(s) && MainOk(s) && IsWorker(s, k)
    ensures s.accept <==> !s.phase.Stopping?
    ensures s.phase.Stopping? && Pending(s.main) ==> k in s.done
    ensures |s.submitted| > 0 && s.task == s.submitted[|s.submitted| - 1]
    ensures !Stopped(s) && k !in s.done && s.clears > 0 ==> s.clears == |s.submitted|
  {
    assert k in All(s.n);
    hide All;
  }

  lemma WorkerKeepsOwnRound(s: State, k: nat)
    requires ControlOk(s) && MainOk(s) && WorkerEnabled(s, k) && WorkerOk(s, k)
    ensures WorkerRound(WorkerNext(s, k), k)
  {
    WorkerFacts(s, k);
    hide All, MainOk, ControlOk, WorkerSync, WorkerLife;
    if Post(s.workers[k]) { PostKeepsRound(s, k); } else { CallKeepsRound(s, k); }
  }

  lemma PostKeepsRound(s: State, k: nat)
    requires WorkerEnabled(s, k) && WorkerRound(s, k) && Post(s.workers[k])
    ensures WorkerRound(WorkerNext(s, k), k)
  {
    hide All;
  }

  lemma CallKeepsRound(s: State, k: nat)
    requires WorkerEnabled(s, k) && WorkerRound(s, k) && !Post(s.workers[k]) && (s.workers[k].Top? && !Stopped(s) ==> s.accept)
    requires Stopped(s) ==> !s.accept
    ensures WorkerRound(WorkerNext(s, k), k)
  {
    hide All;
  }

  lemma WorkerKeepsOwnSync(s: State, k: nat)
    requires ControlOk(s) && MainOk(s) && WorkerEnabled(s, k) && WorkerOk(s, k)
    ensures WorkerSync(WorkerNext(s, k), k)
  {
    hide MainOk, ControlOk, WorkerLife, All, WorkerRound;
    if Post(s.workers[k]) { PostKeepsSync(s, k); }
  }

  lemma PostKeepsSync(s: State, k: nat)
    requires WorkerEnabled(s, k) && WorkerSync(s, k) && Post(s.workers[k])
    ensures WorkerSync(WorkerNext(s, k), k)
  {
    hide All;
  }

  lemma WorkerKeepsOwnLife(s: State, k: nat)
    requires ControlOk(s) && MainOk(s) && WorkerEnabled(s, k) && WorkerOk(s, k)
    ensures WorkerLife(WorkerNext(s, k), k)
  {
    WorkerFacts(s, k);
    WorkerFrame(s, k);
    if s.workers[k].InTask? {
      DoneTask(s.log[k], s.submitted, s.task);
    }
    hide ControlOk, MainOk, WorkerSync, All, WorkerNext;
  }

  /** What a worker's step does to its own record. */
  lemma WorkerFrame(s: State, k: nat)
    requires WorkerEnabled(s, k)
    ensures var t := WorkerNext(s, k);
            && t.submitted == s.submitted && t.task == s.task && t.phase == s.phase
            && (t.main == s.main || (s.main.Asleep? && t.main.Relock?))
            && t.log[k] == (if s.workers[k].InTask? then s.log[k] + [s.workers[k].task] else s.log[k])
            && !t.workers[k].Unborn? && !s.workers[k].Unborn? && !s.workers[k].Exited?
            && (t.workers[k].InTask? ==> t.workers[k].task == s.task)
  {
    hide All;
  }

  lemma DoneTask(log: seq<Task>, submitted: seq<Task>, task: Task)
    requires log <= submitted && |log| + 1 == |submitted| && task == submitted[|submitted| - 1]
    ensures log + [task] <= submitted
  {
  }

  lemma WorkerKeepsSelf(s: State, k: nat)
    requires Inv(s) && WorkerEnabled(s, k)
    ensures |WorkerNext(s, k).workers| == |s.workers| && |WorkerNext(s, k).log| == |s.log| && WorkerNext(s, k).n == s.n
    ensures WorkerOk(WorkerNext(s, k), k)
  {
    assert WorkerOk(s, k);
    hide ControlOk, MainOk, OnePairing, WorkersOk, WorkerRound, WorkerSync, WorkerLife, All;
    WorkerKeepsOwnRound(s, k);
    WorkerKeepsOwnSync(s, k);
    WorkerKeepsOwnLife(s, k);
    hide WorkerNext, WorkerEnabled;
  }

  /** What a worker's step leaves of the rest. */
  lemma WorkerStepOther(s: State, k: nat, j: nat)
    requires WorkerEnabled(s, k) && IsWorker(s, j) && j != k
    ensures var t := WorkerNext(s, k);
            && IsWorker(t, j) && t.workers[j] == s.workers[j] && t.log[j] == s.log[j]
            && t.submitted == s.submitted && t.clears == s.clears && t.task == s.task && t.phase == s.phase && t.n == s.n
            && (t.main == s.main || (s.main.Asleep? && t.main.Relock?))
            && t.done == (if s.workers[k].Mark? then s.done + {k} else s.done)
            && (t.mutex == s.mutex || (s.mutex.Free? && t.mutex == Worker(k))
                || (t.mutex.Free? && WorkerHolds(s.workers[k])))
  {
    hide All;
  }

  lemma WorkerKeepsOther(s: State, k: nat, j: nat)
    requires Inv(s) && WorkerEnabled(s, k) && IsWorker(s, j) && j != k
    ensures IsWorker(WorkerNext(s, k), j) && WorkerOk(WorkerNext(s, k), j)
  {
    assert WorkerOk(s, k) && WorkerOk(s, j);
    WorkerStepOther(s, k, j);
    assert s.workers[k].Mark? && Pairing(s.workers[j]) && j in s.done ==> k in s.done;
    assert s.workers[k].Mark? ==> k !in s.done;
    hide ControlOk, MainOk, OnePairing, WorkersOk, WorkerEnabled, WorkerNext, All;
  }

  /** When a worker begins to pair, its bit was the last to be set. */
  lemma BeginsPairing(s: State, k: nat)
    requires WorkerEnabled(s, k) && !(s.workers[k].Mark? && s.done + {k} == All(s.n))
    ensures Pairing(WorkerNext(s, k).workers[k]) ==> Pairing(s.workers[k])
  {
    hide All;
  }

  /** Nobody else pairs while a bit is missing. */
  lemma NoOtherPairing(s: State, k: nat, j: nat)
    requires IsWorker(s, k) && IsWorker(s, j) && j != k && WorkerOk(s, k) && WorkerOk(s, j)
    requires s.workers[k].Mark? && s.done + {k} == All(s.n)
    ensures !Pairing(s.workers[j])
  {
    assert j in All(s.n) && k in All(s.n);
    hide All;
  }

  lemma WorkerKeepsPairing(s: State, k: nat)
    requires Inv(s) && WorkerEnabled(s, k)
    ensures OnePairing(WorkerNext(s, k))
  {
    var t := WorkerNext(s, k);
    assert WorkerOk(s, k);
    forall i: nat, j: nat | IsWorker(t, i) && IsWorker(t, j) && Pairing(t.workers[i]) && Pairing(t.workers[j])
      ensures i == j
    {
      assert WorkerOk(s, i) && WorkerOk(s, j);
      if i != k { WorkerStepOther(s, k, i); }
      if j != k { WorkerStepOther(s, k, j); }
      hide WorkerNext, WorkerOk, All, ControlOk, MainOk, WorkersOk, WorkerEnabled;
      if s.workers[k].Mark? && s.done + {k} == All(s.n) {
        if i != k { NoOtherPairing(s, k, i); }
        if j != k { NoOtherPairing(s, k, j); }
      } else {
        BeginsPairing(s, k);
      }
    }
  }

  /** A worker's step and what the main thread relies on. */
  lemma WorkerStepMain(s: State, k: nat)
    requires WorkerEnabled(s, k) && WorkerSync(s, k)
    ensures var t := WorkerNext(s, k);
            && t.clears == s.clears && t.phase == s.phase
            && (t.main == s.main || (s.main.Asleep? && t.main.Relock?))
            && t.done == (if s.workers[k].Mark? then s.done + {k} else s.done)
            && (t.mutex == s.mutex || (s.mutex.Free? && t.mutex == Worker(k)) || (s.mutex == Worker(k) && t.mutex.Free?))
            && (Pairing(s.workers[k]) && !Pairing(t.workers[k]) ==> s.workers[k].NotifyMain?)
            && (s.workers[k].NotifyMain? ==> !t.main.Asleep?)
            && (s.workers[k].Mark? && t.done == All(s.n) ==> Pairing(t.workers[k]))
  {
    hide All;
  }

  lemma WorkerKeepsMain(s: State, k: nat)
    requires Inv(s) && WorkerEnabled(s, k)
    ensures MainOk(WorkerNext(s, k))
  {
    var t := WorkerNext(s, k);
    assert WorkerOk(s, k);
    WorkerStepMain(s, k);
    assert k in All(s.n);
    assert forall j: nat | IsWorker(s, j) && j != k :: t.workers[j] == s.workers[j] by {
      forall j: nat | IsWorker(s, j) && j != k ensures t.workers[j] == s.workers[j] { WorkerStepOther(s, k, j); }
    }
    hide WorkerNext, All, WorkerOk, WorkersOk, OnePairing, ControlOk, WorkerEnabled;
    if t.main.Asleep? && t.done == All(t.n) {
      if s.workers[k].Mark? {
        assert Pairing(t.workers[k]);
      } else {
        var w: nat :| IsWorker(s, w) && Pairing(s.workers[w]) && w in s.done;
        assert IsWorker(t, w) && Pairing(t.workers[w]);
      }
    }
  }

  lemma WorkerKeepsControl(s: State, k: nat)
    requires ControlOk(s) && WorkerEnabled(s, k)
    ensures ControlOk(WorkerNext(s, k))
  {
    var t := WorkerNext(s, k);
    assert t.log[0] == s.log[0] && t.submitted == s.submitted && t.clears == s.clears;
    assert t.task == s.task && t.phase == s.phase && t.accept == s.accept && t.n == s.n;
    assert t.main == s.main || (s.main.Asleep? && t.main.Relock?);
  }

  lemma WorkerKeepsWorkers(s: State, k: nat)
    requires Inv(s) && WorkerEnabled(s, k)
    ensures WorkersOk(WorkerNext(s, k))
  {
    forall j: nat | IsWorker(WorkerNext(s, k), j) ensures WorkerOk(WorkerNext(s, k), j) {
      if j == k { WorkerKeepsSelf(s, k); } else { WorkerKeepsOther(s, k, j); }
    }
  }

  lemma WorkerKeepsInv(s: State, k: nat)
    requires Inv(s) && WorkerEnabled(s, k)
    ensures Inv(WorkerNext(s, k))
  {
    WorkerKeepsControl(s, k);
    WorkerKeepsPairing(s, k);
    WorkerKeepsMain(s, k);
    WorkerKeepsWorkers(s, k);
  }

  lemma SubmitKeepsInv(s: State, task: Task)
    requires Inv(s) && Enabled(s, Submit(task))
    ensures Inv(SubmitNext(s, task))
  {
    var t := SubmitNext(s, task);
    assert ControlOk(t);
    forall k: nat | IsWorker(t, k) ensures WorkerOk(t, k) {
      assert WorkerOk(s, k);
    }
  }

  lemma ShutdownKeepsInv(s: State)
    requires Inv(s) && Enabled(s, Shutdown)
    ensures Inv(Next(s, Shutdown))
  {
    var t := Next(s, Shutdown);
    forall k: nat | IsWorker(t, k) ensures WorkerOk(t, k) {
      assert WorkerOk(s, k);
    }
    hide WorkerOk, All;
  }

  lemma WakeMainKeepsInv(s: State)
    requires Inv(s) && Enabled(s, SpuriousMain)
    ensures Inv(Next(s, SpuriousMain))
  {
    var t := Next(s, SpuriousMain);
    forall k: nat | IsWorker(t, k) ensures WorkerOk(t, k) {
      assert WorkerOk(s, k);
    }
    hide WorkerOk, All;
  }

  lemma WokenOk(s: State, j: nat, k: nat)
    requires IsWorker(s, j) && s.workers[j].Dozing? && IsWorker(s, k) && WorkerOk(s, k)
    ensures IsWorker(At(s, j, Rewake), k) && WorkerOk(At(s, j, Rewake), k)
    ensures Pairing(At(s, j, Rewake).workers[k]) == Pairing(s.workers[k])
  {
    hide All;
  }

  lemma WakeWorkerKeepsInv(s: State, j: nat)
    requires Inv(s) && Enabled(s, SpuriousWorker(j))
    ensures Inv(Next(s, SpuriousWorker(j)))
  {
    var t := At(s, j, Rewake);
    hide WorkerOk, All, PhaseOk, CountsOk, Pairing;
    forall k: nat | IsWorker(t, k) ensures WorkerOk(t, k) && Pairing(t.workers[k]) == Pairing(s.workers[k]) {
      assert WorkerOk(s, k);
      WokenOk(s, j, k);
    }
    ControlOnly(s, t);
    assert MainOk(t) by {
      if s.main.Asleep? && s.done == All(s.n) {
        var k: nat :| IsWorker(s, k) && Pairing(s.workers[k]) && k in s.done;
        assert IsWorker(t, k) && Pairing(t.workers[k]);
      }
    }
  }

  /** The workers' own positions do not matter to the main thread's part of the invariant. */
  lemma ControlOnly(s: State, t: State)
    requires ControlOk(s) && t == s.(workers := t.workers) && |t.workers| == |s.workers|
    ensures ControlOk(t)
  {
  }

  lemma StepKeepsInv(s: State, a: Action)
    requires Inv(s) && Enabled(s, a)
    ensures Inv(Next(s, a))
  {
    match a
    case MainStep => MainKeepsInv(s);
    case WorkerStep(k) => WorkerKeepsInv(s, k);
    case Submit(task) => SubmitKeepsInv(s, task);
    case Shutdown => ShutdownKeepsInv(s);
    case SpuriousMain => WakeMainKeepsInv(s);
    case SpuriousWorker(k) => WakeWorkerKeepsInv(s, k);
  }
}

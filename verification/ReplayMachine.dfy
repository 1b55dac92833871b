/** The command buffer shared between the main thread and the workers of the pool.

    One system of atomic steps: those of `WorkerPool`, those of the main thread in `CommandFront`, and
    one step for every command a worker replays. The position and the slots are shared; a worker reads
    them at the time it replays. Every flush submits the same task, cmd_run_buffered; other tasks, which
    do not touch the buffer, may be submitted between lists. */
module ReplayMachine {
  import opened Words
  import opened RdpCommands
  import opened CommandFront
  import Replay = ParallelReplay
  import Pool = WorkerPool

  /** cmd_run_buffered, and the task the constructor installs. */
  const RUN_BUFFERED: Pool.Task := 1
  const EMPTY_TASK: Pool.Task := 0

  /** `index` is each worker's local position in cmd_run_buffered. `ran` and `fed` are history: the
      commands each worker has executed, and the words of the stream so far. */
  datatype Machine = Machine(
    compat: Compat, pool: Pool.State, front: Front,
    index: seq<nat>, ran: seq<seq<Command>>, fed: seq<Word>)

  datatype Step =
    | Word(w: Word)              // the main thread loads a word
    | Advance                    // the main thread goes on
    | Run                        // it calls parallel_run(cmd_run_buffered)
    | Other(task: Pool.Task)     // it calls parallel_run with another task
    | Close                      // it destroys the pool
    | Thread(a: Pool.Action)     // a step inside the pool
    | Replay(k: nat)             // worker k executes its next command

  ghost predicate Shape(m: Machine) {
    && FrontOk(m.front) && |m.index| == |m.pool.log| && |m.ran| == |m.pool.log|
  }

  /** Worker k is inside cmd_run_buffered. Without other workers parallel_run is a plain call. */
  predicate Replaying(m: Machine, k: nat) {
    if k == 0 then
      if m.pool.n <= 1 then m.front.stage.Flushing? else m.pool.main.RunSelf? && m.pool.task == RUN_BUFFERED
    else
      Pool.IsWorker(m.pool, k) && m.pool.workers[k] == Pool.InTask(RUN_BUFFERED)
  }

  /** Its loop has read rdp_cmd_buf_pos and ends. */
  predicate LoopDone(m: Machine, k: nat) {
    Replaying(m, k) ==> k < |m.index| && m.index[k] >= m.front.pos
  }

  /** The steps of the pool's threads; calls into the pool are the main thread's. */
  predicate ThreadEnabled(m: Machine, a: Pool.Action) {
    && Pool.Enabled(m.pool, a) && !a.Submit? && !a.Shutdown?
    && (a.MainStep? ==> LoopDone(m, 0))
    && (a.WorkerStep? ==> LoopDone(m, a.k))
  }

  ghost predicate Enabled(m: Machine, s: Step) {
    && Shape(m)
    && match s
       case Word(_) => m.pool.main.Idle? && m.front.stage.Ready?
       case Advance => m.pool.main.Idle? && !m.front.stage.Ready? && !m.front.stage.Flushing?
       case Run => Pool.Enabled(m.pool, Pool.Submit(RUN_BUFFERED)) && m.front.stage.Flushing? && (m.pool.n <= 1 ==> LoopDone(m, 0))
       case Other(t) => Pool.Enabled(m.pool, Pool.Submit(t)) && m.front.stage.Ready? && t != RUN_BUFFERED
       case Close => Pool.Enabled(m.pool, Pool.Shutdown) && m.front.stage.Ready?
       case Thread(a) => ThreadEnabled(m, a)
       case Replay(k) => Replaying(m, k) && k < |m.index| && m.index[k] < m.front.pos
  }

  /** A worker that enters the task starts at the first command. */
  function Entered(index: seq<nat>, old_: Pool.State, a: Pool.Action): seq<nat> {
    match a
    case MainStep => if old_.main.UnlockStart? && 0 < |index| then index[0 := 0] else index
    case WorkerStep(k) => if Pool.IsWorker(old_, k) && old_.workers[k].Call? && k < |index| then index[k := 0] else index
    case _ => index
  }

  ghost function Next(m: Machine, s: Step): Machine
    requires Enabled(m, s)
  {
    match s
    case Word(w) => m.(front := Store(m.front, w), fed := m.fed + [w])
    case Advance =>
      m.(front := CommandFront.Advance(m.compat, m.front),
         index := if m.pool.n <= 1 && 0 < |m.index| then m.index[0 := 0] else m.index)
    case Run => m.(pool := Pool.Next(m.pool, Pool.Submit(RUN_BUFFERED)), front := m.front.(stage := InRun(m.front.stage.next)))
    case Other(t) => m.(pool := Pool.Next(m.pool, Pool.Submit(t)))
    case Close => m.(pool := Pool.Next(m.pool, Pool.Shutdown))
    case Thread(a) => m.(pool := Pool.Next(m.pool, a), index := Entered(m.index, m.pool, a))
    case Replay(k) =>
      m.(ran := m.ran[k := m.ran[k] + [CommandIn(m.front.slots[m.index[k]])]], index := m.index[k := m.index[k] + 1])
  }

  /** The constructor's start_work, nothing decoded; the slots hold anything. */
  ghost predicate Initial(m: Machine, n: nat, garbage: set<nat>) {
    && m.pool == Pool.Init(n, EMPTY_TASK, garbage)
    && FrontOk(m.front) && m.front == Front(m.front.slots, 0, 0, Images(None, None), Ready, [])
    && |m.index| == Pool.Slots(n) && m.ran == seq(Pool.Slots(n), _ => []) && m.fed == []
  }

  ghost predicate Runs(m: Machine, steps: seq<Step>, m': Machine)
    decreases |steps|
  {
    if steps == [] then m == m'
    else Enabled(m, steps[0]) && Runs(Next(m, steps[0]), steps[1..], m')
  }

  ghost predicate Reachable(m: Machine) {
    exists m0: Machine, n: nat, garbage: set<nat>, steps: seq<Step> :: Initial(m0, n, garbage) && Runs(m0, steps, m)
  }

  // ---------------------------------------------------------------- the invariant

  /** Worker k has ended the task submitted last. */
  predicate Finished(s: Pool.State, k: nat)
    requires k < |s.log|
  {
    |s.log[k]| + (if k == 0 then 1 else 0) == |s.submitted|
  }

  /** How much of the buffer worker k has executed. */
  function Progress(m: Machine, k: nat): (n: nat)
    requires k < |m.pool.log| && k < |m.index|
  {
    if m.front.stage.InRun? && Finished(m.pool, k) then m.front.pos
    else if Replaying(m, k) then m.index[k]
    else 0
  }

  /** What worker k executed is every finished batch, then that much of the current one. */
  ghost predicate WorkerAt(m: Machine, k: nat)
    requires Shape(m) && k < |m.ran|
  {
    && Progress(m, k) <= m.front.pos
    && m.ran[k] == Replay.Batched(m.front.out) + Queue(m.front)[..Progress(m, k)]
  }

  ghost predicate WorkersAt(m: Machine)
    requires Shape(m)
  {
    forall k: nat | k < |m.ran| :: WorkerAt(m, k)
  }

  /** Where the main thread is outside, or inside some other call, when it is not flushing. */
  predicate Together(m: Machine) {
    && (!m.front.stage.InRun? && !m.front.stage.Ready? ==> m.pool.main.Idle?)
    && (m.front.stage.InRun? ==> m.pool.accept && !m.pool.phase.Draining?)
    && (m.front.stage.InRun? && m.pool.n >= 2 ==> m.pool.task == RUN_BUFFERED)
    && (m.front.stage.InRun? && m.pool.n <= 1 ==> m.pool.main.Idle?)
  }

  /** Outside a flush nobody is inside, or on the way into, cmd_run_buffered. */
  ghost predicate Quiet(m: Machine) {
    !m.front.stage.InRun? && m.pool.n >= 2 && m.pool.task == RUN_BUFFERED ==>
      forall k: nat | k < |m.pool.log| :: Finished(m.pool, k)
  }

  ghost predicate Decoded(m: Machine) {
    FrontOk(m.front) && Rest(m.compat, m.front) == FeedAll(true, m.compat, Idle, m.fed)
  }

  ghost predicate Inv(m: Machine) {
    Shape(m) && Pool.Inv(m.pool) && Together(m) && Quiet(m) && Decoded(m) && WorkersAt(m)
  }

  /** What the pool's invariant says about a worker's log. */
  lemma LogFacts(s: Pool.State, k: nat)
    requires Pool.Inv(s) && k < |s.log|
    ensures s.main.Idle? ==> Finished(s, k)
    ensures k == 0 && s.main.RunSelf? ==> |s.log[k]| + 2 == |s.submitted|
    ensures k == 0 && s.main.UnlockStart? && s.phase.Running? ==> !Finished(s, k)
    ensures Pool.IsWorker(s, k) && (s.workers[k].Call? || s.workers[k].InTask?) ==> |s.log[k]| + 1 == |s.submitted|
    ensures Pool.IsWorker(s, k) && s.workers[k].InTask? ==> s.workers[k].task == s.task
    ensures k == 0 || Pool.IsWorker(s, k)
    ensures Pool.IsWorker(s, k) && s.main == Pool.Spawn(k) ==> s.workers[k].Unborn?
  {
    if k > 0 { assert Pool.IsWorker(s, k) && Pool.WorkerOk(s, k); }
  }

  /** Outside a flush nobody has begun on the buffer. */
  lemma NotReplaying(m: Machine, k: nat)
    requires Shape(m) && Pool.Inv(m.pool) && Quiet(m) && !m.front.stage.InRun? && k < |m.ran|
    ensures Replaying(m, k) ==> k == 0 && m.pool.n <= 1 && m.front.stage.Flushing?
  {
    LogFacts(m.pool, k);
    hide Pool.Inv, FrontOk;
    if m.pool.n >= 2 && m.pool.task == RUN_BUFFERED { assert Finished(m.pool, k); }
  }

  // ---------------------------------------------------------------- every step but its workers

  ghost predicate Base(m: Machine) {
    Shape(m) && Pool.Inv(m.pool) && Together(m) && Quiet(m) && Decoded(m)
  }

  lemma WordBase(m: Machine, w: Word)
    requires Inv(m) && Enabled(m, Step.Word(w))
    ensures Base(Next(m, Step.Word(w)))
  {
    hide Pool.Inv, WorkersAt, FrontOk, Store, Feed, FeedAll, Rest, Finished;
    StoreRest(m.compat, m.front, w);
    FeedAllNext(true, m.compat, Idle, m.fed, w);
    StoreStage(m.front, w);
  }

  lemma StoreStage(f: Front, w: Word)
    requires FrontOk(f) && f.stage.Ready?
    ensures Store(f, w).stage.Ready? || Store(f, w).stage.Complete?
    ensures Store(f, w).out == f.out
  {
  }

  lemma AdvanceStage(compat: Compat, f: Front)
    requires FrontOk(f) && !f.stage.Ready? && !f.stage.Flushing?
    ensures !CommandFront.Advance(compat, f).stage.InRun?
    ensures f.stage.InRun? ==> CommandFront.Advance(compat, f).out == f.out + [Batch(Queue(f))]
    ensures !f.stage.InRun? ==> Replay.Batched(CommandFront.Advance(compat, f).out) == Replay.Batched(f.out)
  {
    if f.stage.FullAlone? { BatchedFull(f.out, f.stage.cmd); }
    hide FrontOk, Queue, CommandIn, Hazard, Remember, Syncs, IdOf, Replay.Batched;
  }

  lemma BatchedFull(out: seq<Event>, c: Command)
    ensures Replay.Batched(out + [Full(c)]) == Replay.Batched(out)
  {
    assert (out + [Full(c)])[..|out|] == out;
  }

  lemma AdvanceBase(m: Machine)
    requires Inv(m) && Enabled(m, Step.Advance)
    ensures Base(Next(m, Step.Advance))
  {
    forall k: nat | k < |m.pool.log| ensures Finished(m.pool, k) { LogFacts(m.pool, k); }
    AdvanceRest(m.compat, m.front);
    AdvanceStage(m.compat, m.front);
    hide Pool.Inv, WorkersAt, FrontOk, CommandFront.Advance, FeedAll, Rest, Finished;
  }

  lemma RunPool(m: Machine)
    requires Inv(m) && Enabled(m, Run)
    ensures var s := Next(m, Run).pool;
            && Pool.Inv(s) && |s.log| == |m.pool.log| && s.accept && !s.phase.Draining? && s.n == m.pool.n
            && (s.n >= 2 ==> s.task == RUN_BUFFERED) && (s.n <= 1 ==> s.main.Idle?)
  {
    Pool.StepKeepsInv(m.pool, Pool.Submit(RUN_BUFFERED));
    assert Pool.ControlOk(m.pool);
    hide FrontOk, Decoded, WorkersAt, Quiet, Pool.MainOk, Pool.WorkersOk, Pool.OnePairing, Pool.CountsOk;
  }

  lemma RunBase(m: Machine)
    requires Inv(m) && Enabled(m, Run)
    ensures Base(Next(m, Run))
  {
    RunPool(m);
    RunRest(m.compat, m.front);
    hide Pool.Inv, Pool.Enabled, Pool.Next, WorkersAt, FrontOk, FeedAll, Rest, Finished, LoopDone;
  }

  lemma RunRest(compat: Compat, f: Front)
    requires FrontOk(f) && f.stage.Flushing?
    ensures var g := f.(stage := InRun(f.stage.next)); FrontOk(g) && Rest(compat, g) == Rest(compat, f)
  {
    var g := f.(stage := InRun(f.stage.next));
    QueueKept(f, g);
    hide Queue, CommandIn, Issue, Hazard, Remember, IdOf;
  }

  lemma CallBase(m: Machine, s: Step)
    requires Inv(m) && Enabled(m, s) && (s.Other? || s.Close?)
    ensures Base(Next(m, s))
  {
    Pool.StepKeepsInv(m.pool, if s.Other? then Pool.Submit(s.task) else Pool.Shutdown);
    hide Pool.Inv, WorkersAt, FrontOk, FeedAll, Rest;
    if s.Close? {
      forall k: nat | k < |m.pool.log| ensures Finished(m.pool, k) ==> Finished(Next(m, s).pool, k) { }
    }
  }

  lemma ThreadPool(s: Pool.State, a: Pool.Action)
    requires Pool.Inv(s) && Pool.Enabled(s, a) && !a.Submit? && !a.Shutdown?
    ensures var t := Pool.Next(s, a);
            && Pool.Inv(t) && t.n == s.n && t.task == s.task && t.submitted == s.submitted && |t.log| == |s.log|
            && (s.main.Idle? ==> t.main.Idle?)
            && (s.accept && !s.phase.Draining? ==> t.accept && !t.phase.Draining?)
    ensures forall k: nat | k < |s.log| :: Pool.Next(s, a).log[k] ==
              if (k == 0 && a.MainStep? && s.main.RunSelf?) || (a == Pool.WorkerStep(k) && Pool.IsWorker(s, k) && s.workers[k].InTask?)
              then s.log[k] + [s.task] else s.log[k]
  {
    Pool.StepKeepsInv(s, a);
    if a.WorkerStep? { LogFacts(s, a.k); }
    assert Pool.ControlOk(s);
    hide Pool.MainOk, Pool.WorkersOk, Pool.OnePairing, Pool.PhaseOk, Pool.CountsOk, Pool.Inv, Pool.All, Pool.WakeAll;
    if a.MainStep? { MainThread(s); } else if a.WorkerStep? { WorkerThread(s, a.k); }
    hide Pool.MainNext, Pool.WorkerNext, Pool.MainEnabled, Pool.WorkerEnabled;
  }

  lemma MainThread(s: Pool.State)
    requires Pool.MainEnabled(s) && 0 < |s.log|
    ensures var t := Pool.MainNext(s);
            && t.task == s.task && t.submitted == s.submitted && !s.main.Idle?
            && (s.accept && !s.phase.Draining? && !s.main.Refuse? ==> t.accept && !t.phase.Draining?)
            && t.log == (if s.main.RunSelf? then s.log[0 := s.log[0] + [s.task]] else s.log)
    ensures s.main.Refuse? ==> !Pool.MainNext(s).accept
  {
    hide Pool.All, Pool.WakeAll;
  }

  lemma WorkerThread(s: Pool.State, k: nat)
    requires Pool.WorkerEnabled(s, k)
    ensures var t := Pool.WorkerNext(s, k);
            && t.task == s.task && t.submitted == s.submitted && (s.main.Idle? ==> t.main.Idle?)
            && t.accept == s.accept && t.phase == s.phase
            && t.log == (if s.workers[k].InTask? then s.log[k := s.log[k] + [s.workers[k].task]] else s.log)
  {
    hide Pool.All;
  }

  lemma ThreadBase(m: Machine, a: Pool.Action)
    requires Inv(m) && Enabled(m, Thread(a))
    ensures Base(Next(m, Thread(a)))
  {
    ThreadPool(m.pool, a);
    ThreadQuiet(m, a);
    hide Pool.Inv, WorkersAt, FrontOk, FeedAll, Rest, Finished, Pool.Next, Pool.Enabled, LoopDone, Quiet, Inv;
  }

  lemma ThreadQuiet(m: Machine, a: Pool.Action)
    requires Inv(m) && Enabled(m, Thread(a))
    ensures Quiet(Next(m, Thread(a)))
  {
    ThreadPool(m.pool, a);
    hide WorkersAt, FrontOk, Decoded, Together, Pool.Next, Pool.Inv, LoopDone;
    forall k: nat | k < |m.pool.log| ensures Finished(m.pool, k) ==> Finished(Pool.Next(m.pool, a), k) {
      LogFacts(m.pool, k);
    }
  }

  lemma StepBase(m: Machine, s: Step)
    requires Inv(m) && Enabled(m, s)
    ensures Base(Next(m, s))
  {
    hide Enabled, Next, Base, Inv;
    match s
    case Word(w) => WordBase(m, w);
    case Advance => AdvanceBase(m);
    case Run => RunBase(m);
    case Thread(a) => ThreadBase(m, a);
    case Replay(k) => ReplayBase(m, k);
    case _ => CallBase(m, s);
  }

  lemma ReplayBase(m: Machine, k: nat)
    requires Inv(m) && Enabled(m, Step.Replay(k))
    ensures Base(Next(m, Step.Replay(k)))
  {
    hide Pool.Inv, WorkersAt, FrontOk, FeedAll, Rest, Finished;
  }

  // ---------------------------------------------------------------- what the workers executed

  /** The main thread goes on outside a flush: nobody has begun, before or after. */
  lemma OutsideWorker(m: Machine, s: Step, k: nat)
    requires Inv(m) && Enabled(m, s) && Base(Next(m, s)) && k < |m.ran| && !m.front.stage.InRun?
    requires s.Word? || s.Advance? || s.Other? || s.Close?
    ensures WorkerAt(Next(m, s), k)
  {
    var m' := Next(m, s);
    assert WorkerAt(m, k);
    if s.Word? { StoreStage(m.front, s.w); }
    if s.Advance? { AdvanceStage(m.compat, m.front); }
    NotReplaying(m, k);
    NotReplaying(m', k);
    hide Pool.Inv, Pool.Next, FrontOk, CommandFront.Advance, Store, Quiet, Decoded, Together, WorkersAt, Finished, Queue, Replaying;
    assert Progress(m, k) == 0 && Progress(m', k) == 0;
    assert Queue(m.front)[..0] == [] && Queue(m'.front)[..0] == [];
  }

  lemma BatchedNext(out: seq<Event>, cmds: seq<Command>)
    ensures Replay.Batched(out + [Batch(cmds)]) == Replay.Batched(out) + cmds
  {
    assert (out + [Batch(cmds)])[..|out|] == out;
  }

  /** parallel_run returns: everybody has executed the whole batch. */
  lemma ReturnWorker(m: Machine, k: nat)
    requires Inv(m) && Enabled(m, Step.Advance) && Base(Next(m, Step.Advance)) && k < |m.ran| && m.front.stage.InRun?
    ensures WorkerAt(Next(m, Step.Advance), k)
  {
    var m' := Next(m, Step.Advance);
    assert WorkerAt(m, k);
    AdvanceStage(m.compat, m.front);
    LogFacts(m.pool, k);
    NotReplaying(m', k);
    BatchedNext(m.front.out, Queue(m.front));
    hide Pool.Inv, FrontOk, CommandFront.Advance, Quiet, Decoded, Together, WorkersAt, Finished, Queue, Replaying, Replay.Batched;
    assert Progress(m, k) == m.front.pos && Progress(m', k) == 0;
    assert Queue(m.front)[..m.front.pos] == Queue(m.front) && Queue(m'.front)[..0] == [];
  }

  lemma RunWorker(m: Machine, k: nat)
    requires Inv(m) && Enabled(m, Run) && Base(Next(m, Run)) && k < |m.ran|
    ensures WorkerAt(Next(m, Run), k)
  {
    var m' := Next(m, Run);
    assert WorkerAt(m, k);
    QueueKept(m.front, m'.front);
    LogFacts(m.pool, k);
    LogFacts(m'.pool, k);
    NotReplaying(m, k);
    hide Pool.Inv, FrontOk, Quiet, Decoded, Together, WorkersAt, Queue, Replay.Batched;
    assert Progress(m', k) == Progress(m, k);
  }

  lemma ThreadWorker(m: Machine, a: Pool.Action, k: nat)
    requires Inv(m) && Enabled(m, Thread(a)) && Base(Next(m, Thread(a))) && k < |m.ran|
    ensures k < |Next(m, Thread(a)).ran| && WorkerAt(Next(m, Thread(a)), k)
  {
    assert WorkerAt(m, k);
    var m' := Next(m, Thread(a));
    assert m'.front == m.front && m'.ran == m.ran;
    assert Shape(m) && Shape(m');
    hide Inv, Base, Next, Enabled, Progress, Queue, FrontOk, WorkersAt, Replay.Batched;
    ThreadProgress(m, a, m', k);
  }

  /** Worker k is inside its call of the task. */
  predicate Inside(s: Pool.State, k: nat) {
    if k == 0 then s.main.RunSelf? else Pool.IsWorker(s, k) && s.workers[k].InTask?
  }

  /** The step with which worker k enters its call. */
  predicate Enters(s: Pool.State, a: Pool.Action, k: nat) {
    if k == 0 then a.MainStep? && s.main.UnlockStart? && s.phase.Running?
    else a == Pool.WorkerStep(k) && Pool.IsWorker(s, k) && s.workers[k].Call?
  }

  /** The step with which it ends the call. */
  predicate Leaves(s: Pool.State, a: Pool.Action, k: nat) {
    Inside(s, k) && if k == 0 then a.MainStep? else a == Pool.WorkerStep(k)
  }

  lemma CallSteps(s: Pool.State, a: Pool.Action, k: nat)
    requires Pool.Inv(s) && Pool.Enabled(s, a) && !a.Submit? && !a.Shutdown? && k < |s.log|
    ensures var t := Pool.Next(s, a);
            && Inside(t, k) == ((Inside(s, k) && !Leaves(s, a, k)) || Enters(s, a, k))
            && !(Inside(s, k) && Enters(s, a, k))
  {
    LogFacts(s, k);
    assert Pool.ControlOk(s);
    hide Pool.MainOk, Pool.WorkersOk, Pool.OnePairing, Pool.CountsOk, Pool.Inv, Pool.All;
    match a
    case MainStep => MainCallSteps(s, k);
    case WorkerStep(j) => hide Pool.PhaseOk; WorkerCallSteps(s, j, k);
    case _ => hide Pool.PhaseOk;
  }

  lemma MainCallSteps(s: Pool.State, k: nat)
    requires Pool.PhaseOk(s) && Pool.MainEnabled(s) && k < |s.log| && |s.workers| == |s.log| && (k > 0 ==> Pool.IsWorker(s, k))
    requires Pool.IsWorker(s, k) && s.main == Pool.Spawn(k) ==> s.workers[k].Unborn?
    ensures var t := Pool.MainNext(s);
            Inside(t, k) == ((Inside(s, k) && !Leaves(s, Pool.MainStep, k)) || Enters(s, Pool.MainStep, k))
  {
    hide Pool.All;
  }

  lemma WorkerCallSteps(s: Pool.State, j: nat, k: nat)
    requires Pool.WorkerEnabled(s, j) && k < |s.log| && |s.workers| == |s.log| && (k > 0 ==> Pool.IsWorker(s, k))
    ensures var t := Pool.WorkerNext(s, j);
            Inside(t, k) == ((Inside(s, k) && !Leaves(s, Pool.WorkerStep(j), k)) || Enters(s, Pool.WorkerStep(j), k))
  {
    hide Pool.All;
  }

  /** A step of the pool changes nobody's progress: a call starts at command 0 and ends after the last. */
  lemma ThreadProgress(m: Machine, a: Pool.Action, m': Machine, k: nat)
    requires k < |m.index| && k < |m'.index| && k < |m.pool.log| && k < |m'.pool.log| && k < |m.ran|
    requires Inv(m) && Enabled(m, Thread(a)) && m' == Next(m, Thread(a)) && Base(m') && WorkerAt(m, k)
    ensures Progress(m', k) == Progress(m, k)
  {
    hide Pool.Inv, FrontOk, Quiet, Decoded, WorkersAt, Queue, Pool.Next, Pool.Enabled, WorkerAt, Together, Finished;
    if m.front.stage.InRun? {
      hide Replaying;
      RunProgress(m, a, m', k);
    } else {
      NotReplaying(m, k);
      NotReplaying(m', k);
      assert m'.front == m.front && m'.index == Entered(m.index, m.pool, a);
      AloneIdle(m, a);
      ThreadPool(m.pool, a);
      hide Inv, Base, Enabled, Next;
    }
  }

  lemma AloneIdle(m: Machine, a: Pool.Action)
    requires Together(m) && Enabled(m, Thread(a))
    ensures m.front.stage.Flushing? ==> Entered(m.index, m.pool, a) == m.index || m.pool.n >= 2
  {
    hide Shape, LoopDone;
  }

  lemma RunProgress(m: Machine, a: Pool.Action, m': Machine, k: nat)
    requires k < |m.index| && k < |m'.index| && k < |m.pool.log| && k < |m'.pool.log| && k < |m.ran|
    requires Inv(m) && Enabled(m, Thread(a)) && m' == Next(m, Thread(a)) && Base(m') && WorkerAt(m, k) && m.front.stage.InRun?
    ensures Progress(m', k) == Progress(m, k)
  {
    hide Pool.Inv, FrontOk, Quiet, Decoded, WorkersAt, Queue, Pool.Next, Pool.Enabled, Together, Replaying, Finished, Leaves, Replay.Batched;
    assert m'.front == m.front && m'.pool == Pool.Next(m.pool, a) && m'.index == Entered(m.index, m.pool, a);
    DoneWhenLeaving(m, a, k);
    InRunReplays(m, k);
    InRunReplays(m', k);
    hide Inv, Base, Enabled, Next;
    ThreadPool(m.pool, a);
    CallSteps(m.pool, a, k);
    LeavingFinishes(m.pool, a, k);
    EntersUnfinished(m.pool, a, k);
    LeavesInside(m.pool, a, k);
    EnteredIndex(m.index, m.pool, a, k);
    hide Inside, Enters, Entered, Pool.IsWorker;
  }

  /** Who enters starts at command 0; who is inside goes on where it is. */
  lemma EnteredIndex(index: seq<nat>, s: Pool.State, a: Pool.Action, k: nat)
    requires k < |index|
    ensures |Entered(index, s, a)| == |index|
    ensures Enters(s, a, k) ==> Entered(index, s, a)[k] == 0
    ensures Inside(s, k) ==> Entered(index, s, a)[k] == index[k]
  {
  }

  lemma DoneWhenLeaving(m: Machine, a: Pool.Action, k: nat)
    requires Enabled(m, Thread(a))
    ensures Pool.Enabled(m.pool, a) && !a.Submit? && !a.Shutdown? && (Leaves(m.pool, a, k) ==> LoopDone(m, k))
  {
    hide Shape, LoopDone, Pool.Enabled;
  }

  lemma LeavesInside(s: Pool.State, a: Pool.Action, k: nat)
    ensures Leaves(s, a, k) ==> Inside(s, k)
  {
  }

  lemma EntersUnfinished(s: Pool.State, a: Pool.Action, k: nat)
    requires Pool.Inv(s) && k < |s.log|
    ensures Enters(s, a, k) ==> !Finished(s, k)
  {
    LogFacts(s, k);
    hide Pool.Inv;
  }

  lemma LeavingFinishes(s: Pool.State, a: Pool.Action, k: nat)
    requires Pool.Inv(s) && Pool.Enabled(s, a) && !a.Submit? && !a.Shutdown? && k < |s.log|
    ensures k < |Pool.Next(s, a).log|
    ensures Finished(Pool.Next(s, a), k) == (Finished(s, k) || Leaves(s, a, k))
    ensures Leaves(s, a, k) ==> !Finished(s, k)
  {
    hide Pool.Inv, Pool.Next;
    ThreadPool(s, a);
    LogFacts(s, k);
  }

  lemma InRunReplays(m: Machine, k: nat)
    requires Together(m) && m.front.stage.InRun? && k < |m.pool.log| && Pool.Inv(m.pool)
    ensures Replaying(m, k) == Inside(m.pool, k)
  {
    LogFacts(m.pool, k);
    assert Pool.ControlOk(m.pool);
    hide Pool.Inv, FrontOk;
  }

  lemma ReplayEffect(m: Machine, j: nat)
    requires Enabled(m, Step.Replay(j))
    ensures Shaped(m.front) && j < |m.ran| && j < |m.index| && m.index[j] < |Queue(m.front)| && Replaying(m, j)
    ensures var m' := Next(m, Step.Replay(j));
            && m'.front == m.front && m'.pool == m.pool && Replaying(m', j)
            && m'.ran == m.ran[j := m.ran[j] + [Queue(m.front)[m.index[j]]]] && m'.index == m.index[j := m.index[j] + 1]
  {
    assert Shaped(m.front);
    hide FrontOk, CommandIn, Pool.IsWorker;
  }

  lemma ReplayWorker(m: Machine, j: nat, k: nat)
    requires Inv(m) && Enabled(m, Step.Replay(j)) && Base(Next(m, Step.Replay(j))) && k < |m.ran|
    ensures WorkerAt(Next(m, Step.Replay(j)), k)
  {
    hide Enabled, Next, FrontOk, Queue, Replaying, Pool.Inv, Together, Quiet, Decoded, Finished;
    assert WorkerAt(m, k);
    var m' := Next(m, Step.Replay(j));
    ReplayEffect(m, j);
    var q, i := Queue(m.front), m.index[j];
    if j == k {
      assert Base(m);
      ReplayingUnfinished(m, k);
      ReplayingUnfinished(m', k);
      hide Inv, Base, WorkersAt, Replay.Batched, Progress;
      OneMore(q, i);
    } else {
      SameProgress(m, m', k);
      hide Inv, Base, WorkersAt, Replay.Batched, Progress;
    }
  }

  lemma SameProgress(m: Machine, m': Machine, k: nat)
    requires m'.front == m.front && m'.pool == m.pool && k < |m.index| == |m'.index| && k < |m.pool.log| && m'.index[k] == m.index[k]
    ensures Progress(m', k) == Progress(m, k)
  {
    hide Finished, Pool.IsWorker;
  }

  lemma ReplayingUnfinished(m: Machine, k: nat)
    requires Base(m) && k < |m.ran| && Replaying(m, k)
    ensures Progress(m, k) == m.index[k]
  {
    LogFacts(m.pool, k);
    hide Pool.Inv, FrontOk, Quiet, Decoded, WorkersAt, Queue;
  }

  lemma OneMore(q: seq<Command>, i: nat)
    requires i < |q|
    ensures q[..i + 1] == q[..i] + [q[i]]
  {
  }

  lemma StepWorker(m: Machine, s: Step, k: nat)
    requires Inv(m) && Enabled(m, s) && Base(Next(m, s)) && k < |m.ran|
    ensures k < |Next(m, s).ran| && WorkerAt(Next(m, s), k)
  {
    assert |Next(m, s).ran| == |m.ran|;
    match s
    case Run => RunWorker(m, k);
    case Thread(a) => ThreadWorker(m, a, k);
    case Replay(j) => ReplayWorker(m, j, k);
    case Advance => if m.front.stage.InRun? { ReturnWorker(m, k); } else { OutsideWorker(m, s, k); }
    case _ => OutsideWorker(m, s, k);
  }

  lemma StepKeepsInv(m: Machine, s: Step)
    requires Inv(m) && Enabled(m, s)
    ensures Inv(Next(m, s))
  {
    StepBase(m, s);
    var m' := Next(m, s);
    assert |m'.ran| == |m.ran|;
    forall k: nat | k < |m'.ran| ensures WorkerAt(m', k) { StepWorker(m, s, k); }
    hide Next, WorkerAt;
  }

  lemma InitialInv(m: Machine, n: nat, garbage: set<nat>)
    requires Initial(m, n, garbage)
    ensures Inv(m)
  {
    Pool.InitInv(n, EMPTY_TASK, garbage);
    hide Pool.Inv;
    assert m.front.slots[0][..0] == [] && Queue(m.front) == [];
    forall k: nat | k < |m.ran| ensures WorkerAt(m, k) {
      assert Queue(m.front)[..0] == [];
    }
  }

  lemma {:induction false} RunsKeepInv(m: Machine, steps: seq<Step>, m': Machine)
    requires Inv(m) && Runs(m, steps, m')
    ensures Inv(m')
    decreases |steps|
  {
    hide Inv, Enabled, Next;
    if steps != [] {
      StepKeepsInv(m, steps[0]);
      RunsKeepInv(Next(m, steps[0]), steps[1..], m');
    }
  }

  lemma ReachableInv(m: Machine)
    requires Reachable(m)
    ensures Inv(m)
  {
    hide Inv, Initial, Runs;
    var m0: Machine, n: nat, garbage: set<nat>, steps: seq<Step> :| Initial(m0, n, garbage) && Runs(m0, steps, m);
    InitialInv(m0, n, garbage);
    RunsKeepInv(m0, steps, m);
  }
}

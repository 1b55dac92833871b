/** Every word of the stream is dealt with in a bounded number of steps, in every interleaving: each
    step of the main thread, the pool's threads and the workers' loops brings that nearer. */
module ReplayProgress {
  import opened RdpCommands
  import opened CommandFront
  import opened ReplayMachine
  import opened ReplayTheorems
  import Pool = WorkerPool
  import PoolTheorems = WorkerPoolTheorems

  /** No new word, and no call into the pool but a flush's. */
  predicate Inner(s: Step) {
    !s.Word? && !s.Other? && !s.Close?
  }

  /** Spurious wake-ups. */
  function Wakes(steps: seq<Step>): nat {
    if steps == [] then 0 else (if Own(steps[0]) then 0 else 1) + Wakes(steps[1..])
  }

  // ---------------------------------------------------------------- the main thread's own steps

  /** What one call of parallel_run adds to the pool's rank, and the step that makes it. */
  function CallCost(n: nat): nat {
    30 + 30 * n
  }

  /** The call and the return of a flush to come, with `most` commands to replay in it. */
  function FlushCost(n: nat, most: nat): nat {
    CallCost(n) + 1 + most
  }

  function RegisterCost(n: nat, most: nat): nat {
    FlushCost(n, most) + 2
  }

  function ResumeCost(next: Resume, n: nat, most: nat): nat {
    match next
    case AfterHazard(_) => RegisterCost(n, most)
    case AfterFull(_) => 1
    case AfterRegister => 0
  }

  /** Steps of the main thread until it is between words, with what they give the pool and the workers
      to do; what the current flush still has to replay is counted apart. */
  function StageCost(stage: Stage, n: nat, most: nat): nat {
    match stage
    case Ready => 0
    case Complete => FlushCost(n, most) + RegisterCost(n, most) + 1
    case Register => RegisterCost(n, most)
    case FullAlone(_) => 1
    case Flushing(next) => CallCost(n) + 1 + ResumeCost(next, n, most)
    case InRun(next) => 1 + ResumeCost(next, n, most)
  }

  lemma AdvanceCost(compat: Compat, f: Front, n: nat, most: nat)
    requires FrontOk(f) && !f.stage.Ready? && !f.stage.Flushing?
    ensures var g := CommandFront.Advance(compat, f);
            StageCost(g.stage, n, most) + 1 + (if g.stage.Flushing? then most else 0) <= StageCost(f.stage, n, most)
  {
    hide CommandIn, Hazard, Remember, Syncs, IdOf, Queue, CallCost;
  }

  // ---------------------------------------------------------------- what is left to replay

  /** Commands of the current flush that worker k has yet to execute. */
  function Left(m: Machine, k: nat): nat
    requires k < |m.pool.log| && k < |m.index|
  {
    if (m.front.stage.Flushing? || m.front.stage.InRun?) && Progress(m, k) <= m.front.pos then m.front.pos - Progress(m, k) else 0
  }

  function AllLeft(m: Machine): (v: seq<nat>)
    requires |m.index| == |m.pool.log|
    ensures |v| == |m.index|
  {
    seq(|m.index|, k requires 0 <= k < |m.index| => Left(m, k))
  }

  /** The most a flush can ask for: every worker, every slot. */
  function Most(m: Machine): nat {
    CMD_BUFFER_SIZE * |m.index|
  }

  lemma LeftFits(m: Machine)
    requires Shape(m)
    ensures PoolTheorems.Sum(AllLeft(m)) <= Most(m)
  {
    hide Left, FrontOk;
    var v, none := AllLeft(m), seq(|m.index|, _ => 0);
    forall k: nat | k < |v| ensures v[k] <= none[k] + CMD_BUFFER_SIZE { LeftMost(m, k); }
    PoolTheorems.SumOfAll(v, none, CMD_BUFFER_SIZE);
    NothingLeft(none);
  }

  lemma LeftMost(m: Machine, k: nat)
    requires Shape(m) && k < |m.index|
    ensures Left(m, k) <= CMD_BUFFER_SIZE
  {
    hide Progress;
  }

  lemma {:induction false} NothingLeft(v: seq<nat>)
    requires forall k: nat | k < |v| :: v[k] == 0
    ensures PoolTheorems.Sum(v) == 0
  {
    if v != [] { NothingLeft(v[..|v| - 1]); }
  }

  lemma LeftOutside(m: Machine)
    requires |m.index| == |m.pool.log| && !m.front.stage.Flushing? && !m.front.stage.InRun?
    ensures PoolTheorems.Sum(AllLeft(m)) == 0
  {
    hide Progress;
    NothingLeft(AllLeft(m));
  }

  // ---------------------------------------------------------------- the rank of the whole

  /** Bounds the steps before the main thread is between words and out of the pool. */
  function Rank(m: Machine): nat
    requires |m.index| == |m.pool.log|
  {
    PoolTheorems.Rank(m.pool) + StageCost(m.front.stage, m.pool.n, Most(m)) + PoolTheorems.Sum(AllLeft(m))
  }

  lemma AdvanceDescends(m: Machine)
    requires Inv(m) && Enabled(m, Step.Advance) && Inv(Next(m, Step.Advance))
    ensures Rank(Next(m, Step.Advance)) < Rank(m)
  {
    var m' := Next(m, Step.Advance);
    AdvanceCost(m.compat, m.front, m.pool.n, Most(m));
    AdvanceStage(m.compat, m.front);
    assert Shape(m') && m'.pool == m.pool && |m'.index| == |m.index| && m'.front == CommandFront.Advance(m.compat, m.front);
    LeftFits(m');
    hide Inv, Enabled, Next, CommandFront.Advance, FrontOk, PoolTheorems.Rank, AllLeft, StageCost;
    if !m'.front.stage.Flushing? { LeftOutside(m'); }
  }

  /** Submitting gives the pool a round to do. */
  lemma SubmitRank(s: Pool.State, t: Pool.Task)
    requires Pool.Enabled(s, Pool.Submit(t))
    ensures PoolTheorems.Rank(Pool.Next(s, Pool.Submit(t))) < PoolTheorems.Rank(s) + CallCost(s.n)
  {
    var s' := Pool.Next(s, Pool.Submit(t));
    assert s'.workers == s.workers && s'.done == s.done && s'.n == s.n;
    hide PoolTheorems.Weights, PoolTheorems.Sum;
  }

  lemma SameLeft(m: Machine, m': Machine)
    requires |m.index| == |m.pool.log| && |m'.index| == |m'.pool.log| == |m.index| && m'.front.pos == m.front.pos
    requires m.front.stage.Flushing? || m.front.stage.InRun? <==> m'.front.stage.Flushing? || m'.front.stage.InRun?
    requires forall k: nat | k < |m.index| :: Progress(m', k) == Progress(m, k)
    ensures AllLeft(m') == AllLeft(m)
  {
    hide Progress;
  }

  lemma RunDescends(m: Machine)
    requires Inv(m) && Enabled(m, Run) && Inv(Next(m, Run))
    ensures Rank(Next(m, Run)) < Rank(m)
  {
    var m' := Next(m, Run);
    RunPool(m);
    SubmitRank(m.pool, RUN_BUFFERED);
    forall k: nat | k < |m.index| ensures Progress(m', k) == Progress(m, k) { RunProgressKept(m, k); }
    assert Shape(m) && Shape(m');
    assert m'.pool == Pool.Next(m.pool, Pool.Submit(RUN_BUFFERED)) && m'.front == m.front.(stage := InRun(m.front.stage.next)) && m'.index == m.index;
    hide Inv, Enabled, Next, FrontOk, PoolTheorems.Rank, Pool.Next, Pool.Enabled, Progress;
    SameLeft(m, m');
  }

  /** ... and takes nothing off what anybody has executed. */
  lemma RunProgressKept(m: Machine, k: nat)
    requires Inv(m) && Enabled(m, Run) && Inv(Next(m, Run)) && k < |m.ran|
    ensures Progress(Next(m, Run), k) == Progress(m, k)
  {
    var m' := Next(m, Run);
    LogFacts(m.pool, k);
    LogFacts(m'.pool, k);
    NotReplaying(m, k);
    assert WorkerAt(m, k);
    hide Pool.Inv, FrontOk, Quiet, Decoded, WorkersAt, Queue;
  }

  lemma ThreadDescends(m: Machine, a: Pool.Action)
    requires Inv(m) && Enabled(m, Thread(a)) && Inv(Next(m, Thread(a)))
    ensures Rank(Next(m, Thread(a))) + 1 <= Rank(m) + (if Pool.Proper(a) then 0 else 3)
  {
    var m' := Next(m, Thread(a));
    assert Base(m');
    forall k: nat | k < |m.index| ensures k < |m'.index| && k < |m'.pool.log| && Progress(m', k) == Progress(m, k) {
      assert WorkerAt(m, k);
      ThreadProgress(m, a, m', k);
    }
    assert Shape(m) && Shape(m');
    ThreadFront(m, a);
    hide Inv, Base, Enabled, Next, FrontOk, PoolTheorems.Rank, Pool.Next, Pool.Enabled, Progress;
    SameLeft(m, m');
    PoolTheorems.StepRank(m.pool, a);
  }

  lemma ThreadFront(m: Machine, a: Pool.Action)
    requires Inv(m) && Enabled(m, Thread(a))
    ensures var m' := Next(m, Thread(a));
            && m'.front == m.front && |m'.index| == |m.index| && m'.pool == Pool.Next(m.pool, a) && m'.pool.n == m.pool.n
            && Pool.Inv(m.pool) && Pool.Enabled(m.pool, a) && !a.Submit? && !a.Shutdown?
  {
    hide Pool.Inv, FrontOk, Decoded, WorkersAt, Quiet, Pool.MainEnabled, Pool.WorkerEnabled, LoopDone;
  }

  lemma ReplayDescends(m: Machine, j: nat)
    requires Inv(m) && Enabled(m, Step.Replay(j)) && Inv(Next(m, Step.Replay(j)))
    ensures Rank(Next(m, Step.Replay(j))) < Rank(m)
  {
    var m' := Next(m, Step.Replay(j));
    ReplayEffect(m, j);
    ReplayStage(m, j);
    assert Base(m) && Base(m') && WorkerAt(m, j);
    ReplayingUnfinished(m, j);
    ReplayingUnfinished(m', j);
    hide Inv, Base, Enabled, Next, FrontOk, PoolTheorems.Rank, Replaying;
    forall k: nat | k < |m.index| && k != j ensures Progress(m', k) == Progress(m, k) { SameProgress(m, m', k); }
    hide Progress, Queue;
    PoolTheorems.SumOfOne(AllLeft(m'), AllLeft(m), j);
  }

  /** Every step but a new word or call brings the end nearer; a spurious wake-up puts it off by two. */
  lemma StepDescends(m: Machine, s: Step)
    requires Inv(m) && Enabled(m, s) && Inner(s)
    ensures Inv(Next(m, s)) && Rank(Next(m, s)) + 1 <= Rank(m) + (if Own(s) then 0 else 3)
  {
    StepKeepsInv(m, s);
    hide Inv, Rank, Enabled, Next;
    match s
    case Advance => AdvanceDescends(m);
    case Run => RunDescends(m);
    case Thread(a) => ThreadDescends(m, a);
    case Replay(k) => ReplayDescends(m, k);
  }

  lemma Sized(m: Machine)
    requires Inv(m)
    ensures |m.index| == |m.pool.log|
  {
  }

  lemma {:induction false} RankBounds(m: Machine, steps: seq<Step>, m': Machine)
    requires Inv(m) && Runs(m, steps, m') && forall i | 0 <= i < |steps| :: Inner(steps[i])
    ensures Inv(m') && |steps| + Rank(m') <= Rank(m) + 3 * Wakes(steps)
    decreases |steps|
  {
    hide Inv, Rank, Enabled, Next, Inner, Own;
    if steps != [] {
      StepDescends(m, steps[0]);
      RankBounds(Next(m, steps[0]), steps[1..], m');
    }
  }

  /** Every word comes to an end under every scheduler. Until the next word or call all threads together
      take at most Rank(m) steps, and three more for every spurious wake-up; and when no thread has a
      step of its own left, the main thread is between words with every worker through, or the pool gone. */
  lemma EveryWordEnds(m: Machine, steps: seq<Step>, m': Machine)
    requires Reachable(m) && Runs(m, steps, m') && forall i | 0 <= i < |steps| :: Inner(steps[i])
    ensures |m.index| == |m.pool.log| && |m'.index| == |m'.pool.log|
    ensures |steps| + Rank(m') <= Rank(m) + 3 * Wakes(steps)
    ensures (forall s: Step | Own(s) :: !Enabled(m', s)) ==> (m'.pool.main.Idle? && m'.front.stage.Ready?) || m'.pool.main.Destroyed?
  {
    hide *;
    ReachableInv(m);
    RankBounds(m, steps, m');
    Sized(m);
    Sized(m');
    if !(m'.pool.main.Idle? && m'.front.stage.Ready?) && !m'.pool.main.Destroyed? { SomeStep(m'); }
  }
}

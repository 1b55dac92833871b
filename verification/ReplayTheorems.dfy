/** Parallel replay equals sequential replay, in every interleaving of the main thread, the pool's
    threads and the workers' loops over the shared buffer. */
module ReplayTheorems {
  import opened RdpCommands
  import opened CommandFront
  import opened ReplayMachine
  import Replay = ParallelReplay
  import Pool = WorkerPool
  import PoolTheorems = WorkerPoolTheorems

  /** Between words: nothing is being replayed. */
  lemma ReadyFacts(m: Machine, k: nat)
    requires Reachable(m) && m.front.stage.Ready? && k < |m.ran|
    ensures Shaped(m.front) && m.front.pos < CMD_BUFFER_SIZE && m.front.part < CMD_MAX_INTS
    ensures m.ran[k] == Replay.Batched(m.front.out)
    ensures FeedAll(true, m.compat, Idle, m.fed)
         == Pipe(m.front.slots[m.front.pos][..m.front.part], Queue(m.front), m.front.prev, m.front.out)
  {
    ReachableInv(m);
    hide Pool.Inv, FeedAll, Replay.Batched, Queue, Finished, Replaying, Reachable, CommandIn;
    NotReplaying(m, k);
    assert WorkerAt(m, k);
    assert Queue(m.front)[..0] == [];
  }

  /** At every return from n64video_process_list, and between any two words: what each worker has
      executed, followed by what waits in the slots, is the decoded stream without SYNC_FULL. */
  lemma EveryWorkerReplaysTheStream(m: Machine, k: nat)
    requires Reachable(m) && m.front.stage.Ready? && k < |m.ran|
    ensures Shaped(m.front) && m.ran[k] + Queue(m.front) == Replay.Drawn(Commands(m.fed))
    ensures m.front.pos < CMD_BUFFER_SIZE && m.front.part < CMD_MAX_INTS
         && m.front.slots[m.front.pos][..m.front.part] == Unfinished(m.fed)
  {
    ReadyFacts(m, k);
    hide *;
    Replay.BatchesAreStream(m.compat, m.fed);
    ReplayIsStream(true, m.compat, m.fed);
  }

  /** SYNC_FULL is called on the main thread alone: it is the last command decoded, and every worker
      has executed all there was before it. */
  lemma SyncFullAlone(m: Machine, k: nat)
    requires Reachable(m) && m.front.stage.FullAlone? && k < |m.ran|
    ensures m.pool.main.Idle? && !Replaying(m, k)
    ensures m.ran[k] == Replay.Drawn(Commands(m.fed))
    ensures var cmds := Commands(m.fed); |cmds| > 0 && cmds[|cmds| - 1] == m.front.stage.cmd
  {
    ReachableInv(m);
    hide Pool.Inv, FeedAll, Commands, Replay.Batched, Replay.Drawn, Queue, Finished, Replaying, Reachable, CommandIn, History;
    NotReplaying(m, k);
    assert WorkerAt(m, k);
    assert Queue(m.front)[..0] == [];
    var p := FeedAll(true, m.compat, Idle, m.fed);
    assert p.out == m.front.out + [Full(m.front.stage.cmd)] && p.queue == Queue(m.front) == [];
    hide Rest, FrontOk, WorkersAt;
    Replay.BatchesAreStream(m.compat, m.fed);
    ReplayIsStream(true, m.compat, m.fed);
    BatchedFull(m.front.out, m.front.stage.cmd);
    HistoryOne(m.front.out, Full(m.front.stage.cmd));
  }

  /** While any worker is in its loop, no step writes a slot or moves the position. */
  lemma BufferStable(m: Machine, s: Step, k: nat)
    requires Reachable(m) && Enabled(m, s) && k < |m.ran| && Replaying(m, k)
    ensures Next(m, s).front.slots == m.front.slots && Next(m, s).front.pos == m.front.pos
  {
    ReachableInv(m);
    hide Reachable, Pool.Inv, FrontOk, WorkersAt, Decoded, Quiet, Pool.Enabled, Pool.Next;
    LogFacts(m.pool, k);
    if !m.front.stage.InRun? { NotReplaying(m, k); }
    hide Together, Store, CommandFront.Advance;
  }

  // ---------------------------------------------------------------- hazards

  lemma {:induction false} ImagesDrawn(cmds: seq<Command>)
    ensures ImagesAfter(Replay.Drawn(cmds)) == ImagesAfter(cmds)
    decreases |cmds|
  {
    hide LengthOf, IdOf, ImageOf;
    if cmds != [] {
      var front, c := cmds[..|cmds| - 1], cmds[|cmds| - 1];
      ImagesDrawn(front);
      if Replay.IsFull(c) {
        assert Replay.Drawn(cmds) == Replay.Drawn(front);
      } else {
        assert (Replay.Drawn(front) + [c])[..|Replay.Drawn(front)|] == Replay.Drawn(front);
      }
    }
  }

  lemma IssueExtends(compat: Compat, p: Pipe, c: Command)
    requires Whole(c) && p.queue == []
    ensures p.out <= Issue(compat, p, c).out
  {
    hide LengthOf, IdOf, Syncs;
  }

  /** During a flush the batch at hand is the next event of the pipeline. */
  lemma RestExtends(compat: Compat, f: Front)
    requires FrontOk(f) && (f.stage.Flushing? || f.stage.InRun?)
    ensures f.out + [Batch(Queue(f))] <= Rest(compat, f).out
  {
    var p := Flush(Buffered(f));
    assert p.out == f.out + [Batch(Queue(f))] && p.queue == [];
    if f.stage.next.AfterHazard? {
      var c := CommandIn(f.slots[f.stage.next.slot]);
      IssueExtends(compat, p.(prev := Remember(f.prev, c)), c);
    }
    hide Issue, Queue, CommandIn, Hazard, Remember, IdOf, LengthOf;
  }

  lemma {:induction false} ClearPrefix(out: seq<Event>, n: nat)
    requires ClearOut(out) && n <= |out|
    ensures ClearOut(out[..n])
    decreases |out|
  {
    hide ClearBatch;
    if n < |out| {
      ClearPrefix(out[..|out| - 1], n);
      assert out[..|out| - 1][..n] == out[..n];
    } else {
      assert out[..n] == out;
    }
  }

  /** The batch in the slots during a flush: no hazards but its first command, and no SYNC_FULL. */
  lemma CurrentBatch(m: Machine)
    requires Reachable(m) && (m.front.stage.Flushing? || m.front.stage.InRun?)
    ensures Shaped(m.front) && ClearBatch(History(m.front.out), Queue(m.front))
    ensures Replay.Drawn(History(m.front.out)) == Replay.Batched(m.front.out)
    ensures forall i | 0 <= i < m.front.pos :: !Replay.IsFull(Queue(m.front)[i])
  {
    ReachableInv(m);
    hide Reachable, Pool.Inv, FeedAll, Rest, WorkersAt, Together, Quiet, ClearBatch, History, Replay.Drawn, Replay.Batched, Queue, Replay.IsFull;
    var p, next := FeedAll(true, m.compat, Idle, m.fed), m.front.out + [Batch(Queue(m.front))];
    RestExtends(m.compat, m.front);
    hide FrontOk, Inv;
    HazardsStartBatches(m.compat, m.fed);
    assert p.out[..|next|] == next && next[..|m.front.out|] == m.front.out;
    ClearPrefix(p.out, |next|);
    hide FeedAll, Rest, Shaped;
    Replay.StreamSorted(m.compat, m.fed, |m.fed|);
    assert m.fed[..|m.fed|] == m.fed;
    SortedPrefix(p, m.front.out, Queue(m.front));
  }

  lemma SortedPrefix(p: Pipe, out: seq<Event>, q: seq<Command>)
    requires Replay.Sorted(p) && out + [Batch(q)] <= p.out
    ensures Replay.Drawn(History(out)) == Replay.Batched(out) && forall i | 0 <= i < |q| :: !Replay.IsFull(q[i])
  {
    hide History, Replay.Drawn, Replay.Batched, Replay.IsFull;
    forall i | 0 <= i < |out| ensures Replay.EventSorted(out[i]) {
      assert out[i] == p.out[i];
    }
    assert p.out[|out|] == Batch(q) && Replay.EventSorted(p.out[|out|]);
    Replay.DrawnHistory(out);
  }

  /** The hazard barrier. A worker about to execute an image command that is hazardous after all it has
      executed finds every other worker through with all of that: draws before and after the switch
      never run at the same time. */
  lemma HazardSeparatesWorkers(m: Machine, k: nat, j: nat)
    requires Reachable(m) && Enabled(m, Step.Replay(k)) && j < |m.ran|
    requires k < |m.ran| && Hazard(ImagesAfter(m.ran[k]), CommandIn(m.front.slots[m.index[k]]))
    ensures m.ran[k] <= m.ran[j]
  {
    ReplayerAt(m, k);
    ReachableInv(m);
    assert WorkerAt(m, j);
    hide *;
    CurrentBatch(m);
    var b, i := Queue(m.front), m.index[k];
    ImagesRan(m, i);
    if i > 0 {
      LaterCommand(History(m.front.out), b, i);
      assert false;
    }
    assert b[..0] == [];
    WorkerPrefix(m, j);
  }

  /** What worker k has executed, and what comes next. */
  lemma ReplayerAt(m: Machine, k: nat)
    requires Reachable(m) && Enabled(m, Step.Replay(k)) && k < |m.ran|
    ensures Shaped(m.front) && m.index[k] < m.front.pos && (m.front.stage.Flushing? || m.front.stage.InRun?)
    ensures m.ran[k] == Replay.Batched(m.front.out) + Queue(m.front)[..m.index[k]]
    ensures Queue(m.front)[m.index[k]] == CommandIn(m.front.slots[m.index[k]])
  {
    ReachableInv(m);
    ReplayStage(m, k);
    assert WorkerAt(m, k);
    ReplayingUnfinished(m, k);
    hide Reachable, Pool.Inv, CommandIn, Progress, Replay.Batched, Together, Quiet, Decoded, WorkersAt;
  }

  lemma WorkerPrefix(m: Machine, j: nat)
    requires Shape(m) && j < |m.ran| && WorkerAt(m, j)
    ensures Replay.Batched(m.front.out) <= m.ran[j]
  {
    hide Progress, Queue, Replay.Batched, FrontOk;
  }

  lemma LaterCommand(before: seq<Command>, b: seq<Command>, i: nat)
    requires ClearBatch(before, b) && 0 < i < |b| && Whole(b[i])
    ensures !Hazard(ImagesAfter(before + b[..i]), b[i])
  {
  }

  /** The images a worker has seen set are those of the stream so far. */
  lemma ImagesRan(m: Machine, i: nat)
    requires Shaped(m.front) && i <= m.front.pos
    requires Replay.Drawn(History(m.front.out)) == Replay.Batched(m.front.out)
    requires forall i | 0 <= i < m.front.pos :: !Replay.IsFull(Queue(m.front)[i])
    ensures ImagesAfter(Replay.Batched(m.front.out) + Queue(m.front)[..i]) == ImagesAfter(History(m.front.out) + Queue(m.front)[..i])
  {
    hide *;
    var b := Queue(m.front)[..i];
    ImagesDrawn(History(m.front.out) + b);
    Replay.DrawnAppend(History(m.front.out), b);
    Replay.DrawnPlain(b);
  }

  /** Replaying happens during a flush only. */
  lemma ReplayStage(m: Machine, k: nat)
    requires Inv(m) && Enabled(m, Step.Replay(k))
    ensures m.front.stage.Flushing? || m.front.stage.InRun?
  {
    hide Pool.Inv, FrontOk, Decoded, WorkersAt;
    if !m.front.stage.InRun? { NotReplaying(m, k); }
  }

  // ---------------------------------------------------------------- progress

  /** The steps the threads take by themselves. */
  predicate Own(s: Step) {
    s.Advance? || s.Run? || s.Replay? || (s.Thread? && Pool.Proper(s.a))
  }

  /** Unless the main thread is between words, or the pool is gone, some thread can go on. */
  lemma NoDeadlock(m: Machine)
    requires Reachable(m) && !(m.pool.main.Idle? && m.front.stage.Ready?) && !m.pool.main.Destroyed?
    ensures exists s: Step :: Own(s) && Enabled(m, s)
  {
    ReachableInv(m);
    SomeStep(m);
  }

  lemma SomeStep(m: Machine)
    requires Inv(m) && !(m.pool.main.Idle? && m.front.stage.Ready?) && !m.pool.main.Destroyed?
    ensures exists s: Step :: Own(s) && Enabled(m, s)
  {
    hide Decoded, WorkersAt, Quiet, FrontOk;
    if m.pool.main.Idle? {
      IdleGoesOn(m);
    } else {
      PoolTheorems.SomeStep(m.pool);
      var a: Pool.Action :| Pool.Proper(a) && Pool.Enabled(m.pool, a);
      ThreadGoesOn(m, a);
    }
  }

  lemma IdleGoesOn(m: Machine)
    requires Inv(m) && m.pool.main.Idle? && !m.front.stage.Ready?
    ensures exists s: Step :: Own(s) && Enabled(m, s)
  {
    hide Decoded, WorkersAt, Quiet, FrontOk;
    assert Pool.ControlOk(m.pool);
    if !m.front.stage.Flushing? {
      assert Enabled(m, Step.Advance);
    } else if m.pool.n <= 1 && m.index[0] < m.front.pos {
      assert Enabled(m, Step.Replay(0));
    } else {
      assert Enabled(m, Run);
    }
  }

  lemma ThreadGoesOn(m: Machine, a: Pool.Action)
    requires Inv(m) && Pool.Proper(a) && Pool.Enabled(m.pool, a)
    ensures exists s: Step :: Own(s) && Enabled(m, s)
  {
    hide Decoded, WorkersAt, Quiet, FrontOk, Together, Pool.MainOk, Pool.WorkersOk, Pool.OnePairing, Pool.PhaseOk, Pool.CountsOk;
    var k := if a.MainStep? then 0 else a.k;
    assert k < |m.index|;
    hide Pool.Inv, Pool.Enabled, Replaying;
    if LoopDone(m, k) {
      assert Enabled(m, Thread(a));
    } else {
      assert Enabled(m, Step.Replay(k));
    }
  }
}

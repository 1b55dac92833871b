/** What the pipeline's batches come to: the stream without its SYNC_FULLs. */
module ParallelReplay {
  import opened Words
  import opened RdpCommands

  predicate IsFull(c: Command) {
    c != [] && IdOf(c[0]) == CMD_ID_SYNC_FULL
  }

  /** The stream without its SYNC_FULLs, which run on the main thread alone. */
  function Drawn(cmds: seq<Command>): seq<Command> {
    if cmds == [] then []
    else Drawn(cmds[..|cmds| - 1]) + (if IsFull(cmds[|cmds| - 1]) then [] else [cmds[|cmds| - 1]])
  }

  /** What the batches replayed, in order. */
  function Batched(out: seq<Event>): seq<Command> {
    if out == [] then []
    else Batched(out[..|out| - 1]) + (if out[|out| - 1].Batch? then out[|out| - 1].cmds else [])
  }

  /** SYNC_FULL is never buffered, and nothing else runs on the main thread alone. */
  ghost predicate Sorted(p: Pipe) {
    && (forall i | 0 <= i < |p.queue| :: !IsFull(p.queue[i]))
    && forall i | 0 <= i < |p.out| :: EventSorted(p.out[i])
  }

  ghost predicate EventSorted(e: Event) {
    match e
    case Batch(cmds) => forall i | 0 <= i < |cmds| :: !IsFull(cmds[i])
    case Full(c) => IsFull(c)
    case Direct(_) => false
  }

  lemma DispatchSorted(compat: Compat, p: Pipe, c: Command)
    requires Sorted(p) && Whole(c)
    ensures Sorted(Dispatch(true, compat, p, c))
  {
    hide LengthOf, Hazard, Remember, Syncs, IdOf;
  }

  lemma {:induction false} StreamSorted(compat: Compat, ws: seq<Word>, n: nat)
    requires n <= |ws|
    ensures Sorted(FeedAll(true, compat, Idle, ws[..n]))
    decreases n
  {
    hide Dispatch, LengthOf, Sorted;
    if n == 0 {
      IdleSorted();
    } else {
      StreamSorted(compat, ws, n - 1);
      TakeNext(ws, n - 1);
      FeedAllNext(true, compat, Idle, ws[..n - 1], ws[n - 1]);
      FeedSorted(compat, FeedAll(true, compat, Idle, ws[..n - 1]), ws[n - 1]);
    }
  }

  lemma IdleSorted()
    ensures Sorted(Idle)
  {
  }

  lemma FeedSorted(compat: Compat, p: Pipe, w: Word)
    requires Sorted(p)
    ensures Sorted(Feed(true, compat, p, w))
  {
    hide Dispatch, LengthOf, IdOf, IsFull;
    if Whole(p.part + [w]) { DispatchSorted(compat, p.(part := []), p.part + [w]); }
  }

  lemma {:induction false} DrawnAppend(a: seq<Command>, b: seq<Command>)
    ensures Drawn(a + b) == Drawn(a) + Drawn(b)
    decreases |b|
  {
    if b == [] {
      assert a + b == a;
    } else {
      assert (a + b)[..|a + b| - 1] == a + b[..|b| - 1];
      DrawnAppend(a, b[..|b| - 1]);
    }
  }

  lemma {:induction false} DrawnPlain(cmds: seq<Command>)
    requires forall i | 0 <= i < |cmds| :: !IsFull(cmds[i])
    ensures Drawn(cmds) == cmds
    decreases |cmds|
  {
    if cmds != [] {
      DrawnPlain(cmds[..|cmds| - 1]);
      assert cmds[..|cmds| - 1] + [cmds[|cmds| - 1]] == cmds;
    }
  }

  lemma {:induction false} DrawnHistory(out: seq<Event>)
    requires forall i | 0 <= i < |out| :: EventSorted(out[i])
    ensures Drawn(History(out)) == Batched(out)
    decreases |out|
  {
    if out != [] {
      var front, e := out[..|out| - 1], out[|out| - 1];
      DrawnHistory(front);
      DrawnAppend(History(front), Executed(e));
      DrawnEvent(e);
    }
  }

  lemma DrawnEvent(e: Event)
    requires EventSorted(e)
    ensures Drawn(Executed(e)) == if e.Batch? then e.cmds else []
  {
    match e
    case Batch(cmds) => DrawnPlain(cmds);
    case Full(c) => assert Drawn([c]) == Drawn([]) by { assert [c][..0] == []; }
  }

  /** What the workers replay and what waits are together the stream without its SYNC_FULLs. */
  lemma BatchesAreStream(compat: Compat, ws: seq<Word>)
    ensures var p := FeedAll(true, compat, Idle, ws); Batched(p.out) + p.queue == Drawn(Commands(ws))
  {
    var p := FeedAll(true, compat, Idle, ws);
    ReplayIsStream(true, compat, ws);
    StreamSorted(compat, ws, |ws|);
    assert ws[..|ws|] == ws;
    hide FeedAll, History, Batched, Drawn, Commands, IsFull, PipeOk;
    DrawnAppend(History(p.out), p.queue);
    DrawnHistory(p.out);
    DrawnPlain(p.queue);
  }
}

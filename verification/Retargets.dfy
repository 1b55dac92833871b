/** When draws to overlapping images can share a batch: not at the medium and high levels, and at the
    low level exactly when the older image has been replaced and the newer one clashes with neither
    remembered image. */
module Retargets {
  import opened Words
  import opened RdpCommands

  predicate SetsImage(c: Command) {
    Whole(c) && IsImage(c)
  }

  // ---------------------------------------------------------------- the medium and high levels

  predicate NoImages(cmds: seq<Command>) {
    forall i | 0 <= i < |cmds| :: !SetsImage(cmds[i])
  }

  predicate EndsBatch(e: Event) {
    e.Batch? && e.cmds != [] ==> NoImages(e.cmds[..|e.cmds| - 1])
  }

  ghost predicate ImagesLast(p: Pipe) {
    NoImages(p.queue) && forall i | 0 <= i < |p.out| :: EndsBatch(p.out[i])
  }

  lemma FlushLast(p: Pipe)
    requires p.queue != [] ==> NoImages(p.queue[..|p.queue| - 1])
    requires forall i | 0 <= i < |p.out| :: EndsBatch(p.out[i])
    ensures ImagesLast(Flush(p))
  {
    hide SetsImage;
  }

  lemma DispatchLast(compat: Compat, p: Pipe, c: Command)
    requires !compat.Low? && ImagesLast(p) && Whole(c)
    ensures ImagesLast(Dispatch(true, compat, p, c))
  {
    assert SetsImage(c) ==> Syncs(compat, IdOf(c[0]));
    hide Hazard, Remember, SetsImage, LengthOf, Syncs;
    FlushLast(p);
    var p1 := Target(p, c);
    assert ImagesLast(p1);
    hide Target;
    if IdOf(c[0]) == CMD_ID_SYNC_FULL {
      FlushLast(p1);
      hide Flush;
    } else {
      var p2 := p1.(queue := p1.queue + [c]);
      assert p2.queue[..|p2.queue| - 1] == p1.queue;
      FlushLast(p2);
      hide Flush;
    }
  }

  /** At the medium and high levels every image command is the last of its batch: no batch holds draws
      to two images set in it. */
  lemma {:induction false} ImagesEndBatches(compat: Compat, ws: seq<Word>)
    requires !compat.Low?
    ensures ImagesLast(FeedAll(true, compat, Idle, ws))
    decreases |ws|
  {
    if ws != [] {
      hide ImagesLast, Dispatch, LengthOf;
      ImagesEndBatches(compat, ws[..|ws| - 1]);
      var p := FeedAll(true, compat, Idle, ws[..|ws| - 1]);
      var part := p.part + [ws[|ws| - 1]];
      LastPart(p, []);
      LastPart(p, part);
      if Whole(part) { DispatchLast(compat, p.(part := []), part); }
    }
  }

  lemma LastPart(p: Pipe, part: seq<Word>)
    ensures ImagesLast(p.(part := part)) == ImagesLast(p)
  {
  }

  // ---------------------------------------------------------------- every level

  /** The image set by the i-th command of a batch, the stream before the batch being `before`. */
  function ImageAt(before: seq<Command>, batch: seq<Command>, i: nat): Image
    requires i < |batch| && SetsImage(batch[i])
  {
    ImageOf(ImagesAfter(before + batch[..i]), batch[i])
  }

  /** Commands i and j of the batch set different images that overlap. */
  predicate Conflict(before: seq<Command>, batch: seq<Command>, i: nat, j: nat) {
    && i < j < |batch| && SetsImage(batch[i]) && SetsImage(batch[j])
    && Overlap(ImageAt(before, batch, j), ImageAt(before, batch, i))
    && ImageAt(before, batch, j) != ImageAt(before, batch, i)
  }

  /** A command between them sets another image of the first one's kind. */
  predicate Replaced(batch: seq<Command>, i: nat, j: nat)
    requires i < j <= |batch| && SetsImage(batch[i])
  {
    exists k: nat | i < k < j :: SetsImage(batch[k]) && IdOf(batch[k][0]) == IdOf(batch[i][0])
  }

  function OfKind(prev: Images, id: nat): Option<Image> {
    if id == CMD_ID_SET_COLOR_IMAGE then prev.color else prev.depth
  }

  lemma RememberKind(prev: Images, c: Command, id: nat)
    requires Whole(c) && (id == CMD_ID_SET_COLOR_IMAGE || id == CMD_ID_SET_MASK_IMAGE)
    ensures OfKind(Remember(prev, c), id) == if IdOf(c[0]) == id then Some(ImageOf(prev, c)) else OfKind(prev, id)
  {
    hide ImageOf, LengthOf;
  }

  /** An image is remembered until another of its kind is set. */
  lemma {:induction false} StillRemembered(before: seq<Command>, batch: seq<Command>, i: nat, j: nat)
    requires i < j <= |batch| && SetsImage(batch[i]) && !Replaced(batch, i, j)
    ensures OfKind(ImagesAfter(before + batch[..j]), IdOf(batch[i][0])) == Some(ImageAt(before, batch, i))
    decreases j
  {
    var c, id := batch[j - 1], IdOf(batch[i][0]);
    hide ImageOf, LengthOf;
    assert before + batch[..j] == (before + batch[..j - 1]) + [c];
    if Whole(c) {
      ImagesNext(before + batch[..j - 1], c);
      RememberKind(ImagesAfter(before + batch[..j - 1]), c, id);
    } else {
      ImagesSkip(before + batch[..j - 1], c);
    }
    if i < j - 1 {
      NotReplacedSoFar(batch, i, j);
      StillRemembered(before, batch, i, j - 1);
    }
  }

  lemma NotReplacedSoFar(batch: seq<Command>, i: nat, j: nat)
    requires i < j - 1 < |batch| && SetsImage(batch[i]) && !Replaced(batch, i, j)
    ensures !Replaced(batch, i, j - 1) && !(SetsImage(batch[j - 1]) && IdOf(batch[j - 1][0]) == IdOf(batch[i][0]))
  {
    hide SetsImage, IdOf;
  }

  lemma ImagesSkip(cmds: seq<Command>, c: Command)
    requires !Whole(c)
    ensures ImagesAfter(cmds + [c]) == ImagesAfter(cmds)
  {
    assert (cmds + [c])[..|cmds|] == cmds;
  }

  lemma UnreplacedHazard(before: seq<Command>, batch: seq<Command>, i: nat, j: nat)
    requires Conflict(before, batch, i, j) && !Replaced(batch, i, j)
    ensures Hazard(ImagesAfter(before + batch[..j]), batch[j])
  {
    StillRemembered(before, batch, i, j);
    OverlapIsHazard(ImagesAfter(before + batch[..j]), batch[j], ImageAt(before, batch, i));
  }

  /** In a batch without hazards only a replaced image can conflict with a later one. */
  lemma ConflictsAreReplaced(before: seq<Command>, batch: seq<Command>, i: nat, j: nat)
    requires ClearBatch(before, batch) && Conflict(before, batch, i, j)
    ensures Replaced(batch, i, j)
  {
    hide Hazard, Overlap, ImageAt, ImagesAfter;
    if !Replaced(batch, i, j) {
      UnreplacedHazard(before, batch, i, j);
      assert false;
    }
  }

  /** A property of every batch, finished or waiting, and of the stream before it. */
  ghost predicate OnlyReplaced(before: seq<Command>, batch: seq<Command>) {
    forall i: nat, j: nat | Conflict(before, batch, i, j) :: Replaced(batch, i, j)
  }

  ghost predicate AllOnlyReplaced(out: seq<Event>) {
    out == [] ||
    var front, e := out[..|out| - 1], out[|out| - 1];
    AllOnlyReplaced(front) && (e.Batch? ==> OnlyReplaced(History(front), e.cmds))
  }

  lemma {:induction false} ClearReplaced(out: seq<Event>)
    requires ClearOut(out)
    ensures AllOnlyReplaced(out)
    decreases |out|
  {
    hide ClearBatch, OnlyReplaced, History;
    if out != [] {
      ClearReplaced(out[..|out| - 1]);
      if out[|out| - 1].Batch? { BatchReplaced(History(out[..|out| - 1]), out[|out| - 1].cmds); }
    }
  }

  lemma BatchReplaced(before: seq<Command>, batch: seq<Command>)
    requires ClearBatch(before, batch)
    ensures OnlyReplaced(before, batch)
  {
    hide ClearBatch, ImageAt, Overlap, IsImage;
    forall i: nat, j: nat | Conflict(before, batch, i, j) ensures Replaced(batch, i, j) {
      ConflictsAreReplaced(before, batch, i, j);
    }
  }

  /** Over the whole stream, at every level: two image commands of one batch whose images overlap and
      differ have, between them, a command that replaces the first. */
  lemma SharedBatchesOnlyReplaced(compat: Compat, ws: seq<Word>)
    ensures var p := FeedAll(true, compat, Idle, ws); AllOnlyReplaced(p.out) && OnlyReplaced(History(p.out), p.queue)
  {
    HazardsStartBatches(compat, ws);
    hide FeedAll, OnlyReplaced, AllOnlyReplaced, ClearOut, ClearBatch, History;
    var p := FeedAll(true, compat, Idle, ws);
    ClearReplaced(p.out);
    BatchReplaced(History(p.out), p.queue);
  }

  // ---------------------------------------------------------------- the low level, exactly

  /** The last command of the batch sets an image that conflicts with an earlier one's. */
  ghost predicate LastConflicts(before: seq<Command>, batch: seq<Command>) {
    exists i: nat, j: nat :: j + 1 == |batch| && Conflict(before, batch, i, j)
  }

  /** The batch that holds the command fed last. */
  function LastBatch(p: Pipe): seq<Command> {
    if p.queue != [] then p.queue
    else if p.out != [] && p.out[|p.out| - 1].Batch? then p.out[|p.out| - 1].cmds
    else []
  }

  lemma FeedTwo(compat: Compat, p: Pipe, ws: seq<Word>, c: Command)
    requires |c| == 2 && Whole(c) && FeedAll(true, compat, p, ws).part == []
    ensures FeedAll(true, compat, p, ws + c) == Dispatch(true, compat, FeedAll(true, compat, p, ws), c)
  {
    assert ws + c == ws + [c[0]] + [c[1]];
    assert c == [c[0]] + [c[1]];
    FeedAllNext(true, compat, p, ws, c[0]);
    FeedAllNext(true, compat, p, ws + [c[0]], c[1]);
    var q := FeedAll(true, compat, p, ws);
    assert q.part + [c[0]] == [c[0]];
    assert q.(part := []) == q;
    assert LengthOf(IdOf(c[0])) == 2;
    hide FeedAll, Dispatch, LengthOf, IdOf;
  }

  lemma ImageLength(c: Command)
    requires SetsImage(c)
    ensures |c| == 2 && IdOf(c[0]) != CMD_ID_SYNC_FULL && !Syncs(Low, IdOf(c[0]))
  {
  }

  /** Exactly the hazards start a batch. */
  lemma JoinsUnlessHazard(p: Pipe, c: Command)
    requires SetsImage(c)
    ensures LastBatch(Dispatch(true, Low, p, c)) == if Hazard(p.prev, c) then [c] else p.queue + [c]
  {
    ImageLength(c);
    hide Hazard, Remember, IdOf, LengthOf, Syncs;
    assert [] + [c] == [c];
  }

  /** What the barrier misses. An image command comes to share a batch with an earlier one whose image
      it overlaps and differs from if and only if there is such a one in the buffer, and the new image
      clashes with neither remembered image; and then every such one has been replaced by a later
      image of its kind. */
  lemma MissedExactly(ws: seq<Word>, c: Command)
    requires SetsImage(c) && Unfinished(ws) == []
    ensures var p := FeedAll(true, Low, Idle, ws);
            var before, all := History(p.out), p.queue + [c];
            && (LastConflicts(before, LastBatch(FeedAll(true, Low, Idle, ws + c))) <==>
                  LastConflicts(before, all) && !Clashes(p.prev.color, ImageOf(p.prev, c)) && !Clashes(p.prev.depth, ImageOf(p.prev, c)))
            && (!Hazard(p.prev, c) ==> OnlyReplaced(before, all))
  {
    var p := FeedAll(true, Low, Idle, ws);
    ReplayIsStream(true, Low, ws);
    ImageLength(c);
    FeedTwo(Low, Idle, ws, c);
    JoinsUnlessHazard(p, c);
    HazardsStartBatches(Low, ws);
    hide FeedAll, Dispatch, LastBatch, History, Unfinished, Commands, PipeOk, ImageOf, LengthOf, IdOf, Overlap, Clashes, ImagesAfter, ClearOut, LastConflicts, OnlyReplaced;
    assert History(p.out) + (p.queue + [c])[..|p.queue|] == History(p.out) + p.queue by { assert (p.queue + [c])[..|p.queue|] == p.queue; }
    if Hazard(p.prev, c) {
      NoConflictAlone(History(p.out), c);
    } else {
      JoinedClear(History(p.out), p.queue, c);
      BatchReplaced(History(p.out), p.queue + [c]);
    }
  }

  lemma NoConflictAlone(before: seq<Command>, c: Command)
    ensures !LastConflicts(before, [c])
  {
  }

  lemma JoinedClear(before: seq<Command>, queue: seq<Command>, c: Command)
    requires ClearBatch(before, queue) && Whole(c) && !Hazard(ImagesAfter(before + queue), c)
    ensures ClearBatch(before, queue + [c])
  {
    hide Hazard, ImagesAfter, LengthOf, IdOf;
    var all := queue + [c];
    forall j | 0 < j < |all| && Whole(all[j]) ensures !Hazard(ImagesAfter(before + all[..j]), all[j]) {
      if j < |queue| { assert all[..j] == queue[..j]; } else { assert all[..j] == queue; }
    }
  }

  // ---------------------------------------------------------------- one such stream

  /** A colour image of 32-bit pixels, `width` pixels wide, at `addr`. */
  function ColorImage(width: nat, addr: Word): (c: Command)
    requires 1 <= width <= 1024
    ensures |c| == 2
  {
    [0x3f00_0000 + 3 * 0x8_0000 + width - 1, addr]
  }

  lemma ColorImageIs(prev: Images, width: nat, addr: Word)
    requires 1 <= width <= 1024 && addr < 0x100_0000
    ensures var c := ColorImage(width, addr);
            && Whole(c) && IdOf(c[0]) == CMD_ID_SET_COLOR_IMAGE && ImageOf(prev, c) == Image(addr, width * 4 * 240)
  {
  }

  /** A colour image that clashes with neither remembered image just joins the batch. */
  lemma JoinsBatch(p: Pipe, width: nat, addr: Word)
    requires 1 <= width <= 1024 && addr < 0x100_0000 && |p.queue| < 100
    requires var i := Image(addr, width * 4 * 240); !Clashes(p.prev.color, i) && !Clashes(p.prev.depth, i)
    ensures Whole(ColorImage(width, addr))
    ensures Dispatch(true, Low, p, ColorImage(width, addr)) ==
      p.(queue := p.queue + [ColorImage(width, addr)], prev := p.prev.(color := Some(Image(addr, width * 4 * 240))))
  {
    ColorImageIs(p.prev, width, addr);
    hide ColorImage, RowBytes, IdOf, LengthOf, ImageOf;
  }

  /** Only the last colour and the last depth image are remembered: at the low level, an image that
      overlaps an older one of the same batch joins that batch without a barrier. */
  lemma OlderImageMissed()
    ensures var a, b, c := ColorImage(16, 0), ColorImage(16, 0x10_0000), ColorImage(8, 0);
            && FeedAll(true, Low, Idle, a + b + c).out == [] && FeedAll(true, Low, Idle, a + b + c).queue == [a, b, c]
            && Overlap(Image(0, 16 * 4 * 240), Image(0, 8 * 4 * 240)) && Conflict([], [a, b, c], 0, 2)
  {
    var a, b, c := ColorImage(16, 0), ColorImage(16, 0x10_0000), ColorImage(8, 0);
    ColorImageIs(Images(None, None), 16, 0);
    ColorImageIs(Images(None, None), 16, 0x10_0000);
    ColorImageIs(Images(None, None), 8, 0);
    var p1 := Dispatch(true, Low, Idle, a);
    JoinsBatch(Idle, 16, 0);
    JoinsBatch(p1, 16, 0x10_0000);
    var p2 := Dispatch(true, Low, p1, b);
    JoinsBatch(p2, 8, 0);
    assert Conflict([], [a, b, c], 0, 2) by {
      hide ColorImage, IdOf, LengthOf, ImageOf;
      ColorImageIs(ImagesAfter([] + [a, b, c][..0]), 16, 0);
      ColorImageIs(ImagesAfter([] + [a, b, c][..2]), 8, 0);
    }
    hide ColorImage, Dispatch, FeedAll, IdOf, LengthOf, Whole;
    FeedAllNone(Idle);
    FeedTwo(Low, Idle, [], a);
    assert [] + a == a;
    FeedTwo(Low, Idle, a, b);
    FeedTwo(Low, Idle, a + b, c);
  }

  lemma FeedAllNone(p: Pipe)
    ensures FeedAll(true, Low, p, []) == p
  {
  }
}

/** The RDP command pipeline of n64video.c: a streaming decoder, a buffer of decoded commands that
    all workers replay, and the points where it is flushed.

    The specification feeds one word at a time; the loop of n64video_process_list, which loads as
    much of a command as it can, is proved equal to it. */
module RdpCommands {
  import opened Words

  const CMD_MAX_INTS := 44
  const CMD_BUFFER_SIZE := 1024

  const CMD_ID_SYNC_FULL := 0x29
  const CMD_ID_SET_TEXTURE_IMAGE := 0x3d
  const CMD_ID_SET_MASK_IMAGE := 0x3e
  const CMD_ID_SET_COLOR_IMAGE := 0x3f

  datatype Option<T> = None | Some(value: T)

  type Command = seq<Word>

  /** CMD_ID of a command's first word. */
  function IdOf(w: Word): (id: nat)
    ensures id < 64
  {
    w / 0x100_0000 % 64
  }

  /** rdp_commands[id].length >> 2. */
  function LengthOf(id: nat): (n: nat)
    ensures 2 <= n <= CMD_MAX_INTS && n % 2 == 0
  {
    match id
    case 0x08 => 8
    case 0x09 => 12
    case 0x0a => 24
    case 0x0b => 28
    case 0x0c => 24
    case 0x0d => 28
    case 0x0e => 40
    case 0x0f => 44
    case 0x24 => 4
    case 0x25 => 4
    case _ => 2
  }

  /** Bits 24 to 29 are the command; its length in bytes, triangles by what they are to be filled with. */
  lemma CommandLength(top: nat, id: nat, low: nat)
    requires top < 4 && id < 64 && low < 0x100_0000
    ensures IdOf(top * 0x4000_0000 + id * 0x100_0000 + low) == id
    ensures 4 * LengthOf(id) ==
              if 8 <= id < 16 then 32 + 64 * (id / 4 % 2) + 64 * (id / 2 % 2) + 16 * (id % 2)
              else if id == 0x24 || id == 0x25 then 16
              else 8
  {
    assert (top * 0x4000_0000 + id * 0x100_0000 + low) / 0x100_0000 == top * 64 + id;
  }

  predicate Whole(c: Command) {
    c != [] && |c| == LengthOf(IdOf(c[0]))
  }

  // ---------------------------------------------------------------- what the stream says

  /** The commands of a word stream, and the words of an unfinished last one. */
  function Commands(ws: seq<Word>): seq<Command>
    decreases |ws|
  {
    if ws == [] || |ws| < LengthOf(IdOf(ws[0])) then []
    else [ws[..LengthOf(IdOf(ws[0]))]] + Commands(ws[LengthOf(IdOf(ws[0]))..])
  }

  function Unfinished(ws: seq<Word>): seq<Word>
    decreases |ws|
  {
    if ws == [] || |ws| < LengthOf(IdOf(ws[0])) then ws
    else Unfinished(ws[LengthOf(IdOf(ws[0]))..])
  }

  // ---------------------------------------------------------------- hazards

  datatype Image = Image(addr: nat, extent: nat)

  /** prev_img_addr and prev_img_extent: the last colour and depth image. */
  datatype Images = Images(color: Option<Image>, depth: Option<Image>)

  predicate IsImage(c: Command)
    requires c != []
  {
    IdOf(c[0]) == CMD_ID_SET_COLOR_IMAGE || IdOf(c[0]) == CMD_ID_SET_MASK_IMAGE
  }

  function RowBytes(w: Word): nat {
    var width := w % 0x400 + 1;
    match w / 0x8_0000 % 4
    case 3 => width * 4
    case 2 => width * 2
    case 1 => width
    case _ => width / 2
  }

  /** The address and the estimated extent of an image command. */
  function ImageOf(prev: Images, c: Command): Image
    requires Whole(c)
  {
    Image(c[1] % 0x100_0000,
      if IdOf(c[0]) == CMD_ID_SET_COLOR_IMAGE then RowBytes(c[0]) * 240
      else if prev.color.Some? then prev.color.value.extent
      else 320 * 2 * 240)
  }

  function Distance(a: nat, b: nat): nat {
    if a > b then a - b else b - a
  }

  /** The test against one previous image. */
  predicate Clashes(old_: Option<Image>, new_: Image) {
    old_.Some? &&
    Distance(new_.addr, old_.value.addr) < (if old_.value.extent > new_.extent then old_.value.extent else new_.extent) &&
    new_ != old_.value
  }

  predicate Hazard(prev: Images, c: Command)
    requires Whole(c)
  {
    IsImage(c) && (Clashes(prev.color, ImageOf(prev, c)) || Clashes(prev.depth, ImageOf(prev, c)))
  }

  function Remember(prev: Images, c: Command): Images
    requires Whole(c)
  {
    if IdOf(c[0]) == CMD_ID_SET_COLOR_IMAGE then prev.(color := Some(ImageOf(prev, c)))
    else if IdOf(c[0]) == CMD_ID_SET_MASK_IMAGE then prev.(depth := Some(ImageOf(prev, c)))
    else prev
  }

  // ---------------------------------------------------------------- the pipeline

  datatype Compat = Low | Medium | High

  /** rdp_cmd_sync. */
  predicate Syncs(compat: Compat, id: nat) {
    || id == CMD_ID_SYNC_FULL
    || (!compat.Low? && (id == CMD_ID_SET_MASK_IMAGE || id == CMD_ID_SET_COLOR_IMAGE))
    || (compat.High? && id == CMD_ID_SET_TEXTURE_IMAGE)
  }

  /** A batch replayed by every worker between two barriers; rdp_sync_full on the main thread; or a
      command run directly. */
  datatype Event = Batch(cmds: seq<Command>) | Full(cmd: Command) | Direct(cmd: Command)

  /** The words of the command being decoded, the commands waiting, the last images, and what has
      been executed. */
  datatype Pipe = Pipe(part: seq<Word>, queue: seq<Command>, prev: Images, out: seq<Event>)

  /** cmd_flush. */
  function Flush(p: Pipe): Pipe {
    if p.queue == [] then p else p.(queue := [], out := p.out + [Batch(p.queue)])
  }

  function Enqueue(compat: Compat, p: Pipe, c: Command): Pipe
    requires Whole(c)
  {
    var p' := p.(queue := p.queue + [c]);
    if |p'.queue| >= CMD_BUFFER_SIZE || Syncs(compat, IdOf(c[0])) then Flush(p') else p'
  }

  /** SYNC_FULL runs alone on the main thread; everything else joins the buffer. */
  function Issue(compat: Compat, p: Pipe, c: Command): Pipe
    requires Whole(c)
  {
    if IdOf(c[0]) == CMD_ID_SYNC_FULL then Flush(p).(out := Flush(p).out + [Full(c)]) else Enqueue(compat, p, c)
  }

  /** The barrier an overlapping image needs, and the image remembered. */
  function Target(p: Pipe, c: Command): Pipe
    requires Whole(c)
  {
    (if Hazard(p.prev, c) then Flush(p) else p).(prev := Remember(p.prev, c))
  }

  /** A command is complete. */
  function Dispatch(parallel: bool, compat: Compat, p: Pipe, c: Command): Pipe
    requires Whole(c)
  {
    if !parallel then p.(out := p.out + [Direct(c)]) else Issue(compat, Target(p, c), c)
  }

  function Feed(parallel: bool, compat: Compat, p: Pipe, w: Word): Pipe {
    var part := p.part + [w];
    if Whole(part) then Dispatch(parallel, compat, p.(part := []), part) else p.(part := part)
  }

  function FeedAll(parallel: bool, compat: Compat, p: Pipe, ws: seq<Word>): Pipe {
    if ws == [] then p else Feed(parallel, compat, FeedAll(parallel, compat, p, ws[..|ws| - 1]), ws[|ws| - 1])
  }

  const Idle := Pipe([], [], Images(None, None), [])

  // ---------------------------------------------------------------- replay

  function Executed(e: Event): seq<Command> {
    match e
    case Batch(cmds) => cmds
    case Full(c) => [c]
    case Direct(c) => [c]
  }

  /** Everything executed so far, in order. */
  function History(out: seq<Event>): seq<Command> {
    if out == [] then [] else History(out[..|out| - 1]) + Executed(out[|out| - 1])
  }

  lemma HistoryOne(out: seq<Event>, e: Event)
    ensures History(out + [e]) == History(out) + Executed(e)
  {
    assert (out + [e])[..|out|] == out;
  }

  /** What is kept between words. */
  predicate PipeOk(parallel: bool, p: Pipe) {
    && |p.queue| < CMD_BUFFER_SIZE && (!parallel ==> p.queue == [])
    && (p.part != [] ==> |p.part| < LengthOf(IdOf(p.part[0])))
    && (forall i | 0 <= i < |p.queue| :: Whole(p.queue[i]))
  }

  lemma FlushHistory(p: Pipe)
    ensures History(Flush(p).out) == History(p.out) + p.queue && Flush(p).queue == []
    ensures Flush(p).prev == p.prev && Flush(p).part == p.part
  {
    if p.queue == [] { assert History(p.out) + [] == History(p.out); } else { HistoryOne(p.out, Batch(p.queue)); }
  }

  lemma EnqueueHistory(compat: Compat, p: Pipe, c: Command)
    requires PipeOk(true, p) && Whole(c) && p.part == []
    ensures var p' := Enqueue(compat, p, c);
            PipeOk(true, p') && p'.part == [] && History(p'.out) + p'.queue == History(p.out) + p.queue + [c]
  {
    hide LengthOf, Syncs, History, Whole;
    var p' := p.(queue := p.queue + [c]);
    FlushHistory(p');
    assert History(p.out) + (p.queue + [c]) == History(p.out) + p.queue + [c];
  }

  lemma FlushedOk(p: Pipe)
    requires PipeOk(true, p)
    ensures PipeOk(true, Flush(p)) && History(Flush(p).out) + Flush(p).queue == History(p.out) + p.queue
  {
    hide LengthOf, History, Whole;
    FlushHistory(p);
  }

  lemma DispatchHistory(parallel: bool, compat: Compat, p: Pipe, c: Command)
    requires PipeOk(parallel, p) && Whole(c) && p.part == []
    ensures var p' := Dispatch(parallel, compat, p, c);
            PipeOk(parallel, p') && p'.part == [] && History(p'.out) + p'.queue == History(p.out) + p.queue + [c]
  {
    hide LengthOf, Syncs, Hazard, History, Remember, Enqueue;
    if !parallel {
      HistoryOne(p.out, Direct(c));
    } else {
      var p1 := if Hazard(p.prev, c) then Flush(p) else p;
      FlushedOk(p);
      FlushHistory(p);
      var p2 := p1.(prev := Remember(p.prev, c));
      if IdOf(c[0]) == CMD_ID_SYNC_FULL {
        FlushHistory(p2);
        HistoryOne(Flush(p2).out, Full(c));
      } else {
        EnqueueHistory(compat, p2, c);
      }
    }
  }

  /** One more word of the stream, seen from the front. */
  lemma {:induction false} StreamStep(ws: seq<Word>, w: Word)
    ensures var part := Unfinished(ws) + [w];
            if Whole(part) then Commands(ws + [w]) == Commands(ws) + [part] && Unfinished(ws + [w]) == []
            else Commands(ws + [w]) == Commands(ws) && Unfinished(ws + [w]) == part
    ensures Unfinished(ws) != [] ==> |Unfinished(ws)| < LengthOf(IdOf(Unfinished(ws)[0]))
    decreases |ws|
  {
    if ws == [] || |ws| < LengthOf(IdOf(ws[0])) {
      var all := ws + [w];
      if |all| == LengthOf(IdOf(all[0])) {
        assert all[..|all|] == all && all[|all|..] == [];
      }
    } else {
      var n := LengthOf(IdOf(ws[0]));
      StreamStep(ws[n..], w);
      assert (ws + [w])[..n] == ws[..n] && (ws + [w])[n..] == ws[n..] + [w];
    }
  }

  lemma StreamStart()
    ensures Commands([]) == [] && Unfinished([]) == [] && History([]) == []
  {
  }

  lemma FeedHistory(parallel: bool, compat: Compat, p: Pipe, w: Word)
    requires PipeOk(parallel, p)
    ensures var p', part := Feed(parallel, compat, p, w), p.part + [w];
            && PipeOk(parallel, p')
            && p'.part == (if Whole(part) then [] else part)
            && History(p'.out) + p'.queue == History(p.out) + p.queue + (if Whole(part) then [part] else [])
  {
    var part := p.part + [w];
    if Whole(part) {
      hide Dispatch, History, LengthOf;
      DispatchHistory(parallel, compat, p.(part := []), part);
    } else {
      assert History(p.out) + p.queue + [] == History(p.out) + p.queue;
    }
  }

  lemma FeedAllNext(parallel: bool, compat: Compat, p: Pipe, ws: seq<Word>, w: Word)
    ensures FeedAll(parallel, compat, p, ws + [w]) == Feed(parallel, compat, FeedAll(parallel, compat, p, ws), w)
  {
    assert (ws + [w])[..|ws|] == ws;
  }

  /** The pipeline is in step with the stream. */
  ghost predicate InStep(parallel: bool, compat: Compat, ws: seq<Word>) {
    var p := FeedAll(parallel, compat, Idle, ws);
    && PipeOk(parallel, p) && p.part == Unfinished(ws)
    && History(p.out) + p.queue == Commands(ws)
  }

  lemma InStepNext(parallel: bool, compat: Compat, ws: seq<Word>, w: Word)
    requires InStep(parallel, compat, ws)
    ensures InStep(parallel, compat, ws + [w])
  {
    hide LengthOf, Feed, FeedAll, History, Commands, Unfinished, PipeOk, Whole;
    StreamStep(ws, w);
    FeedAllNext(parallel, compat, Idle, ws, w);
    FeedHistory(parallel, compat, FeedAll(parallel, compat, Idle, ws), w);
  }

  lemma InStepAtStart(parallel: bool, compat: Compat)
    ensures InStep(parallel, compat, [])
  {
    StreamStart();
  }

  lemma TakeNext(ws: seq<Word>, n: nat)
    requires n < |ws|
    ensures ws[..n + 1] == ws[..n] + [ws[n]]
  {
  }

  lemma {:induction false} InStepAlways(parallel: bool, compat: Compat, ws: seq<Word>, n: nat)
    requires n <= |ws|
    ensures InStep(parallel, compat, ws[..n])
    decreases n
  {
    hide InStep;
    if n == 0 {
      InStepAtStart(parallel, compat);
    } else {
      InStepAlways(parallel, compat, ws, n - 1);
      InStepNext(parallel, compat, ws[..n - 1], ws[n - 1]);
      TakeNext(ws, n - 1);
    }
  }

  /** Replay: at every word of the stream, what has been executed followed by what is waiting is the
      decoded stream, in order and complete, in parallel mode at every compatibility level as in
      direct mode; the decoder holds exactly the unfinished words. */
  lemma ReplayIsStream(parallel: bool, compat: Compat, ws: seq<Word>)
    ensures var p := FeedAll(parallel, compat, Idle, ws);
            && PipeOk(parallel, p) && p.part == Unfinished(ws)
            && History(p.out) + p.queue == Commands(ws)
  {
    InStepAlways(parallel, compat, ws, |ws|);
    assert ws[..|ws|] == ws;
    hide FeedAll, History, Commands, Unfinished, PipeOk;
  }

  /** Cutting the stream anywhere into successive lists changes nothing. */
  lemma {:induction false} ChunkingInvariance(parallel: bool, compat: Compat, p: Pipe, a: seq<Word>, b: seq<Word>)
    ensures FeedAll(parallel, compat, p, a + b) == FeedAll(parallel, compat, FeedAll(parallel, compat, p, a), b)
    decreases |b|
  {
    if b == [] {
      assert a + b == a;
    } else {
      assert (a + b)[..|a + b| - 1] == a + b[..|b| - 1];
      ChunkingInvariance(parallel, compat, p, a, b[..|b| - 1]);
    }
  }

  // ---------------------------------------------------------------- barriers

  /** Byte ranges of two images meet. */
  predicate Overlap(a: Image, b: Image) {
    a.addr < b.addr + b.extent && b.addr < a.addr + a.extent
  }

  /** Overlap with the last colour or depth image, under another address or extent, is a hazard. */
  lemma OverlapIsHazard(prev: Images, c: Command, old_: Image)
    requires Whole(c) && IsImage(c) && (prev.color == Some(old_) || prev.depth == Some(old_))
    requires Overlap(ImageOf(prev, c), old_) && ImageOf(prev, c) != old_
    ensures Hazard(prev, c)
  {
    hide LengthOf, RowBytes;
  }

  /** The images remembered after a run of commands. */
  function ImagesAfter(cmds: seq<Command>): Images {
    if cmds == [] then Images(None, None)
    else
      var c := cmds[|cmds| - 1];
      if Whole(c) then Remember(ImagesAfter(cmds[..|cmds| - 1]), c) else ImagesAfter(cmds[..|cmds| - 1])
  }

  /** No command of the batch but the first is hazardous where it stands in the stream. */
  ghost predicate ClearBatch(before: seq<Command>, batch: seq<Command>) {
    forall j | 0 < j < |batch| && Whole(batch[j]) :: !Hazard(ImagesAfter(before + batch[..j]), batch[j])
  }

  ghost predicate ClearOut(out: seq<Event>) {
    out == [] ||
    var front, e := out[..|out| - 1], out[|out| - 1];
    ClearOut(front) && (e.Batch? ==> ClearBatch(History(front), e.cmds))
  }

  ghost predicate Clear(p: Pipe) {
    && ClearOut(p.out) && ClearBatch(History(p.out), p.queue)
    && p.prev == ImagesAfter(History(p.out) + p.queue)
  }

  lemma ImagesNext(cmds: seq<Command>, c: Command)
    requires Whole(c)
    ensures ImagesAfter(cmds + [c]) == Remember(ImagesAfter(cmds), c)
  {
    assert (cmds + [c])[..|cmds|] == cmds;
  }

  lemma ClearOutNext(out: seq<Event>, e: Event)
    requires ClearOut(out) && (e.Batch? ==> ClearBatch(History(out), e.cmds))
    ensures ClearOut(out + [e])
  {
    assert (out + [e])[..|out|] == out;
  }

  lemma FlushClear(p: Pipe)
    requires Clear(p)
    ensures Clear(Flush(p))
  {
    hide LengthOf, Hazard, Remember, IdOf, Whole;
    FlushHistory(p);
    assert History(Flush(p).out) + [] == History(Flush(p).out);
    if p.queue != [] { ClearOutNext(p.out, Batch(p.queue)); }
  }

  lemma EnqueueClear(compat: Compat, p: Pipe, c: Command)
    requires Clear(p) && Whole(c) && (p.queue == [] || !Hazard(p.prev, c))
    ensures Clear(Enqueue(compat, p.(prev := Remember(p.prev, c)), c))
  {
    hide LengthOf, Hazard, Remember, IdOf, Syncs, History, ImagesAfter, ClearOut;
    var p' := p.(prev := Remember(p.prev, c), queue := p.queue + [c]);
    ImagesNext(History(p.out) + p.queue, c);
    assert History(p.out) + (p.queue + [c]) == History(p.out) + p.queue + [c];
    forall j | 0 < j < |p'.queue| && Whole(p'.queue[j]) ensures !Hazard(ImagesAfter(History(p.out) + p'.queue[..j]), p'.queue[j]) {
      if j < |p.queue| { assert p'.queue[..j] == p.queue[..j]; } else { assert p'.queue[..j] == p.queue; }
    }
    FlushClear(p');
  }

  lemma FullClear(p: Pipe, c: Command)
    requires Clear(p) && p.queue == [] && Whole(c) && IdOf(c[0]) == CMD_ID_SYNC_FULL
    ensures Clear(p.(out := p.out + [Full(c)]))
  {
    hide LengthOf, IdOf, ClearOut, ImagesAfter;
    HistoryOne(p.out, Full(c));
    ClearOutNext(p.out, Full(c));
    assert History(p.out) + [] == History(p.out);
    ImagesNext(History(p.out), c);
    assert History(p.out) + [c] + [] == History(p.out) + [c];
  }

  lemma DispatchClear(compat: Compat, p: Pipe, c: Command)
    requires Clear(p) && Whole(c)
    ensures Clear(Dispatch(true, compat, p, c))
  {
    hide LengthOf, IdOf, Clear, Enqueue;
    FlushClear(p);
    var p1 := if Hazard(p.prev, c) then Flush(p) else p;
    assert p1.prev == p.prev && (p1.queue == [] || !Hazard(p1.prev, c));
    hide Hazard;
    if IdOf(c[0]) == CMD_ID_SYNC_FULL {
      assert p1.(prev := Remember(p.prev, c)) == p1;
      FlushClear(p1);
      FlushHistory(p1);
      FullClear(Flush(p1), c);
    } else {
      EnqueueClear(compat, p1, c);
    }
  }

  /** Over the whole stream and at every level: no command of a batch but its first is hazardous where it
      stands. */
  lemma {:induction false} HazardsStartBatches(compat: Compat, ws: seq<Word>)
    ensures Clear(FeedAll(true, compat, Idle, ws))
    decreases |ws|
  {
    if ws != [] {
      hide Clear, Dispatch, LengthOf;
      HazardsStartBatches(compat, ws[..|ws| - 1]);
      var p := FeedAll(true, compat, Idle, ws[..|ws| - 1]);
      var part := p.part + [ws[|ws| - 1]];
      if Whole(part) {
        ClearPart(p, []);
        DispatchClear(compat, p.(part := []), part);
      } else {
        ClearPart(p, part);
      }
    }
  }

  lemma ClearPart(p: Pipe, part: seq<Word>)
    ensures Clear(p.(part := part)) == Clear(p)
  {
  }
}

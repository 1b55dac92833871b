/** n64video.c's command processor as it is: a buffer of fixed slots, positions and remembered images
    updated in place by the loop of n64video_process_list. */
module RdpProcessor {
  import opened Words
  import opened RdpCommands

  // ---------------------------------------------------------------- where words come from

  /** The HLE frontend's host-side command buffer, at a word index. */
  datatype Overlay = Overlay(base: nat, words: seq<Word>)

  /** DPC_STATUS's XBUS bit, data memory, the overlay if one is set, and RDRAM as it reads. */
  datatype Source = Source(xbus: bool, dmem: seq<Word>, hle: Option<Overlay>, rdram: nat -> Word)

  predicate SourceOk(src: Source) {
    |src.dmem| == 1024
  }

  /** rdp_fetch_cmd_word. */
  function FetchCmdWord(src: Source, idx: nat): Word {
    if src.hle.Some? && src.hle.value.base <= idx < src.hle.value.base + |src.hle.value.words| then
      src.hle.value.words[idx - src.hle.value.base]
    else src.rdram(idx)
  }

  function Fetch(src: Source, idx: nat): Word
    requires SourceOk(src)
  {
    if src.xbus && src.hle.None? then src.dmem[idx % 1024] else FetchCmdWord(src, idx)
  }

  /** The words of [a, b). */
  function Window(src: Source, a: nat, b: nat): (ws: seq<Word>)
    requires SourceOk(src) && a <= b
    ensures |ws| == b - a
  {
    if a == b then [] else Window(src, a, b - 1) + [Fetch(src, b - 1)]
  }

  lemma {:induction false} WindowSplit(src: Source, a: nat, b: nat, c: nat)
    requires SourceOk(src) && a <= b <= c
    ensures Window(src, a, c) == Window(src, a, b) + Window(src, b, c)
  {
    if b < c { WindowSplit(src, a, b, c - 1); }
  }

  /** Word k of the window: the overlay's inside the overlay, else from RDRAM if there is an overlay or the
      XBUS bit is clear, else from data memory, whose byte addresses wrap at 4 KB. */
  lemma {:induction false} WindowWord(src: Source, a: nat, b: nat, k: nat)
    requires SourceOk(src) && a <= b && k < b - a
    ensures var i := a + k;
            Window(src, a, b)[k] ==
              if src.hle.Some? then
                if src.hle.value.base <= i < src.hle.value.base + |src.hle.value.words|
                then src.hle.value.words[i - src.hle.value.base] else src.rdram(i)
              else if src.xbus then src.dmem[4 * i % 0x1000 / 4]
              else src.rdram(i)
  {
    WordOfByte(b - 1);
    if k < b - 1 - a { WindowWord(src, a, b - 1, k); }
  }

  lemma WordOfByte(i: nat)
    ensures 4 * i % 0x1000 / 4 == i % 1024
  {
  }

  // ---------------------------------------------------------------- bulk loading

  /** Words short of the command's length are just kept. */
  lemma {:induction false} FeedPartial(parallel: bool, compat: Compat, p: Pipe, ws: seq<Word>)
    requires p.part != [] && |p.part| + |ws| < LengthOf(IdOf(p.part[0]))
    ensures FeedAll(parallel, compat, p, ws) == p.(part := p.part + ws)
    decreases |ws|
  {
    if ws == [] {
      assert p.part + ws == p.part;
    } else {
      FeedPartial(parallel, compat, p, ws[..|ws| - 1]);
      assert p.part + ws[..|ws| - 1] + [ws[|ws| - 1]] == p.part + ws;
      hide LengthOf, Dispatch;
    }
  }

  /** Words up to the command's length complete it. */
  lemma FeedWhole(parallel: bool, compat: Compat, p: Pipe, ws: seq<Word>)
    requires p.part != [] && ws != [] && |p.part| + |ws| == LengthOf(IdOf(p.part[0]))
    ensures Whole(p.part + ws)
    ensures FeedAll(parallel, compat, p, ws) == Dispatch(parallel, compat, p.(part := []), p.part + ws)
  {
    FeedPartial(parallel, compat, p, ws[..|ws| - 1]);
    assert p.part + ws[..|ws| - 1] + [ws[|ws| - 1]] == p.part + ws;
    hide LengthOf, Dispatch;
  }

  lemma FeedFirst(parallel: bool, compat: Compat, p: Pipe, w: Word)
    requires p.part == []
    ensures FeedAll(parallel, compat, p, [w]) == p.(part := [w])
  {
    assert [w][..0] == [];
    assert [] + [w] == [w];
    hide Dispatch;
  }

  // ---------------------------------------------------------------- the object

  class Processor {
    const parallel: bool
    const compat: Compat
    const slots: array2<Word>           // rdp_cmd_buf
    const sync: array<bool>             // rdp_cmd_sync
    const prevImgAddr: array<nat>
    const prevImgExtent: array<nat>
    const prevImgValid: array<bool>
    var bufPos: nat                     // rdp_cmd_buf_pos
    var cmdPos: nat
    var cmdId: nat
    var cmdLen: nat
    var executed: seq<Event>            // the effects: batches run, SYNC_FULLs, direct commands

    ghost predicate Shape()
      reads this, slots, sync, prevImgAddr, prevImgExtent, prevImgValid
    {
      && slots.Length0 == CMD_BUFFER_SIZE && slots.Length1 == CMD_MAX_INTS
      && prevImgAddr.Length == prevImgExtent.Length == prevImgValid.Length == 2 && prevImgAddr != prevImgExtent
      && sync.Length == 64 && sync != prevImgValid
      && (forall id | 0 <= id < 64 :: sync[id] == Syncs(compat, id))
      && bufPos <= CMD_BUFFER_SIZE && cmdPos <= CMD_MAX_INTS
    }

    ghost predicate Valid()
      reads this, slots, sync, prevImgAddr, prevImgExtent, prevImgValid
    {
      && Shape() && bufPos < CMD_BUFFER_SIZE && cmdPos < cmdLen
      && (if cmdPos == 0 then cmdLen == CMD_MAX_INTS else cmdId == IdOf(slots[bufPos, 0]) && cmdLen == LengthOf(cmdId))
    }

    /** The first n words of slot k. */
    function Slot(k: nat, n: nat): (c: seq<Word>)
      reads slots
      requires k < slots.Length0 && n <= slots.Length1
      ensures |c| == n && forall j | 0 <= j < n :: c[j] == slots[k, j]
    {
      if n == 0 then [] else Slot(k, n - 1) + [slots[k, n - 1]]
    }

    /** The command in slot k. */
    function SlotCommand(k: nat): Command
      reads slots
      requires k < slots.Length0 && slots.Length1 == CMD_MAX_INTS
    {
      Slot(k, LengthOf(IdOf(slots[k, 0])))
    }

    function Queue(n: nat): (q: seq<Command>)
      reads slots
      requires n <= slots.Length0 && slots.Length1 == CMD_MAX_INTS
      ensures |q| == n && forall k | 0 <= k < n :: q[k] == SlotCommand(k)
    {
      if n == 0 then [] else Queue(n - 1) + [SlotCommand(n - 1)]
    }

    function Previous(k: nat): Option<Image>
      reads prevImgAddr, prevImgExtent, prevImgValid
      requires prevImgAddr.Length == prevImgExtent.Length == prevImgValid.Length == 2 && k < 2
    {
      if prevImgValid[k] then Some(Image(prevImgAddr[k], prevImgExtent[k])) else None
    }

    ghost function View(): Pipe
      reads this, slots, sync, prevImgAddr, prevImgExtent, prevImgValid
      requires Shape() && bufPos < CMD_BUFFER_SIZE
    {
      Pipe(Slot(bufPos, cmdPos), Queue(bufPos), Images(Previous(0), Previous(1)), executed)
    }

    /** n64video_init: the sync table by a switch that falls through from the highest level. */
    constructor (parallel: bool, compat: Compat)
      ensures Valid() && View() == Idle && this.parallel == parallel && this.compat == compat
      ensures forall id | 0 <= id < 64 ::
        sync[id] == (id == 0x29 || (id in {0x3e, 0x3f} && !compat.Low?) || (id == 0x3d && compat.High?))
      ensures fresh(slots) && fresh(sync) && fresh(prevImgAddr) && fresh(prevImgExtent) && fresh(prevImgValid)
    {
      this.parallel := parallel;
      this.compat := compat;
      slots := new Word[CMD_BUFFER_SIZE, CMD_MAX_INTS]((_, _) => 0);
      var table := new bool[64](_ => false);
      if compat.High? { table[CMD_ID_SET_TEXTURE_IMAGE] := true; }
      if compat.High? || compat.Medium? {
        table[CMD_ID_SET_MASK_IMAGE] := true;
        table[CMD_ID_SET_COLOR_IMAGE] := true;
      }
      table[CMD_ID_SYNC_FULL] := true;
      sync := table;
      prevImgAddr := new nat[2](_ => 0);
      prevImgExtent := new nat[2](_ => 0);
      prevImgValid := new bool[2](_ => false);
      bufPos, cmdPos, cmdId, cmdLen, executed := 0, 0, 0, CMD_MAX_INTS, [];
    }

    /** cmd_run_buffered: what one worker replays. */
    method RunBuffered() returns (ran: seq<Command>)
      requires Shape()
      ensures ran == Queue(bufPos)
    {
      ran := [];
      for pos := 0 to bufPos
        invariant ran == Queue(pos)
      {
        ran := ran + [SlotCommand(pos)];
      }
    }

    /** cmd_flush. */
    method FlushBuffer()
      requires Shape()
      modifies `bufPos, `executed
      ensures Shape() && bufPos == 0
      ensures executed == if old(bufPos) == 0 then old(executed) else old(executed) + [Batch(old(Queue(bufPos)))]
    {
      if bufPos != 0 {
        var ran := RunBuffered();
        executed := executed + [Batch(ran)];
        bufPos := 0;
      }
    }

    /** cmd_init. */
    method ResetCommand()
      modifies `cmdPos, `cmdId, `cmdLen
      ensures cmdPos == 0 && cmdId == 0 && cmdLen == CMD_MAX_INTS
    {
      cmdPos, cmdId, cmdLen := 0, 0, CMD_MAX_INTS;
    }

    /** One word into the current slot. */
    method LoadWord(w: Word)
      requires Shape() && bufPos < CMD_BUFFER_SIZE && cmdPos < CMD_MAX_INTS
      modifies slots, `cmdPos
      ensures Shape() && cmdPos == old(cmdPos) + 1 && slots[bufPos, old(cmdPos)] == w
      ensures Slot(bufPos, cmdPos) == old(Slot(bufPos, cmdPos)) + [w]
      ensures Queue(bufPos) == old(Queue(bufPos))
    {
      hide LengthOf, IdOf, Syncs;
      ghost var loaded, queued := Slot(bufPos, cmdPos), Queue(bufPos);
      slots[bufPos, cmdPos] := w;
      cmdPos := cmdPos + 1;
      assert Slot(bufPos, cmdPos - 1) == loaded;
      forall k | 0 <= k < bufPos ensures SlotCommand(k) == queued[k] {
        assert LengthOf(IdOf(slots[k, 0])) == old(LengthOf(IdOf(slots[k, 0])));
      }
      assert Queue(bufPos) == queued;
    }

    /** The next toload words into the current slot. */
    method LoadWords(src: Source, current: nat, toload: nat)
      requires Shape() && bufPos < CMD_BUFFER_SIZE && SourceOk(src) && cmdPos + toload <= CMD_MAX_INTS
      modifies slots, `cmdPos
      ensures Shape() && cmdPos == old(cmdPos) + toload
      ensures Slot(bufPos, cmdPos) == old(Slot(bufPos, cmdPos)) + Window(src, current, current + toload)
      ensures Queue(bufPos) == old(Queue(bufPos))
    {
      hide Slot, Queue, Window, Fetch, Syncs;
      WindowNone(src, current);
      ghost var loaded := Slot(bufPos, cmdPos);
      for i := 0 to toload
        invariant Shape() && cmdPos == old(cmdPos) + i
        invariant Slot(bufPos, cmdPos) == loaded + Window(src, current, current + i)
        invariant Queue(bufPos) == old(Queue(bufPos))
      {
        LoadWord(Fetch(src, current + i));
        WindowNext(src, current, current + i);
        assert loaded + Window(src, current, current + i) + [Fetch(src, current + i)] == loaded + Window(src, current, current + i + 1);
      }
    }

    /** The extent of the command's image and whether it clashes with a remembered one. */
    method CheckHazard() returns (next: nat, hazard: bool)
      requires Shape() && bufPos < CMD_BUFFER_SIZE && Whole(Slot(bufPos, cmdPos)) && IsImage(Slot(bufPos, cmdPos))
      requires cmdId == IdOf(slots[bufPos, 0])
      ensures ImageOf(View().prev, Slot(bufPos, cmdPos)) == Image(slots[bufPos, 1] % 0x100_0000, next)
      ensures hazard == Hazard(View().prev, Slot(bufPos, cmdPos))
    {
      var naddr := slots[bufPos, 1] % 0x100_0000;
      if cmdId == CMD_ID_SET_COLOR_IMAGE {
        next := RowBytes(slots[bufPos, 0]) * 240;
      } else {
        next := if prevImgValid[0] then prevImgExtent[0] else 320 * 2 * 240;
      }
      hazard := false;
      for k := 0 to 2
        invariant hazard == ((k > 0 && Clashes(Previous(0), Image(naddr, next))) || (k > 1 && Clashes(Previous(1), Image(naddr, next))))
      {
        if prevImgValid[k] {
          var d := if naddr > prevImgAddr[k] then naddr - prevImgAddr[k] else prevImgAddr[k] - naddr;
          var lim := if prevImgExtent[k] > next then prevImgExtent[k] else next;
          if d < lim && !(naddr == prevImgAddr[k] && next == prevImgExtent[k]) { hazard := true; }
        }
      }
    }

    /** memcpy of the current command from the slot it was parsed into to slot 0. */
    method MoveToFirst(from: nat)
      requires Shape() && from < CMD_BUFFER_SIZE
      modifies slots
      ensures Shape() && Slot(0, cmdPos) == old(Slot(from, cmdPos))
    {
      ghost var c := Slot(from, cmdPos);
      for j := 0 to cmdPos
        invariant Slot(0, j) == c[..j]
        invariant forall i | j <= i < cmdPos :: slots[from, i] == old(slots[from, i])
      {
        ghost var done := Slot(0, j);
        slots[0, j] := slots[from, j];
        assert Slot(0, j) == done;
      }
    }

    /** The barrier before a hazardous image command, which ends up in slot 0. */
    method Barrier()
      requires Shape() && bufPos < CMD_BUFFER_SIZE
      modifies `bufPos, `executed, slots
      ensures Shape() && bufPos < CMD_BUFFER_SIZE && View() == Flush(old(View()))
    {
      var from := bufPos;
      FlushBuffer();
      MoveToFirst(from);
    }

    /** prev_img_addr, prev_img_extent, prev_img_valid. */
    method RememberImage(k: nat, naddr: nat, next: nat)
      requires Shape() && bufPos < CMD_BUFFER_SIZE && k < 2
      modifies prevImgAddr, prevImgExtent, prevImgValid
      ensures Shape() && bufPos < CMD_BUFFER_SIZE
      ensures View() == old(View()).(prev :=
        if k == 0 then old(View()).prev.(color := Some(Image(naddr, next))) else old(View()).prev.(depth := Some(Image(naddr, next))))
    {
      prevImgAddr[k] := naddr;
      prevImgExtent[k] := next;
      prevImgValid[k] := true;
    }

    /** The image part of a complete command: barrier if needed, then remember it. */
    method Retarget()
      requires Shape() && bufPos < CMD_BUFFER_SIZE && Whole(Slot(bufPos, cmdPos)) && IsImage(Slot(bufPos, cmdPos))
      requires cmdId == IdOf(slots[bufPos, 0])
      modifies `bufPos, `executed, slots, prevImgAddr, prevImgExtent, prevImgValid
      ensures Shape() && bufPos < CMD_BUFFER_SIZE
      ensures var p, c := old(View()), old(Slot(bufPos, cmdPos));
              View() == (if Hazard(p.prev, c) then Flush(p) else p).(prev := Remember(p.prev, c))
    {
      ghost var p, c := View(), Slot(bufPos, cmdPos);
      var naddr := slots[bufPos, 1] % 0x100_0000;
      var next, hazard := CheckHazard();
      hide ImageOf, Hazard, LengthOf, IdOf;
      if hazard { Barrier(); }
      RememberImage(if cmdId == CMD_ID_SET_COLOR_IMAGE then 0 else 1, naddr, next);
    }

    /** A complete command other than SYNC_FULL joins the buffer, which is flushed when it is full or
        when the command needs it. */
    method Register()
      requires Shape() && bufPos < CMD_BUFFER_SIZE && Whole(Slot(bufPos, cmdPos)) && cmdId == IdOf(slots[bufPos, 0])
      modifies `bufPos, `executed
      ensures Shape() && bufPos < CMD_BUFFER_SIZE
      ensures var p' := Enqueue(compat, old(View()), old(Slot(bufPos, cmdPos)));
              Queue(bufPos) == p'.queue && executed == p'.out
    {
      hide LengthOf, IdOf;
      ghost var p, c := View(), Slot(bufPos, cmdPos);
      assert SlotCommand(bufPos) == c;
      bufPos := bufPos + 1;
      assert Queue(bufPos) == p.queue + [c];
      if bufPos >= CMD_BUFFER_SIZE || sync[cmdId] {
        FlushBuffer();
      }
    }

    /** The barrier and the memory of images, for any command. */
    method Prepare()
      requires Shape() && bufPos < CMD_BUFFER_SIZE && Whole(Slot(bufPos, cmdPos)) && cmdId == IdOf(slots[bufPos, 0])
      modifies `bufPos, `executed, slots, prevImgAddr, prevImgExtent, prevImgValid
      ensures Shape() && bufPos < CMD_BUFFER_SIZE && View() == Target(old(View()), old(Slot(bufPos, cmdPos)))
    {
      hide LengthOf, IdOf, Remember, ImageOf, Hazard;
      if cmdId == CMD_ID_SET_COLOR_IMAGE || cmdId == CMD_ID_SET_MASK_IMAGE {
        Retarget();
      } else {
        NotImage(View().prev, Slot(bufPos, cmdPos));
      }
    }

    method Dispose()
      requires Shape() && bufPos < CMD_BUFFER_SIZE && Whole(Slot(bufPos, cmdPos)) && cmdId == IdOf(slots[bufPos, 0])
      modifies `bufPos, `executed
      ensures Shape() && bufPos < CMD_BUFFER_SIZE
      ensures var p' := Issue(compat, old(View()), old(Slot(bufPos, cmdPos)));
              Queue(bufPos) == p'.queue && executed == p'.out
    {
      hide LengthOf, IdOf;
      if cmdId == CMD_ID_SYNC_FULL {
        var args := Slot(bufPos, cmdPos);
        FlushBuffer();
        executed := executed + [Full(args)];
      } else {
        Register();
      }
    }

    /** if rdp_cmd_pos == rdp_cmd_len: dispatch the command and get ready for the next. */
    method Complete()
      requires Shape() && bufPos < CMD_BUFFER_SIZE && Whole(Slot(bufPos, cmdPos)) && cmdId == IdOf(slots[bufPos, 0])
      requires !parallel ==> bufPos == 0
      modifies this, slots, prevImgAddr, prevImgExtent, prevImgValid
      ensures Valid() && (!parallel ==> bufPos == 0)
      ensures View() == Dispatch(parallel, compat, old(View()).(part := []), old(View()).part)
    {
      hide LengthOf, IdOf, Target, Issue, Flush, Queue, Syncs, Previous;
      ghost var p, c := View(), Slot(bufPos, cmdPos);
      if parallel {
        Prepare();
        SlotKept(p, c);
        Dispose();
        IssuePart(compat, Target(p, c), c);
        TargetPart(p, c);
      } else {
        executed := executed + [Direct(Slot(bufPos, cmdPos))];
      }
      ResetCommand();
    }

    /** rdp_cmd_id and rdp_cmd_len, from the first word. */
    method SetLength()
      requires Shape() && bufPos < CMD_BUFFER_SIZE && cmdPos == 1
      modifies `cmdId, `cmdLen
      ensures Valid() && View() == old(View())
    {
      LengthBounds(slots[bufPos, 0]);
      hide LengthOf, IdOf, Previous, Slot, Queue, Syncs;
      cmdId := IdOf(slots[bufPos, 0]);
      cmdLen := LengthOf(cmdId);
    }

    /** The first word of a command fixes its length. */
    method FirstWord(w: Word)
      requires Valid() && cmdPos == 0
      modifies slots, `cmdPos, `cmdId, `cmdLen
      ensures Valid() && cmdPos == 1 && View() == old(View()).(part := [w])
    {
      hide LengthOf, IdOf, Previous, Queue, Syncs;
      ghost var p := View();
      assert p.part == [];
      hide Slot;
      LoadWord(w);
      SetLength();
      assert View() == p.(part := p.part + [w]);
    }

    /** toload more words of the command under way. */
    method LoadMore(src: Source, current: nat, toload: nat)
      requires Valid() && SourceOk(src) && cmdPos > 0 && cmdPos + toload <= cmdLen <= CMD_MAX_INTS
      modifies slots, `cmdPos
      ensures Shape() && cmdPos == old(cmdPos) + toload && slots[bufPos, 0] == old(slots[bufPos, 0])
      ensures View() == old(View()).(part := old(View()).part + Window(src, current, current + toload))
    {
      ghost var q := View();
      assert q.part[0] == slots[bufPos, 0];
      hide LengthOf, IdOf, Window;
      LoadWords(src, current, toload);
      assert slots[bufPos, 0] == (q.part + Window(src, current, current + toload))[0];
    }

    /** After loading ws: a complete command is dispatched. */
    method Settle(ghost q: Pipe, ghost ws: seq<Word>)
      requires Shape() && bufPos < CMD_BUFFER_SIZE && 0 < cmdPos <= cmdLen && (!parallel ==> bufPos == 0)
      requires cmdId == IdOf(slots[bufPos, 0]) && cmdLen == LengthOf(cmdId)
      requires q.part != [] && q.part[0] == slots[bufPos, 0] && |q.part| < cmdLen && View() == q.(part := q.part + ws)
      modifies this, slots, prevImgAddr, prevImgExtent, prevImgValid
      ensures Valid() && (!parallel ==> bufPos == 0) && View() == FeedAll(parallel, compat, q, ws)
    {
      assert |q.part + ws| == cmdPos;
      hide LengthOf, IdOf, Dispatch, FeedAll;
      if cmdPos == cmdLen {
        FeedWhole(parallel, compat, q, ws);
        Complete();
      } else {
        FeedPartial(parallel, compat, q, ws);
      }
    }

    /** As much of the command as the list holds; at its end the command is dispatched. */
    method Fill(src: Source, current: nat, end: nat) returns (next: nat)
      requires Valid() && SourceOk(src) && cmdPos > 0 && current <= end && (!parallel ==> bufPos == 0)
      modifies this, slots, prevImgAddr, prevImgExtent, prevImgValid
      ensures Valid() && current <= next <= end && (current < end ==> current < next) && (!parallel ==> bufPos == 0)
      ensures View() == FeedAll(parallel, compat, old(View()), Window(src, current, next))
    {
      ghost var q := View();
      assert q.part != [] && q.part[0] == slots[bufPos, 0] && |q.part| == cmdPos;
      LengthBounds(slots[bufPos, 0]);
      hide LengthOf, IdOf, Dispatch, FeedAll, Window, Queue, Previous, Syncs, Slot;
      var toload := if end - current < cmdLen - cmdPos then end - current else cmdLen - cmdPos;
      LoadMore(src, current, toload);
      next := current + toload;
      Settle(q, Window(src, current, next));
    }

    /** One iteration of the loop: it consumes at least one word. */
    method DecodeStep(src: Source, current: nat, end: nat) returns (next: nat)
      requires Valid() && SourceOk(src) && current < end && (!parallel ==> bufPos == 0)
      modifies this, slots, prevImgAddr, prevImgExtent, prevImgValid
      ensures Valid() && current < next <= end && (!parallel ==> bufPos == 0)
      ensures View() == FeedAll(parallel, compat, old(View()), Window(src, current, next))
    {
      ghost var p := View();
      if cmdPos == 0 {
        assert p.part == [];
        hide LengthOf, IdOf, Dispatch, FeedAll, Slot, Queue;
        FirstWord(Fetch(src, current));
        FeedFirst(parallel, compat, p, Fetch(src, current));
        WindowOne(src, current);
        next := Fill(src, current + 1, end);
        WindowSplit(src, current, current + 1, next);
        ChunkingInvariance(parallel, compat, p, Window(src, current, current + 1), Window(src, current + 1, next));
      } else {
        next := Fill(src, current, end);
      }
    }

    /** n64video_process_list: `ready` while the registers are mapped, `crashed` after a pipeline
        crash; returns the new DP_START and DP_CURRENT. */
    method ProcessList(src: Source, dpCurrent: Word, dpEnd: Word, ready: bool, crashed: bool) returns (start: Word)
      requires Valid() && SourceOk(src) && (!parallel ==> bufPos == 0)
      modifies this, slots, prevImgAddr, prevImgExtent, prevImgValid
      ensures Valid() && (!parallel ==> bufPos == 0)
      ensures var from, to := dpCurrent % 0x100_0000 / 8 * 2, dpEnd % 0x100_0000 / 8 * 2;
              if ready && !crashed && from < to
              then start == dpEnd && View() == FeedAll(parallel, compat, old(View()), Window(src, from, to))
              else start == dpCurrent && View() == old(View())
    {
      hide Window, Dispatch, FeedAll, Slot, Queue, Previous, Syncs, LengthOf, IdOf;
      start := dpCurrent;
      if !ready { return; }
      var current, end := dpCurrent % 0x100_0000 / 8 * 2, dpEnd % 0x100_0000 / 8 * 2;
      if crashed || end <= current { return; }
      ghost var from, p := current, View();
      WindowNone(src, from);
      FeedAllNothing(parallel, compat, p);
      while current < end
        invariant Valid() && from <= current <= end && (!parallel ==> bufPos == 0)
        invariant View() == FeedAll(parallel, compat, p, Window(src, from, current))
        decreases end - current
      {
        var next := DecodeStep(src, current, end);
        WindowSplit(src, from, current, next);
        ChunkingInvariance(parallel, compat, p, Window(src, from, current), Window(src, current, next));
        current := next;
      }
      start := dpEnd;
    }
  }

  predicate Ascending(cuts: seq<nat>) {
    forall i, j | 0 <= i < j < |cuts| :: cuts[i] <= cuts[j]
  }

  /** The processor after one list for every two neighbouring cuts, by the contract of ProcessList. */
  function AfterLists(parallel: bool, compat: Compat, p: Pipe, src: Source, cuts: seq<nat>): Pipe
    requires SourceOk(src) && Ascending(cuts)
  {
    var n := |cuts|;
    if n < 2 then p
    else FeedAll(parallel, compat, AfterLists(parallel, compat, p, src, cuts[..n - 1]), Window(src, cuts[n - 2], cuts[n - 1]))
  }

  /** However a word stream is cut into successive lists, they leave what one list leaves. */
  lemma {:induction false} ListsCutAnywhere(parallel: bool, compat: Compat, p: Pipe, src: Source, cuts: seq<nat>)
    requires SourceOk(src) && Ascending(cuts) && cuts != []
    ensures AfterLists(parallel, compat, p, src, cuts) == FeedAll(parallel, compat, p, Window(src, cuts[0], cuts[|cuts| - 1]))
    decreases |cuts|
  {
    hide FeedAll, Window;
    var n := |cuts|;
    if n == 1 {
      WindowNone(src, cuts[0]);
      FeedAllNothing(parallel, compat, p);
    } else {
      ListsCutAnywhere(parallel, compat, p, src, cuts[..n - 1]);
      WindowSplit(src, cuts[0], cuts[n - 2], cuts[n - 1]);
      ChunkingInvariance(parallel, compat, p, Window(src, cuts[0], cuts[n - 2]), Window(src, cuts[n - 2], cuts[n - 1]));
    }
  }

  lemma FeedAllNothing(parallel: bool, compat: Compat, p: Pipe)
    ensures FeedAll(parallel, compat, p, []) == p
  {
  }

  lemma WindowNone(src: Source, a: nat)
    requires SourceOk(src)
    ensures Window(src, a, a) == []
  {
  }

  lemma WindowNext(src: Source, a: nat, b: nat)
    requires SourceOk(src) && a <= b
    ensures Window(src, a, b + 1) == Window(src, a, b) + [Fetch(src, b)]
  {
  }

  lemma WindowOne(src: Source, a: nat)
    requires SourceOk(src)
    ensures Window(src, a, a + 1) == [Fetch(src, a)]
  {
    WindowNone(src, a);
  }

  lemma LengthBounds(w: Word)
    ensures 2 <= LengthOf(IdOf(w)) <= CMD_MAX_INTS
  {
  }

  /** The words of the command are the pipeline's part until it is dispatched. */
  lemma SlotKept(p: Pipe, c: Command)
    requires Whole(c)
    ensures Target(p, c).part == p.part
  {
  }

  lemma IssuePart(compat: Compat, p: Pipe, c: Command)
    requires Whole(c)
    ensures Issue(compat, p.(part := []), c) == Issue(compat, p, c).(part := [])
    ensures Issue(compat, p, c).prev == p.prev && Issue(compat, p, c).part == p.part
  {
  }

  lemma TargetPart(p: Pipe, c: Command)
    requires Whole(c)
    ensures Target(p.(part := []), c) == Target(p, c).(part := [])
  {
  }

  lemma NotImage(prev: Images, c: Command)
    requires Whole(c) && !IsImage(c)
    ensures !Hazard(prev, c) && Remember(prev, c) == prev
  {
  }
}

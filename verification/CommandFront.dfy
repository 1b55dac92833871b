/** The main thread's side of the command buffer, one access at a time: words go into the slots of
    rdp_cmd_buf, complete commands are registered, and cmd_flush enters parallel_run and, when that
    has returned, rewinds the position. What cmd_run_buffered does meanwhile is not decided here. */
module CommandFront {
  import opened Words
  import opened RdpCommands

  type Slot = s: seq<Word> | |s| == CMD_MAX_INTS witness seq(CMD_MAX_INTS, _ => 0)

  /** What follows a cmd_flush. */
  datatype Resume = AfterHazard(slot: nat) | AfterFull(cmd: Command) | AfterRegister

  datatype Stage =
    | Ready                     // between words, or between lists
    | Complete                  // rdp_cmd_pos == rdp_cmd_len
    | Register                  // hazards dealt with
    | FullAlone(cmd: Command)   // about to call rdp_sync_full
    | Flushing(next: Resume)      // in cmd_flush with commands buffered, before parallel_run
    | InRun(next: Resume)         // inside parallel_run(cmd_run_buffered)

  /** `out` is history: the batches of finished calls of parallel_run, and the SYNC_FULLs. */
  datatype Front = Front(slots: seq<Slot>, pos: nat, part: nat, prev: Images, stage: Stage, out: seq<Event>)

  function CommandIn(s: Slot): (c: Command)
    ensures Whole(c) && |c| <= CMD_MAX_INTS
  {
    s[..LengthOf(IdOf(s[0]))]
  }

  predicate Shaped(f: Front) {
    |f.slots| == CMD_BUFFER_SIZE && f.pos <= CMD_BUFFER_SIZE
  }

  /** What cmd_run_buffered would replay now. */
  function Queue(f: Front): (q: seq<Command>)
    requires Shaped(f)
    ensures |q| == f.pos
  {
    seq(f.pos, i requires 0 <= i < f.pos => CommandIn(f.slots[i]))
  }

  predicate FrontOk(f: Front) {
    && Shaped(f)
    && match f.stage
       case Ready => f.pos < CMD_BUFFER_SIZE && f.part < (if f.part == 0 then 1 else LengthOf(IdOf(f.slots[f.pos][0])))
       case Complete => f.pos < CMD_BUFFER_SIZE
       case Register => f.pos < CMD_BUFFER_SIZE
       case FullAlone(c) => f.pos == 0 && Whole(c) && IdOf(c[0]) == CMD_ID_SYNC_FULL
       case Flushing(next) => f.pos > 0 && NextOk(f, next)
       case InRun(next) => f.pos > 0 && NextOk(f, next)
  }

  predicate NextOk(f: Front, next: Resume)
    requires Shaped(f)
  {
    match next
    case AfterHazard(j) => j < CMD_BUFFER_SIZE && Hazard(f.prev, CommandIn(f.slots[j]))
    case AfterFull(c) => Whole(c) && IdOf(c[0]) == CMD_ID_SYNC_FULL
    case AfterRegister => true
  }

  /** One more word from the list. */
  function Store(f: Front, w: Word): Front
    requires FrontOk(f) && f.stage.Ready?
  {
    var slots := f.slots[f.pos := f.slots[f.pos][f.part := w]];
    f.(slots := slots, part := f.part + 1,
       stage := if f.part + 1 == LengthOf(IdOf(slots[f.pos][0])) then Complete else Ready)
  }

  /** cmd_flush has returned, or had nothing to do: the position is 0. */
  function Continue(f: Front, next: Resume): Front
    requires Shaped(f) && NextOk(f, next)
  {
    match next
    case AfterHazard(j) =>
      var c := CommandIn(f.slots[j]);
      f.(slots := f.slots[0 := c + f.slots[0][|c|..]], prev := Remember(f.prev, c), stage := Register)
    case AfterFull(c) => f.(stage := FullAlone(c))
    case AfterRegister => f.(part := 0, stage := Ready)
  }

  function EnterFlush(f: Front, next: Resume): Front
    requires Shaped(f) && NextOk(f, next)
  {
    if f.pos > 0 then f.(stage := Flushing(next)) else Continue(f, next)
  }

  /** The main thread's own next step; in InRun, the return of parallel_run. */
  function Advance(compat: Compat, f: Front): Front
    requires FrontOk(f) && !f.stage.Ready? && !f.stage.Flushing?
  {
    match f.stage
    case Complete =>
      var c := CommandIn(f.slots[f.pos]);
      if Hazard(f.prev, c) then EnterFlush(f, AfterHazard(f.pos))
      else f.(prev := Remember(f.prev, c), stage := Register)
    case Register =>
      var c := CommandIn(f.slots[f.pos]);
      if IdOf(c[0]) == CMD_ID_SYNC_FULL then EnterFlush(f, AfterFull(c))
      else
        var g := f.(pos := f.pos + 1);
        EndRegister(compat, g, IdOf(c[0]))
    case FullAlone(c) => f.(out := f.out + [Full(c)], part := 0, stage := Ready)
    case InRun(next) => Continue(f.(out := f.out + [Batch(Queue(f))], pos := 0), next)
  }

  function EndRegister(compat: Compat, f: Front, id: nat): Front
    requires Shaped(f) && f.pos > 0
  {
    if f.pos >= CMD_BUFFER_SIZE || Syncs(compat, id) then f.(stage := Flushing(AfterRegister))
    else f.(part := 0, stage := Ready)
  }

  // ---------------------------------------------------------------- against the pipeline

  function Buffered(f: Front): Pipe
    requires Shaped(f)
  {
    Pipe([], Queue(f), f.prev, f.out)
  }

  /** What the pipeline looks like once the command at hand is dealt with. */
  function Rest(compat: Compat, f: Front): Pipe
    requires FrontOk(f)
  {
    match f.stage
    case Ready => Buffered(f).(part := f.slots[f.pos][..f.part])
    case Complete => Dispatch(true, compat, Buffered(f), CommandIn(f.slots[f.pos]))
    case Register => Issue(compat, Buffered(f), CommandIn(f.slots[f.pos]))
    case FullAlone(c) => Buffered(f).(out := f.out + [Full(c)])
    case Flushing(next) => RestNext(compat, f, next)
    case InRun(next) => RestNext(compat, f, next)
  }

  function RestNext(compat: Compat, f: Front, next: Resume): Pipe
    requires Shaped(f) && NextOk(f, next)
  {
    var p := Flush(Buffered(f));
    match next
    case AfterHazard(j) =>
      var c := CommandIn(f.slots[j]);
      Issue(compat, p.(prev := Remember(f.prev, c)), c)
    case AfterFull(c) => p.(out := p.out + [Full(c)])
    case AfterRegister => p
  }

  /** Writing outside the buffered slots leaves what is buffered. */
  lemma QueueKept(f: Front, g: Front)
    requires Shaped(f) && Shaped(g) && g.pos == f.pos && forall i | 0 <= i < f.pos :: g.slots[i] == f.slots[i]
    ensures Queue(g) == Queue(f)
  {
    hide CommandIn;
  }

  lemma StoreRest(compat: Compat, f: Front, w: Word)
    requires FrontOk(f) && f.stage.Ready?
    ensures FrontOk(Store(f, w)) && Rest(compat, Store(f, w)) == Feed(true, compat, Rest(compat, f), w)
  {
    var g := Store(f, w);
    QueueKept(f, g);
    var part := f.slots[f.pos][..f.part] + [w];
    assert g.slots[f.pos][..f.part + 1] == part;
    assert g.slots[f.pos][0] == part[0];
    hide Dispatch, IdOf, Queue;
    assert Whole(part) <==> g.stage.Complete?;
  }

  lemma ContinueRest(compat: Compat, f: Front, next: Resume)
    requires Shaped(f) && f.pos == 0 && NextOk(f, next)
    ensures FrontOk(Continue(f, next)) && Rest(compat, Continue(f, next)) == RestNext(compat, f, next)
  {
    var g := Continue(f, next);
    assert Queue(f) == [] && Queue(g) == [];
    match next {
      case AfterHazard(j) =>
        var c := CommandIn(f.slots[j]);
        assert g.slots[0][0] == c[0];
        assert g.slots[0][..|c|] == c;
        hide Issue, Remember, IdOf, Queue, Hazard;
      case AfterFull(c) =>
      case AfterRegister =>
        assert f.slots[0][..0] == [];
    }
  }

  lemma EnterRest(compat: Compat, f: Front, next: Resume)
    requires Shaped(f) && NextOk(f, next)
    ensures FrontOk(EnterFlush(f, next)) && Rest(compat, EnterFlush(f, next)) == RestNext(compat, f, next)
  {
    hide Continue, RestNext, NextOk, Queue;
    if f.pos == 0 { ContinueRest(compat, f, next); }
    else { EnteredRest(compat, f, next); }
  }

  lemma EnteredRest(compat: Compat, f: Front, next: Resume)
    requires Shaped(f) && f.pos > 0 && NextOk(f, next)
    ensures var g := f.(stage := Flushing(next)); FrontOk(g) && Rest(compat, g) == RestNext(compat, f, next)
  {
    hide Issue, Remember, IdOf, Hazard, Flush, CommandIn;
    QueueKept(f, f.(stage := Flushing(next)));
  }

  lemma CompleteRest(compat: Compat, f: Front)
    requires FrontOk(f) && f.stage.Complete?
    ensures FrontOk(Advance(compat, f)) && Rest(compat, Advance(compat, f)) == Rest(compat, f)
  {
    var c := CommandIn(f.slots[f.pos]);
    hide Issue, Remember, IdOf, Hazard, Flush, CommandIn, Continue;
    if Hazard(f.prev, c) {
      EnterRest(compat, f, AfterHazard(f.pos));
      hide EnterFlush;
    } else {
      QueueKept(f, Advance(compat, f));
    }
  }

  lemma RegisterRest(compat: Compat, f: Front)
    requires FrontOk(f) && f.stage.Register?
    ensures FrontOk(Advance(compat, f)) && Rest(compat, Advance(compat, f)) == Rest(compat, f)
  {
    var c := CommandIn(f.slots[f.pos]);
    hide Remember, IdOf, Hazard, CommandIn, Continue, Syncs, LengthOf;
    if IdOf(c[0]) == CMD_ID_SYNC_FULL {
      EnterRest(compat, f, AfterFull(c));
      hide EnterFlush;
    } else {
      var g := f.(pos := f.pos + 1);
      assert Queue(g) == Queue(f) + [c];
      var h := EndRegister(compat, g, IdOf(c[0]));
      QueueKept(g, h);
      hide Queue;
      assert h.stage.Ready? ==> h.slots[h.pos][..0] == [];
    }
  }

  lemma ReturnRest(compat: Compat, f: Front)
    requires FrontOk(f) && f.stage.InRun?
    ensures FrontOk(Advance(compat, f)) && Rest(compat, Advance(compat, f)) == Rest(compat, f)
  {
    var g := f.(out := f.out + [Batch(Queue(f))], pos := 0);
    assert NextOk(g, f.stage.next);
    ContinueRest(compat, g, f.stage.next);
    assert Queue(g) == [];
    assert Flush(Buffered(g)) == Flush(Buffered(f));
    hide Issue, Remember, IdOf, Hazard, Flush, CommandIn, Continue, Queue, NextOk;
  }

  lemma FullRest(compat: Compat, f: Front)
    requires FrontOk(f) && f.stage.FullAlone?
    ensures FrontOk(Advance(compat, f)) && Rest(compat, Advance(compat, f)) == Rest(compat, f)
  {
    var g := Advance(compat, f);
    QueueKept(f, g);
    assert g.slots[g.pos][..0] == [];
  }

  /** No step of the main thread's own changes what the stream comes to. */
  lemma AdvanceRest(compat: Compat, f: Front)
    requires FrontOk(f) && !f.stage.Ready? && !f.stage.Flushing?
    ensures FrontOk(Advance(compat, f)) && Rest(compat, Advance(compat, f)) == Rest(compat, f)
  {
    hide Advance, Rest, FrontOk;
    match f.stage
    case Complete => CompleteRest(compat, f);
    case Register => RegisterRest(compat, f);
    case FullAlone(_) => FullRest(compat, f);
    case InRun(_) => ReturnRest(compat, f);
  }
}

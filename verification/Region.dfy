/** jit_region: the code of one region, chunk by chunk, and the machine that runs compiled regions.

    A chunk is one instruction's code: what is emitted before its label, its body, a possible exit
    from the run, the delay-slot handling after it, and where control goes then. */
module Region {
  import opened Words
  import opened HostCode
  import opened RegisterCache
  import opened Emitter
  import opened StaticEnd
  import Isa

  /** InstructionInfo. */
  datatype Info = Info(branch: bool, conditional: bool, indirect: bool, target: nat, handlesDelaySlot: bool)

  const NoInfo := Info(false, false, false, 0, false)

  datatype Dest = Local(index: nat) | Far(pc: nat) | FarIndirect

  datatype Exit =
    | Stay
    | Leave(mode: nat, first: bool, last: Info, pc: nat)        // jit_exit
    | LeaveUnlessContinue(first: bool, last: Info, pc: nat)     // jit_exit_dynamic after MFC0, MTC0

  datatype Control =
    | Fall
    | Latent(h: nat, double: bool)   // bnei to the code after the region's end
    | TakeIf(h: nat, dest: Dest)
    | Take(dest: Dest)
    | DoubleDelay                    // jit_handle_impossible_delay_slot: not modelled

  datatype Chunk = Chunk(enter: seq<Op>, body: seq<Op>, exit: Exit, tail: seq<Op>, control: Control)

  /** The chunks, and what jit_end_of_block emits: `cond` is the register it tests. */
  datatype Code = Code(chunks: seq<Chunk>, end: seq<Op>, cond: nat, last: Info)

  /** One call of jit_region; `hosts` is NumFreeRegisters, `callerRegs` JIT_R_NUM. */
  datatype Source = Source(imem: Isa.Imem, base: nat, count: nat, hosts: nat, callerRegs: nat)

  predicate SourceOk(s: Source) {
    1 <= s.count && s.base + s.count <= 1024 && s.hosts >= 3
  }

  function InstrAt(s: Source, i: nat): Isa.Instr
    requires SourceOk(s) && i < s.count
  {
    Isa.Decode(s.imem[s.base + i], s.base + i)
  }

  /** block_entry. */
  predicate Labelled(s: Source, i: nat)
    requires SourceOk(s)
  {
    i < s.count && IsEntry(s.imem, s.base, s.base + s.count, s.base + i)
  }

  function InfoOf(i: Isa.Instr, nextIsEntry: bool): Info {
    match i
    case BranchEq(_, _, _, target) => Info(true, true, false, target, false)
    case BranchZero(_, _, _, target) => Info(true, true, false, target, false)
    case Always(target) => Info(true, false, false, target, false)
    case Jump(_, target) => Info(true, nextIsEntry, false, target, false)
    case JumpReg(_, _) => Info(true, nextIsEntry, true, 0, false)
    case Break => NoInfo.(handlesDelaySlot := true)
    case _ => NoInfo
  }

  function InfoAt(s: Source, i: nat): Info
    requires SourceOk(s) && i < s.count
  {
    InfoOf(InstrAt(s, i), Labelled(s, i + 1))
  }

  function LastInfo(s: Source, i: nat): Info
    requires SourceOk(s) && i <= s.count
  {
    if i == 0 then NoInfo else InfoAt(s, i - 1)
  }

  // ---------------------------------------------------------------- emitted after the instruction

  function LatentTail(g: Gen): Gen {
    var g1 := Emit(Modify(g, SCRATCH_REGISTER0), LoadHasDelay(JitReg(g, SCRATCH_REGISTER0)));
    FlushWindow(Unlock(g1, SCRATCH_REGISTER0))
  }

  /** The register that holds the condition while the window is flushed. */
  function SlotReg(g: Gen): nat {
    JitReg(Modify(Load(g, COND_BRANCH_TAKEN, Unknown), COND_BRANCH_TAKEN), SCRATCH_REGISTER0)
  }

  /** jit_handle_delay_slot up to its jump. */
  function SlotTail(g: Gen, conditional: bool): Gen {
    if conditional then
      var g1 := Load(g, COND_BRANCH_TAKEN, Unknown);
      var g2 := Modify(g1, COND_BRANCH_TAKEN);
      var c, t := JitReg(g1, COND_BRANCH_TAKEN), JitReg(g2, SCRATCH_REGISTER0);
      var g3 := Emit(Emit(Modify(g2, SCRATCH_REGISTER0), MovR(t, c)), MovI(c, 0));
      FlushWindow(Unlock3(g3, COND_BRANCH_TAKEN, COND_BRANCH_TAKEN, SCRATCH_REGISTER0))
    else
      var g1 := Emit(Modify(g, COND_BRANCH_TAKEN), MovI(JitReg(g, COND_BRANCH_TAKEN), 0));
      FlushWindow(Unlock(g1, COND_BRANCH_TAKEN))
  }

  function Tail(g: Gen, first: bool, info: Info, last: Info): Gen {
    if first && !info.handlesDelaySlot then LatentTail(g)
    else if info.branch && last.branch then g
    else if !info.handlesDelaySlot && last.branch then SlotTail(g, last.conditional)
    else g
  }

  function DestOf(s: Source, last: Info): Dest {
    if last.indirect then FarIndirect
    else if s.base <= last.target < s.base + s.count then Local(last.target - s.base)
    else Far(last.target)
  }

  function ControlOf(s: Source, g: Gen, first: bool, info: Info, last: Info): Control {
    if first && !info.handlesDelaySlot then Latent(JitReg(g, SCRATCH_REGISTER0), info.branch)
    else if info.branch && last.branch then DoubleDelay
    else if !info.handlesDelaySlot && last.branch then
      if last.conditional then TakeIf(SlotReg(g), DestOf(s, last)) else Take(DestOf(s, last))
    else Fall
  }

  /** jit_end_of_block up to its jump. */
  function EndTail(g: Gen, last: Info): Gen {
    var g0 := FlushWindow(g);
    var g1 := if last.branch && last.conditional then Unlock(Load(g0, COND_BRANCH_TAKEN, Unknown), COND_BRANCH_TAKEN) else g0;
    FlushWindow(Unlock(Modify(g1, SCRATCH_REGISTER0), SCRATCH_REGISTER0))
  }

  // ---------------------------------------------------------------- the region

  /** The same table with the code written so far set aside. */
  function Fresh(g: Gen): Gen {
    g.(code := [])
  }

  /** The register cache before chunk i. */
  function Table(s: Source, i: nat): Gen
    requires SourceOk(s) && i <= s.count
    decreases i, 0
  {
    if i == 0 then Empty(s.hosts) else Fresh(TailAt(s, i - 1))
  }

  function LabelAt(s: Source, i: nat): Gen
    requires SourceOk(s) && i < s.count
    decreases i, 1
  {
    if Labelled(s, i) then FlushWindow(Table(s, i)) else Table(s, i)
  }

  function BodyAt(s: Source, i: nat): Gen
    requires SourceOk(s) && i < s.count
    decreases i, 2
  {
    Body(Fresh(LabelAt(s, i)), s.callerRegs, InstrAt(s, i), s.base + i, Labelled(s, i + 1))
  }

  function TailAt(s: Source, i: nat): Gen
    requires SourceOk(s) && i < s.count
    decreases i, 3
  {
    Tail(Fresh(BodyAt(s, i)), i == 0, InfoAt(s, i), LastInfo(s, i))
  }

  function ExitOf(i: Isa.Instr, first: bool, last: Info, pc: nat): Exit {
    match i
    case Break => Leave(Isa.MODE_BREAK, first, last, pc)
    case System(_, _, _) => LeaveUnlessContinue(first, last, pc)
    case _ => Stay
  }

  function ChunkAt(s: Source, i: nat): Chunk
    requires SourceOk(s) && i < s.count
  {
    Chunk(LabelAt(s, i).code, BodyAt(s, i).code, ExitOf(InstrAt(s, i), i == 0, LastInfo(s, i), s.base + i),
          TailAt(s, i).code, ControlOf(s, BodyAt(s, i), i == 0, InfoAt(s, i), LastInfo(s, i)))
  }

  function ChunkFrom(s: Source, i: int): Chunk
    requires SourceOk(s) && 0 <= i < s.count
  {
    ChunkAt(s, i)
  }

  function RegionCode(s: Source): Code
    requires SourceOk(s)
  {
    Code(seq(s.count, i requires 0 <= i < s.count => ChunkFrom(s, i)),
         EndTail(Table(s, s.count), LastInfo(s, s.count)).code,
         JitReg(FlushWindow(Table(s, s.count)), COND_BRANCH_TAKEN),
         LastInfo(s, s.count))
  }

  lemma TableNext(s: Source, i: nat)
    requires SourceOk(s) && i < s.count
    ensures Table(s, i + 1) == Fresh(TailAt(s, i))
  {
  }

  /** The emission loop of jit_region, with its running register cache and last_info. */
  method JitRegion(s: Source) returns (code: Code, regs: Gen)
    requires SourceOk(s)
    ensures code == RegionCode(s)
    ensures regs.es == EndTail(Table(s, s.count), LastInfo(s, s.count)).es
  {
    hide Body, Tail, FlushWindow, ControlOf, ExitOf, InfoOf, EndTail, JitReg, IsEntry, Isa.Decode;
    regs := Empty(s.hosts);
    var blockEntry := new bool[s.count](_ => false);
    MarkBlockEntries(s.imem, s.base, s.base + s.count, blockEntry);
    var lastInfo := NoInfo;
    var chunks: seq<Chunk> := [];
    for i := 0 to s.count
      invariant forall k | 0 <= k < s.count :: blockEntry[k] <==> IsEntry(s.imem, s.base, s.base + s.count, s.base + k)
      invariant regs == Table(s, i) && lastInfo == LastInfo(s, i)
      invariant |chunks| == i && forall k | 0 <= k < i :: chunks[k] == ChunkAt(s, k)
    {
      if blockEntry[i] { regs := FlushWindow(regs); }
      assert blockEntry[i] == Labelled(s, i) && (i + 1 < s.count ==> blockEntry[i + 1] == Labelled(s, i + 1));
      assert regs == LabelAt(s, i);
      var enter := regs.code;
      var instr := Isa.Decode(s.imem[s.base + i], s.base + i);
      var nextIsEntry := i + 1 < s.count && blockEntry[i + 1];
      regs := Body(Fresh(regs), s.callerRegs, instr, s.base + i, nextIsEntry);
      assert regs == BodyAt(s, i);
      var body := regs.code;
      var info := InfoOf(instr, nextIsEntry);
      var control := ControlOf(s, regs, i == 0, info, lastInfo);
      regs := Tail(Fresh(regs), i == 0, info, lastInfo);
      assert info == InfoAt(s, i);
      assert regs == TailAt(s, i);
      assert control == ControlOf(s, BodyAt(s, i), i == 0, InfoAt(s, i), LastInfo(s, i));
      chunks := chunks + [Chunk(enter, body, ExitOf(instr, i == 0, lastInfo, s.base + i), regs.code, control)];
      regs := Fresh(regs);
      lastInfo := info;
      TableNext(s, i);
    }
    var cond := JitReg(FlushWindow(regs), COND_BRANCH_TAKEN);
    regs := EndTail(regs, lastInfo);
    code := Code(chunks, regs.code, cond, lastInfo);
  }

  // ---------------------------------------------------------------- running compiled regions

  /** `cut(pc)` is the length of the region that starts at pc. */
  datatype Setup = Setup(w: World, imem: Isa.Imem, cut: nat -> nat, hosts: nat)

  ghost predicate SetupOk(S: Setup) {
    S.hosts >= 3 && forall b: nat | b < 1024 :: 1 <= S.cut(b) && b + S.cut(b) <= 1024
  }

  function SourceAt(S: Setup, b: nat): Source {
    Source(S.imem, b, S.cut(b), S.hosts, S.w.callerRegs)
  }

  /** Past the label of chunk i of the region at b, or back in the caller with NEXT_PC saved. */
  datatype State = In(b: nat, i: nat, host: Host) | Out(mode: nat, pc: nat, host: Host) | Stuck

  function SetDelay(host: Host, v: Word): Host {
    host.(cpu := host.cpu.(hasDelay := v))
  }

  /** The enter thunk: look the block up, clear sr[32], jump to it. */
  function Enter(S: Setup, pc: nat, host: Host): State
    requires SourceOk(SourceAt(S, pc))
  {
    var h := Clobber(S.w, host);
    In(pc, 0, Run(S.w, ChunkAt(SourceAt(S, pc), 0).enter, h.(mode := 0, cpu := SetSr(h.cpu, COND_BRANCH_TAKEN, 0))))
  }

  function EnterAt(S: Setup, address: Word, host: Host): State
    requires forall b: nat | b < 1024 :: SourceOk(SourceAt(S, b))
  {
    Enter(S, Isa.PcOf(address), host)
  }

  function NextPc(pc: nat): nat {
    (pc + 1) % 1024
  }

  function TargetOf(last: Info, host: Host): nat {
    if last.indirect then Isa.PcOf(Low(host.ind)) else last.target
  }

  /** jit_exit_dynamic and the return thunk. */
  function ExitTo(mode: nat, first: bool, last: Info, pc: nat, host: Host): State {
    if first then
      if host.cpu.hasDelay != 0 then Out(mode, Isa.PcOf(host.cpu.target), SetDelay(host, 0))
      else Out(mode, NextPc(pc), host)
    else if last.branch && (!last.conditional || Sr(host.cpu, COND_BRANCH_TAKEN) != 0) then Out(mode, TargetOf(last, host), host)
    else Out(mode, NextPc(pc), host)
  }

  /** Off the end of the region: a branch that is pending moves to CPUState. */
  function EndOfBlock(S: Setup, b: nat, host: Host): State
    requires b < 1024 && forall p: nat | p < 1024 :: SourceOk(SourceAt(S, p))
  {
    var code := RegionCode(SourceAt(S, b));
    var h := Run(S.w, code.end, host);
    var h' :=
      if code.last.branch && (!code.last.conditional || Get(h, code.cond) != 0) then
        h.(cpu := h.cpu.(target := if code.last.indirect then Low(h.ind) else 4 * code.last.target % TWO_32, hasDelay := 1))
      else h;
    Enter(S, (b + S.cut(b)) % 1024, h')
  }

  function Next(S: Setup, b: nat, i: nat, host: Host): State
    requires b < 1024 && i < S.cut(b) && forall p: nat | p < 1024 :: SourceOk(SourceAt(S, p))
  {
    if i + 1 < S.cut(b) then In(b, i + 1, Run(S.w, ChunkAt(SourceAt(S, b), i + 1).enter, host))
    else EndOfBlock(S, b, host)
  }

  function Arrive(S: Setup, b: nat, dest: Dest, host: Host): State
    requires forall p: nat | p < 1024 :: SourceOk(SourceAt(S, p))
  {
    match dest
    case Local(index) => In(b, index, host)
    case Far(pc) => Enter(S, pc % 1024, host)
    case FarIndirect => EnterAt(S, Low(host.ind), host)
  }

  function Transfer(S: Setup, b: nat, i: nat, control: Control, host: Host): State
    requires b < 1024 && i < S.cut(b) && forall p: nat | p < 1024 :: SourceOk(SourceAt(S, p))
  {
    match control
    case Fall => Next(S, b, i, host)
    case Latent(h, double) =>
      if Get(host, h) == 0 then Next(S, b, i, host)
      else if double then Stuck
      else EnterAt(S, host.cpu.target, SetDelay(host, 0))
    case TakeIf(h, dest) => if Get(host, h) != 0 then Arrive(S, b, dest, host) else Next(S, b, i, host)
    case Take(dest) => Arrive(S, b, dest, host)
    case DoubleDelay => Stuck
  }

  /** One chunk of compiled code. */
  function StepCompiled(S: Setup, st: State): State
    requires forall p: nat | p < 1024 :: SourceOk(SourceAt(S, p))
  {
    match st
    case In(b, i, host) =>
      if b >= 1024 || i >= S.cut(b) then Stuck
      else
        var c := ChunkAt(SourceAt(S, b), i);
        var h1 := Run(S.w, c.body, host);
        (match c.exit
         case Leave(mode, first, last, pc) => ExitTo(mode, first, last, pc, h1)
         case LeaveUnlessContinue(first, last, pc) =>
           if h1.mode != Isa.MODE_CONTINUE then ExitTo(h1.mode, first, last, pc, h1)
           else Transfer(S, b, i, c.control, Run(S.w, c.tail, h1))
         case Stay => Transfer(S, b, i, c.control, Run(S.w, c.tail, h1)))
    case _ => st
  }

  /** n chunks from the enter thunk. */
  function RunCompiled(S: Setup, pc: nat, host: Host, n: nat): State
    requires pc < 1024 && forall p: nat | p < 1024 :: SourceOk(SourceAt(S, p))
  {
    if n == 0 then Enter(S, pc, host) else StepCompiled(S, RunCompiled(S, pc, host, n - 1))
  }
}

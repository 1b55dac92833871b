/** Calls and returns: a subroutine reached by JAL, JALR $31 or a taken BLTZAL or BGEZAL comes back, with
    JR $31, to the word after the call's delay slot. */
module Calls {
  import opened Words
  import opened HostCode
  import opened Assembler
  import opened Region
  import opened RecompilerProof
  import opened RecompilerRuns
  import opened RecompilerTheorem
  import Isa

  /** The instruction about to run calls the subroutine at t. */
  predicate CallsTo(imem: Isa.Imem, a: Isa.Arch, t: nat)
    requires Isa.ArchOk(a)
  {
    Calling(Isa.Decode(imem[a.pc], a.pc), a.regs, t)
  }

  predicate Calling(i: Isa.Instr, regs: seq<Word>, t: nat)
    requires |regs| == 32
  {
    match i
    case Jump(link, target) => link && target == t
    case JumpReg(rs, dest) => dest == 31 && rs <= 31 && regs[rs] / 4 % 1024 == t
    case BranchZero(op, rs, link, target) =>
      link && target == t && rs <= 31 &&
      ((op.Lt? && regs[rs] >= 0x8000_0000) || (op.Ge? && regs[rs] < 0x8000_0000))
    case _ => false
  }

  /** Word t is JR $31, or JALR from it. */
  predicate ReturnsAt(imem: Isa.Imem, t: nat)
    requires t < 1024
  {
    Isa.Decode(imem[t], t).JumpReg? && Isa.Decode(imem[t], t).rs == 31
  }

  /** The call takes effect after its slot, with the return address in register 31. */
  lemma CallStep(w: World, imem: Isa.Imem, a: Isa.Arch, t: nat)
    requires Isa.ArchOk(a) && a.pending == Isa.None && CallsTo(imem, a, t)
    ensures var o := Isa.Step(w, imem, a);
            && o.Running? && Isa.ArchOk(o.arch) && o.arch.pc == (a.pc + 1) % 1024 && o.arch.pending == Isa.Some(t)
            && o.arch.regs[31] == (4 * a.pc + 8) % 0x1000
  {
    hide Isa.Decode, Isa.Do1, Calling;
    Isa.StepOk(w, imem, a);
    CallEffect(w, Isa.Decode(imem[a.pc], a.pc), a, t);
  }

  lemma CallEffect(w: World, i: Isa.Instr, a: Isa.Arch, t: nat)
    requires Isa.ArchOk(a) && Calling(i, a.regs, t)
    ensures var e := Isa.Do1(w, i, a);
            && e.mode == Isa.MODE_CONTINUE && e.branch == Isa.Some(t)
            && |e.regs| == 32 && e.regs[31] == (4 * a.pc + 8) % 0x1000
  {
    hide LoadBytes, StoreBytes, Isa.LinkValue, Isa.PcOf;
    LinkBytes(a.pc);
    if i.JumpReg? { ByteAddress(a.regs[i.rs]); }
  }

  lemma LinkBytes(pc: nat)
    ensures Isa.LinkValue(pc) == (4 * pc + 8) % 0x1000
  {
    assert (4 * pc + 8) % 0x1000 == 4 * ((pc + 2) % 1024);
  }

  /** An instruction in a delay slot: control goes where the branch says. */
  lemma SlotStep(w: World, imem: Isa.Imem, a: Isa.Arch)
    requires Isa.ArchOk(a) && a.pending.Some? && !Isa.IsBranch(Isa.Decode(imem[a.pc], a.pc))
    ensures var o := Isa.Step(w, imem, a); o.arch.pc == a.pending.value && o.arch.pending == Isa.None
  {
    hide Isa.Decode, Alu32, LoadBytes, StoreBytes;
  }

  lemma ReturnStep(w: World, imem: Isa.Imem, a: Isa.Arch)
    requires Isa.ArchOk(a) && a.pending == Isa.None && ReturnsAt(imem, a.pc)
    ensures var o := Isa.Step(w, imem, a);
            o.Running? && Isa.ArchOk(o.arch) && o.arch.pc == (a.pc + 1) % 1024 && o.arch.pending == Isa.Some(a.regs[31] / 4 % 1024)
  {
    Isa.StepOk(w, imem, a);
    ByteAddress(a.regs[31]);
    hide Isa.Decode, Alu32, LoadBytes, StoreBytes, Isa.PcOf;
  }

  lemma ByteAddress(x: Word)
    ensures Isa.PcOf(x) == x / 4 % 1024
  {
    var q, r := x / 4096, x % 4096;
    assert x == 4096 * q + r;
    assert x / 4 == 1024 * q + r / 4;
    WholeTurns(q, r / 4);
  }

  lemma WholeTurns(q: nat, r: nat)
    requires r < 1024
    ensures (1024 * q + r) % 1024 == r
  {
  }

  lemma PastTheSlot(x: Word, pc: nat)
    requires pc < 1024 && x == (4 * pc + 8) % 0x1000
    ensures x / 4 % 1024 == (pc + 2) % 1024
  {
    ByteAddress(x);
    assert (4 * pc + 8) % 0x1000 == 4 * ((pc + 2) % 1024);
  }

  /** Whatever the instruction after the return does, the run then goes on after the call's slot. */
  lemma AfterReturn(w: World, imem: Isa.Imem, a: Isa.Arch, pc: nat)
    requires Isa.ArchOk(a) && a.pending == Isa.Some(pc)
    ensures Isa.Step(w, imem, a).arch.pc == pc
  {
    hide Isa.Decode, Isa.Do1;
  }

  /** The call's slot neither branches nor ends the run, and keeps register 31. */
  predicate SlotKeepsLink(w: World, imem: Isa.Imem, a: Isa.Arch)
    requires Isa.ArchOk(a)
  {
    && !Isa.IsBranch(Isa.Decode(imem[(a.pc + 1) % 1024], (a.pc + 1) % 1024))
    && var called, arrived := Isa.Interpret(w, imem, a, 1), Isa.Interpret(w, imem, a, 2);
       arrived.Running? && arrived.arch.regs[31] == called.arch.regs[31]
  }

  /** A call, and later, register 31 being what the call left in it, a JR $31: two instructions on,
      control is past the call's delay slot. */
  lemma SubroutineReturns(w: World, imem: Isa.Imem, a: Isa.Arch, t: nat, k: nat)
    requires Isa.ArchOk(a) && a.pending == Isa.None && CallsTo(imem, a, t)
    requires var r := Isa.Interpret(w, imem, a, k);
             && r.Running? && r.arch.pending == Isa.None && ReturnsAt(imem, r.arch.pc)
             && r.arch.regs[31] == Isa.Interpret(w, imem, a, 1).arch.regs[31]
    ensures Isa.Interpret(w, imem, a, k + 2).arch.pc == (a.pc + 2) % 1024
  {
    hide CallsTo, ReturnsAt, Isa.Step, Isa.Interpret, Isa.Decode;
    InterpretUnroll(w, imem, a, 0);
    InterpretUnroll(w, imem, a, 1);
    InterpretUnroll(w, imem, a, k + 1);
    InterpretUnroll(w, imem, a, k + 2);
    var r := Isa.Interpret(w, imem, a, k).arch;
    CallStep(w, imem, a, t);
    ReturnStep(w, imem, r);
    AfterReturn(w, imem, Isa.Interpret(w, imem, a, k + 1).arch, r.regs[31] / 4 % 1024);
    PastTheSlot(r.regs[31], a.pc);
  }

  /** A subroutine that returns at once: after four instructions control is past the call's slot. */
  lemma CallReturns(w: World, imem: Isa.Imem, a: Isa.Arch, t: nat)
    requires Isa.ArchOk(a) && a.pending == Isa.None && t < 1024
    requires CallsTo(imem, a, t) && SlotKeepsLink(w, imem, a) && ReturnsAt(imem, t)
    ensures Isa.Interpret(w, imem, a, 4).arch.pc == (a.pc + 2) % 1024
  {
    hide CallsTo, ReturnsAt, Isa.Step, Isa.Interpret, Isa.Decode;
    InterpretUnroll(w, imem, a, 0);
    InterpretUnroll(w, imem, a, 1);
    InterpretUnroll(w, imem, a, 2);
    CallStep(w, imem, a, t);
    SlotStep(w, imem, Isa.Interpret(w, imem, a, 1).arch);
    SubroutineReturns(w, imem, a, t, 2);
  }

  /** Compiled code does the same, in whatever regions caller and subroutine are. */
  lemma CompiledCallReturns(S: Setup, h: Host, a: Isa.Arch, t: nat, k: nat)
    requires SetupOk(S) && Parked(S, h, a) && Tame(S, a, k + 2) && Avoids(S, a, k + 2) && Isa.ArchOk(a) && a.pending == Isa.None
    requires CallsTo(S.imem, a, t)
    requires var r := Isa.Interpret(S.w, S.imem, a, k);
             && r.Running? && r.arch.pending == Isa.None && ReturnsAt(S.imem, r.arch.pc)
             && r.arch.regs[31] == Isa.Interpret(S.w, S.imem, a, 1).arch.regs[31]
    ensures a.pc < 1024 && PcIn(RunCompiled(S, a.pc, h, k + 2)) == (a.pc + 2) % 1024
  {
    RunDefined(S, a);
    SubroutineReturns(S.w, S.imem, a, t, k);
    hide *;
    MeaningPreserved(S, h, a, k + 2);
    SamePc(S, h, a, k + 2);
  }

  lemma SamePc(S: Setup, h: Host, a: Isa.Arch, n: nat)
    requires Same(S, h, a, n)
    ensures SetupOk(S) && Isa.ArchOk(a) && PcIn(RunCompiled(S, a.pc, h, n)) == Isa.Interpret(S.w, S.imem, a, n).arch.pc
  {
    hide RunCompiled, Isa.Interpret;
    ShowsPc(S, RunCompiled(S, a.pc, h, n), Isa.Interpret(S.w, S.imem, a, n));
  }

  /** In words: JAL at p, a NOP in its slot, JR $31 at t. */
  lemma JalReturns(w: World, imem: Isa.Imem, a: Isa.Arch, t: nat)
    requires Isa.ArchOk(a) && a.pending == Isa.None && t < 1024
    requires imem[a.pc] == 0x0c00_0000 + t && imem[(a.pc + 1) % 1024] == 0 && imem[t] == 0x03e0_0008
    ensures Isa.Interpret(w, imem, a, 4).arch.pc == (a.pc + 2) % 1024
  {
    DecodeEncode(Isa.Jump(true, t), a.pc);
    DecodeEncode(Isa.Nop, (a.pc + 1) % 1024);
    DecodeEncode(Isa.JumpReg(31, 0), t);
    hide Isa.Decode, Isa.Interpret;
    NopSlot(w, imem, a, t);
    CallReturns(w, imem, a, t);
  }

  lemma NopSlot(w: World, imem: Isa.Imem, a: Isa.Arch, t: nat)
    requires Isa.ArchOk(a) && a.pending == Isa.None && CallsTo(imem, a, t)
    requires Isa.Decode(imem[(a.pc + 1) % 1024], (a.pc + 1) % 1024) == Isa.Nop
    ensures SlotKeepsLink(w, imem, a)
  {
    CallStep(w, imem, a, t);
    InterpretUnroll(w, imem, a, 0);
    InterpretUnroll(w, imem, a, 1);
    InterpretUnroll(w, imem, a, 2);
    hide Isa.Decode, CallsTo, Isa.Interpret;
  }
}

/** The scalar instruction set as the recompiler understands it: decoding, and a reference
    interpreter that runs one instruction at a time with a pending-branch field.

    A program counter is a word index into the 1024-word instruction memory. */
module Isa {
  import opened Words
  import opened HostCode

  datatype Option<T> = None | Some(value: T)

  type Imem = m: seq<Word> | |m| == 1024 witness seq(1024, _ => 0)

  /** Operands are register numbers; `code` stands for the C routine and constants of a call. */
  datatype Instr =
    | Nop
    | Alu3(op: Alu, rd: nat, rs: nat, rt: nat)
    | Nor(rd: nat, rs: nat, rt: nat)
    | ShiftI(op: Alu, rd: nat, rt: nat, amount: nat)
    | ShiftV(op: Alu, rd: nat, rt: nat, rs: nat)
    | AluImm(op: Alu, rt: nat, rs: nat, imm: Word)
    | LoadImm(rt: nat, imm: Word)
    | Load(width: Width, signed: bool, rt: nat, rs: nat, imm: Word)
    | Store(width: Width, rt: nat, rs: nat, imm: Word)
    | System(code: Word, src: nat, dst: nat)                  // MFC0, MTC0: may end the run
    | Coproc(code: Word, reg: nat, writes: bool)              // moves, loads and stores of COP2
    | Vector(code: Word)
    | BranchEq(op: Alu, rs: nat, rt: nat, target: nat)        // BEQ, BNE
    | BranchZero(op: Alu, rs: nat, link: bool, target: nat)   // against zero; the link is register 31
    | Always(target: nat)                                     // BLEZ $0
    | Jump(link: bool, target: nat)
    | JumpReg(rs: nat, dest: nat)                             // dest 0: no link
    | Break

  predicate IsBranch(i: Instr) {
    i.BranchEq? || i.BranchZero? || i.Always? || i.Jump? || i.JumpReg?
  }

  predicate IsZeroTest(op: Alu) {
    op.Lt? || op.Ge? || op.Le? || op.Gt?
  }

  /** What decoding guarantees. */
  predicate Valid(i: Instr) {
    match i
    case Alu3(op, rd, rs, rt) => !IsShift(op) && 1 <= rd <= 31 && rs <= 31 && rt <= 31
    case Nor(rd, rs, rt) => 1 <= rd <= 31 && rs <= 31 && rt <= 31
    case ShiftI(op, rd, rt, amount) => IsShift(op) && 1 <= rd <= 31 && rt <= 31 && amount <= 31
    case ShiftV(op, rd, rt, rs) => IsShift(op) && 1 <= rd <= 31 && rt <= 31 && rs <= 31
    case AluImm(op, rt, rs, _) => (op.Add? || op.Logic? || op.Lt? || op.Ltu?) && 1 <= rt <= 31 && rs <= 31
    case LoadImm(rt, _) => 1 <= rt <= 31
    case Load(_, _, rt, rs, _) => 1 <= rt <= 31 && rs <= 31
    case Store(_, rt, rs, _) => rt <= 31 && rs <= 31
    case System(_, src, dst) => src <= 31 && dst <= 31
    case Coproc(_, reg, _) => reg <= 31
    case BranchEq(op, rs, rt, target) => (op.Eq? || op.Ne?) && rs <= 31 && rt <= 31 && target < 1024
    case BranchZero(op, rs, _, target) => IsZeroTest(op) && rs <= 31 && target < 1024
    case Always(target) => target < 1024
    case Jump(_, target) => target < 1024
    case JumpReg(rs, dest) => rs <= 31 && dest <= 31
    case _ => true
  }

  // ---------------------------------------------------------------- decoding

  function FieldRs(x: Word): (r: nat) ensures r <= 31 { x / 0x20_0000 % 32 }
  function FieldRt(x: Word): (r: nat) ensures r <= 31 { x / 0x1_0000 % 32 }
  function FieldRd(x: Word): (r: nat) ensures r <= 31 { x / 0x800 % 32 }
  function FieldShift(x: Word): (r: nat) ensures r <= 31 { x / 0x40 % 32 }
  function UImm(x: Word): Word { x % 0x1_0000 }

  /** int16_t(instr), as a 32-bit word. */
  function SImm(x: Word): Word {
    if x % 0x1_0000 < 0x8000 then x % 0x1_0000 else x % 0x1_0000 + TWO_32 - 0x1_0000
  }

  /** Whether VU handles the word: COP2 with the high bit of the operand field set. */
  predicate IsVector(x: Word) {
    x / 0x200_0000 == 0x25
  }

  function BranchTarget(x: Word, pc: nat): nat {
    (pc + 1 + x) % 1024
  }

  function OrNop(reg: nat, i: Instr): Instr {
    if reg == 0 then Nop else i
  }

  function Decode(x: Word, pc: nat): (i: Instr)
    ensures Valid(i)
  {
    var rs, rt, rd, sa := FieldRs(x), FieldRt(x), FieldRd(x), FieldShift(x);
    if IsVector(x) then Vector(x)
    else
      match x / 0x400_0000
      case 0 => DecodeSpecial(x)
      case 1 =>
        (match rt
         case 0 => BranchZero(Lt, rs, false, BranchTarget(x, pc))
         case 1 => BranchZero(Ge, rs, false, BranchTarget(x, pc))
         case 16 => BranchZero(Lt, rs, true, BranchTarget(x, pc))
         case 17 => BranchZero(Ge, rs, true, BranchTarget(x, pc))
         case _ => Nop)
      case 2 => Jump(false, x % 1024)
      case 3 => Jump(true, x % 1024)
      case 4 => BranchEq(Eq, rs, rt, BranchTarget(x, pc))
      case 5 => BranchEq(Ne, rs, rt, BranchTarget(x, pc))
      case 6 => if rs != 0 then BranchZero(Le, rs, false, BranchTarget(x, pc)) else Always(BranchTarget(x, pc))
      case 7 => if rs != 0 then BranchZero(Gt, rs, false, BranchTarget(x, pc)) else Nop
      case 8 => OrNop(rt, if rs == 0 then LoadImm(rt, SImm(x)) else AluImm(Add, rt, rs, SImm(x)))
      case 9 => OrNop(rt, if rs == 0 then LoadImm(rt, SImm(x)) else AluImm(Add, rt, rs, SImm(x)))
      case 10 => OrNop(rt, AluImm(Lt, rt, rs, SImm(x)))
      case 11 => OrNop(rt, AluImm(Ltu, rt, rs, SImm(x)))
      case 12 => OrNop(rt, AluImm(Logic(And), rt, rs, UImm(x)))
      case 13 => OrNop(rt, if rs == 0 then LoadImm(rt, UImm(x)) else AluImm(Logic(Or), rt, rs, UImm(x)))
      case 14 => OrNop(rt, AluImm(Logic(Xor), rt, rs, UImm(x)))
      case 15 => OrNop(rt, LoadImm(rt, UImm(x) * 0x1_0000))
      case 16 => if rs == 0 then System(x, 0, rt) else if rs == 4 then System(x, rt, 0) else Nop
      case 18 =>
        if rs == 0 || rs == 2 then Coproc(x, rt, true)
        else if rs == 4 || rs == 6 then Coproc(x, rt, false)
        else Nop
      case 50 => if rd == 10 || rd >= 12 then Nop else Coproc(x, rs, false)
      case 58 => if rd >= 12 then Nop else Coproc(x, rs, false)
      case _ => DecodeMemory(x)
  }

  function DecodeSpecial(x: Word): (i: Instr)
    ensures Valid(i)
  {
    var rs, rt, rd, sa := FieldRs(x), FieldRt(x), FieldRd(x), FieldShift(x);
    match x % 64
    case 0 => OrNop(rd, ShiftI(Sll, rd, rt, sa))
    case 2 => OrNop(rd, ShiftI(Srl, rd, rt, sa))
    case 3 => OrNop(rd, ShiftI(Sra, rd, rt, sa))
    case 4 => OrNop(rd, ShiftV(Sll, rd, rt, rs))
    case 6 => OrNop(rd, ShiftV(Srl, rd, rt, rs))
    case 7 => OrNop(rd, ShiftV(Sra, rd, rt, rs))
    case 8 => JumpReg(rs, 0)
    case 9 => JumpReg(rs, rd)
    case 13 => Break
    case 32 => OrNop(rd, Alu3(Add, rd, rs, rt))
    case 33 => OrNop(rd, Alu3(Add, rd, rs, rt))
    case 34 => OrNop(rd, Alu3(Sub, rd, rs, rt))
    case 35 => OrNop(rd, Alu3(Sub, rd, rs, rt))
    case 36 => OrNop(rd, Alu3(Logic(And), rd, rs, rt))
    case 37 => OrNop(rd, Alu3(Logic(Or), rd, rs, rt))
    case 38 => OrNop(rd, Alu3(Logic(Xor), rd, rs, rt))
    case 39 => OrNop(rd, Nor(rd, rs, rt))
    case 42 => OrNop(rd, Alu3(Lt, rd, rs, rt))
    case 43 => OrNop(rd, Alu3(Ltu, rd, rs, rt))
    case _ => Nop
  }

  function DecodeMemory(x: Word): (i: Instr)
    ensures Valid(i) && !IsBranch(i)
  {
    var rs, rt := FieldRs(x), FieldRt(x);
    match x / 0x400_0000
    case 32 => OrNop(rt, Load(Byte1, true, rt, rs, SImm(x)))
    case 33 => OrNop(rt, Load(Half2, true, rt, rs, SImm(x)))
    case 35 => OrNop(rt, Load(Word4, true, rt, rs, SImm(x)))
    case 39 => OrNop(rt, Load(Word4, true, rt, rs, SImm(x)))
    case 36 => OrNop(rt, Load(Byte1, false, rt, rs, SImm(x)))
    case 37 => OrNop(rt, Load(Half2, false, rt, rs, SImm(x)))
    case 40 => Store(Byte1, rt, rs, SImm(x))
    case 41 => Store(Half2, rt, rs, SImm(x))
    case 43 => Store(Word4, rt, rs, SImm(x))
    case _ => Nop
  }

  // ---------------------------------------------------------------- reference interpreter

  const MODE_CONTINUE := 1
  const MODE_BREAK := 2

  /** Thirty-two registers, memory, coprocessors, and the branch whose delay slot comes next. */
  datatype Arch = Arch(pc: nat, regs: seq<Word>, dmem: Dmem, cop: Coprocessors, pending: Option<nat>)

  predicate ArchOk(a: Arch) {
    a.pc < 1024 && |a.regs| == 32 && a.regs[0] == 0 && (a.pending.Some? ==> a.pending.value < 1024)
  }

  /** What one instruction does besides moving on. */
  datatype Effect = Effect(regs: seq<Word>, dmem: Dmem, cop: Coprocessors, branch: Option<nat>, mode: nat)

  function Reg(regs: seq<Word>, m: nat): Word {
    if m < |regs| then regs[m] else 0
  }

  function SetReg(regs: seq<Word>, m: nat, x: Word): seq<Word> {
    if 0 < m < |regs| then regs[m := x] else regs
  }

  function LinkValue(pc: nat): Word {
    4 * ((pc + 2) % 1024)
  }

  /** A byte address as a program counter. */
  function PcOf(address: Word): (pc: nat)
    ensures pc < 1024
  {
    address % 4096 / 4
  }

  function When(c: bool, target: nat): Option<nat> {
    if c then Some(target) else None
  }

  function Invert(x: Word): Word {
    TWO_32 - 1 - x
  }

  function Do1(w: World, i: Instr, a: Arch): Effect {
    var same := Effect(a.regs, a.dmem, a.cop, None, MODE_CONTINUE);
    match i
    case Nop => same
    case Alu3(op, rd, rs, rt) => same.(regs := SetReg(a.regs, rd, Alu32(op, Reg(a.regs, rs), Reg(a.regs, rt))))
    case Nor(rd, rs, rt) => same.(regs := SetReg(a.regs, rd, Invert(Bitwise32(Or, Reg(a.regs, rs), Reg(a.regs, rt)))))
    case ShiftI(op, rd, rt, amount) => same.(regs := SetReg(a.regs, rd, Alu32(op, Reg(a.regs, rt), amount % TWO_32)))
    case ShiftV(op, rd, rt, rs) => same.(regs := SetReg(a.regs, rd, Alu32(op, Reg(a.regs, rt), Reg(a.regs, rs) % 32)))
    case AluImm(op, rt, rs, imm) => same.(regs := SetReg(a.regs, rt, Alu32(op, Reg(a.regs, rs), imm)))
    case LoadImm(rt, imm) => same.(regs := SetReg(a.regs, rt, imm))
    case Load(width, signed, rt, rs, imm) =>
      same.(regs := SetReg(a.regs, rt, LoadBytes(width, signed, a.dmem, (Reg(a.regs, rs) + imm) % 4096)))
    case Store(width, rt, rs, imm) =>
      same.(dmem := StoreBytes(width, a.dmem, (Reg(a.regs, rs) + imm) % 4096, Reg(a.regs, rt)))
    case System(code, src, dst) =>
      var out := w.call(code, Reg(a.regs, src), a.dmem, a.cop);
      Effect(SetReg(a.regs, dst, out.value), out.dmem, out.cop, None, out.mode)
    case Coproc(code, reg, writes) =>
      var out := w.call(code, if writes then 0 else Reg(a.regs, reg), a.dmem, a.cop);
      Effect(if writes then SetReg(a.regs, reg, out.value) else a.regs, out.dmem, out.cop, None, MODE_CONTINUE)
    case Vector(code) =>
      var out := w.call(code, 0, a.dmem, a.cop);
      same.(dmem := out.dmem, cop := out.cop)
    case BranchEq(op, rs, rt, target) =>
      same.(branch := When(Alu32(op, Reg(a.regs, rs), Reg(a.regs, rt)) != 0, target))
    case BranchZero(op, rs, link, target) =>
      same.(branch := When(Alu32(op, Reg(a.regs, rs), 0) != 0, target),
            regs := if link then SetReg(a.regs, 31, LinkValue(a.pc)) else a.regs)
    case Always(target) => same.(branch := Some(target))
    case Jump(link, target) =>
      same.(branch := Some(target), regs := if link then SetReg(a.regs, 31, LinkValue(a.pc)) else a.regs)
    case JumpReg(rs, dest) =>
      same.(branch := Some(PcOf(Reg(a.regs, rs))), regs := SetReg(a.regs, dest, LinkValue(a.pc)))
    case Break => same.(mode := MODE_BREAK)
  }

  datatype Outcome = Running(arch: Arch) | Stopped(mode: nat, arch: Arch)

  /** One instruction, taking the pending branch after it. A run that stops leaves nothing pending. */
  function Step(w: World, imem: Imem, a: Arch): Outcome
    requires ArchOk(a)
  {
    var e := Do1(w, Decode(imem[a.pc], a.pc), a);
    var pc := if a.pending.Some? then a.pending.value else (a.pc + 1) % 1024;
    var a' := Arch(pc, e.regs, e.dmem, e.cop, e.branch);
    if e.mode == MODE_CONTINUE then Running(a') else Stopped(e.mode, a'.(pending := None))
  }

  lemma StepOk(w: World, imem: Imem, a: Arch)
    requires ArchOk(a)
    ensures ArchOk(Step(w, imem, a).arch)
  {
  }

  /** n instructions, or fewer if the run stops. */
  function Interpret(w: World, imem: Imem, a: Arch, n: nat): (o: Outcome)
    requires ArchOk(a)
    ensures ArchOk(o.arch)
  {
    if n == 0 then Running(a)
    else
      var o := Interpret(w, imem, a, n - 1);
      StepOk(w, imem, o.arch);
      if o.Stopped? then o else Step(w, imem, o.arch)
  }
}

/** jit_instruction: the code emitted for each instruction, and the proof that it does what the
    reference interpreter does to the register file, data memory and the coprocessors.

    Branches leave their condition in COND_BRANCH_TAKEN and a register target in
    JIT_REGISTER_INDIRECT_PC; where control goes is decided after the delay slot. */
module Emitter {
  import opened Words
  import opened HostCode
  import opened RegisterCache
  import Isa

  const MINUS_ONE: Reg := TWO_64 - 1

  function RegOf(k: int): nat {
    if k < 0 then 0 else k
  }

  /** The host register a request for MIPS register m returns. */
  function JitReg(g: Gen, m: nat): nat {
    RegOf(Pick(g.es, m))
  }

  /** THREE_REG_OP and the two-register comparisons. */
  function Binary(g: Gen, op: Alu, d: nat, a: nat, b: nat, ext: Sign): Gen {
    var g1 := Load(g, a, ext);
    var g2 := Load(g1, b, ext);
    var g3 := Emit(Modify(g2, d), AluR(op, JitReg(g2, d), JitReg(g, a), JitReg(g1, b)));
    Unlock(Unlock(Unlock(g3, a), b), d)
  }

  /** TWO_REG_IMM_OP, the immediate shifts and the comparisons with zero. */
  function Unary(g: Gen, op: Alu, d: nat, a: nat, imm: Reg, ext: Sign): Gen {
    var g1 := Load(g, a, ext);
    var g2 := Emit(Modify(g1, d), AluI(op, JitReg(g1, d), JitReg(g, a), imm));
    Unlock(Unlock(g2, a), d)
  }

  function NotOr(g: Gen, d: nat, rs: nat, rt: nat): Gen {
    var g1 := Load(g, rt, Unknown);
    var g2 := Load(g1, rs, Unknown);
    var k := JitReg(g2, d);
    var g3 := Emit(Modify(g2, d), AluR(Logic(Or), k, JitReg(g, rt), JitReg(g1, rs)));
    var g4 := Emit(g3, AluI(Logic(Xor), k, k, MINUS_ONE));
    Unlock(Unlock(Unlock(g4, rt), rs), d)
  }

  function VariableShift(g: Gen, op: Alu, d: nat, rt: nat, rs: nat): Gen {
    var g1 := Load(g, rt, Needs(op));
    var g2 := Load(g1, rs, Unknown);
    var k := JitReg(g2, SCRATCH_REGISTER0);
    var g3 := Emit(Modify(g2, SCRATCH_REGISTER0), AluI(Logic(And), k, JitReg(g1, rs), 31));
    var g4 := Unlock(g3, rs);
    var g5 := Emit(Modify(g4, d), AluR(op, JitReg(g4, d), JitReg(g, rt), k));
    Unlock(Unlock(Unlock(g5, rt), d), SCRATCH_REGISTER0)
  }

  function Constant(g: Gen, m: nat, x: Word): Gen {
    Unlock(Immediate(g, m, SExt(x)), m)
  }

  /** The masked effective address, into host register k. */
  function Address(g: Gen, k: nat, base: nat, imm: Word): Gen {
    Emit(Emit(g, AluI(Add, k, base, SExt(imm))), AluI(Logic(And), k, k, 0xfff))
  }

  function Unlock3(g: Gen, a: nat, b: nat, c: nat): Gen {
    Unlock(Unlock(Unlock(g, a), b), c)
  }

  /** jit_emit_load_operation up to the access; the value is left in host register k. */
  function Fetch(g: Gen, callerRegs: nat, width: Width, signed: bool, rs: nat, imm: Word): Gen {
    var g1 := Load(g, rs, Unknown);
    var t := JitReg(g1, SCRATCH_REGISTER0);
    var g2 := Address(Modify(g1, SCRATCH_REGISTER0), t, JitReg(g, rs), imm);
    var k := JitReg(g2, SCRATCH_REGISTER1);
    var g3 := Modify(g2, SCRATCH_REGISTER1);
    if width.Byte1? then
      Unlock3(Emit(g3, LoadMem(width, signed, k, t)), rs, SCRATCH_REGISTER0, SCRATCH_REGISTER1)
    else
      var g4 := FlushCallerSave(Unlock3(g3, rs, SCRATCH_REGISTER0, SCRATCH_REGISTER1), callerRegs);
      Emit(g4, LoadMem(width, signed, k, t))
  }

  /** The host register Fetch leaves the value in. */
  function FetchReg(g: Gen, rs: nat, imm: Word): nat {
    var g1 := Load(g, rs, Unknown);
    JitReg(Address(Modify(g1, SCRATCH_REGISTER0), JitReg(g1, SCRATCH_REGISTER0), JitReg(g, rs), imm), SCRATCH_REGISTER1)
  }

  function LoadValue(g: Gen, callerRegs: nat, width: Width, signed: bool, rt: nat, rs: nat, imm: Word): Gen {
    var g1 := Fetch(g, callerRegs, width, signed, rs, imm);
    Unlock(Emit(Modify(g1, rt), MovR(JitReg(g1, rt), FetchReg(g, rs, imm))), rt)
  }

  /** jit_emit_store_operation. */
  function StoreValue(g: Gen, callerRegs: nat, width: Width, rt: nat, rs: nat, imm: Word): Gen {
    var g1 := Load(g, rt, Unknown);
    var g2 := Load(g1, rs, Unknown);
    var t := JitReg(g2, SCRATCH_REGISTER0);
    var g3 := Address(Modify(g2, SCRATCH_REGISTER0), t, JitReg(g1, rs), imm);
    if width.Byte1? then
      Unlock3(Emit(g3, StoreMem(width, t, JitReg(g, rt))), rt, rs, SCRATCH_REGISTER0)
    else
      Emit(FlushCallerSave(Unlock3(g3, rt, rs, SCRATCH_REGISTER0), callerRegs), StoreMem(width, t, JitReg(g, rt)))
  }

  /** jit_save_indirect_register. */
  function SaveTarget(g: Gen, rs: nat): Gen {
    Unlock(Emit(Load(g, rs, Unknown), SaveIndirect(JitReg(g, rs))), rs)
  }

  /** Whether the delay slot can be branched to decides between a conditional and a static branch. */
  function Taken1(nextIsEntry: bool): Word {
    if nextIsEntry then 1 else 0
  }

  function JumpAndLink(g: Gen, pc: nat, nextIsEntry: bool): Gen {
    var g1 := Immediate(g, 31, SExt(Isa.LinkValue(pc)));
    Unlock(Unlock(Immediate(g1, COND_BRANCH_TAKEN, SExt(Taken1(nextIsEntry))), 31), COND_BRANCH_TAKEN)
  }

  /** The emitted code, up to where the instruction may leave the region. */
  function Body(g: Gen, callerRegs: nat, i: Isa.Instr, pc: nat, nextIsEntry: bool): Gen {
    match i
    case Nop => g
    case Alu3(op, rd, rs, rt) => Binary(g, op, rd, rs, rt, Needs(op))
    case Nor(rd, rs, rt) => NotOr(g, rd, rs, rt)
    case ShiftI(op, rd, rt, amount) => Unary(g, op, rd, rt, amount % TWO_32, Needs(op))
    case ShiftV(op, rd, rt, rs) => VariableShift(g, op, rd, rt, rs)
    case AluImm(op, rt, rs, imm) => Unary(g, op, rt, rs, SExt(imm), if op.Lt? || op.Ltu? then SExtended else Unknown)
    case LoadImm(rt, imm) => Constant(g, rt, imm)
    case Load(width, signed, rt, rs, imm) => LoadValue(g, callerRegs, width, signed, rt, rs, imm)
    case Store(width, rt, rs, imm) => StoreValue(g, callerRegs, width, rt, rs, imm)
    case System(code, src, dst) => Emit(FlushWindow(g), CallOut(code, src, dst))
    case Coproc(code, reg, writes) =>
      Emit(FlushOne(FlushCallerSave(g, callerRegs), reg), CallOut(code, if writes then 0 else reg, if writes then reg else 0))
    case Vector(code) => Emit(FlushCallerSave(g, callerRegs), CallOut(code, 0, 0))
    case BranchEq(op, rs, rt, _) => Binary(g, op, COND_BRANCH_TAKEN, rs, rt, SExtended)
    case BranchZero(op, rs, link, _) =>
      var g1 := Unary(g, op, COND_BRANCH_TAKEN, rs, 0, SExtended);
      if link then Constant(g1, 31, Isa.LinkValue(pc)) else g1
    case Always(_) => g
    case Jump(link, _) =>
      if link then JumpAndLink(g, pc, nextIsEntry) else Constant(g, COND_BRANCH_TAKEN, Taken1(nextIsEntry))
    case JumpReg(rs, dest) =>
      var g1 := SaveTarget(g, rs);
      var g2 := if dest != 0 then Constant(g1, dest, Isa.LinkValue(pc)) else g1;
      Constant(g2, COND_BRANCH_TAKEN, Taken1(nextIsEntry))
    case Break => FlushWindow(g)
  }
}

/** The instruction encoding of the RSP's scalar unit, written the other way round: each instruction and
    the word that stands for it, from opcode, operand fields and immediate. Decoding recovers exactly the
    instructions that can be written. */
module Assembler {
  import opened Words
  import opened HostCode
  import opened Isa

  /** Opcode 0: three registers, a shift amount and a function. */
  function RWord(fn: nat, rs: nat, rt: nat, rd: nat, sa: nat): Word
    requires fn < 64 && rs < 32 && rt < 32 && rd < 32 && sa < 32
  {
    rs * 0x20_0000 + rt * 0x1_0000 + rd * 0x800 + sa * 0x40 + fn
  }

  /** An opcode, two registers and 16 bits. */
  function IWord(op: nat, rs: nat, rt: nat, imm: nat): Word
    requires op < 64 && rs < 32 && rt < 32 && imm < 0x1_0000
  {
    op * 0x400_0000 + rs * 0x20_0000 + rt * 0x1_0000 + imm
  }

  /** J and JAL. */
  function JWord(op: nat, target: nat): Word
    requires op < 64 && target < 1024
  {
    op * 0x400_0000 + target
  }

  /** A 16-bit field that extends to imm, and whether there is one. */
  predicate IsSigned16(imm: Word) {
    imm < 0x8000 || imm >= TWO_32 - 0x8000
  }

  function Low16(imm: Word): (x: nat)
    ensures x < 0x1_0000
  {
    imm % 0x1_0000
  }

  /** The branch displacement from the delay slot. */
  function Displacement(target: nat, pc: nat): (x: nat)
    ensures x < 1024
  {
    (target + 1024 - (pc + 1) % 1024) % 1024
  }

  /** Instructions in the form decoding gives them. */
  predicate Encodable(i: Instr) {
    Valid(i) &&
    match i
    case Alu3(op, _, _, _) => op.Add? || op.Sub? || op.Logic? || op.Lt? || op.Ltu?
    case AluImm(op, _, rs, imm) =>
      if op.Logic? then imm < 0x1_0000 && (op.op.Or? ==> rs != 0) else IsSigned16(imm) && (op.Add? ==> rs != 0)
    case LoadImm(_, imm) => imm % 0x1_0000 == 0 || imm < 0x1_0000 || IsSigned16(imm)
    case Load(width, signed, _, _, imm) => IsSigned16(imm) && (width.Word4? ==> signed)
    case Store(_, _, _, imm) => IsSigned16(imm)
    case BranchZero(op, rs, link, _) => if op.Le? || op.Gt? then rs != 0 && !link else true
    case System(code, src, dst) =>
      (src == 0 && code == IWord(0x10, 0, dst, Low16(code))) || (dst == 0 && code == IWord(0x10, 4, src, Low16(code)))
    case Coproc(code, reg, writes) => IsCop2Move(code, reg, writes) || (!writes && IsCop2Memory(code, reg))
    case Vector(code) => 0x4a00_0000 <= code < 0x4c00_0000
    case _ => true
  }

  /** MFC2 and CFC2 write the register, MTC2 and CTC2 read it. */
  predicate IsCop2Move(code: Word, reg: nat, writes: bool)
    requires reg <= 31
  {
    exists f :: f in (if writes then {0, 2} else {4, 6}) && code == IWord(0x12, f, reg, Low16(code))
  }

  /** LWC2 and SWC2 of the kinds that exist, at an address in the register. */
  predicate IsCop2Memory(code: Word, reg: nat)
    requires reg <= 31
  {
    var kind := Low16(code) / 0x800;
    || (kind < 12 && kind != 10 && exists vt: nat :: vt < 32 && code == IWord(0x32, reg, vt, Low16(code)))
    || (kind < 12 && exists vt: nat :: vt < 32 && code == IWord(0x3a, reg, vt, Low16(code)))
  }

  function Alu3Function(op: Alu): (fn: nat)
    ensures fn < 64
  {
    match op
    case Add => 0x21
    case Sub => 0x23
    case Logic(And) => 0x24
    case Logic(Or) => 0x25
    case Logic(Xor) => 0x26
    case Lt => 0x2a
    case _ => 0x2b
  }

  function ImmOpcode(op: Alu): (n: nat)
    ensures n < 64
  {
    match op
    case Add => 0x09
    case Lt => 0x0a
    case Ltu => 0x0b
    case Logic(And) => 0x0c
    case Logic(Or) => 0x0d
    case _ => 0x0e
  }

  function LoadOpcode(width: Width, signed: bool): (n: nat)
    ensures n < 64
  {
    match width
    case Byte1 => if signed then 0x20 else 0x24
    case Half2 => if signed then 0x21 else 0x25
    case Word4 => 0x23
  }

  function StoreOpcode(width: Width): (n: nat)
    ensures n < 64
  {
    match width
    case Byte1 => 0x28
    case Half2 => 0x29
    case Word4 => 0x2b
  }

  function EncodeBranchZero(op: Alu, rs: nat, link: bool, disp: nat): Word
    requires rs < 32 && disp < 1024
  {
    match op
    case Lt => IWord(0x01, rs, if link then 0x10 else 0x00, disp)
    case Ge => IWord(0x01, rs, if link then 0x11 else 0x01, disp)
    case Le => IWord(0x06, rs, 0, disp)
    case _ => IWord(0x07, rs, 0, disp)
  }

  function EncodeConstant(rt: nat, imm: Word): Word
    requires rt < 32
  {
    if imm % 0x1_0000 == 0 then IWord(0x0f, 0, rt, imm / 0x1_0000)
    else if imm < 0x1_0000 then IWord(0x0d, 0, rt, imm)
    else IWord(0x09, 0, rt, Low16(imm))
  }

  function Encode(i: Instr, pc: nat): Word
    requires Encodable(i)
  {
    match i
    case Nop => 0
    case Alu3(op, rd, rs, rt) => RWord(Alu3Function(op), rs, rt, rd, 0)
    case Nor(rd, rs, rt) => RWord(0x27, rs, rt, rd, 0)
    case ShiftI(op, rd, rt, amount) => RWord(if op.Sll? then 0x00 else if op.Srl? then 0x02 else 0x03, 0, rt, rd, amount)
    case ShiftV(op, rd, rt, rs) => RWord(if op.Sll? then 0x04 else if op.Srl? then 0x06 else 0x07, rs, rt, rd, 0)
    case AluImm(op, rt, rs, imm) => IWord(ImmOpcode(op), rs, rt, Low16(imm))
    case LoadImm(rt, imm) => EncodeConstant(rt, imm)
    case Load(width, signed, rt, rs, imm) => IWord(LoadOpcode(width, signed), rs, rt, Low16(imm))
    case Store(width, rt, rs, imm) => IWord(StoreOpcode(width), rs, rt, Low16(imm))
    case BranchEq(op, rs, rt, target) => IWord(if op.Eq? then 0x04 else 0x05, rs, rt, Displacement(target, pc))
    case BranchZero(op, rs, link, target) => EncodeBranchZero(op, rs, link, Displacement(target, pc))
    case Always(target) => IWord(0x06, 0, 0, Displacement(target, pc))
    case Jump(link, target) => JWord(if link then 0x03 else 0x02, target)
    case JumpReg(rs, dest) => if dest == 0 then RWord(0x08, rs, 0, 0, 0) else RWord(0x09, rs, 0, dest, 0)
    case Break => RWord(0x0d, 0, 0, 0, 0)
    case System(code, _, _) => code
    case Coproc(code, _, _) => code
    case Vector(code) => code
  }

  // ---------------------------------------------------------------- fields

  lemma RFields(fn: nat, rs: nat, rt: nat, rd: nat, sa: nat)
    requires fn < 64 && rs < 32 && rt < 32 && rd < 32 && sa < 32
    ensures var x := RWord(fn, rs, rt, rd, sa);
            && x / 0x400_0000 == 0 && FieldRs(x) == rs && FieldRt(x) == rt && FieldRd(x) == rd && FieldShift(x) == sa
            && x % 64 == fn && !IsVector(x)
  {
    var x := RWord(fn, rs, rt, rd, sa);
    assert x / 0x20_0000 == rs;
    assert x / 0x1_0000 == rs * 32 + rt;
    assert x / 0x800 == (rs * 32 + rt) * 32 + rd;
    assert x / 0x40 == ((rs * 32 + rt) * 32 + rd) * 32 + sa;
  }

  lemma IFields(op: nat, rs: nat, rt: nat, imm: nat)
    requires op < 64 && rs < 32 && rt < 32 && imm < 0x1_0000
    ensures var x := IWord(op, rs, rt, imm);
            && x / 0x400_0000 == op && FieldRs(x) == rs && FieldRt(x) == rt && x % 0x1_0000 == imm
            && (op != 0x12 ==> !IsVector(x))
  {
    var x := IWord(op, rs, rt, imm);
    assert x / 0x400_0000 == op;
    assert x / 0x20_0000 == op * 32 + rs;
    assert x / 0x1_0000 == (op * 32 + rs) * 32 + rt;
    assert x / 0x400_0000 == x / 0x200_0000 / 2;
  }

  lemma JFields(op: nat, target: nat)
    requires op < 64 && target < 1024
    ensures var x := JWord(op, target); x / 0x400_0000 == op && x % 1024 == target && (op != 0x12 ==> !IsVector(x))
  {
    var x := JWord(op, target);
    assert x / 0x400_0000 == op;
    assert x / 0x400_0000 == x / 0x200_0000 / 2;
  }

  lemma SignedField(x: Word, imm: Word)
    requires IsSigned16(imm) && x % 0x1_0000 == Low16(imm)
    ensures SImm(x) == imm
  {
  }

  lemma WholeTurns(k: int, a: int)
    ensures (1024 * k + a) % 1024 == a % 1024
  {
  }

  lemma ThereAndBack(r: nat, target: nat)
    requires r < 1024 && target < 1024
    ensures (r + (target + 1024 - r) % 1024) % 1024 == target
  {
    if target >= r {
      assert (target + 1024 - r) % 1024 == target - r;
    } else {
      assert (target + 1024 - r) % 1024 == target + 1024 - r;
    }
  }

  lemma TargetField(x: Word, target: nat, pc: nat)
    requires target < 1024 && x % 0x1_0000 == Displacement(target, pc)
    ensures BranchTarget(x, pc) == target
  {
    var h, p, r, d := x / 0x1_0000, (pc + 1) / 1024, (pc + 1) % 1024, Displacement(target, pc);
    ThereAndBack(r, target);
    assert (r + d) % 1024 == target;
    hide Displacement;
    assert x == 0x1_0000 * h + d && pc + 1 == 1024 * p + r;
    WholeTurns(64 * h + p, r + d);
    assert 1024 * (64 * h + p) + (r + d) == pc + 1 + x;
  }

  // ---------------------------------------------------------------- the round trip

  lemma DecodeRegisters(i: Instr, pc: nat)
    requires Encodable(i) && (i.Alu3? || i.Nor? || i.ShiftI? || i.ShiftV? || i.JumpReg? || i.Break?)
    ensures Decode(Encode(i, pc), pc) == i
  {
    hide RWord, FieldRs, FieldRt, FieldRd, FieldShift, IsVector;
    match i
    case Alu3(op, rd, rs, rt) => RFields(Alu3Function(op), rs, rt, rd, 0);
    case Nor(rd, rs, rt) => RFields(0x27, rs, rt, rd, 0);
    case ShiftI(op, rd, rt, amount) => RFields(if op.Sll? then 0x00 else if op.Srl? then 0x02 else 0x03, 0, rt, rd, amount);
    case ShiftV(op, rd, rt, rs) => RFields(if op.Sll? then 0x04 else if op.Srl? then 0x06 else 0x07, rs, rt, rd, 0);
    case JumpReg(rs, dest) => RFields(if dest == 0 then 0x08 else 0x09, rs, 0, dest, 0);
    case Break => RFields(0x0d, 0, 0, 0, 0);
  }

  lemma DecodeImmediates(i: Instr, pc: nat)
    requires Encodable(i) && (i.AluImm? || i.Load? || i.Store?)
    ensures Decode(Encode(i, pc), pc) == i
  {
    hide IWord, FieldRs, FieldRt, FieldRd, FieldShift, IsVector, SImm, IsSigned16, Low16, Displacement;
    match i
    case AluImm(op, rt, rs, imm) =>
      IFields(ImmOpcode(op), rs, rt, Low16(imm));
      ImmField(Encode(i, pc), op, imm);
    case Load(width, signed, rt, rs, imm) =>
      IFields(LoadOpcode(width, signed), rs, rt, Low16(imm));
      SignedField(Encode(i, pc), imm);
    case Store(width, rt, rs, imm) =>
      IFields(StoreOpcode(width), rs, rt, Low16(imm));
      SignedField(Encode(i, pc), imm);
  }

  lemma ImmField(x: Word, op: Alu, imm: Word)
    requires x % 0x1_0000 == Low16(imm) && (if op.Logic? then imm < 0x1_0000 else IsSigned16(imm))
    ensures (if op.Logic? then UImm(x) else SImm(x)) == imm
  {
  }

  lemma DecodeConstant(rt: nat, imm: Word, pc: nat)
    requires Encodable(LoadImm(rt, imm))
    ensures Decode(Encode(LoadImm(rt, imm), pc), pc) == LoadImm(rt, imm)
  {
    var x := EncodeConstant(rt, imm);
    if imm % 0x1_0000 == 0 {
      IFields(0x0f, 0, rt, imm / 0x1_0000);
    } else if imm < 0x1_0000 {
      IFields(0x0d, 0, rt, imm);
    } else {
      IFields(0x09, 0, rt, Low16(imm));
      SignedField(x, imm);
    }
    hide IWord, FieldRs, FieldRt, FieldRd, FieldShift, IsVector, SImm, IsSigned16, Displacement;
  }

  lemma DecodeBranches(i: Instr, pc: nat)
    requires Encodable(i) && (i.BranchEq? || i.BranchZero? || i.Always?)
    ensures Decode(Encode(i, pc), pc) == i
  {
    hide IWord, FieldRs, FieldRt, FieldRd, FieldShift, IsVector, SImm, BranchTarget, Displacement;
    var d := Displacement(i.target, pc);
    match i {
    case BranchEq(op, rs, rt, target) => IFields(if op.Eq? then 0x04 else 0x05, rs, rt, d);
    case BranchZero(op, rs, link, target) =>
      IFields(0x01, rs, if op.Lt? then (if link then 0x10 else 0x00) else if link then 0x11 else 0x01, d);
      IFields(0x06, rs, 0, d);
      IFields(0x07, rs, 0, d);
    case Always(target) => IFields(0x06, 0, 0, d);
    }
    TargetField(Encode(i, pc), i.target, pc);
  }

  lemma DecodeJump(i: Instr, pc: nat)
    requires Encodable(i) && i.Jump?
    ensures Decode(Encode(i, pc), pc) == i
  {
    JFields(if i.link then 0x03 else 0x02, i.target);
    hide JWord, FieldRs, FieldRt, FieldRd, FieldShift, IsVector, DecodeSpecial, DecodeMemory, SImm, UImm, BranchTarget;
  }

  lemma NopIsZero(pc: nat)
    ensures Decode(Encode(Nop, pc), pc) == Nop
  {
    hide SImm, UImm, BranchTarget;
  }

  lemma DecodeSystem(i: Instr, pc: nat)
    requires Encodable(i) && i.System?
    ensures Decode(i.code, pc) == i
  {
    if i.src == 0 && i.code == IWord(0x10, 0, i.dst, Low16(i.code)) {
      IFields(0x10, 0, i.dst, Low16(i.code));
    } else {
      IFields(0x10, 4, i.src, Low16(i.code));
    }
    hide IWord, FieldRs, FieldRt, FieldRd, FieldShift, IsVector, SImm, UImm, BranchTarget, DecodeSpecial, DecodeMemory;
  }

  lemma DecodeCop2Move(code: Word, reg: nat, writes: bool, pc: nat)
    requires reg <= 31 && IsCop2Move(code, reg, writes)
    ensures Decode(code, pc) == Coproc(code, reg, writes)
  {
    var f :| f in (if writes then {0, 2} else {4, 6}) && code == IWord(0x12, f, reg, Low16(code));
    IFields(0x12, f, reg, Low16(code));
    MoveNotVector(f, reg, Low16(code));
    hide IWord, FieldRs, FieldRt, FieldRd, FieldShift, IsVector, SImm, UImm, BranchTarget, DecodeSpecial, DecodeMemory;
  }

  lemma MoveNotVector(f: nat, rt: nat, imm: nat)
    requires f < 16 && rt < 32 && imm < 0x1_0000
    ensures !IsVector(IWord(0x12, f, rt, imm))
  {
  }

  lemma DecodeCop2Memory(code: Word, reg: nat, pc: nat)
    requires reg <= 31 && IsCop2Memory(code, reg)
    ensures Decode(code, pc) == Coproc(code, reg, false)
  {
    KindField(code);
    if FieldRd(code) != 10 && exists vt: nat :: vt < 32 && code == IWord(0x32, reg, vt, Low16(code)) {
      var vt: nat :| vt < 32 && code == IWord(0x32, reg, vt, Low16(code));
      IFields(0x32, reg, vt, Low16(code));
    } else {
      var vt: nat :| vt < 32 && code == IWord(0x3a, reg, vt, Low16(code));
      IFields(0x3a, reg, vt, Low16(code));
    }
    hide IWord, FieldRs, FieldRt, FieldRd, FieldShift, IsVector, SImm, UImm, BranchTarget, DecodeSpecial, DecodeMemory;
  }

  lemma KindField(x: Word)
    ensures FieldRd(x) == Low16(x) / 0x800
  {
    var h := x / 0x1_0000;
    assert x / 0x800 == 32 * h + Low16(x) / 0x800;
  }

  lemma DecodeVector(i: Instr, pc: nat)
    requires Encodable(i) && i.Vector?
    ensures Decode(i.code, pc) == i
  {
  }

  /** Decoding recovers every instruction from its encoding: operation, operands, immediate and branch target. */
  lemma DecodeEncode(i: Instr, pc: nat)
    requires Encodable(i)
    ensures Decode(Encode(i, pc), pc) == i
  {
    hide Decode, IsCop2Move, IsCop2Memory, IWord, RWord, JWord;
    match i
    case AluImm(_, _, _, _) => DecodeImmediates(i, pc);
    case Load(_, _, _, _, _) => DecodeImmediates(i, pc);
    case Store(_, _, _, _) => DecodeImmediates(i, pc);
    case LoadImm(rt, imm) => DecodeConstant(rt, imm, pc);
    case BranchEq(_, _, _, _) => DecodeBranches(i, pc);
    case BranchZero(_, _, _, _) => DecodeBranches(i, pc);
    case Always(_) => DecodeBranches(i, pc);
    case Jump(_, _) => DecodeJump(i, pc);
    case Nop => NopIsZero(pc);
    case System(_, _, _) => DecodeSystem(i, pc);
    case Vector(_) => DecodeVector(i, pc);
    case Coproc(code, reg, writes) =>
      if IsCop2Move(code, reg, writes) { DecodeCop2Move(code, reg, writes, pc); } else { DecodeCop2Memory(code, reg, pc); }
    case _ => DecodeRegisters(i, pc);
  }

  // ---------------------------------------------------------------- nothing else is decoded

  /** A word, put together again from its fields. */
  lemma Fields(x: Word)
    ensures x / 0x400_0000 < 64 && x == IWord(x / 0x400_0000, FieldRs(x), FieldRt(x), Low16(x))
  {
    assert x / 0x1_0000 == x / 0x20_0000 * 32 + x / 0x1_0000 % 32;
    assert x / 0x20_0000 == x / 0x400_0000 * 32 + x / 0x20_0000 % 32;
  }

  lemma VectorRange(x: Word)
    ensures IsVector(x) <==> 0x4a00_0000 <= x < 0x4c00_0000
  {
  }

  lemma SignedRange(x: Word)
    ensures IsSigned16(SImm(x)) && UImm(x) < 0x1_0000
    ensures UImm(x) * 0x1_0000 % 0x1_0000 == 0
  {
  }

  lemma SpecialEncodable(x: Word)
    ensures Encodable(DecodeSpecial(x))
  {
    hide IsSigned16, IWord, Low16, IsCop2Move, IsCop2Memory, FieldRs, FieldRt, FieldRd, FieldShift;
  }

  lemma MemoryEncodable(x: Word)
    ensures Encodable(DecodeMemory(x))
  {
    SignedRange(x);
    hide IsSigned16, IWord, Low16, IsCop2Move, IsCop2Memory, FieldRs, FieldRt, FieldRd, FieldShift, SImm, UImm;
  }

  lemma MoveEncodable(x: Word, f: nat, writes: bool)
    requires f in (if writes then {0, 2} else {4, 6}) && x == IWord(0x12, f, FieldRt(x), Low16(x))
    ensures Encodable(Coproc(x, FieldRt(x), writes))
  {
    assert IsCop2Move(x, FieldRt(x), writes);
    hide IWord, IsCop2Move, IsCop2Memory, FieldRt;
  }

  lemma MemoryAccessEncodable(x: Word, op: nat)
    requires FieldRd(x) < 12 && ((op == 0x32 && FieldRd(x) != 10) || op == 0x3a)
    requires x == IWord(op, FieldRs(x), FieldRt(x), Low16(x))
    ensures Encodable(Coproc(x, FieldRs(x), false))
  {
    KindField(x);
    hide IWord, IsCop2Move, FieldRs, FieldRt, FieldRd, Low16;
    assert IsCop2Memory(x, FieldRs(x));
  }

  lemma CoprocessorEncodable(x: Word, pc: nat)
    requires !IsVector(x) && x / 0x400_0000 in {16, 18, 50, 58}
    ensures Encodable(Decode(x, pc))
  {
    Fields(x);
    var rs, rt, rd, op := FieldRs(x), FieldRt(x), FieldRd(x), x / 0x400_0000;
    hide IWord, Low16, IsCop2Move, IsCop2Memory, FieldRs, FieldRt, FieldRd, FieldShift, SImm, UImm, BranchTarget, DecodeSpecial, DecodeMemory, IsVector, IsSigned16;
    if op == 18 && (rs == 0 || rs == 2) { MoveEncodable(x, rs, true); }
    if op == 18 && (rs == 4 || rs == 6) { MoveEncodable(x, rs, false); }
    if (op == 50 && rd != 10 && rd < 12) || (op == 58 && rd < 12) { MemoryAccessEncodable(x, op); }
  }

  lemma ImmediateEncodable(x: Word, pc: nat)
    requires !IsVector(x) && 1 <= x / 0x400_0000 <= 15
    ensures Encodable(Decode(x, pc))
  {
    SignedRange(x);
    hide IWord, IsCop2Move, IsCop2Memory, FieldRs, FieldRt, FieldRd, FieldShift, SImm, UImm, BranchTarget, DecodeSpecial, DecodeMemory, IsVector, IsSigned16;
  }

  /** Every word decodes to an instruction that can be written. */
  lemma DecodeOnto(x: Word, pc: nat)
    ensures Encodable(Decode(x, pc))
  {
    var op := x / 0x400_0000;
    hide Encodable, FieldRs, FieldRt, FieldRd, FieldShift, SImm, UImm, BranchTarget, DecodeSpecial, DecodeMemory;
    if IsVector(x) {
      VectorEncodable(x);
    } else if op == 0 {
      SpecialEncodable(x);
    } else if op <= 15 {
      ImmediateEncodable(x, pc);
    } else if op in {16, 18, 50, 58} {
      CoprocessorEncodable(x, pc);
    } else {
      MemoryEncodable(x);
    }
  }

  lemma VectorEncodable(x: Word)
    requires IsVector(x)
    ensures Encodable(Vector(x))
  {
    VectorRange(x);
  }

  /** Words that stand for the same instruction: the trapping forms, and LWU. */
  lemma Aliases(x: Word, pc: nat)
    ensures x / 0x400_0000 == 8 ==> Decode(x, pc) == Decode(x + 0x400_0000, pc)
    ensures x / 0x400_0000 == 0 && x % 64 in {32, 34} ==> Decode(x, pc) == Decode(x + 1, pc)
    ensures x / 0x400_0000 == 39 ==> Decode(x, pc) == Decode(x - 0x1000_0000, pc)
  {
    var op := x / 0x400_0000;
    if op == 8 {
      NextOpcode(x, x + 0x400_0000, 8, 9);
      VectorRange(x);
      VectorRange(x + 0x400_0000);
    } else if op == 39 {
      NextOpcode(x, x - 0x1000_0000, 39, 35);
      VectorRange(x);
      VectorRange(x - 0x1000_0000);
    } else if op == 0 && x % 64 in {32, 34} {
      NextFunction(x);
      VectorRange(x);
      VectorRange(x + 1);
    }
    hide FieldRs, FieldRt, FieldRd, FieldShift, BranchTarget, IsVector;
  }

  lemma NextOpcode(x: Word, y: Word, op: nat, op': nat)
    requires x / 0x400_0000 == op && op' < 64 && y == x + op' * 0x400_0000 - op * 0x400_0000
    ensures y / 0x400_0000 == op' && FieldRs(y) == FieldRs(x) && FieldRt(y) == FieldRt(x) && y % 0x1_0000 == x % 0x1_0000
  {
    hide FieldRs, FieldRt, IWord;
    Fields(x);
    IFields(op', FieldRs(x), FieldRt(x), Low16(x));
    SameOperands(op, op', FieldRs(x), FieldRt(x), Low16(x));
  }

  lemma SameOperands(op: nat, op': nat, rs: nat, rt: nat, imm: nat)
    requires op < 64 && op' < 64 && rs < 32 && rt < 32 && imm < 0x1_0000
    ensures IWord(op', rs, rt, imm) == IWord(op, rs, rt, imm) + op' * 0x400_0000 - op * 0x400_0000
  {
  }

  lemma NextFunction(x: Word)
    requires x / 0x400_0000 == 0 && x % 64 < 63
    ensures var y := x + 1;
      y / 0x400_0000 == 0 && y % 64 == x % 64 + 1 && FieldRs(y) == FieldRs(x) && FieldRt(y) == FieldRt(x) && FieldRd(y) == FieldRd(x)
  {
    SameAbove(x);
  }

  lemma SameAbove(x: Word)
    requires x % 64 < 63
    ensures (x + 1) / 0x800 == x / 0x800 && (x + 1) / 0x1_0000 == x / 0x1_0000 && (x + 1) / 0x20_0000 == x / 0x20_0000
    ensures (x + 1) / 0x400_0000 == x / 0x400_0000
  {
    var q := x / 64;
    assert (x + 1) / 64 == q;
    assert x / 0x800 == q / 0x20 && (x + 1) / 0x800 == q / 0x20;
    assert x / 0x1_0000 == q / 0x400 && (x + 1) / 0x1_0000 == q / 0x400;
    assert x / 0x20_0000 == q / 0x8000 && (x + 1) / 0x20_0000 == q / 0x8000;
    assert x / 0x400_0000 == q / 0x10_0000 && (x + 1) / 0x400_0000 == q / 0x10_0000;
  }
}

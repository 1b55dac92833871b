/** The code the RSP recompiler emits, as a small register-transfer language, and the machine it
    runs on: 64-bit host registers, `CPUState` in memory, and C routines behind calls. */
module HostCode {
  import opened Words

  // ---------------------------------------------------------------- data memory

  type Byte = x: int | 0 <= x < 256
  type Dmem = d: seq<Byte> | |d| == 4096 witness seq(4096, _ => 0)

  /** Bytes are stored with each word's order reversed: byte address a lives at a XOR 3. */
  function Xor3(a: nat): nat { a - a % 4 + (3 - a % 4) }

  /** a XOR 2. */
  function Xor2(a: nat): nat { a - a % 4 + (a % 4 + 2) % 4 }

  /** BYTE_ENDIAN_FIXUP. */
  function Slot(a: nat, off: nat): nat { Xor3(a + off) % 4096 }

  datatype Width = Byte1 | Half2 | Word4

  /** The low address bits that must be clear for the inline access. */
  predicate Aligned(width: Width, a: nat) {
    match width
    case Byte1 => true
    case Half2 => a % 2 == 0
    case Word4 => a % 4 == 0
  }

  function Extend(width: Width, signed: bool, x: nat): Word
    requires x < (match width case Byte1 => 0x100 case Half2 => 0x1_0000 case Word4 => TWO_32)
  {
    match width
    case Byte1 => if signed && x >= 0x80 then x + TWO_32 - 0x100 else x
    case Half2 => if signed && x >= 0x8000 then x + TWO_32 - 0x1_0000 else x
    case Word4 => x
  }

  /** What the access means: the bytes at a, a+1, ... in big-endian order, wrapping at 4 KiB. */
  function LoadBytes(width: Width, signed: bool, d: Dmem, a: nat): Word {
    match width
    case Byte1 => Extend(Byte1, signed, d[Slot(a, 0)])
    case Half2 => Extend(Half2, signed, 0x100 * d[Slot(a, 0)] as int + d[Slot(a, 1)] as int)
    case Word4 => 0x100_0000 * d[Slot(a, 0)] as int + 0x1_0000 * d[Slot(a, 1)] as int + 0x100 * d[Slot(a, 2)] as int + d[Slot(a, 3)] as int
  }

  function StoreBytes(width: Width, d: Dmem, a: nat, v: Word): Dmem {
    match width
    case Byte1 => d[Slot(a, 0) := v % 0x100]
    case Half2 => d[Slot(a, 0) := v / 0x100 % 0x100][Slot(a, 1) := v % 0x100]
    case Word4 => d[Slot(a, 0) := v / 0x100_0000][Slot(a, 1) := v / 0x1_0000 % 0x100]
                   [Slot(a, 2) := v / 0x100 % 0x100][Slot(a, 3) := v % 0x100]
  }

  /** The inline access: one little-endian host load at the flipped address. */
  function LoadInline(width: Width, signed: bool, d: Dmem, a: nat): Word
    requires a < 4096 && Aligned(width, a)
  {
    match width
    case Byte1 => Extend(Byte1, signed, d[Xor3(a)])
    case Half2 => var p := Xor2(a); Extend(Half2, signed, d[p] as int + 0x100 * d[p + 1] as int)
    case Word4 => d[a] as int + 0x100 * d[a + 1] as int + 0x1_0000 * d[a + 2] as int + 0x100_0000 * d[a + 3] as int
  }

  function StoreInline(width: Width, d: Dmem, a: nat, v: Word): Dmem
    requires a < 4096 && Aligned(width, a)
  {
    match width
    case Byte1 => d[Xor3(a) := v % 0x100]
    case Half2 => var p := Xor2(a); d[p := v % 0x100][p + 1 := v / 0x100 % 0x100]
    case Word4 => d[a := v % 0x100][a + 1 := v / 0x100 % 0x100]
                   [a + 2 := v / 0x1_0000 % 0x100][a + 3 := v / 0x100_0000]
  }

  lemma HalfSlots(a: nat)
    requires a < 4096 && a % 2 == 0
    ensures Slot(a, 0) == Xor2(a) + 1 && Slot(a, 1) == Xor2(a)
  {
    var q, r := a / 4, a % 4;
    assert a == 4 * q + r && (r == 0 || r == 2);
    assert (a + 1) % 4 == r + 1;
  }

  lemma WordSlot(a: nat, off: nat)
    requires a < 4096 && a % 4 == 0 && off < 4
    ensures Slot(a, off) == a + 3 - off
  {
    var q := a / 4;
    assert a == 4 * q && (a + off) % 4 == off;
  }

  lemma WordSlots(a: nat)
    requires a < 4096 && a % 4 == 0
    ensures Slot(a, 0) == a + 3 && Slot(a, 1) == a + 2 && Slot(a, 2) == a + 1 && Slot(a, 3) == a
  {
    WordSlot(a, 0);
    WordSlot(a, 1);
    WordSlot(a, 2);
    WordSlot(a, 3);
  }

  /** The fast path reads and writes exactly the bytes the out-of-line routine does. */
  lemma InlineLoadExact(width: Width, signed: bool, d: Dmem, a: nat)
    requires a < 4096 && Aligned(width, a)
    ensures LoadInline(width, signed, d, a) == LoadBytes(width, signed, d, a)
  {
    match width
    case Byte1 =>
    case Half2 => HalfSlots(a);
    case Word4 => WordSlots(a);
  }

  lemma SlotLane(a: nat, i: nat)
    ensures Slot(a, i) % 4 == 3 - (a + i) % 4
  {
    var q, r := (a + i) / 4, (a + i) % 4;
    assert Slot(a, i) == (4 * q + (3 - r)) % 4096;
    hide Slot, Xor3;
    LaneOfSum(q, 3 - r);
  }

  lemma LaneOfSum(q: nat, r: nat)
    requires r < 4
    ensures (4 * q + r) % 4096 % 4 == r
  {
    var p, s := q / 1024, q % 1024;
    assert 4 * q + r == 4096 * p + (4 * s + r);
    assert (4096 * p + (4 * s + r)) % 4096 == 4 * s + r;
  }

  lemma SlotsApart(a: nat, i: nat, j: nat)
    requires i < j < 4
    ensures Slot(a, i) != Slot(a, j)
  {
    SlotLane(a, i);
    SlotLane(a, j);
    hide Slot;
    assert (a + i) % 4 != (a + j) % 4;
  }

  lemma SlotNext(a: nat, i: nat)
    ensures Slot((a + i) % 4096, 0) == Slot(a, i)
  {
    FlipWraps(a + i);
    assert (a + i) % 4096 + 0 == (a + i) % 4096;
    hide Xor3;
  }

  lemma FlipWraps(x: nat)
    ensures Xor3(x % 4096) % 4096 == Xor3(x) % 4096
  {
    var p, y := x / 4096, x % 4096;
    assert x == 4096 * p + y;
    assert x % 4 == y % 4 by { assert x == 4 * (1024 * p) + y; }
    assert Xor3(x) == 4096 * p + Xor3(y);
    WholeWraps(p, Xor3(y));
  }

  lemma WholeWraps(p: nat, y: nat)
    ensures (4096 * p + y) % 4096 == y % 4096
  {
  }

  lemma Successors(a: nat)
    ensures Slot((a + 1) % 4096, 0) == Slot(a, 1) && Slot((a + 2) % 4096, 0) == Slot(a, 2)
    ensures Slot((a + 2) % 4096, 1) == Slot(a, 3)
  {
    hide Slot;
    SlotNext(a, 1);
    SlotNext(a, 2);
    SlotNext(a, 3);
    SlotNext((a + 2) % 4096, 1);
    TwoAndOne(a);
  }

  lemma TwoAndOne(a: nat)
    ensures ((a + 2) % 4096 + 1) % 4096 == (a + 3) % 4096
  {
  }

  /** Halfwords and words are their bytes, the first one highest, from successive addresses that wrap. */
  lemma LoadInBytes(d: Dmem, a: nat)
    ensures LoadBytes(Half2, false, d, a) == 0x100 * LoadBytes(Byte1, false, d, a) + LoadBytes(Byte1, false, d, (a + 1) % 4096)
    ensures LoadBytes(Word4, false, d, a) == 0x1_0000 * LoadBytes(Half2, false, d, a) + LoadBytes(Half2, false, d, (a + 2) % 4096)
  {
    hide Slot;
    Successors(a);
  }

  lemma StoreInBytes(d: Dmem, a: nat, v: Word)
    ensures StoreBytes(Half2, d, a, v) == StoreBytes(Byte1, StoreBytes(Byte1, d, a, v / 0x100), (a + 1) % 4096, v)
    ensures StoreBytes(Word4, d, a, v) == StoreBytes(Half2, StoreBytes(Half2, d, a, v / 0x1_0000), (a + 2) % 4096, v)
  {
    hide Slot;
    Successors(a);
    assert v / 0x1_0000 / 0x100 == v / 0x100_0000;
  }

  /** Sign extension keeps the two's-complement value. */
  lemma ExtendedValue(width: Width, signed: bool, v: Word)
    ensures var n := (match width case Byte1 => 0x100 case Half2 => 0x1_0000 case Word4 => TWO_32);
            var x := Extend(width, signed, v % n);
            x % n == v % n && if signed then -n <= 2 * Signed32(x) < n else x < n
  {
  }

  /** What was stored is what is loaded, at every address, unaligned ones and ones that wrap included. */
  lemma StoreThenLoad(width: Width, signed: bool, d: Dmem, a: nat, v: Word)
    ensures LoadBytes(width, signed, StoreBytes(width, d, a, v), a)
         == match width case Byte1 => Extend(Byte1, signed, v % 0x100) case Half2 => Extend(Half2, signed, v % 0x1_0000) case Word4 => v
    ensures var x, n := LoadBytes(width, signed, StoreBytes(width, d, a, v), a), (match width case Byte1 => 0x100 case Half2 => 0x1_0000 case Word4 => TWO_32);
            x % n == v % n && if signed then -n <= 2 * Signed32(x) < n else x < n
  {
    ExtendedValue(width, signed, v);
    SlotsApart(a, 0, 1);
    SlotsApart(a, 0, 2);
    SlotsApart(a, 0, 3);
    SlotsApart(a, 1, 2);
    SlotsApart(a, 1, 3);
    SlotsApart(a, 2, 3);
    WordOfBytes(v);
    hide Slot;
  }

  lemma WordOfBytes(v: Word)
    ensures 0x100_0000 * (v / 0x100_0000) + 0x1_0000 * (v / 0x1_0000 % 0x100) + 0x100 * (v / 0x100 % 0x100) + v % 0x100 == v
    ensures 0x100 * (v / 0x100 % 0x100) + v % 0x100 == v % 0x1_0000
  {
    LastByte(v);
    LastByte(v / 0x100);
    LastByte(v / 0x1_0000);
    assert v / 0x1_0000 / 0x100 == v / 0x100_0000 && v / 0x100 / 0x100 == v / 0x1_0000;
    HalfOfWord(v);
  }

  lemma LastByte(v: nat)
    ensures v == 0x100 * (v / 0x100) + v % 0x100
  {
  }

  lemma HalfOfWord(v: nat)
    ensures 0x100 * (v / 0x100 % 0x100) + v % 0x100 == v % 0x1_0000
  {
    var h, m, l := v / 0x1_0000, v / 0x100 % 0x100, v % 0x100;
    assert v == 0x1_0000 * h + (0x100 * m + l);
  }

  lemma InlineStoreExact(width: Width, d: Dmem, a: nat, v: Word)
    requires a < 4096 && Aligned(width, a)
    ensures StoreInline(width, d, a, v) == StoreBytes(width, d, a, v)
  {
    match width
    case Byte1 =>
    case Half2 =>
      HalfSlots(a);
      ReverseTwo(d, Xor2(a), v % 0x100, v / 0x100 % 0x100);
    case Word4 =>
      WordSlots(a);
      ReverseFour(d, a, v % 0x100, v / 0x100 % 0x100, v / 0x1_0000 % 0x100, v / 0x100_0000);
  }

  lemma ReverseTwo(d: seq<Byte>, a: nat, x0: Byte, x1: Byte)
    requires a + 1 < |d|
    ensures d[a := x0][a + 1 := x1] == d[a + 1 := x1][a := x0]
  {
  }

  lemma ReverseFour(d: seq<Byte>, a: nat, x0: Byte, x1: Byte, x2: Byte, x3: Byte)
    requires a + 3 < |d|
    ensures d[a := x0][a + 1 := x1][a + 2 := x2][a + 3 := x3] == d[a + 3 := x3][a + 2 := x2][a + 1 := x1][a := x0]
  {
  }

  // ---------------------------------------------------------------- operations

  datatype Alu = Add | Sub | Logic(op: BitOp) | Sll | Srl | Sra | Lt | Ltu | Eq | Ne | Ge | Le | Gt

  function Flag(b: bool): (r: Word)
    ensures r <= 1
  {
    if b then 1 else 0
  }

  /** Host arithmetic. */
  function Alu64(op: Alu, a: Reg, b: Reg): Reg {
    match op
    case Add => Wrap64(a + b)
    case Sub => Wrap64(a - b)
    case Logic(o) => Bitwise64(o, a, b)
    case Sll => Shl64(a, b)
    case Srl => Shr64(a, b)
    case Sra => Sar64(a, b)
    case Lt => Flag(Signed64(a) < Signed64(b))
    case Ltu => Flag(a < b)
    case Eq => Flag(a == b)
    case Ne => Flag(a != b)
    case Ge => Flag(Signed64(a) >= Signed64(b))
    case Le => Flag(Signed64(a) <= Signed64(b))
    case Gt => Flag(Signed64(a) > Signed64(b))
  }

  /** The same operation on MIPS registers. */
  function Alu32(op: Alu, a: Word, b: Word): Word {
    match op
    case Add => Low(a + b)
    case Sub => Low(a - b)
    case Logic(o) => Bitwise32(o, a, b)
    case Sll => Shl32(a, b)
    case Srl => Shr32(a, b)
    case Sra => Sar32(a, b)
    case Lt => Flag(Signed32(a) < Signed32(b))
    case Ltu => Flag(a < b)
    case Eq => Flag(a == b)
    case Ne => Flag(a != b)
    case Ge => Flag(Signed32(a) >= Signed32(b))
    case Le => Flag(Signed32(a) <= Signed32(b))
    case Gt => Flag(Signed32(a) > Signed32(b))
  }

  /** Comparisons are 1 or 0, by value: signed ones as if the sign bit were turned round. */
  lemma Comparisons(a: Word, b: Word)
    ensures var x, y := (a + 0x8000_0000) % 0x1_0000_0000, (b + 0x8000_0000) % 0x1_0000_0000;
            && Alu32(Lt, a, b) == (if x < y then 1 else 0)
            && Alu32(Ge, a, b) == (if x >= y then 1 else 0)
            && Alu32(Le, a, b) == (if x <= y then 1 else 0)
            && Alu32(Gt, a, b) == (if x > y then 1 else 0)
    ensures Alu32(Ltu, a, b) == (if a < b then 1 else 0)
    ensures Alu32(Eq, a, b) == (if a == b then 1 else 0)
    ensures Alu32(Ne, a, b) == (if a == b then 0 else 1)
  {
  }

  predicate IsShift(op: Alu) {
    op.Sll? || op.Srl? || op.Sra?
  }

  datatype Sign = SExtended | ZExtended | Unknown

  /** What the 64-bit value of a register is known to be. */
  predicate TagOk(tag: Sign, x: Reg) {
    match tag
    case SExtended => x == SExt(Low(x))
    case ZExtended => x == ZExt(Low(x))
    case Unknown => true
  }

  /** The operand extension each emitted operation relies on. */
  function Needs(op: Alu): Sign {
    match op
    case Add => Unknown
    case Sub => Unknown
    case Logic(_) => Unknown
    case Sll => Unknown
    case Srl => ZExtended
    case Ltu => ZExtended
    case _ => SExtended
  }

  predicate IsCompare(op: Alu) {
    !op.Add? && !op.Sub? && !op.Logic? && !IsShift(op)
  }

  lemma CompareExact(op: Alu, tag: Sign, a: Word, b: Word)
    requires IsCompare(op) && (tag.SExtended? || (op.Ltu? && tag.ZExtended?))
    ensures Alu64(op, Extended(tag, a), Extended(tag, b)) == Alu32(op, a, b)
  {
    ExtOrder(a, b);
  }

  lemma ArithmeticExact(op: Alu, a: Reg, b: Reg)
    requires !IsCompare(op) && (IsShift(op) ==> b == Low(b)) && TagOk(Needs(op), a)
    ensures Low(Alu64(op, a, b)) == Alu32(op, Low(a), Low(b))
  {
    match op
    case Add => LowAdd(a, b); LowWrap(a + b);
    case Sub => LowSub(a, b); LowWrap(a - b);
    case Logic(o) => LowBitwise(o, a, b);
    case Sll => LowShl(a, b);
    case Srl => ShiftsOfExt(Low(a), b);
    case Sra => ShiftsOfExt(Low(a), b);
  }

  /** Computing on 64-bit registers gives the 32-bit MIPS result in the low word, provided the
      operands carry the extension the operation needs; unsigned comparison is also exact on two
      sign-extended operands. */
  lemma AluExact(op: Alu, tag: Sign, a: Reg, b: Reg)
    requires TagOk(tag, a) && (IsShift(op) || TagOk(tag, b))
    requires tag == Needs(op) || Needs(op).Unknown? || (op.Ltu? && tag.SExtended?)
    requires IsShift(op) ==> b == Low(b)
    ensures Low(Alu64(op, a, b)) == Alu32(op, Low(a), Low(b))
  {
    if IsCompare(op) {
      CompareExact(op, tag, Low(a), Low(b));
    } else {
      ArithmeticExact(op, a, b);
    }
  }

  // ---------------------------------------------------------------- machine

  type Coprocessors = int   // COP0 and COP2 state, opaque

  /** `sr[32]` is COND_BRANCH_TAKEN. */
  datatype CpuState = CpuState(sr: seq<Word>, dmem: Dmem, cop: Coprocessors, hasDelay: Word, target: Word)

  /** `ind` is JIT_REGISTER_INDIRECT_PC, `mode` what the last call returned in JIT_REGISTER_MODE. */
  datatype Host = Host(r: seq<Reg>, ind: Reg, mode: nat, cpu: CpuState)

  datatype Called = Called(dmem: Dmem, cop: Coprocessors, value: Word, mode: nat)

  /** The world outside the emitted code: a C routine sees one scalar operand, data memory and the
      coprocessors, and may leave anything in the first `callerRegs` host registers. */
  datatype World = World(
    callerRegs: nat,
    clobber: (int, seq<Reg>) -> Reg,
    call: (Word, Word, Dmem, Coprocessors) -> Called)

  datatype Op =
    | LoadSr(h: nat, m: nat, ext: Sign)          // ldxi_i / ldxi_ui of sr[m]
    | StoreSr(m: nat, h: nat)                    // stxi_i to sr[m]
    | MovI(h: nat, imm: Reg)
    | MovR(h: nat, src: nat)
    | ExtR(h: nat, ext: Sign)                    // extr_i / extr_ui in place
    | AluR(op: Alu, h: nat, a: nat, b: nat)
    | AluI(op: Alu, h: nat, a: nat, imm: Reg)
    | SaveIndirect(h: nat)
    | LoadHasDelay(h: nat)
    | LoadMem(width: Width, signed: bool, h: nat, addr: nat)
    | StoreMem(width: Width, addr: nat, src: nat)
    | CallOut(code: Word, src: nat, dst: nat)

  function Get(host: Host, h: nat): Reg {
    if h < |host.r| then host.r[h] else 0
  }

  function Set(host: Host, h: nat, x: Reg): Host {
    if h < |host.r| then host.(r := host.r[h := x]) else host
  }

  function Sr(cpu: CpuState, m: nat): Word {
    if m < |cpu.sr| then cpu.sr[m] else 0
  }

  function SetSr(cpu: CpuState, m: nat, v: Word): CpuState {
    if m < |cpu.sr| then cpu.(sr := cpu.sr[m := v]) else cpu
  }

  function Extended(ext: Sign, v: Word): Reg {
    if ext.ZExtended? then ZExt(v) else SExt(v)
  }

  /** Host registers after a call. */
  function Clobber(w: World, host: Host): Host {
    host.(r := seq(|host.r|, i requires 0 <= i < |host.r| => Left(w, host.r, i)))
  }

  function Left(w: World, r: seq<Reg>, i: int): Reg
    requires 0 <= i < |r|
  {
    if i < w.callerRegs then w.clobber(i, r) else r[i]
  }

  /** One operation. Loads and stores branch to a C routine when the address is unaligned. */
  function Do(w: World, op: Op, host: Host): Host {
    match op
    case LoadSr(h, m, ext) => Set(host, h, Extended(ext, Sr(host.cpu, m)))
    case StoreSr(m, h) => host.(cpu := SetSr(host.cpu, m, Low(Get(host, h))))
    case MovI(h, imm) => Set(host, h, imm)
    case MovR(h, src) => Set(host, h, Get(host, src))
    case ExtR(h, ext) => Set(host, h, Extended(ext, Low(Get(host, h))))
    case AluR(o, h, a, b) => Set(host, h, Alu64(o, Get(host, a), Get(host, b)))
    case AluI(o, h, a, imm) => Set(host, h, Alu64(o, Get(host, a), imm))
    case SaveIndirect(h) => host.(ind := Get(host, h))
    case LoadHasDelay(h) => Set(host, h, SExt(host.cpu.hasDelay))
    case LoadMem(width, signed, h, addr) =>
      var a := Get(host, addr) % 4096;
      if Aligned(width, a) then Set(host, h, SExt(LoadInline(width, signed, host.cpu.dmem, a)))
      else Set(Clobber(w, host), h, SExt(LoadBytes(width, signed, host.cpu.dmem, a)))
    case StoreMem(width, addr, src) =>
      var a, v := Get(host, addr) % 4096, Low(Get(host, src));
      if Aligned(width, a) then host.(cpu := host.cpu.(dmem := StoreInline(width, host.cpu.dmem, a, v)))
      else Clobber(w, host).(cpu := host.cpu.(dmem := StoreBytes(width, host.cpu.dmem, a, v)))
    case CallOut(code, src, dst) =>
      var out := w.call(code, Sr(host.cpu, src), host.cpu.dmem, host.cpu.cop);
      var cpu := host.cpu.(dmem := out.dmem, cop := out.cop);
      Clobber(w, host).(mode := out.mode, cpu := if dst == 0 then cpu else SetSr(cpu, dst, out.value))
  }

  /** Straight-line code. */
  function Run(w: World, code: seq<Op>, host: Host): Host {
    if code == [] then host
    else Do(w, code[|code| - 1], Run(w, code[..|code| - 1], host))
  }

  lemma RunOne(w: World, code: seq<Op>, op: Op, host: Host)
    ensures Run(w, code + [op], host) == Do(w, op, Run(w, code, host))
  {
    assert (code + [op])[..|code|] == code;
  }
}

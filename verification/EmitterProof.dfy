/** The emitted code, instruction by instruction, against the reference interpreter's effect. */
module EmitterProof {
  import opened Words
  import opened HostCode
  import opened RegisterCache
  import opened Emitter
  import Isa

  /** Entry k stands for MIPS register m with the extension asked for. */
  predicate Live(g: Gen, k: nat, m: nat, ext: Sign) {
    k < |g.es| && Holds(g.es[k], m) && (ext.Unknown? || g.es[k].sign == ext)
  }

  /** Host register k holds word x, extended as asked. */
  predicate ValueOk(h: Host, k: nat, x: Word, ext: Sign) {
    k < |h.r| && Low(h.r[k]) == x && TagOk(ext, h.r[k])
  }

  // ---------------------------------------------------------------- operands

  lemma Load1(w: World, g: Gen, start: Host, v: seq<Word>, m: nat, ext: Sign)
    requires Sim(w, g, start, v, None, multiset{}) && |v| == 33 && m <= 32
    ensures Sim(w, Load(g, m, ext), start, v, None, multiset{m})
    ensures Live(Load(g, m, ext), JitReg(g, m), m, ext)
    ensures ValueOk(Now(w, Load(g, m, ext), start), JitReg(g, m), v[m], ext)
    ensures Quiet(Now(w, g, start), Now(w, Load(g, m, ext), start))
  {
    hide Sim, Load, Pick;
    SimLoad(w, g, start, v, multiset{}, m, ext, 0, 0);
    assert multiset{} + multiset{m} == multiset{m};
  }

  lemma LockedLive(es: seq<Entry>, locks: multiset<nat>, k: nat, a: nat)
    requires Locked(es, locks) && k < |es| && Holds(es[k], a) && a in locks
    ensures es[k].locks > 0
  {
  }

  /** A second load leaves a first, locked operand where and as it was. */
  lemma Load2(w: World, g: Gen, start: Host, v: seq<Word>, a: nat, ka: nat, ext: Sign, x: Word, m: nat, ext2: Sign)
    requires Sim(w, g, start, v, None, multiset{a}) && |v| == 33 && m <= 32
    requires Live(g, ka, a, ext) && ValueOk(Now(w, g, start), ka, x, ext) && (ext2 == ext || ext2.Unknown?)
    ensures Sim(w, Load(g, m, ext2), start, v, None, multiset{a} + multiset{m})
    ensures ValueOk(Now(w, Load(g, m, ext2), start), ka, x, ext)
    ensures ValueOk(Now(w, Load(g, m, ext2), start), JitReg(g, m), v[m], ext2)
    ensures Quiet(Now(w, g, start), Now(w, Load(g, m, ext2), start))
  {
    hide Load, FindLive, Absent, Pick;
    LockedLive(g.es, multiset{a}, ka, a);
    hide Sim, Good, Locked;
    SimLoad(w, g, start, v, multiset{a}, m, ext2, a, a);
    PickFacts(g.es, m);
  }

  lemma Modify1(w: World, g: Gen, start: Host, v: seq<Word>, locks: multiset<nat>, m: nat, a: nat, b: nat)
    requires Sim(w, g, start, v, None, locks) && 1 <= m <= 34
    requires forall r: nat | r in locks :: r == a || r == b
    ensures Sim(w, Modify(g, m), start, v, HoleOf(m), locks + multiset{m})
    ensures Live(Modify(g, m), JitReg(g, m), m, Unknown) && Modify(g, m).es[JitReg(g, m)].modified
    ensures Modify(g, m).es[JitReg(g, m)].sign.Unknown?
    ensures Now(w, Modify(g, m), start).r == Now(w, g, start).r
    ensures Quiet(Now(w, g, start), Now(w, Modify(g, m), start))
  {
    hide Sim, Modify, Pick;
    SimModify(w, g, start, v, locks, m, a, b);
  }

  // ---------------------------------------------------------------- unlocking

  lemma UnlockTwo(w: World, g: Gen, start: Host, v: seq<Word>, hole: nat, a: nat, d: nat)
    requires Sim(w, g, start, v, hole, multiset{a} + multiset{d})
    ensures Sim(w, Unlock(Unlock(g, a), d), start, v, hole, multiset{})
    ensures Now(w, Unlock(Unlock(g, a), d), start) == Now(w, g, start)
  {
    hide Sim, Unlock;
    SimUnlock(w, g, start, v, hole, multiset{a} + multiset{d}, a);
    assert multiset{a} + multiset{d} - multiset{a} == multiset{d};
    SimUnlock(w, Unlock(g, a), start, v, hole, multiset{d}, d);
    assert multiset{d} - multiset{d} == multiset{};
    UnlockFrame(g, a);
    UnlockFrame(Unlock(g, a), d);
  }

  lemma UnlockThree(w: World, g: Gen, start: Host, v: seq<Word>, hole: nat, a: nat, b: nat, d: nat)
    requires Sim(w, g, start, v, hole, multiset{a} + multiset{b} + multiset{d})
    ensures Sim(w, Unlock3(g, a, b, d), start, v, hole, multiset{})
    ensures Now(w, Unlock3(g, a, b, d), start) == Now(w, g, start)
  {
    hide Sim, Unlock;
    SimUnlock(w, g, start, v, hole, multiset{a} + multiset{b} + multiset{d}, a);
    assert multiset{a} + multiset{b} + multiset{d} - multiset{a} == multiset{b} + multiset{d};
    UnlockFrame(g, a);
    UnlockTwo(w, Unlock(g, a), start, v, hole, b, d);
  }

  /** Three-register locks in another order. */
  lemma UnlockOne(w: World, g: Gen, start: Host, v: seq<Word>, d: nat)
    requires Sim(w, g, start, v, None, multiset{d})
    ensures Sim(w, Unlock(g, d), start, v, None, multiset{})
    ensures Now(w, Unlock(g, d), start) == Now(w, g, start)
  {
    hide Sim, Unlock;
    SimUnlock(w, g, start, v, None, multiset{d}, d);
    assert multiset{d} - multiset{d} == multiset{};
    UnlockFrame(g, d);
  }

  // ---------------------------------------------------------------- computing into a register

  lemma QuietChain(a: Host, b: Host, c: Host)
    requires Quiet(a, b) && Quiet(b, c)
    ensures Quiet(a, c)
  {
  }

  lemma QuietSet(a: Host, k: nat, x: Reg)
    ensures Quiet(a, Set(a, k, x))
  {
  }

  lemma FlagSmall(op: Alu, a: Reg, b: Reg)
    requires IsCompare(op)
    ensures Alu64(op, a, b) <= 1
  {
  }

  /** Which operand tags make an operation exact. */
  predicate Exact(op: Alu, ext: Sign) {
    ext == Needs(op) || Needs(op).Unknown? || (op.Ltu? && ext.SExtended?)
  }

  lemma SimBinary(w: World, g: Gen, start: Host, v: seq<Word>, op: Alu, d: nat, a: nat, b: nat, ext: Sign)
    requires Sim(w, g, start, v, None, multiset{}) && |v| == 33 && 1 <= d <= 32 && a <= 32 && b <= 32
    requires Exact(op, ext) && !IsShift(op) && (d == 32 ==> IsCompare(op))
    ensures Sim(w, Binary(g, op, d, a, b, ext), start, v[d := Alu32(op, v[a], v[b])], None, multiset{})
    ensures Quiet(Now(w, g, start), Now(w, Binary(g, op, d, a, b, ext), start))
  {
    hide Sim, Load, Modify, Unlock, Quiet, Pick, Low, TagOk, Alu64, Alu32;
    var g1 := Load(g, a, ext);
    Load1(w, g, start, v, a, ext);
    var g2 := Load(g1, b, ext);
    Load2(w, g1, start, v, a, JitReg(g, a), ext, v[a], b, ext);
    QuietChain(Now(w, g, start), Now(w, g1, start), Now(w, g2, start));
    Modify1(w, g2, start, v, multiset{a} + multiset{b}, d, a, b);
    var g3 := Modify(g2, d);
    QuietChain(Now(w, g, start), Now(w, g2, start), Now(w, g3, start));
    var ra, rb := Now(w, g3, start).r[JitReg(g, a)], Now(w, g3, start).r[JitReg(g1, b)];
    AluExact(op, ext, ra, rb);
    if d == 32 { FlagSmall(op, ra, rb); }
    var o := AluR(op, JitReg(g2, d), JitReg(g, a), JitReg(g1, b));
    SimWrite(w, g3, start, v, multiset{a} + multiset{b} + multiset{d}, JitReg(g2, d), d, o, Alu64(op, ra, rb), HoleOf(d));
    QuietSet(Now(w, g3, start), JitReg(g2, d), Alu64(op, ra, rb));
    QuietChain(Now(w, g, start), Now(w, g3, start), Now(w, Emit(g3, o), start));
    UnlockThree(w, Emit(g3, o), start, v[d := Alu32(op, v[a], v[b])], None, a, b, d);
  }

  lemma SimUnary(w: World, g: Gen, start: Host, v: seq<Word>, op: Alu, d: nat, a: nat, imm: Reg, ext: Sign)
    requires Sim(w, g, start, v, None, multiset{}) && |v| == 33 && 1 <= d <= 32 && a <= 32
    requires Exact(op, ext) && (d == 32 ==> IsCompare(op))
    requires if IsShift(op) then imm == Low(imm) else TagOk(ext, imm)
    ensures Sim(w, Unary(g, op, d, a, imm, ext), start, v[d := Alu32(op, v[a], Low(imm))], None, multiset{})
    ensures Quiet(Now(w, g, start), Now(w, Unary(g, op, d, a, imm, ext), start))
  {
    hide Sim, Load, Modify, Unlock, Quiet, Pick, Low, TagOk, Alu64, Alu32;
    var g1 := Load(g, a, ext);
    Load1(w, g, start, v, a, ext);
    Modify1(w, g1, start, v, multiset{a}, d, a, a);
    var g2 := Modify(g1, d);
    QuietChain(Now(w, g, start), Now(w, g1, start), Now(w, g2, start));
    var ra := Now(w, g2, start).r[JitReg(g, a)];
    AluExact(op, ext, ra, imm);
    if d == 32 { FlagSmall(op, ra, imm); }
    var o := AluI(op, JitReg(g1, d), JitReg(g, a), imm);
    SimWrite(w, g2, start, v, multiset{a} + multiset{d}, JitReg(g1, d), d, o, Alu64(op, ra, imm), HoleOf(d));
    QuietSet(Now(w, g2, start), JitReg(g1, d), Alu64(op, ra, imm));
    QuietChain(Now(w, g, start), Now(w, g2, start), Now(w, Emit(g2, o), start));
    UnlockTwo(w, Emit(g2, o), start, v[d := Alu32(op, v[a], Low(imm))], None, a, d);
  }

  /** A locked entry is neither moved nor chosen by a later request for another register. */
  lemma ModifyKeeps(w: World, g: Gen, start: Host, v: seq<Word>, locks: multiset<nat>, m: nat, a: nat, b: nat, x: nat, kx: nat)
    requires Sim(w, g, start, v, None, locks) && 1 <= m <= 34
    requires forall r: nat | r in locks :: r == a || r == b
    requires x in locks && x != m && Live(g, kx, x, Unknown)
    ensures Live(Modify(g, m), kx, x, Unknown) && JitReg(g, m) != kx
  {
    LockedLive(g.es, locks, kx, x);
    PickSucceeds(g.es, locks, m, a, b);
    PickFacts(g.es, m);
    hide Sim, Modify, Pick;
    SimModify(w, g, start, v, locks, m, a, b);
  }

  lemma LoadKeeps(w: World, g: Gen, start: Host, v: seq<Word>, x: nat, kx: nat, m: nat, ext: Sign)
    requires Sim(w, g, start, v, None, multiset{x}) && m <= 32 && Live(g, kx, x, Unknown)
    ensures Live(Load(g, m, ext), kx, x, Unknown)
  {
    LockedLive(g.es, multiset{x}, kx, x);
    PickSucceeds(g.es, multiset{x}, m, x, x);
    PickFacts(g.es, m);
    hide Sim, Load;
    SimLoad(w, g, start, v, multiset{x}, m, ext, x, x);
  }

  // ---------------------------------------------------------------- NOR and the variable shifts

  lemma NorValue(ra: Reg, rb: Reg)
    ensures Low(Alu64(Logic(Xor), Alu64(Logic(Or), ra, rb), MINUS_ONE)) == Isa.Invert(Bitwise32(Or, Low(ra), Low(rb)))
  {
    LowNot(Bitwise64(Or, ra, rb));
    LowBitwise(Or, ra, rb);
  }

  lemma BitwiseSwap(op: BitOp, a: nat, b: nat, k: nat)
    ensures Bitwise(op, a, b, k) == Bitwise(op, b, a, k)
  {
  }

  lemma SimNotOr(w: World, g: Gen, start: Host, v: seq<Word>, d: nat, rs: nat, rt: nat)
    requires Sim(w, g, start, v, None, multiset{}) && |v| == 33 && 1 <= d <= 31 && rs <= 31 && rt <= 31
    ensures Sim(w, NotOr(g, d, rs, rt), start, v[d := Isa.Invert(Bitwise32(Or, v[rs], v[rt]))], None, multiset{})
    ensures Quiet(Now(w, g, start), Now(w, NotOr(g, d, rs, rt), start))
  {
    BitwiseSwap(Or, v[rs], v[rt], 32);
    hide Sim, Load, Modify, Unlock, Quiet, Pick, Low, TagOk, Alu64, Bitwise32;
    var g1 := Load(g, rt, Unknown);
    Load1(w, g, start, v, rt, Unknown);
    var g2 := Load(g1, rs, Unknown);
    Load2(w, g1, start, v, rt, JitReg(g, rt), Unknown, v[rt], rs, Unknown);
    QuietChain(Now(w, g, start), Now(w, g1, start), Now(w, g2, start));
    NotOrFrom(w, g2, start, v, d, rt, rs, JitReg(g, rt), JitReg(g1, rs));
    QuietChain(Now(w, g, start), Now(w, g2, start), Now(w, NotOr(g, d, rs, rt), start));
  }

  lemma SimLength(w: World, g: Gen, start: Host, v: seq<Word>, hole: nat, locks: multiset<nat>)
    requires Sim(w, g, start, v, hole, locks)
    ensures |Now(w, g, start).r| == |g.es|
  {
  }

  /** With the operands in ka and kb: the two operations. */
  lemma NotOrFrom(w: World, g: Gen, start: Host, v: seq<Word>, d: nat, rt: nat, rs: nat, ka: nat, kb: nat)
    requires Sim(w, g, start, v, None, multiset{rt} + multiset{rs}) && |v| == 33 && 1 <= d <= 31 && rs <= 31 && rt <= 31
    requires ValueOk(Now(w, g, start), ka, v[rt], Unknown) && ValueOk(Now(w, g, start), kb, v[rs], Unknown)
    ensures var k := JitReg(g, d);
            var g2 := Emit(Emit(Modify(g, d), AluR(Logic(Or), k, ka, kb)), AluI(Logic(Xor), k, k, MINUS_ONE));
            && Sim(w, Unlock3(g2, rt, rs, d), start, v[d := Isa.Invert(Bitwise32(Or, v[rt], v[rs]))], None, multiset{})
            && Quiet(Now(w, g, start), Now(w, Unlock3(g2, rt, rs, d), start))
  {
    hide Sim, Modify, Unlock, Quiet, Pick, Low, TagOk, Alu64, Bitwise32;
    Modify1(w, g, start, v, multiset{rt} + multiset{rs}, d, rt, rs);
    var g1, k := Modify(g, d), JitReg(g, d);
    SimLength(w, g1, start, v, d, multiset{rt} + multiset{rs} + multiset{d});
    var ra, rb := Now(w, g1, start).r[ka], Now(w, g1, start).r[kb];
    NorValue(ra, rb);
    NotOrWrites(w, g1, start, v, multiset{rt} + multiset{rs} + multiset{d}, k, d, ka, kb, ra, rb);
    var g2 := Emit(Emit(g1, AluR(Logic(Or), k, ka, kb)), AluI(Logic(Xor), k, k, MINUS_ONE));
    QuietChain(Now(w, g, start), Now(w, g1, start), Now(w, g2, start));
    UnlockThree(w, g2, start, v[d := Isa.Invert(Bitwise32(Or, v[rt], v[rs]))], None, rt, rs, d);
  }

  lemma NotOrWrites(w: World, g: Gen, start: Host, v: seq<Word>, locks: multiset<nat>, k: nat, d: nat, ka: nat, kb: nat, ra: Reg, rb: Reg)
    requires Sim(w, g, start, v, d, locks) && |v| == 33 && 1 <= d <= 31
    requires k < |g.es| && Holds(g.es[k], d) && g.es[k].modified && g.es[k].sign.Unknown?
    requires k < |Now(w, g, start).r| && Get(Now(w, g, start), ka) == ra && Get(Now(w, g, start), kb) == rb
    ensures var g' := Emit(Emit(g, AluR(Logic(Or), k, ka, kb)), AluI(Logic(Xor), k, k, MINUS_ONE));
            && Sim(w, g', start, v[d := Low(Alu64(Logic(Xor), Alu64(Logic(Or), ra, rb), MINUS_ONE))], None, locks)
            && Quiet(Now(w, g, start), Now(w, g', start))
  {
    hide Sim, Low, Alu64;
    var x := Alu64(Logic(Or), ra, rb);
    SimWrite(w, g, start, v, locks, k, d, AluR(Logic(Or), k, ka, kb), x, d);
    var g1 := Emit(g, AluR(Logic(Or), k, ka, kb));
    var y := Alu64(Logic(Xor), x, MINUS_ONE);
    SimWrite(w, g1, start, v[d := Low(x)], locks, k, d, AluI(Logic(Xor), k, k, MINUS_ONE), y, None);
    assert v[d := Low(x)][d := Low(y)] == v[d := Low(y)];
  }

  lemma ShiftAmount(x: Reg)
    ensures Alu64(Logic(And), x, 31) == Low(x) % 32
  {
    assert Pow2(5) == 32;
    LowMask(x, 5);
  }

  /** The masked amount goes to the scratch register, which nothing else reads. */
  lemma SimScratch(w: World, g: Gen, start: Host, v: seq<Word>, locks: multiset<nat>, m: nat, k: nat, op: Op, x: Reg)
    requires Sim(w, g, start, v, None, locks) && m > 32 && Live(g, k, m, Unknown)
    requires Do(w, op, Now(w, g, start)) == Set(Now(w, g, start), k, x)
    ensures Sim(w, Emit(g, op), start, v, None, locks)
    ensures k < |Now(w, g, start).r| && Now(w, Emit(g, op), start) == Set(Now(w, g, start), k, x)
  {
    assert |Now(w, g, start).r| == |g.es|;
    hide Sim;
    SimScribble(w, g, start, v, None, locks, op);
  }

  /** Up to the masked amount in host register k; the shifted operand is untouched. */
  lemma SimAmount(w: World, g: Gen, start: Host, v: seq<Word>, rt: nat, rs: nat, ext: Sign)
    requires Sim(w, g, start, v, None, multiset{}) && |v| == 33 && rs <= 31 && rt <= 31
    ensures var g1 := Load(g, rt, ext); var g2 := Load(g1, rs, Unknown); var k := JitReg(g2, SCRATCH_REGISTER0);
            var g3 := Emit(Modify(g2, SCRATCH_REGISTER0), AluI(Logic(And), k, JitReg(g1, rs), 31));
            && Sim(w, g3, start, v, None, multiset{rt} + multiset{rs} + multiset{SCRATCH_REGISTER0})
            && ValueOk(Now(w, g3, start), JitReg(g, rt), v[rt], ext)
            && k < |Now(w, g3, start).r| && Now(w, g3, start).r[k] == v[rs] % 32
            && Quiet(Now(w, g, start), Now(w, g3, start))
  {
    hide Sim, Load, Modify, Quiet, Pick, Low, TagOk, Alu64;
    var S := SCRATCH_REGISTER0;
    var g1 := Load(g, rt, ext);
    Load1(w, g, start, v, rt, ext);
    var g2 := Load(g1, rs, Unknown);
    Load2(w, g1, start, v, rt, JitReg(g, rt), ext, v[rt], rs, Unknown);
    LoadKeeps(w, g1, start, v, rt, JitReg(g, rt), rs, Unknown);
    QuietChain(Now(w, g, start), Now(w, g1, start), Now(w, g2, start));
    Modify1(w, g2, start, v, multiset{rt} + multiset{rs}, S, rt, rs);
    ModifyKeeps(w, g2, start, v, multiset{rt} + multiset{rs}, S, rt, rs, rt, JitReg(g, rt));
    var g3 := Modify(g2, S);
    QuietChain(Now(w, g, start), Now(w, g2, start), Now(w, g3, start));
    var x := Now(w, g3, start).r[JitReg(g1, rs)];
    ShiftAmount(x);
    var k := JitReg(g2, S);
    SimScratch(w, g3, start, v, multiset{rt} + multiset{rs} + multiset{S}, S, k, AluI(Logic(And), k, JitReg(g1, rs), 31), v[rs] % 32);
    QuietSet(Now(w, g3, start), k, v[rs] % 32);
    QuietChain(Now(w, g, start), Now(w, g3, start), Set(Now(w, g3, start), k, v[rs] % 32));
  }

  lemma SimVariableShift(w: World, g: Gen, start: Host, v: seq<Word>, op: Alu, d: nat, rt: nat, rs: nat)
    requires Sim(w, g, start, v, None, multiset{}) && |v| == 33 && 1 <= d <= 31 && rs <= 31 && rt <= 31 && IsShift(op)
    ensures Sim(w, VariableShift(g, op, d, rt, rs), start, v[d := Alu32(op, v[rt], v[rs] % 32)], None, multiset{})
    ensures Quiet(Now(w, g, start), Now(w, VariableShift(g, op, d, rt, rs), start))
  {
    hide Sim, Load, Modify, Unlock, Quiet, Pick, TagOk, Alu64, Alu32, Needs;
    var S := SCRATCH_REGISTER0;
    var g1 := Load(g, rt, Needs(op));
    var g2 := Load(g1, rs, Unknown);
    var k := JitReg(g2, S);
    var g3 := Emit(Modify(g2, S), AluI(Logic(And), k, JitReg(g1, rs), 31));
    SimAmount(w, g, start, v, rt, rs, Needs(op));
    var g4 := Unlock(g3, rs);
    SimUnlock(w, g3, start, v, None, multiset{rt} + multiset{rs} + multiset{S}, rs);
    assert multiset{rt} + multiset{rs} + multiset{S} - multiset{rs} == multiset{rt} + multiset{S};
    UnlockFrame(g3, rs);
    ShiftFrom(w, g4, start, v, op, d, rt, JitReg(g, rt), k, v[rs] % 32);
    QuietChain(Now(w, g, start), Now(w, g4, start), Now(w, VariableShift(g, op, d, rt, rs), start));
  }

  /** With the operand in ka and the amount in the scratch register k: the shift. */
  lemma ShiftFrom(w: World, g: Gen, start: Host, v: seq<Word>, op: Alu, d: nat, rt: nat, ka: nat, k: nat, amount: Word)
    requires Sim(w, g, start, v, None, multiset{rt} + multiset{SCRATCH_REGISTER0}) && |v| == 33 && 1 <= d <= 31 && rt <= 31 && IsShift(op)
    requires ValueOk(Now(w, g, start), ka, v[rt], Needs(op)) && k < |Now(w, g, start).r| && Now(w, g, start).r[k] == amount < 32
    ensures var g1 := Modify(g, d);
            var g2 := Unlock3(Emit(g1, AluR(op, JitReg(g, d), ka, k)), rt, d, SCRATCH_REGISTER0);
            && Sim(w, g2, start, v[d := Alu32(op, v[rt], amount)], None, multiset{})
            && Quiet(Now(w, g, start), Now(w, g2, start))
  {
    hide Sim, Modify, Unlock, Quiet, Pick, TagOk, Alu64, Alu32, Needs;
    var S := SCRATCH_REGISTER0;
    Modify1(w, g, start, v, multiset{rt} + multiset{S}, d, rt, S);
    var g1 := Modify(g, d);
    var ra, rb := Now(w, g1, start).r[ka], Now(w, g1, start).r[k];
    AluExact(op, Needs(op), ra, rb);
    assert Low(ra) == v[rt] && Low(rb) == amount by { LowWord(amount); }
    assert Low(Alu64(op, ra, rb)) == Alu32(op, v[rt], amount);
    hide ValueOk, IsShift, Low;
    var o := AluR(op, JitReg(g, d), ka, k);
    SimWrite(w, g1, start, v, multiset{rt} + multiset{S} + multiset{d}, JitReg(g, d), d, o, Alu64(op, ra, rb), d);
    QuietSet(Now(w, g1, start), JitReg(g, d), Alu64(op, ra, rb));
    QuietChain(Now(w, g, start), Now(w, g1, start), Now(w, Emit(g1, o), start));
    assert multiset{rt} + multiset{S} + multiset{d} == multiset{rt} + multiset{d} + multiset{S};
    UnlockThree(w, Emit(g1, o), start, v[d := Alu32(op, v[rt], amount)], None, rt, d, S);
  }

  // ---------------------------------------------------------------- constants and links

  lemma SimConstant(w: World, g: Gen, start: Host, v: seq<Word>, m: nat, x: Word)
    requires Sim(w, g, start, v, None, multiset{}) && |v| == 33 && 1 <= m <= 32 && (m == 32 ==> x <= 1)
    ensures Sim(w, Constant(g, m, x), start, v[m := x], None, multiset{})
    ensures Quiet(Now(w, g, start), Now(w, Constant(g, m, x), start))
  {
    LowOfExt(x);
    hide Sim, Immediate, Unlock, Low;
    SimImmediate(w, g, start, v, multiset{}, m, SExt(x), 0, 0);
    assert multiset{} + multiset{m} == multiset{m};
    UnlockOne(w, Immediate(g, m, SExt(x)), start, v[m := x], m);
  }

  lemma SimJumpAndLink(w: World, g: Gen, start: Host, v: seq<Word>, pc: nat, nextIsEntry: bool, v': seq<Word>)
    requires Sim(w, g, start, v, None, multiset{}) && |v| == 33
    requires v' == v[31 := Isa.LinkValue(pc)][32 := Taken1(nextIsEntry)]
    ensures Sim(w, JumpAndLink(g, pc, nextIsEntry), start, v', None, multiset{})
    ensures Quiet(Now(w, g, start), Now(w, JumpAndLink(g, pc, nextIsEntry), start))
  {
    var x, c := Isa.LinkValue(pc), Taken1(nextIsEntry);
    LowOfExt(x);
    LowOfExt(c);
    hide Sim, Immediate, Unlock, Low, Quiet;
    var g1 := Immediate(g, 31, SExt(x));
    SimImmediate(w, g, start, v, multiset{}, 31, SExt(x), 0, 0);
    assert multiset{} + multiset{31} == multiset{31};
    var g2 := Immediate(g1, 32, SExt(c));
    SimImmediate(w, g1, start, v[31 := x], multiset{31}, 32, SExt(c), 31, 31);
    QuietChain(Now(w, g, start), Now(w, g1, start), Now(w, g2, start));
    UnlockTwo(w, g2, start, v[31 := x][32 := c], None, 31, 32);
  }

  /** The host state but for JIT_REGISTER_INDIRECT_PC. */
  predicate QuietButTarget(a: Host, b: Host) {
    Quiet(a.(ind := b.ind), b)
  }

  lemma SimSaveTarget(w: World, g: Gen, start: Host, v: seq<Word>, rs: nat)
    requires Sim(w, g, start, v, None, multiset{}) && |v| == 33 && rs <= 31
    ensures Sim(w, SaveTarget(g, rs), start, v, None, multiset{})
    ensures QuietButTarget(Now(w, g, start), Now(w, SaveTarget(g, rs), start))
    ensures Low(Now(w, SaveTarget(g, rs), start).ind) == v[rs]
  {
    hide Load, Unlock, Pick, Low, TagOk;
    var g1 := Load(g, rs, Unknown);
    Load1(w, g, start, v, rs, Unknown);
    hide Good;
    var o := SaveIndirect(JitReg(g, rs));
    SaveScribble(w, g1, start, v, multiset{rs}, JitReg(g, rs));
    UnlockOne(w, Emit(g1, o), start, v, rs);
  }

  lemma SaveScribble(w: World, g: Gen, start: Host, v: seq<Word>, locks: multiset<nat>, k: nat)
    requires Sim(w, g, start, v, None, locks)
    ensures Sim(w, Emit(g, SaveIndirect(k)), start, v, None, locks)
    ensures Now(w, Emit(g, SaveIndirect(k)), start) == Now(w, g, start).(ind := Get(Now(w, g, start), k))
  {
    assert |Now(w, g, start).r| == |g.es|;
    hide Sim;
    SimScribble(w, g, start, v, None, locks, SaveIndirect(k));
  }

  // ---------------------------------------------------------------- loads and stores

  lemma MaskAddress(x: Reg)
    ensures Alu64(Logic(And), x, 0xfff) == Low(x) % 4096
  {
    assert Pow2(12) == 4096 by { assert Pow2(6) == 64; }
    LowMask(x, 12);
  }

  lemma AddressSum(r: Reg, imm: Word)
    ensures Low(Alu64(Add, r, SExt(imm))) == Low(Low(r) + imm)
  {
    LowWrap(r + SExt(imm));
    LowAdd(r, SExt(imm));
    LowOfExt(imm);
  }

  lemma AddressValue(r: Reg, imm: Word)
    ensures Alu64(Logic(And), Alu64(Add, r, SExt(imm)), 0xfff) == (Low(r) + imm) % 4096
  {
    AddressSum(r, imm);
    MaskAddress(Alu64(Add, r, SExt(imm)));
    LowOffset(Low(r) + imm);
    hide Low, Alu64, SExt;
  }

  lemma SimAddress(w: World, g: Gen, start: Host, v: seq<Word>, locks: multiset<nat>, t: nat, base: nat, x: Word, imm: Word)
    requires Sim(w, g, start, v, None, locks) && Live(g, t, SCRATCH_REGISTER0, Unknown)
    requires ValueOk(Now(w, g, start), base, x, Unknown)
    ensures Sim(w, Address(g, t, base, imm), start, v, None, locks)
    ensures t < |Now(w, g, start).r|
    ensures Now(w, Address(g, t, base, imm), start) == Set(Now(w, g, start), t, (x + imm) % 4096)
  {
    hide Sim, Low, Alu64;
    var h := Now(w, g, start);
    var y := Alu64(Add, h.r[base], SExt(imm));
    AddressValue(h.r[base], imm);
    SimScratch(w, g, start, v, locks, SCRATCH_REGISTER0, t, AluI(Add, t, base, SExt(imm)), y);
    var g1 := Emit(g, AluI(Add, t, base, SExt(imm)));
    SimScratch(w, g1, start, v, locks, SCRATCH_REGISTER0, t, AluI(Logic(And), t, t, 0xfff), (x + imm) % 4096);
  }

  /** ... leaving a value in another host register alone. */
  lemma AddressKeeps(w: World, g: Gen, start: Host, v: seq<Word>, locks: multiset<nat>, t: nat, base: nat, x: Word, imm: Word, k: nat, y: Word)
    requires Sim(w, g, start, v, None, locks) && Live(g, t, SCRATCH_REGISTER0, Unknown)
    requires ValueOk(Now(w, g, start), base, x, Unknown)
    requires ValueOk(Now(w, g, start), k, y, Unknown) && k != t
    ensures var g' := Address(g, t, base, imm);
            && Sim(w, g', start, v, None, locks) && Live(g', t, SCRATCH_REGISTER0, Unknown)
            && t < |Now(w, g', start).r| && Now(w, g', start).r[t] == (x + imm) % 4096
            && ValueOk(Now(w, g', start), k, y, Unknown)
            && Quiet(Now(w, g, start), Now(w, g', start))
  {
    hide Sim;
    SimAddress(w, g, start, v, locks, t, base, x, imm);
  }

  /** No entry stands for a register a call may overwrite. */
  ghost predicate CallSafe(w: World, es: seq<Entry>) {
    forall i | 0 <= i < |es| && i < w.callerRegs :: !es[i].live
  }

  lemma FetchEffect(w: World, h: Host, width: Width, signed: bool, k: nat, t: nat, a: nat)
    requires a < 4096 && Get(h, t) == a && k < |h.r|
    ensures var h' := Do(w, LoadMem(width, signed, k, t), h);
            && Quiet(h, h') && h'.cpu == h.cpu
            && Get(h', k) == SExt(LoadBytes(width, signed, h.cpu.dmem, a))
            && forall i | 0 <= i < |h.r| && i != k && (width.Byte1? || i >= w.callerRegs) :: h'.r[i] == h.r[i]
  {
    hide LoadInline, LoadBytes, SExt;
    if Aligned(width, a) { InlineLoadExact(width, signed, h.cpu.dmem, a); }
  }

  lemma SimFetchAccess(w: World, g: Gen, start: Host, v: seq<Word>, locks: multiset<nat>, width: Width, signed: bool, k: nat, t: nat, a: nat)
    requires Sim(w, g, start, v, None, locks) && (width.Byte1? || CallSafe(w, g.es))
    requires k < |g.es| && (g.es[k].live ==> g.es[k].mips > 32)
    requires a < 4096 && Get(Now(w, g, start), t) == a
    ensures var g' := Emit(g, LoadMem(width, signed, k, t));
            && Sim(w, g', start, v, None, locks)
            && Quiet(Now(w, g, start), Now(w, g', start))
            && Get(Now(w, g', start), k) == SExt(LoadBytes(width, signed, Now(w, g, start).cpu.dmem, a))
  {
    assert |Now(w, g, start).r| == |g.es|;
    hide Sim, Do, LoadBytes, SExt, Get, Quiet;
    FetchEffect(w, Now(w, g, start), width, signed, k, t, a);
    SimScribble(w, g, start, v, None, locks, LoadMem(width, signed, k, t));
  }

  /** After the flush the scratch entry is gone or still stands for the scratch register. */
  lemma FlushedScratch(w: World, g: Gen, start: Host, v: seq<Word>, a: nat, b: nat, c: nat, k: nat, m: nat)
    requires Sim(w, g, start, v, None, multiset{a} + multiset{b} + multiset{c}) && Live(g, k, m, Unknown)
    ensures var g' := FlushCallerSave(Unlock3(g, a, b, c), w.callerRegs);
            && Sim(w, g', start, v, None, multiset{})
            && CallSafe(w, g'.es) && k < |g'.es| && (g'.es[k].live ==> g'.es[k].mips == m)
            && Quiet(Now(w, g, start), Now(w, g', start)) && Now(w, g', start).r == Now(w, g, start).r
  {
    hide Sim, Unlock, FlushCallerSave;
    UnlockThree(w, g, start, v, None, a, b, c);
    UnlockFrame(g, a);
    UnlockFrame(Unlock(g, a), b);
    UnlockFrame(Unlock(Unlock(g, a), b), c);
    SimFlushCallerSave(w, Unlock3(g, a, b, c), start, v, w.callerRegs);
    assert g.es[k].(locks := 0).live && g.es[k].(locks := 0).mips == m;
  }

  /** Up to the access: the address in t, the destination claimed in k. */
  lemma SimFetchSetup(w: World, g: Gen, start: Host, v: seq<Word>, rs: nat, imm: Word)
    requires Sim(w, g, start, v, None, multiset{}) && |v| == 33 && rs <= 31
    ensures var g1 := Load(g, rs, Unknown); var t := JitReg(g1, SCRATCH_REGISTER0);
            var g2 := Address(Modify(g1, SCRATCH_REGISTER0), t, JitReg(g, rs), imm);
            var k := JitReg(g2, SCRATCH_REGISTER1); var g3 := Modify(g2, SCRATCH_REGISTER1);
            && Sim(w, g3, start, v, None, multiset{rs} + multiset{SCRATCH_REGISTER0} + multiset{SCRATCH_REGISTER1})
            && Live(g3, k, SCRATCH_REGISTER1, Unknown)
            && t < |Now(w, g3, start).r| && Now(w, g3, start).r[t] == (v[rs] + imm) % 4096
            && Quiet(Now(w, g, start), Now(w, g3, start))
  {
    hide Sim, Load, Modify, Quiet, Pick, Low, TagOk, Address;
    var S0, S1 := SCRATCH_REGISTER0, SCRATCH_REGISTER1;
    var g1 := Load(g, rs, Unknown);
    Load1(w, g, start, v, rs, Unknown);
    Modify1(w, g1, start, v, multiset{rs}, S0, rs, rs);
    var g2 := Modify(g1, S0);
    QuietChain(Now(w, g, start), Now(w, g1, start), Now(w, g2, start));
    var t := JitReg(g1, S0);
    SimAddress(w, g2, start, v, multiset{rs} + multiset{S0}, t, JitReg(g, rs), v[rs], imm);
    var g3 := Address(g2, t, JitReg(g, rs), imm);
    QuietSet(Now(w, g2, start), t, (v[rs] + imm) % 4096);
    QuietChain(Now(w, g, start), Now(w, g2, start), Now(w, g3, start));
    Modify1(w, g3, start, v, multiset{rs} + multiset{S0}, S1, rs, S0);
    QuietChain(Now(w, g, start), Now(w, g3, start), Now(w, Modify(g3, S1), start));
  }

  lemma SimFetch(w: World, g: Gen, start: Host, v: seq<Word>, width: Width, signed: bool, rs: nat, imm: Word)
    requires Sim(w, g, start, v, None, multiset{}) && |v| == 33 && rs <= 31
    ensures var g' := Fetch(g, w.callerRegs, width, signed, rs, imm);
            && Sim(w, g', start, v, None, multiset{})
            && Quiet(Now(w, g, start), Now(w, g', start))
            && Get(Now(w, g', start), FetchReg(g, rs, imm)) == SExt(LoadBytes(width, signed, Now(w, g, start).cpu.dmem, (v[rs] + imm) % 4096))
  {
    hide Sim, Load, Modify, Pick, Address, Unlock3, FlushCallerSave, LoadBytes;
    var S0, S1 := SCRATCH_REGISTER0, SCRATCH_REGISTER1;
    var g1 := Load(g, rs, Unknown);
    var t := JitReg(g1, S0);
    var g2 := Address(Modify(g1, S0), t, JitReg(g, rs), imm);
    var k := JitReg(g2, S1);
    var g3 := Modify(g2, S1);
    SimFetchSetup(w, g, start, v, rs, imm);
    var a := (v[rs] + imm) % 4096;
    var locks := multiset{rs} + multiset{S0} + multiset{S1};
    if width.Byte1? {
      SimFetchAccess(w, g3, start, v, locks, width, signed, k, t, a);
      UnlockThree(w, Emit(g3, LoadMem(width, signed, k, t)), start, v, None, rs, S0, S1);
    } else {
      FlushedScratch(w, g3, start, v, rs, S0, S1, k, S1);
      var g4 := FlushCallerSave(Unlock3(g3, rs, S0, S1), w.callerRegs);
      SimFetchAccess(w, g4, start, v, multiset{}, width, signed, k, t, a);
    }
  }

  lemma SimLoadValue(w: World, g: Gen, start: Host, v: seq<Word>, width: Width, signed: bool, rt: nat, rs: nat, imm: Word)
    requires Sim(w, g, start, v, None, multiset{}) && |v| == 33 && 1 <= rt <= 31 && rs <= 31
    ensures var g' := LoadValue(g, w.callerRegs, width, signed, rt, rs, imm);
            var x := LoadBytes(width, signed, Now(w, g, start).cpu.dmem, (v[rs] + imm) % 4096);
            Sim(w, g', start, v[rt := x], None, multiset{}) && Quiet(Now(w, g, start), Now(w, g', start))
  {
    hide Sim, Modify, Pick, Unlock, Fetch, FetchReg, LoadBytes, Quiet, Low;
    SimFetch(w, g, start, v, width, signed, rs, imm);
    var g1 := Fetch(g, w.callerRegs, width, signed, rs, imm);
    Modify1(w, g1, start, v, multiset{}, rt, 0, 0);
    assert multiset{} + multiset{rt} == multiset{rt};
    var g2 := Modify(g1, rt);
    QuietChain(Now(w, g, start), Now(w, g1, start), Now(w, g2, start));
    var x := LoadBytes(width, signed, Now(w, g, start).cpu.dmem, (v[rs] + imm) % 4096);
    LowOfExt(x);
    var o := MovR(JitReg(g1, rt), FetchReg(g, rs, imm));
    SimWrite(w, g2, start, v, multiset{rt}, JitReg(g1, rt), rt, o, SExt(x), rt);
    QuietSet(Now(w, g2, start), JitReg(g1, rt), SExt(x));
    QuietChain(Now(w, g, start), Now(w, g2, start), Now(w, Emit(g2, o), start));
    UnlockOne(w, Emit(g2, o), start, v[rt := x], rt);
  }

  /** Only data memory changed, to dmem. */
  predicate QuietButDmem(a: Host, b: Host, dmem: Dmem) {
    b.cpu.dmem == dmem && Quiet(a.(cpu := a.cpu.(dmem := dmem)), b)
  }

  lemma StoreEffect(w: World, h: Host, width: Width, t: nat, k: nat, a: nat, x: Word)
    requires a < 4096 && Get(h, t) == a && Low(Get(h, k)) == x
    ensures var h' := Do(w, StoreMem(width, t, k), h);
            && QuietButDmem(h, h', StoreBytes(width, h.cpu.dmem, a, x)) && h'.cpu.sr == h.cpu.sr
            && forall i | 0 <= i < |h.r| && (width.Byte1? || i >= w.callerRegs) :: h'.r[i] == h.r[i]
  {
    hide StoreInline, StoreBytes, Low;
    if Aligned(width, a) { InlineStoreExact(width, h.cpu.dmem, a, x); }
  }

  lemma SimStoreAccess(w: World, g: Gen, start: Host, v: seq<Word>, locks: multiset<nat>, width: Width, t: nat, k: nat, a: nat, x: Word)
    requires Sim(w, g, start, v, None, locks) && (width.Byte1? || CallSafe(w, g.es))
    requires a < 4096 && Get(Now(w, g, start), t) == a && Low(Get(Now(w, g, start), k)) == x
    ensures var g' := Emit(g, StoreMem(width, t, k));
            && Sim(w, g', start, v, None, locks)
            && QuietButDmem(Now(w, g, start), Now(w, g', start), StoreBytes(width, Now(w, g, start).cpu.dmem, a, x))
  {
    assert |Now(w, g, start).r| == |g.es|;
    hide Sim, Do, StoreBytes, Low, Get;
    StoreEffect(w, Now(w, g, start), width, t, k, a, x);
    SimScribble(w, g, start, v, None, locks, StoreMem(width, t, k));
  }

  lemma SimStoreOperands(w: World, g: Gen, start: Host, v: seq<Word>, rt: nat, rs: nat)
    requires Sim(w, g, start, v, None, multiset{}) && |v| == 33 && rs <= 31 && rt <= 31
    ensures var g1 := Load(g, rt, Unknown); var g2 := Load(g1, rs, Unknown);
            var t := JitReg(g2, SCRATCH_REGISTER0); var g3 := Modify(g2, SCRATCH_REGISTER0);
            && Sim(w, g3, start, v, None, multiset{rt} + multiset{rs} + multiset{SCRATCH_REGISTER0})
            && Live(g3, t, SCRATCH_REGISTER0, Unknown) && t != JitReg(g, rt)
            && ValueOk(Now(w, g3, start), JitReg(g, rt), v[rt], Unknown)
            && ValueOk(Now(w, g3, start), JitReg(g1, rs), v[rs], Unknown)
            && Quiet(Now(w, g, start), Now(w, g3, start))
  {
    hide Sim, Load, Modify, Quiet, Pick, Low;
    var S := SCRATCH_REGISTER0;
    var g1 := Load(g, rt, Unknown);
    Load1(w, g, start, v, rt, Unknown);
    var g2 := Load(g1, rs, Unknown);
    Load2(w, g1, start, v, rt, JitReg(g, rt), Unknown, v[rt], rs, Unknown);
    LoadKeeps(w, g1, start, v, rt, JitReg(g, rt), rs, Unknown);
    QuietChain(Now(w, g, start), Now(w, g1, start), Now(w, g2, start));
    Modify1(w, g2, start, v, multiset{rt} + multiset{rs}, S, rt, rs);
    ModifyKeeps(w, g2, start, v, multiset{rt} + multiset{rs}, S, rt, rs, rt, JitReg(g, rt));
    QuietChain(Now(w, g, start), Now(w, g2, start), Now(w, Modify(g2, S), start));
  }

  lemma SimStoreValue(w: World, g: Gen, start: Host, v: seq<Word>, width: Width, rt: nat, rs: nat, imm: Word)
    requires Sim(w, g, start, v, None, multiset{}) && |v| == 33 && rt <= 31 && rs <= 31
    ensures var g' := StoreValue(g, w.callerRegs, width, rt, rs, imm);
            && Sim(w, g', start, v, None, multiset{})
            && QuietButDmem(Now(w, g, start), Now(w, g', start),
                 StoreBytes(width, Now(w, g, start).cpu.dmem, (v[rs] + imm) % 4096, v[rt]))
  {
    hide Sim, Load, Modify, Pick, Address, Unlock3, FlushCallerSave, StoreBytes, Low;
    var S := SCRATCH_REGISTER0;
    var g1 := Load(g, rt, Unknown);
    var g2 := Load(g1, rs, Unknown);
    var t := JitReg(g2, S);
    var g3 := Address(Modify(g2, S), t, JitReg(g1, rs), imm);
    StoreAddress(w, g, start, v, rt, rs, imm);
    var a, g' := (v[rs] + imm) % 4096, StoreValue(g, w.callerRegs, width, rt, rs, imm);
    assert g' == if width.Byte1? then Unlock3(Emit(g3, StoreMem(width, t, JitReg(g, rt))), rt, rs, S)
                 else Emit(FlushCallerSave(Unlock3(g3, rt, rs, S), w.callerRegs), StoreMem(width, t, JitReg(g, rt)));
    hide QuietButDmem, Quiet, Live, ValueOk, StoreValue, Get, Emit;
    StoreFrom(w, g3, start, v, width, rt, rs, t, JitReg(g, rt), a);
    QuietThenDmem(Now(w, g, start), Now(w, g3, start), Now(w, g', start), width, a, v[rt]);
  }

  lemma StoreAddress(w: World, g: Gen, start: Host, v: seq<Word>, rt: nat, rs: nat, imm: Word)
    requires Sim(w, g, start, v, None, multiset{}) && |v| == 33 && rt <= 31 && rs <= 31
    ensures var g1 := Load(g, rt, Unknown); var g2 := Load(g1, rs, Unknown); var t := JitReg(g2, SCRATCH_REGISTER0);
            var g3 := Address(Modify(g2, SCRATCH_REGISTER0), t, JitReg(g1, rs), imm);
            && Sim(w, g3, start, v, None, multiset{rt} + multiset{rs} + multiset{SCRATCH_REGISTER0})
            && Live(g3, t, SCRATCH_REGISTER0, Unknown) && Get(Now(w, g3, start), t) == (v[rs] + imm) % 4096
            && ValueOk(Now(w, g3, start), JitReg(g, rt), v[rt], Unknown) && Quiet(Now(w, g, start), Now(w, g3, start))
  {
    hide Sim, Load, Modify, Pick, Address, Quiet, Live, ValueOk, Low;
    var S := SCRATCH_REGISTER0;
    var g1 := Load(g, rt, Unknown);
    var g2 := Load(g1, rs, Unknown);
    var t := JitReg(g2, S);
    SimStoreOperands(w, g, start, v, rt, rs);
    AddressKeeps(w, Modify(g2, S), start, v, multiset{rt} + multiset{rs} + multiset{S}, t, JitReg(g1, rs), v[rs], imm, JitReg(g, rt), v[rt]);
    QuietChain(Now(w, g, start), Now(w, Modify(g2, S), start), Now(w, Address(Modify(g2, S), t, JitReg(g1, rs), imm), start));
  }

  lemma QuietThenDmem(a: Host, b: Host, c: Host, width: Width, at: nat, x: Word)
    requires Quiet(a, b) && QuietButDmem(b, c, StoreBytes(width, b.cpu.dmem, at, x))
    ensures QuietButDmem(a, c, StoreBytes(width, a.cpu.dmem, at, x))
  {
    hide StoreBytes;
  }

  /** With the address and the value at hand: the access, inline or out of line. */
  lemma StoreFrom(w: World, g: Gen, start: Host, v: seq<Word>, width: Width, rt: nat, rs: nat, t: nat, k: nat, a: nat)
    requires Sim(w, g, start, v, None, multiset{rt} + multiset{rs} + multiset{SCRATCH_REGISTER0}) && rt < |v| && a < 4096
    requires Live(g, t, SCRATCH_REGISTER0, Unknown) && Get(Now(w, g, start), t) == a && ValueOk(Now(w, g, start), k, v[rt], Unknown)
    ensures var g' := if width.Byte1? then Unlock3(Emit(g, StoreMem(width, t, k)), rt, rs, SCRATCH_REGISTER0)
                      else Emit(FlushCallerSave(Unlock3(g, rt, rs, SCRATCH_REGISTER0), w.callerRegs), StoreMem(width, t, k));
            && Sim(w, g', start, v, None, multiset{})
            && QuietButDmem(Now(w, g, start), Now(w, g', start), StoreBytes(width, Now(w, g, start).cpu.dmem, a, v[rt]))
  {
    hide Sim, Unlock3, FlushCallerSave, StoreBytes, Low;
    var S := SCRATCH_REGISTER0;
    if width.Byte1? {
      SimStoreAccess(w, g, start, v, multiset{rt} + multiset{rs} + multiset{S}, width, t, k, a, v[rt]);
      UnlockThree(w, Emit(g, StoreMem(width, t, k)), start, v, None, rt, rs, S);
    } else {
      FlushedScratch(w, g, start, v, rt, rs, S, t, S);
      var g4 := FlushCallerSave(Unlock3(g, rt, rs, S), w.callerRegs);
      SimStoreAccess(w, g4, start, v, multiset{}, width, t, k, a, v[rt]);
    }
  }

  // ---------------------------------------------------------------- calls

  /** A call wrote x to register dst in memory, unless dst is 0, and spared the live host registers. */
  predicate Written(h: Host, h': Host, dst: nat, x: Word) {
    h'.cpu.sr == if 0 < dst < |h.cpu.sr| then h.cpu.sr[dst := x] else h.cpu.sr
  }

  lemma CallGood(es: seq<Entry>, h: Host, h': Host, v: seq<Word>, dst: nat, x: Word)
    requires Good(es, h, v, None, multiset{}) && dst <= 31 && (dst == 0 || Absent(es, dst))
    requires Written(h, h', dst, x) && |h'.r| == |h.r|
    requires forall i | 0 <= i < |es| && i < |h.r| && es[i].live :: h'.r[i] == h.r[i]
    ensures |v| == 33 && Good(es, h', if dst == 0 then v else v[dst := x], None, multiset{})
  {
    var v' := if dst == 0 then v else v[dst := x];
    forall i | 0 <= i < |es| && es[i].live ensures EntryOk(es[i], h'.r[i], h'.cpu.sr, v', None) {
      assert EntryOk(es[i], h.r[i], h.cpu.sr, v, None);
      if dst != 0 { assert !Holds(es[i], dst); }
    }
  }

  lemma SimCall(w: World, g: Gen, start: Host, v: seq<Word>, code: Word, src: nat, dst: nat)
    requires Sim(w, g, start, v, None, multiset{}) && |v| == 33 && src <= 31 && dst <= 31
    requires CallSafe(w, g.es) && (src == 0 || Absent(g.es, src)) && (dst == 0 || Absent(g.es, dst))
    ensures var h, h' := Now(w, g, start), Now(w, Emit(g, CallOut(code, src, dst)), start);
            var out := w.call(code, v[src], h.cpu.dmem, h.cpu.cop);
            && Sim(w, Emit(g, CallOut(code, src, dst)), start, if dst == 0 then v else v[dst := out.value], None, multiset{})
            && Quiet(h.(cpu := h.cpu.(dmem := out.dmem, cop := out.cop), mode := out.mode), h')
  {
    var h := Now(w, g, start);
    assert Sr(h.cpu, src) == v[src];
    assert |h.r| == |g.es| && |h.cpu.sr| == 33;
    var out := w.call(code, v[src], h.cpu.dmem, h.cpu.cop);
    EmitNow(w, g, CallOut(code, src, dst), start);
    var h' := Do(w, CallOut(code, src, dst), h);
    hide Rep, Locked;
    CallGood(g.es, h, h', v, dst, out.value);
  }

  // ---------------------------------------------------------------- whole instructions

  /** The branch condition an instruction leaves in COND_BRANCH_TAKEN. */
  function CondAfter(i: Isa.Instr, regs: seq<Word>, nextIsEntry: bool, c: Word): Word {
    match i
    case BranchEq(op, rs, rt, _) => Alu32(op, Isa.Reg(regs, rs), Isa.Reg(regs, rt))
    case BranchZero(op, rs, _, _) => Alu32(op, Isa.Reg(regs, rs), 0)
    case Jump(_, _) => Taken1(nextIsEntry)
    case JumpReg(_, _) => Taken1(nextIsEntry)
    case _ => c
  }

  /** The register file as the cache sees it: the 32 registers and the branch condition. */
  function File(regs: seq<Word>, c: Word): seq<Word> {
    regs + [c]
  }

  /** Before an instruction: host state h represents the architectural state a. */
  ghost predicate Before(w: World, g: Gen, start: Host, a: Isa.Arch, c: Word) {
    && Sim(w, g, start, File(a.regs, c), None, multiset{}) && |a.regs| == 32
    && Now(w, g, start).cpu.dmem == a.dmem && Now(w, g, start).cpu.cop == a.cop
  }

  /** After its body: the effect has been applied, the branch not yet taken. */
  ghost predicate After(w: World, g: Gen, start: Host, h: Host, i: Isa.Instr, a: Isa.Arch, e: Isa.Effect, c: Word) {
    var h' := Now(w, g, start);
    && Sim(w, g, start, File(e.regs, c), None, multiset{}) && |e.regs| == 32
    && h'.cpu.dmem == e.dmem && h'.cpu.cop == e.cop && |h'.r| == |h.r|
    && h'.cpu.hasDelay == h.cpu.hasDelay && h'.cpu.target == h.cpu.target
    && (if i.JumpReg? then Low(h'.ind) == Isa.Reg(a.regs, i.rs) else h'.ind == h.ind)
    && (i.System? ==> h'.mode == e.mode)
  }

  lemma FileSet(regs: seq<Word>, c: Word, d: nat, x: Word)
    requires |regs| == 32 && 1 <= d <= 31
    ensures File(regs, c)[d := x] == File(Isa.SetReg(regs, d, x), c)
    ensures |Isa.SetReg(regs, d, x)| == 32
  {
  }

  lemma FileCond(regs: seq<Word>, c: Word, x: Word)
    requires |regs| == 32
    ensures File(regs, c)[32 := x] == File(regs, x)
  {
  }

  lemma FileRead(regs: seq<Word>, c: Word, m: nat)
    requires |regs| == 32 && m <= 31
    ensures File(regs, c)[m] == Isa.Reg(regs, m)
  {
  }

  lemma FileSize(regs: seq<Word>, c: Word)
    requires |regs| == 32
    ensures |File(regs, c)| == 33
  {
  }

  lemma ImmExt(imm: Word)
    ensures TagOk(SExtended, SExt(imm)) && Low(SExt(imm)) == imm
  {
  }

  /** Register d has received x and nothing else happened. */
  lemma AfterWrite(w: World, g: Gen, start: Host, h: Host, i: Isa.Instr, a: Isa.Arch, c: Word, d: nat, x: Word)
    requires |a.regs| == 32 && 1 <= d <= 31 && |File(a.regs, c)| == 33 && !i.JumpReg? && !i.System?
    requires Sim(w, g, start, File(a.regs, c)[d := x], None, multiset{}) && Quiet(h, Now(w, g, start))
    requires h.cpu.dmem == a.dmem && h.cpu.cop == a.cop
    ensures After(w, g, start, h, i, a, Isa.Effect(Isa.SetReg(a.regs, d, x), a.dmem, a.cop, Isa.None, Isa.MODE_CONTINUE), c)
  {
    FileSet(a.regs, c, d, x);
    hide Sim, File;
  }

  lemma BodyRegisters(w: World, g: Gen, start: Host, i: Isa.Instr, a: Isa.Arch, c: Word, nextIsEntry: bool)
    requires Before(w, g, start, a, c) && Isa.Valid(i) && (i.Alu3? || i.Nor? || i.ShiftV?)
    ensures After(w, Body(g, w.callerRegs, i, a.pc, nextIsEntry), start, Now(w, g, start), i, a, Isa.Do1(w, i, a), c)
  {
    hide Sim, Binary, NotOr, VariableShift, Alu32, Needs, File, After, Quiet, Run, Bitwise32, Isa.Reg;
    var v, h := File(a.regs, c), Now(w, g, start);
    FileSize(a.regs, c);
    FileRead(a.regs, c, i.rs);
    FileRead(a.regs, c, i.rt);
    match i
    case Alu3(op, rd, rs, rt) =>
      SimBinary(w, g, start, v, op, rd, rs, rt, Needs(op));
      AfterWrite(w, Binary(g, op, rd, rs, rt, Needs(op)), start, h, i, a, c, rd, Alu32(op, v[rs], v[rt]));
    case Nor(rd, rs, rt) =>
      SimNotOr(w, g, start, v, rd, rs, rt);
      AfterWrite(w, NotOr(g, rd, rs, rt), start, h, i, a, c, rd, Isa.Invert(Bitwise32(Or, v[rs], v[rt])));
    case ShiftV(op, rd, rt, rs) =>
      SimVariableShift(w, g, start, v, op, rd, rt, rs);
      AfterWrite(w, VariableShift(g, op, rd, rt, rs), start, h, i, a, c, rd, Alu32(op, v[rt], v[rs] % 32));
  }

  lemma BodyImmediates(w: World, g: Gen, start: Host, i: Isa.Instr, a: Isa.Arch, c: Word, nextIsEntry: bool)
    requires Before(w, g, start, a, c) && Isa.Valid(i) && (i.ShiftI? || i.AluImm? || i.LoadImm?)
    ensures After(w, Body(g, w.callerRegs, i, a.pc, nextIsEntry), start, Now(w, g, start), i, a, Isa.Do1(w, i, a), c)
  {
    hide Sim, Unary, Constant, Alu32, File, After, Quiet, Run, Isa.Reg, Low, SExt;
    var v, h := File(a.regs, c), Now(w, g, start);
    FileSize(a.regs, c);
    match i
    case ShiftI(op, rd, rt, amount) =>
      FileRead(a.regs, c, rt);
      LowSmall(amount);
      SimUnary(w, g, start, v, op, rd, rt, amount % TWO_32, Needs(op));
      AfterWrite(w, Unary(g, op, rd, rt, amount % TWO_32, Needs(op)), start, h, i, a, c, rd, Alu32(op, v[rt], amount % TWO_32));
    case AluImm(op, rt, rs, imm) =>
      FileRead(a.regs, c, rs);
      ImmExt(imm);
      var ext := if op.Lt? || op.Ltu? then SExtended else Unknown;
      SimUnary(w, g, start, v, op, rt, rs, SExt(imm), ext);
      AfterWrite(w, Unary(g, op, rt, rs, SExt(imm), ext), start, h, i, a, c, rt, Alu32(op, v[rs], imm));
    case LoadImm(rt, imm) =>
      SimConstant(w, g, start, v, rt, imm);
      AfterWrite(w, Constant(g, rt, imm), start, h, i, a, c, rt, imm);
  }

  lemma LowSmall(x: nat)
    requires x <= 31
    ensures Low(x % TWO_32) == x % TWO_32
  {
  }

  lemma AfterSame(w: World, g: Gen, start: Host, h: Host, i: Isa.Instr, a: Isa.Arch, e: Isa.Effect, c: Word)
    requires Sim(w, g, start, File(e.regs, c), None, multiset{}) && |e.regs| == 32 && !i.JumpReg? && !i.System?
    requires QuietButDmem(h, Now(w, g, start), e.dmem) && h.cpu.cop == e.cop
    ensures After(w, g, start, h, i, a, e, c)
  {
  }

  lemma BodyLoad(w: World, g: Gen, start: Host, i: Isa.Instr, a: Isa.Arch, c: Word, nextIsEntry: bool)
    requires Before(w, g, start, a, c) && Isa.Valid(i) && i.Load?
    ensures After(w, Body(g, w.callerRegs, i, a.pc, nextIsEntry), start, Now(w, g, start), i, a, Isa.Do1(w, i, a), c)
  {
    hide Sim, LoadBytes, LoadValue, After, File, Run;
    var v, h, e := File(a.regs, c), Now(w, g, start), Isa.Do1(w, i, a);
    var g' := Body(g, w.callerRegs, i, a.pc, nextIsEntry);
    FileSize(a.regs, c);
    FileRead(a.regs, c, i.rs);
    var x := LoadBytes(i.width, i.signed, a.dmem, (v[i.rs] + i.imm) % 4096);
    assert e.regs == Isa.SetReg(a.regs, i.rt, x) && e.dmem == a.dmem && e.cop == a.cop;
    assert g' == LoadValue(g, w.callerRegs, i.width, i.signed, i.rt, i.rs, i.imm);
    hide Body, Isa.Do1;
    SimLoadValue(w, g, start, v, i.width, i.signed, i.rt, i.rs, i.imm);
    FileSet(a.regs, c, i.rt, x);
    AfterSame(w, g', start, h, i, a, e, c);
  }

  lemma BodyStore(w: World, g: Gen, start: Host, i: Isa.Instr, a: Isa.Arch, c: Word, nextIsEntry: bool)
    requires Before(w, g, start, a, c) && Isa.Valid(i) && i.Store?
    ensures After(w, Body(g, w.callerRegs, i, a.pc, nextIsEntry), start, Now(w, g, start), i, a, Isa.Do1(w, i, a), c)
  {
    hide Sim, StoreBytes, StoreValue, After, File, Run;
    var v, h, e := File(a.regs, c), Now(w, g, start), Isa.Do1(w, i, a);
    var g' := Body(g, w.callerRegs, i, a.pc, nextIsEntry);
    FileSize(a.regs, c);
    FileRead(a.regs, c, i.rs);
    FileRead(a.regs, c, i.rt);
    assert e.regs == a.regs && e.cop == a.cop && e.dmem == StoreBytes(i.width, a.dmem, (v[i.rs] + i.imm) % 4096, v[i.rt]);
    assert g' == StoreValue(g, w.callerRegs, i.width, i.rt, i.rs, i.imm);
    hide Body, Isa.Do1;
    SimStoreValue(w, g, start, v, i.width, i.rt, i.rs, i.imm);
    AfterSame(w, g', start, h, i, a, e, c);
  }

  // ---------------------------------------------------------------- calls

  lemma WindowCallSafe(w: World, g: Gen, start: Host, v: seq<Word>)
    requires Sim(w, g, start, v, None, multiset{})
    ensures var g' := FlushWindow(g);
            && Sim(w, g', start, v, None, multiset{}) && CallSafe(w, g'.es)
            && (forall m :: Absent(g'.es, m))
            && Quiet(Now(w, g, start), Now(w, g', start))
  {
    hide Sim, FlushWindow;
    SimFlushWindow(w, g, start, v);
  }

  lemma OperandCallSafe(w: World, g: Gen, start: Host, v: seq<Word>, reg: nat)
    requires Sim(w, g, start, v, None, multiset{}) && reg <= 31 && |v| == 33
    ensures var g' := FlushOne(FlushCallerSave(g, w.callerRegs), reg);
            && Sim(w, g', start, v, None, multiset{}) && CallSafe(w, g'.es) && Absent(g'.es, reg)
            && Quiet(Now(w, g, start), Now(w, g', start))
  {
    hide Sim, FlushCallerSave, FlushOne, Absent;
    SimFlushCallerSave(w, g, start, v, w.callerRegs);
    var g1 := FlushCallerSave(g, w.callerRegs);
    SimFlushOne(w, g1, start, v, reg);
  }

  lemma VectorCallSafe(w: World, g: Gen, start: Host, v: seq<Word>)
    requires Sim(w, g, start, v, None, multiset{})
    ensures var g' := FlushCallerSave(g, w.callerRegs);
            && Sim(w, g', start, v, None, multiset{}) && CallSafe(w, g'.es)
            && Quiet(Now(w, g, start), Now(w, g', start))
  {
    hide Sim, FlushCallerSave;
    SimFlushCallerSave(w, g, start, v, w.callerRegs);
  }

  lemma FileWrite(regs: seq<Word>, c: Word, dst: nat, x: Word)
    requires |regs| == 32 && dst <= 31
    ensures |File(regs, c)| == 33
    ensures (if dst == 0 then File(regs, c) else File(regs, c)[dst := x]) == File(Isa.SetReg(regs, dst, x), c)
    ensures |Isa.SetReg(regs, dst, x)| == 32
  {
  }

  lemma BodyCall(w: World, g: Gen, start: Host, i: Isa.Instr, a: Isa.Arch, c: Word, nextIsEntry: bool)
    requires Before(w, g, start, a, c) && Isa.Valid(i) && (i.System? || i.Coproc? || i.Vector?)
    requires Isa.Reg(a.regs, 0) == 0
    ensures After(w, Body(g, w.callerRegs, i, a.pc, nextIsEntry), start, Now(w, g, start), i, a, Isa.Do1(w, i, a), c)
  {
    var v := File(a.regs, c);
    FileSize(a.regs, c);
    FileRead(a.regs, c, 0);
    hide Sim, File, FlushWindow, FlushCallerSave, FlushOne, Absent;
    match i
    case System(code, src, dst) =>
      WindowCallSafe(w, g, start, v);
      SimCall(w, FlushWindow(g), start, v, code, src, dst);
      FileRead(a.regs, c, src);
      FileWrite(a.regs, c, dst, w.call(code, v[src], a.dmem, a.cop).value);
    case Coproc(code, reg, writes) =>
      OperandCallSafe(w, g, start, v, reg);
      var src, dst := if writes then 0 else reg, if writes then reg else 0;
      SimCall(w, FlushOne(FlushCallerSave(g, w.callerRegs), reg), start, v, code, src, dst);
      FileRead(a.regs, c, src);
      FileWrite(a.regs, c, dst, w.call(code, v[src], a.dmem, a.cop).value);
    case Vector(code) =>
      VectorCallSafe(w, g, start, v);
      SimCall(w, FlushCallerSave(g, w.callerRegs), start, v, code, 0, 0);
  }

  // ---------------------------------------------------------------- branches

  lemma BodyTest(w: World, g: Gen, start: Host, i: Isa.Instr, a: Isa.Arch, c: Word, nextIsEntry: bool)
    requires Before(w, g, start, a, c) && Isa.Valid(i) && (i.BranchEq? || i.BranchZero?)
    ensures After(w, Body(g, w.callerRegs, i, a.pc, nextIsEntry), start, Now(w, g, start), i, a, Isa.Do1(w, i, a),
              CondAfter(i, a.regs, nextIsEntry, c))
  {
    var v := File(a.regs, c);
    FileSize(a.regs, c);
    FileRead(a.regs, c, i.rs);
    hide Sim, Binary, Unary, Constant, Alu32, File, Isa.LinkValue;
    match i
    case BranchEq(op, rs, rt, _) =>
      FileRead(a.regs, c, rt);
      SimBinary(w, g, start, v, op, 32, rs, rt, SExtended);
      FileCond(a.regs, c, Alu32(op, v[rs], v[rt]));
    case BranchZero(op, rs, link, _) =>
      LowSmall(0);
      ZeroTag();
      var x := Alu32(op, v[rs], 0);
      SimUnary(w, g, start, v, op, 32, rs, 0, SExtended);
      FileCond(a.regs, c, x);
      if link {
        FileSize(a.regs, x);
        SimConstant(w, Unary(g, op, 32, rs, 0, SExtended), start, File(a.regs, x), 31, Isa.LinkValue(a.pc));
        FileSet(a.regs, x, 31, Isa.LinkValue(a.pc));
      }
  }

  lemma ZeroTag()
    ensures TagOk(SExtended, 0)
  {
  }

  lemma BodyJump(w: World, g: Gen, start: Host, i: Isa.Instr, a: Isa.Arch, c: Word, nextIsEntry: bool)
    requires Before(w, g, start, a, c) && i.Jump?
    ensures After(w, Body(g, w.callerRegs, i, a.pc, nextIsEntry), start, Now(w, g, start), i, a, Isa.Do1(w, i, a),
              CondAfter(i, a.regs, nextIsEntry, c))
  {
    var v, x, t := File(a.regs, c), Isa.LinkValue(a.pc), Taken1(nextIsEntry);
    FileSize(a.regs, c);
    FileSet(a.regs, c, 31, x);
    FileCond(Isa.SetReg(a.regs, 31, x), c, t);
    FileCond(a.regs, c, t);
    hide Sim, Constant, JumpAndLink, File, Isa.LinkValue;
    if i.link {
      SimJumpAndLink(w, g, start, v, a.pc, nextIsEntry, v[31 := x][32 := t]);
    } else {
      SimConstant(w, g, start, v, 32, t);
    }
  }

  lemma BodyJumpReg(w: World, g: Gen, start: Host, i: Isa.Instr, a: Isa.Arch, c: Word, nextIsEntry: bool)
    requires Before(w, g, start, a, c) && i.JumpReg? && Isa.Valid(i)
    ensures After(w, Body(g, w.callerRegs, i, a.pc, nextIsEntry), start, Now(w, g, start), i, a, Isa.Do1(w, i, a),
              CondAfter(i, a.regs, nextIsEntry, c))
  {
    var v, x, t := File(a.regs, c), Isa.LinkValue(a.pc), Taken1(nextIsEntry);
    FileSize(a.regs, c);
    FileRead(a.regs, c, i.rs);
    FileWrite(a.regs, c, i.dest, x);
    var regs := Isa.SetReg(a.regs, i.dest, x);
    FileCond(regs, c, t);
    FileSize(regs, c);
    hide Sim, Constant, SaveTarget, File, Isa.LinkValue, Isa.SetReg, Low;
    var g1 := SaveTarget(g, i.rs);
    SimSaveTarget(w, g, start, v, i.rs);
    if i.dest != 0 { SimConstant(w, g1, start, v, i.dest, x); }
    var g2 := if i.dest != 0 then Constant(g1, i.dest, x) else g1;
    SimConstant(w, g2, start, File(regs, c), 32, t);
  }

  /** The body of any instruction does exactly what the reference interpreter does to registers,
      memory and coprocessors, and records the branch decision. */
  lemma BodySim(w: World, g: Gen, start: Host, i: Isa.Instr, a: Isa.Arch, c: Word, nextIsEntry: bool)
    requires Before(w, g, start, a, c) && Isa.Valid(i) && Isa.Reg(a.regs, 0) == 0
    ensures After(w, Body(g, w.callerRegs, i, a.pc, nextIsEntry), start, Now(w, g, start), i, a, Isa.Do1(w, i, a),
              CondAfter(i, a.regs, nextIsEntry, c))
  {
    hide Before, After, Body, Isa.Do1, Isa.Reg, Alu32;
    match i
    case Nop => BodyIdle(w, g, start, i, a, c, nextIsEntry);
    case Always(_) => BodyIdle(w, g, start, i, a, c, nextIsEntry);
    case Break => BodyIdle(w, g, start, i, a, c, nextIsEntry);
    case Load(_, _, _, _, _) => BodyLoad(w, g, start, i, a, c, nextIsEntry);
    case Store(_, _, _, _) => BodyStore(w, g, start, i, a, c, nextIsEntry);
    case System(_, _, _) => BodyCall(w, g, start, i, a, c, nextIsEntry);
    case Coproc(_, _, _) => BodyCall(w, g, start, i, a, c, nextIsEntry);
    case Vector(_) => BodyCall(w, g, start, i, a, c, nextIsEntry);
    case BranchEq(_, _, _, _) => BodyTest(w, g, start, i, a, c, nextIsEntry);
    case BranchZero(_, _, _, _) => BodyTest(w, g, start, i, a, c, nextIsEntry);
    case Jump(_, _) => BodyJump(w, g, start, i, a, c, nextIsEntry);
    case JumpReg(_, _) => BodyJumpReg(w, g, start, i, a, c, nextIsEntry);
    case Alu3(_, _, _, _) => BodyRegisters(w, g, start, i, a, c, nextIsEntry);
    case Nor(_, _, _) => BodyRegisters(w, g, start, i, a, c, nextIsEntry);
    case ShiftV(_, _, _, _) => BodyRegisters(w, g, start, i, a, c, nextIsEntry);
    case _ => BodyImmediates(w, g, start, i, a, c, nextIsEntry);
  }

  lemma BodyIdle(w: World, g: Gen, start: Host, i: Isa.Instr, a: Isa.Arch, c: Word, nextIsEntry: bool)
    requires Before(w, g, start, a, c) && (i.Nop? || i.Always? || i.Break?)
    ensures After(w, Body(g, w.callerRegs, i, a.pc, nextIsEntry), start, Now(w, g, start), i, a, Isa.Do1(w, i, a),
              CondAfter(i, a.regs, nextIsEntry, c))
  {
    hide Sim, FlushWindow, File;
    if i.Break? { WindowCallSafe(w, g, start, File(a.regs, c)); }
  }
}

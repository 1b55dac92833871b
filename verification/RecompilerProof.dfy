/** Running compiled regions, step by step, against the reference interpreter. */
module RecompilerProof {
  import opened Words
  import opened HostCode
  import opened RegisterCache
  import opened Emitter
  import opened EmitterProof
  import opened StaticEnd
  import opened Region
  import opened RegionProof
  import opened CacheTheorem
  import Isa

  /** The branch CPUState carries across regions. */
  function Carried(h: Host): Isa.Option<nat> {
    if h.cpu.hasDelay != 0 then Isa.Some(Isa.PcOf(h.cpu.target)) else Isa.None
  }

  /** The branch pending after an instruction that left `last`, condition c. */
  function Pend(last: Info, c: Word, host: Host): Isa.Option<nat> {
    if last.branch && (!last.conditional || c != 0) then Isa.Some(TargetOf(last, host)) else Isa.None
  }

  /** An instruction with a branch pending is not a branch itself. */
  predicate InSlot(imem: Isa.Imem, a: Isa.Arch)
    requires a.pc < 1024
  {
    a.pending.Some? ==> !Isa.IsBranch(Isa.Decode(imem[a.pc], a.pc))
  }

  /** Word i of a region is a branch in the delay slot of a branch. */
  predicate Doubled(s: Source, i: nat)
    requires SourceOk(s) && 1 <= i < s.count
  {
    Isa.IsBranch(InstrAt(s, i - 1)) && Isa.IsBranch(InstrAt(s, i))
  }

  /** The region at b holds no such word, and the instruction about to run is not in the slot of a branch
      carried into it. */
  ghost predicate Calm(S: Setup, b: nat, a: Isa.Arch) {
    SetupOk(S) && b < 1024 && a.pc < 1024 && InSlot(S.imem, a) && forall i: nat | 1 <= i < S.cut(b) :: !Doubled(SourceAt(S, b), i)
  }

  /** The architectural state is in memory, nothing is cached. */
  ghost predicate Parked(S: Setup, h: Host, a: Isa.Arch) {
    && |h.r| == S.hosts && |h.cpu.sr| == 33 && h.cpu.sr[0] == 0
    && Isa.ArchOk(a)
    && (forall m | 1 <= m <= 31 :: h.cpu.sr[m] == a.regs[m])
    && h.cpu.dmem == a.dmem && h.cpu.cop == a.cop && a.pending == Carried(h)
  }

  /** Inside a region, about to run the body of chunk i; c is COND_BRANCH_TAKEN. */
  ghost predicate RelAt(S: Setup, b: nat, i: nat, h: Host, a: Isa.Arch, c: Word) {
    Held(S, b, i, h, a, c) && Branching(S, b, i, h, a, c)
  }

  /** ... leaving aside the pending branch. */
  ghost predicate Held(S: Setup, b: nat, i: nat, h: Host, a: Isa.Arch, c: Word) {
    && SetupOk(S) && b < 1024 && i < S.cut(b)
    && Good(LabelAt(SourceAt(S, b), i).es, h, File(a.regs, c), None, multiset{}) && |h.r| == S.hosts
    && a.pc == b + i && Isa.ArchOk(a)
    && h.cpu.dmem == a.dmem && h.cpu.cop == a.cop
  }

  /** How the pending branch is represented. */
  ghost predicate Branching(S: Setup, b: nat, i: nat, h: Host, a: Isa.Arch, c: Word)
    requires SetupOk(S) && b < 1024 && i < S.cut(b)
  {
    if i == 0 then c == 0 && a.pending == Carried(h)
    else
      var last := LastInfo(SourceAt(S, b), i);
      && h.cpu.hasDelay == 0
      && (c != 0 ==> last.branch && last.conditional)
      && a.pending == Pend(last, c, h)
  }

  /** Everything about the architectural state but the pending branch. */
  ghost predicate Settled(S: Setup, h: Host, a: Isa.Arch) {
    && |h.r| == S.hosts && Isa.ArchOk(a)
    && h.cpu.dmem == a.dmem && h.cpu.cop == a.cop
  }

  /** Control has just come to label j by a branch: the cache is empty and nothing is pending. */
  ghost predicate Arrived(S: Setup, b: nat, j: nat, h: Host, a: Isa.Arch) {
    && SetupOk(S) && b < 1024 && 1 <= j < S.cut(b) && Labelled(SourceAt(S, b), j)
    && Good(LabelAt(SourceAt(S, b), j).es, h, File(a.regs, 0), None, multiset{}) && Settled(S, h, a)
    && h.cpu.hasDelay == 0 && a.pending == Isa.None && a.pc == b + j
  }

  /** A compiled state stands for an architectural one. */
  ghost predicate Rel(S: Setup, st: State, o: Isa.Outcome) {
    match st
    case In(b, i, h) => o.Running? && ((exists c: Word :: RelAt(S, b, i, h, o.arch, c)) || Arrived(S, b, i, h, o.arch))
    case Out(mode, pc, h) => o.Stopped? && o.mode == mode && o.arch.pc == pc && Parked(S, h, o.arch) && h.cpu.hasDelay == 0
    case Stuck => false
  }

  // ---------------------------------------------------------------- entering a region

  lemma EnterGood(S: Setup, pc: nat, h: Host, h': Host, regs: seq<Word>)
    requires S.hosts >= 3 && |h.r| == S.hosts && |h.cpu.sr| == 33 && h.cpu.sr[0] == 0
    requires |regs| == 32 && regs[0] == 0 && forall m | 1 <= m <= 31 :: h.cpu.sr[m] == regs[m]
    requires h' == Clobber(S.w, h).(mode := 0, cpu := SetSr(h.cpu, COND_BRANCH_TAKEN, 0))
    ensures Good(Empty(S.hosts).es, h', File(regs, 0), None, multiset{})
  {
    EmptyGood(S.hosts, h', File(regs, 0));
  }

  lemma EnterRel(S: Setup, pc: nat, h: Host, a: Isa.Arch)
    requires SetupOk(S) && pc < 1024 && Parked(S, h, a) && a.pc == pc
    ensures Rel(S, Enter(S, pc, h), Isa.Running(a))
  {
    hide InSlot;
    var s := SourceAt(S, pc);
    var h0 := Clobber(S.w, h).(mode := 0, cpu := SetSr(h.cpu, COND_BRANCH_TAKEN, 0));
    var v := File(a.regs, 0);
    EnterGood(S, pc, h, h0, a.regs);
    assert Table(s, 0) == Empty(S.hosts);
    hide File;
    SimStart(S.w, Table(s, 0), h0, v);
    var h1 := Now(S.w, LabelAt(s, 0), h0);
    assert Enter(S, pc, h) == In(pc, 0, h1);
    assert Carried(h0) == Carried(h);
    hide Table, LabelAt, Good;
    LabelSim(S.w, s, 0, h0, v);
    assert Carried(h1) == Carried(h0);
    assert RelAt(S, pc, 0, h1, a, 0);
  }

  // ---------------------------------------------------------------- falling through

  /** What is known between two chunks: the table before chunk i describes the state. */
  ghost predicate Between(S: Setup, b: nat, i: nat, h: Host, a: Isa.Arch, c: Word)
    requires SetupOk(S) && b < 1024 && 1 <= i <= S.cut(b)
  {
    var s := SourceAt(S, b);
    && Good(Table(s, i).es, h, File(a.regs, c), None, multiset{}) && |h.r| == S.hosts
    && a.pc == (b + i) % 1024 && Isa.ArchOk(a)
    && h.cpu.dmem == a.dmem && h.cpu.cop == a.cop
    && h.cpu.hasDelay == 0
    && (c != 0 ==> LastInfo(s, i).branch && LastInfo(s, i).conditional)
    && a.pending == Pend(LastInfo(s, i), c, h)
  }

  lemma FallSim(w: World, s: Source, i: nat, h: Host, v: seq<Word>)
    requires SourceOk(s) && i < s.count && Good(Table(s, i).es, h, v, None, multiset{})
    ensures var h1 := Run(w, ChunkAt(s, i).enter, h);
            Good(LabelAt(s, i).es, h1, v, None, multiset{}) && Quiet(h, h1)
  {
    CompilationSound(s, i);
    TableCode(s, i);
    hide Table, LabelAt, Good;
    SimStart(w, Table(s, i), h, v);
    LabelSim(w, s, i, h, v);
    SimNow(w, LabelAt(s, i), h, v);
    assert Now(w, Table(s, i), h) == h;
    EnterCode(s, i);
  }

  lemma EnterCode(s: Source, i: nat)
    requires SourceOk(s) && i < s.count
    ensures ChunkAt(s, i).enter == LabelAt(s, i).code
  {
    hide LabelAt, BodyAt, TailAt, ExitOf, ControlOf, InstrAt, LastInfo, InfoAt;
  }

  lemma PendSame(last: Info, c: Word, h: Host, h': Host)
    requires Quiet(h, h')
    ensures Pend(last, c, h') == Pend(last, c, h) && Carried(h') == Carried(h)
  {
  }

  lemma FallInto(S: Setup, b: nat, i: nat, h: Host, a: Isa.Arch, c: Word)
    requires SetupOk(S) && b < 1024 && 1 <= i < S.cut(b) && Between(S, b, i, h, a, c)
    ensures RelAt(S, b, i, Run(S.w, ChunkAt(SourceAt(S, b), i).enter, h), a, c)
  {
    hide Table, LabelAt, ChunkAt, Good, LastInfo, Pend, Isa.ArchOk, InSlot, File;
    var s := SourceAt(S, b);
    FallSim(S.w, s, i, h, File(a.regs, c));
    PendSame(LastInfo(s, i), c, h, Run(S.w, ChunkAt(s, i).enter, h));
  }

  lemma InfoTarget(i: Isa.Instr, n: bool)
    requires Isa.Valid(i)
    ensures InfoOf(i, n).target < 1024
  {
  }

  lemma PcOfWord(t: nat)
    requires t < 1024
    ensures Isa.PcOf(4 * t % TWO_32) == t
  {
  }

  /** The state jit_end_of_block leaves for the next region. */
  function EndHost(code: Code, h: Host): Host {
    if code.last.branch && (!code.last.conditional || Get(h, code.cond) != 0) then
      h.(cpu := h.cpu.(target := if code.last.indirect then Low(h.ind) else 4 * code.last.target % TWO_32, hasDelay := 1))
    else h
  }

  lemma DeadParked(S: Setup, es: seq<Entry>, h: Host, a: Isa.Arch, c: Word)
    requires Good(es, h, File(a.regs, c), None, multiset{}) && Dead(es) && |a.regs| == 32
    ensures |h.cpu.sr| == 33 && h.cpu.sr[0] == 0 && h.cpu.sr[32] == c
    ensures forall m | 1 <= m <= 31 :: h.cpu.sr[m] == a.regs[m]
  {
    assert forall m | 1 <= m <= 32 :: Absent(es, m);
    var v := File(a.regs, c);
    assert v[32] == c;
  }

  lemma LastTarget(s: Source, i: nat)
    requires SourceOk(s) && i <= s.count
    ensures LastInfo(s, i).target < 1024
  {
    hide InfoOf, Isa.Decode, Labelled;
    if i > 0 {
      InstrValid(s, i - 1);
      InfoTarget(InstrAt(s, i - 1), Labelled(s, i));
    }
  }

  lemma EndRun(w: World, s: Source, h: Host, v: seq<Word>)
    requires SourceOk(s) && |v| == 33 && Good(Table(s, s.count).es, h, v, None, multiset{})
    ensures var code := RegionCode(s); var h1 := Run(w, code.end, h);
            && (exists es :: Dead(es) && Good(es, h1, v, None, multiset{})) && Quiet(h, h1)
            && (code.last.branch && code.last.conditional ==> Get(h1, code.cond) == v[32])
  {
    CompilationSound(s, s.count);
    TableCode(s, s.count);
    RegionParts(s);
    hide Table, Good, LastInfo, EndTail, RegionCode, JitReg;
    var g := Table(s, s.count);
    SimStart(w, g, h, v);
    assert Now(w, g, h) == h;
    EndSim(w, g, h, v, LastInfo(s, s.count));
    SimNow(w, EndTail(g, LastInfo(s, s.count)), h, v);
  }

  lemma EndParked(S: Setup, b: nat, h: Host, a: Isa.Arch, c: Word)
    requires SetupOk(S) && b < 1024 && Between(S, b, S.cut(b), h, a, c)
    ensures var code := RegionCode(SourceAt(S, b)); Parked(S, EndHost(code, Run(S.w, code.end, h)), a)
  {
    var s := SourceAt(S, b);
    hide Table, Good, LastInfo, EndTail, RegionCode, File, Isa.ArchOk, InSlot, Run, Low, Isa.PcOf, JitReg, EndHost, Pend, Carried;
    LastTarget(s, s.count);
    RegionParts(s);
    assert |a.regs| == 32 by { ArchSize(a); }
    FileLast(a.regs, c);
    EndRun(S.w, s, h, File(a.regs, c));
    var h1 := Run(S.w, RegionCode(s).end, h);
    var es :| Dead(es) && Good(es, h1, File(a.regs, c), None, multiset{});
    DeadParked(S, es, h1, a, c);
    PendSame(LastInfo(s, s.count), c, h, h1);
    assert h1.cpu.hasDelay == 0;
    CarriedEnd(RegionCode(s), h1, c);
    hide Dead;
  }

  /** jit_end_of_block moves exactly the pending branch to CPUState. */
  lemma CarriedEnd(code: Code, h: Host, c: Word)
    requires code.last.target < 1024 && h.cpu.hasDelay == 0
    requires code.last.branch && code.last.conditional ==> Get(h, code.cond) == c
    ensures Carried(EndHost(code, h)) == Pend(code.last, c, h)
    ensures EndHost(code, h) == h.(cpu := EndHost(code, h).cpu)
    ensures EndHost(code, h).cpu == h.cpu.(target := EndHost(code, h).cpu.target, hasDelay := EndHost(code, h).cpu.hasDelay)
  {
    PcOfWord(code.last.target);
    hide Low, Isa.PcOf;
  }

  lemma ArchSize(a: Isa.Arch)
    requires Isa.ArchOk(a)
    ensures |a.regs| == 32
  {
  }

  lemma EndRel(S: Setup, b: nat, h: Host, a: Isa.Arch, c: Word)
    requires SetupOk(S) && b < 1024 && Between(S, b, S.cut(b), h, a, c)
    ensures Rel(S, EndOfBlock(S, b, h), Isa.Running(a))
  {
    EndParked(S, b, h, a, c);
    hide Table, Good, RegionCode, Isa.ArchOk, InSlot, Parked, Enter, Run;
    var code := RegionCode(SourceAt(S, b));
    EnterRel(S, (b + S.cut(b)) % 1024, EndHost(code, Run(S.w, code.end, h)), a);
  }

  lemma SimNow(w: World, g: Gen, start: Host, v: seq<Word>)
    requires Sim(w, g, start, v, None, multiset{})
    ensures Good(g.es, Run(w, g.code, start), v, None, multiset{})
  {
  }

  lemma FileLast(regs: seq<Word>, c: Word)
    requires |regs| == 32
    ensures |File(regs, c)| == 33 && File(regs, c)[32] == c
  {
  }

  lemma RegionParts(s: Source)
    requires SourceOk(s)
    ensures RegionCode(s).end == EndTail(Table(s, s.count), LastInfo(s, s.count)).code
    ensures RegionCode(s).cond == JitReg(FlushWindow(Table(s, s.count)), COND_BRANCH_TAKEN)
    ensures RegionCode(s).last == LastInfo(s, s.count)
  {
    hide Table, EndTail, LastInfo, JitReg;
  }

  lemma NextRel(S: Setup, b: nat, i: nat, h: Host, a: Isa.Arch, c: Word)
    requires SetupOk(S) && b < 1024 && i < S.cut(b) && Between(S, b, i + 1, h, a, c)
    ensures Rel(S, Next(S, b, i, h), Isa.Running(a))
  {
    hide Between, RelAt, ChunkAt, EndOfBlock, Run, RegionCode;
    if i + 1 < S.cut(b) {
      FallInto(S, b, i + 1, h, a, c);
    } else {
      EndRel(S, b, h, a, c);
    }
  }

  // ---------------------------------------------------------------- the body of a chunk

  /** After the body: effect e applied, condition c1 set, host otherwise as before. */
  ghost predicate Done(S: Setup, b: nat, i: nat, h: Host, a: Isa.Arch, h1: Host, e: Isa.Effect, c1: Word)
    requires SetupOk(S) && b < 1024 && i < S.cut(b)
  {
    var s := SourceAt(S, b);
    var instr := InstrAt(s, i);
    && Sim(S.w, Fresh(BodyAt(s, i)), h1, File(e.regs, c1), None, multiset{}) && |e.regs| == 32
    && |h1.r| == S.hosts
    && h1.cpu.dmem == e.dmem && h1.cpu.cop == e.cop
    && h1.cpu.hasDelay == h.cpu.hasDelay && h1.cpu.target == h.cpu.target
    && (if instr.JumpReg? then Low(h1.ind) == Isa.Reg(a.regs, instr.rs) else h1.ind == h.ind)
    && (instr.System? ==> h1.mode == e.mode)
  }

  function EffectAt(S: Setup, a: Isa.Arch): Isa.Effect
    requires a.pc < 1024
  {
    Isa.Do1(S.w, Isa.Decode(S.imem[a.pc], a.pc), a)
  }

  lemma StartSim(S: Setup, b: nat, i: nat, h: Host, a: Isa.Arch, c: Word)
    requires Held(S, b, i, h, a, c)
    ensures var g := Fresh(LabelAt(SourceAt(S, b), i));
            && Sim(S.w, g, h, File(a.regs, c), None, multiset{}) && Now(S.w, g, h) == h
            && |a.regs| == 32 && Isa.Reg(a.regs, 0) == 0
  {
    CompilationSound(SourceAt(S, b), i);
    ArchZero(a);
    hide LabelAt, Good, Isa.ArchOk, InSlot, Branching, Isa.Reg, File;
    SimStart(S.w, Fresh(LabelAt(SourceAt(S, b), i)), h, File(a.regs, c));
  }

  lemma StepBody(S: Setup, b: nat, i: nat, h: Host, a: Isa.Arch, c: Word)
    requires Held(S, b, i, h, a, c)
    ensures var s := SourceAt(S, b);
            Done(S, b, i, h, a, Run(S.w, BodyAt(s, i).code, h), EffectAt(S, a), CondAfter(InstrAt(s, i), a.regs, Labelled(s, i + 1), c))
  {
    hide LabelAt, BodyAt, Body, Isa.Do1, Isa.ArchOk, InSlot, CondAfter, Good, Labelled, File, Isa.Reg, Branching, Low, Isa.Decode, Isa.Valid, Sim;
    var s := SourceAt(S, b);
    StartSim(S, b, i, h, a, c);
    InstrValid(s, i);
    BodyIs(s, i);
    var instr, n := InstrAt(s, i), Labelled(s, i + 1);
    BodySim(S.w, Fresh(LabelAt(s, i)), h, instr, a, c, n);
    FreshSim(S.w, BodyAt(s, i), h, File(EffectAt(S, a).regs, CondAfter(instr, a.regs, n, c)));
  }

  lemma ArchZero(a: Isa.Arch)
    requires Isa.ArchOk(a)
    ensures |a.regs| == 32 && Isa.Reg(a.regs, 0) == 0
  {
  }

  /** The recorded branch information says what the reference interpreter decides. */
  lemma BranchInfo(w: World, i: Isa.Instr, a: Isa.Arch, n: bool, c: Word, h1: Host)
    requires Isa.Valid(i) && (i.JumpReg? ==> Low(h1.ind) == Isa.Reg(a.regs, i.rs))
    ensures InfoOf(i, n).branch == Isa.IsBranch(i)
    ensures Isa.Do1(w, i, a).branch == Pend(InfoOf(i, n), CondAfter(i, a.regs, n, c), h1)
    ensures c == 0 ==> CondAfter(i, a.regs, n, c) != 0 ==> InfoOf(i, n).branch && InfoOf(i, n).conditional
    ensures !Isa.IsBranch(i) ==> CondAfter(i, a.regs, n, c) == c && Isa.Do1(w, i, a).branch == Isa.None
  {
    hide Alu32, LoadBytes, StoreBytes, Low;
  }

  // ---------------------------------------------------------------- leaving the run

  lemma ExitDead(S: Setup, b: nat, i: nat, h: Host, a: Isa.Arch, c: Word)
    requires Held(S, b, i, h, a, c)
    requires InstrAt(SourceAt(S, b), i).System? || InstrAt(SourceAt(S, b), i).Break?
    ensures Dead(BodyAt(SourceAt(S, b), i).es)
  {
    hide LabelAt, BodyAt, Good, FlushWindow, InstrAt, Isa.ArchOk, InSlot, Branching, File, Sim, Labelled;
    var s := SourceAt(S, b);
    StartSim(S, b, i, h, a, c);
    BodyIs(s, i);
    FlushSim(S.w, Fresh(LabelAt(s, i)), h, File(a.regs, c));
  }

  /** The next program counter of the reference interpreter. */
  function AfterPc(a: Isa.Arch): nat {
    if a.pending.Some? then a.pending.value else NextPc(a.pc)
  }

  /** Isa.Step in terms of the effect. */
  lemma StepIs(S: Setup, a: Isa.Arch)
    requires Isa.ArchOk(a)
    ensures var e, o := EffectAt(S, a), Isa.Step(S.w, S.imem, a);
            && Isa.ArchOk(o.arch)
            && o == if e.mode == Isa.MODE_CONTINUE then Isa.Running(Isa.Arch(AfterPc(a), e.regs, e.dmem, e.cop, e.branch))
                    else Isa.Stopped(e.mode, Isa.Arch(AfterPc(a), e.regs, e.dmem, e.cop, Isa.None))
  {
    Isa.StepOk(S.w, S.imem, a);
    hide Isa.Do1, Isa.Decode;
  }

  lemma ExitCore(S: Setup, last: Info, first: bool, h: Host, h1: Host, a: Isa.Arch, c: Word, mode: nat, a': Isa.Arch)
    requires |h1.r| == S.hosts && |h1.cpu.sr| == 33 && h1.cpu.sr[0] == 0 && h1.cpu.sr[32] == c
    requires Isa.ArchOk(a') && a'.pending == Isa.None && a'.pc == AfterPc(a)
    requires forall m | 1 <= m <= 31 :: h1.cpu.sr[m] == a'.regs[m]
    requires h1.cpu.dmem == a'.dmem && h1.cpu.cop == a'.cop && h1.ind == h.ind
    requires h1.cpu.hasDelay == h.cpu.hasDelay && h1.cpu.target == h.cpu.target
    requires if first then a.pending == Carried(h) else h.cpu.hasDelay == 0 && a.pending == Pend(last, c, h)
    ensures Rel(S, ExitTo(mode, first, last, a.pc, h1), Isa.Stopped(mode, a'))
  {
    hide Isa.PcOf, Low, Isa.Decode;
  }

  lemma ExitRel(S: Setup, b: nat, i: nat, h: Host, a: Isa.Arch, c: Word, mode: nat, h1: Host)
    requires RelAt(S, b, i, h, a, c) && h1 == Run(S.w, BodyAt(SourceAt(S, b), i).code, h)
    requires InstrAt(SourceAt(S, b), i).System? || InstrAt(SourceAt(S, b), i).Break?
    requires EffectAt(S, a).mode == mode != Isa.MODE_CONTINUE
    ensures Rel(S, ExitTo(mode, i == 0, LastInfo(SourceAt(S, b), i), b + i, h1), Isa.Step(S.w, S.imem, a))
  {
    hide BodyAt, LabelAt, Good, File, Isa.Step, Isa.Do1, EffectAt, Isa.ArchOk, InSlot, LastInfo, Run, InstrAt, Labelled,
         Sim, AfterPc, ExitTo, Pend, Carried, Rel, Dead;
    var s, e := SourceAt(S, b), EffectAt(S, a);
    StepBody(S, b, i, h, a, c);
    ExitDead(S, b, i, h, a, c);
    StepIs(S, a);
    var a' := Isa.Arch(AfterPc(a), e.regs, e.dmem, e.cop, Isa.None);
    FreshGood(S.w, BodyAt(s, i), h1, File(e.regs, c));
    DeadParked(S, BodyAt(s, i).es, h1, a', c);
    ExitCore(S, LastInfo(s, i), i == 0, h, h1, a, c, mode, a');
  }

  lemma FreshGood(w: World, g: Gen, h: Host, v: seq<Word>)
    requires Sim(w, Fresh(g), h, v, None, multiset{})
    ensures Good(g.es, h, v, None, multiset{})
  {
  }

  // ---------------------------------------------------------------- after the instruction

  lemma TailRun(w: World, s: Source, i: nat, h1: Host, v: seq<Word>)
    requires SourceOk(s) && i < s.count && |v| == 33 && Sim(w, Fresh(BodyAt(s, i)), h1, v, None, multiset{})
    ensures var h2 := Run(w, TailAt(s, i).code, h1);
            && Good(Table(s, i + 1).es, h2, AfterTail(v, i == 0, InfoAt(s, i), LastInfo(s, i)), None, multiset{})
            && Quiet(h1, h2) && Table(s, i + 1).es == TailAt(s, i).es
  {
    hide Sim, Table, BodyAt, TailAt, InfoAt, LastInfo, Tail, AfterTail, Good;
    TailIs(s, i);
    TailSim(w, Fresh(BodyAt(s, i)), h1, v, i == 0, InfoAt(s, i), LastInfo(s, i));
    TableNext(s, i);
    SimNow(w, TailAt(s, i), h1, AfterTail(v, i == 0, InfoAt(s, i), LastInfo(s, i)));
    assert Now(w, Fresh(BodyAt(s, i)), h1) == h1;
  }

  /** What the emitted test reads, and that the cache is empty where control may leave. */
  lemma TailTest(w: World, s: Source, i: nat, h1: Host, v: seq<Word>)
    requires SourceOk(s) && i < s.count && |v| == 33 && Sim(w, Fresh(BodyAt(s, i)), h1, v, None, multiset{})
    ensures var h2 := Run(w, TailAt(s, i).code, h1);
            var info, last := InfoAt(s, i), LastInfo(s, i);
            && (i == 0 && !info.handlesDelaySlot ==>
                  Get(h2, JitReg(BodyAt(s, i), SCRATCH_REGISTER0)) == SExt(h1.cpu.hasDelay) && Dead(TailAt(s, i).es))
            && (i > 0 && !info.handlesDelaySlot && last.branch && !info.branch ==>
                  Dead(TailAt(s, i).es) && (last.conditional ==> Get(h2, SlotReg(BodyAt(s, i))) == v[32]))
  {
    hide Sim, BodyAt, TailAt, InfoAt, LastInfo, LatentTail, SlotTail, Pick, Dead, SExt;
    TailIs(s, i);
    var g := Fresh(BodyAt(s, i));
    LatentSim(w, g, h1, v);
    SlotSim(w, g, h1, v);
    StaticSlotSim(w, g, h1, v);
    assert Now(w, g, h1) == h1;
    assert JitReg(g, SCRATCH_REGISTER0) == JitReg(BodyAt(s, i), SCRATCH_REGISTER0);
    SlotRegFresh(BodyAt(s, i));
  }

  lemma LoadSame(g: Gen, g': Gen, m: nat, ext: Sign)
    requires g.es == g'.es && g.clock == g'.clock
    ensures Load(g, m, ext).es == Load(g', m, ext).es && Load(g, m, ext).clock == Load(g', m, ext).clock
  {
    hide Pick, SExt, Low, Claim, Holds;
    if Pick(g.es, m) >= 0 && m <= COND_BRANCH_TAKEN && !Holds(g.es[Pick(g.es, m)], m) { ClaimSame(g, g', Pick(g.es, m), m); }
  }

  lemma ClaimSame(g: Gen, g': Gen, k: nat, m: nat)
    requires g.es == g'.es && g.clock == g'.clock && k < |g.es|
    ensures Claim(g, k, m).es == Claim(g', k, m).es && Claim(g, k, m).clock == Claim(g', k, m).clock
  {
  }

  lemma ModifySame(g: Gen, g': Gen, m: nat)
    requires g.es == g'.es && g.clock == g'.clock
    ensures Modify(g, m).es == Modify(g', m).es
  {
    hide Pick;
  }

  lemma SlotRegFresh(g: Gen)
    ensures SlotReg(Fresh(g)) == SlotReg(g)
  {
    LoadSame(Fresh(g), g, COND_BRANCH_TAKEN, Unknown);
    ModifySame(Load(Fresh(g), COND_BRANCH_TAKEN, Unknown), Load(g, COND_BRANCH_TAKEN, Unknown), COND_BRANCH_TAKEN);
    hide Pick, Load, Modify;
  }

  // ---------------------------------------------------------------- transfers of control

  /** An empty table describes the same state as any other empty table. */
  lemma DeadGood(es: seq<Entry>, es': seq<Entry>, h: Host, v: seq<Word>, h': Host, v': seq<Word>)
    requires Good(es, h, v, None, multiset{}) && Dead(es) && Dead(es') && |es| == |es'|
    requires Good(es', h', v', None, multiset{})
    ensures Good(es', h, v, None, multiset{})
  {
    assert forall m | 1 <= m <= 32 :: Absent(es, m);
  }

  /** A label's table is empty, so it describes any state whose registers are in memory. */
  lemma LabelGood(w: World, s: Source, j: nat, es: seq<Entry>, h: Host, v: seq<Word>)
    requires SourceOk(s) && Labelled(s, j) && w.callerRegs == s.callerRegs
    requires Good(es, h, v, None, multiset{}) && Dead(es) && |es| == s.hosts
    ensures Good(LabelAt(s, j).es, h, v, None, multiset{})
  {
    assert j < s.count;
    hide Labelled, LabelAt, Table, Good, Sim, Dead;
    CompilationSound(s, j);
    var h0, v0 := TablesSound(w, s, j);
    WitnessSim(w, s, j, h0, v0);
    LabelSim(w, s, j, h0, v0);
    SimNow(w, LabelAt(s, j), h0, v0);
    DeadGood(es, LabelAt(s, j).es, h, v, Run(w, LabelAt(s, j).code, h0), v0);
  }

  lemma LocalRel(S: Setup, b: nat, j: nat, es: seq<Entry>, h: Host, a: Isa.Arch)
    requires SetupOk(S) && b < 1024 && Labelled(SourceAt(S, b), j)
    requires Good(es, h, File(a.regs, 0), None, multiset{}) && Dead(es) && Settled(S, h, a)
    requires h.cpu.hasDelay == 0 && a.pending == Isa.None && a.pc == b + j
    ensures Rel(S, In(b, j, h), Isa.Running(a))
  {
    var s := SourceAt(S, b);
    assert |es| == s.hosts;
    LabelGood(S.w, s, j, es, h, File(a.regs, 0));
    hide Good, LabelAt, LastInfo, Isa.ArchOk, InSlot, File, Isa.Decode;
    if j == 0 { assert RelAt(S, b, j, h, a, 0); }
  }

  lemma ParkedAfter(S: Setup, es: seq<Entry>, h: Host, a: Isa.Arch, c: Word)
    requires Good(es, h, File(a.regs, c), None, multiset{}) && Dead(es) && Settled(S, h, a)
    requires a.pending == Isa.None
    ensures Parked(S, SetDelay(h, 0), a)
  {
    ArchSize(a);
    hide Isa.ArchOk, InSlot, Good, File;
    DeadParked(S, es, h, a, c);
  }

  /** The branch before chunk i can only be what decoding says. */
  lemma DirectLabelled(S: Setup, b: nat, i: nat)
    requires SetupOk(S) && b < 1024 && 1 <= i <= S.cut(b)
    ensures var s := SourceAt(S, b); var last := LastInfo(s, i);
            last.branch && !last.indirect && s.base <= last.target < s.base + s.count ==> Labelled(s, last.target - s.base)
  {
    var s := SourceAt(S, b);
    DirectTargetsOnly(s, i - 1);
  }

  lemma DirectTargetsOnly(s: Source, k: nat)
    requires SourceOk(s) && k < s.count
    ensures var info := InfoAt(s, k);
            info.branch && !info.indirect && s.base <= info.target < s.base + s.count ==> Labelled(s, info.target - s.base)
  {
    var i := InstrAt(s, k);
    hide Isa.Decode, IsEntry;
    if i.BranchEq? || i.BranchZero? || i.Always? || i.Jump? {
      DirectTargetIsEntry(s.imem, s.base, s.base + s.count, s.base + k);
      assert InfoAt(s, k).target == i.target;
    }
  }

  lemma GotoRel(S: Setup, b: nat, i: nat, es: seq<Entry>, h: Host, a: Isa.Arch)
    requires SetupOk(S) && b < 1024 && 1 <= i < S.cut(b)
    requires Good(es, h, File(a.regs, 0), None, multiset{}) && Dead(es) && Settled(S, h, a)
    requires h.cpu.hasDelay == 0 && a.pending == Isa.None
    requires LastInfo(SourceAt(S, b), i).branch && a.pc == TargetOf(LastInfo(SourceAt(S, b), i), h)
    ensures Rel(S, Arrive(S, b, DestOf(SourceAt(S, b), LastInfo(SourceAt(S, b), i)), h), Isa.Running(a))
  {
    hide Good, LastInfo, Isa.ArchOk, InSlot, File, Labelled, Rel, Dead, Enter, Isa.PcOf;
    var s := SourceAt(S, b);
    var last := LastInfo(s, i);
    DirectLabelled(S, b, i);
    LastTarget(s, i);
    assert a.pc < 1024 by { TargetSmall(last, h); }
    if !last.indirect && s.base <= last.target < s.base + s.count {
      LocalRel(S, b, last.target - s.base, es, h, a);
    } else {
      ParkedAfter(S, es, h, a, 0);
      assert SetDelay(h, 0) == h;
      EnterRel(S, a.pc, h, a);
    }
  }

  lemma TargetSmall(last: Info, h: Host)
    requires last.target < 1024
    ensures TargetOf(last, h) < 1024
  {
  }

  /** The body did not end the run: what the next state must represent. */
  ghost predicate Ready(S: Setup, b: nat, i: nat, h: Host, a: Isa.Arch, c: Word, h1: Host, c1: Word)
    requires SetupOk(S) && b < 1024 && i < S.cut(b) && a.pc < 1024
  {
    && Done(S, b, i, h, a, h1, EffectAt(S, a), c1)
    && Isa.ArchOk(AfterArch(S, a))
    && Branching(S, b, i, h, a, c)
    && a.pc == b + i
  }

  function AfterArch(S: Setup, a: Isa.Arch): Isa.Arch
    requires a.pc < 1024
  {
    var e := EffectAt(S, a);
    Isa.Arch(AfterPc(a), e.regs, e.dmem, e.cop, e.branch)
  }

  /** The first chunk: a branch carried in from another region is taken after it. */
  lemma FirstRel(S: Setup, b: nat, h: Host, a: Isa.Arch, c: Word, h1: Host, c1: Word)
    requires SetupOk(S) && b < 1024 && a.pc < 1024 && Ready(S, b, 0, h, a, c, h1, c1)
    requires var info := InfoAt(SourceAt(S, b), 0);
             && !info.handlesDelaySlot && (c1 != 0 ==> info.branch && info.conditional)
             && EffectAt(S, a).branch == Pend(info, c1, h1)
             && (a.pending.Some? ==> !info.branch)
    ensures var s := SourceAt(S, b);
            Rel(S, Transfer(S, b, 0, ChunkAt(s, 0).control, Run(S.w, TailAt(s, 0).code, h1)), Isa.Running(AfterArch(S, a)))
  {
    hide Good, Sim, LastInfo, InfoAt, Isa.ArchOk, InSlot, File, Rel, Dead, Enter, Isa.PcOf, BodyAt, TailAt, Table, EffectAt, InstrAt, SExt, JitReg, Labelled, Low;
    var s := SourceAt(S, b);
    var a', v := AfterArch(S, a), File(EffectAt(S, a).regs, c1);
    FileSize(EffectAt(S, a).regs, c1);
    TailRun(S.w, s, 0, h1, v);
    TailTest(S.w, s, 0, h1, v);
    var h2 := Run(S.w, TailAt(s, 0).code, h1);
    PendSame(InfoAt(s, 0), c1, h1, h2);
    FirstControl(s);
    SExtZero(h.cpu.hasDelay);
    if h.cpu.hasDelay == 0 {
      assert LastInfo(s, 1) == InfoAt(s, 0) by { LastIs(s, 0); }
      NextRel(S, b, 0, h2, a', c1);
    } else {
      ParkedAfter(S, Table(s, 1).es, h2, a', c1);
      EnterRel(S, a'.pc, SetDelay(h2, 0), a');
    }
  }

  lemma LastIs(s: Source, i: nat)
    requires SourceOk(s) && i < s.count
    ensures LastInfo(s, i + 1) == InfoAt(s, i)
  {
  }

  lemma FirstControl(s: Source)
    requires SourceOk(s)
    ensures LastInfo(s, 0) == NoInfo
    ensures !InfoAt(s, 0).handlesDelaySlot ==>
      ChunkAt(s, 0).control == Latent(JitReg(BodyAt(s, 0), SCRATCH_REGISTER0), InfoAt(s, 0).branch)
  {
    hide BodyAt, TailAt, InfoAt, LabelAt, InstrAt, JitReg;
  }

  lemma LaterControl(s: Source, i: nat)
    requires SourceOk(s) && 1 <= i < s.count && !InfoAt(s, i).handlesDelaySlot && !(InfoAt(s, i).branch && LastInfo(s, i).branch)
    ensures var last := LastInfo(s, i);
            ChunkAt(s, i).control ==
              if !last.branch then Fall
              else if last.conditional then TakeIf(SlotReg(BodyAt(s, i)), DestOf(s, last))
              else Take(DestOf(s, last))
  {
    hide BodyAt, TailAt, InfoAt, LastInfo, LabelAt, InstrAt, JitReg, SlotReg, DestOf;
  }

  /** A delay slot: where control goes, and with an empty cache, condition clear, nothing pending. */
  lemma SlotTransfer(S: Setup, b: nat, i: nat, h: Host, a: Isa.Arch, c: Word, h1: Host)
    requires SetupOk(S) && b < 1024 && 1 <= i < S.cut(b)
    requires a.pc < 1024 && Done(S, b, i, h, a, h1, EffectAt(S, a), c)
    requires var s := SourceAt(S, b); LastInfo(s, i).branch && !InfoAt(s, i).handlesDelaySlot && !InfoAt(s, i).branch
    ensures var s := SourceAt(S, b); var h2 := Run(S.w, TailAt(s, i).code, h1); var last := LastInfo(s, i);
            && Transfer(S, b, i, ChunkAt(s, i).control, h2) ==
                 (if !last.conditional || c != 0 then Arrive(S, b, DestOf(s, last), h2) else Next(S, b, i, h2))
            && Good(Table(s, i + 1).es, h2, File(EffectAt(S, a).regs, 0), None, multiset{}) && Dead(Table(s, i + 1).es)
            && Quiet(h1, h2)
  {
    hide Good, Sim, LastInfo, InfoAt, File, Dead, BodyAt, TailAt, Table, EffectAt, InstrAt, Labelled, Low, ChunkAt, SlotReg, DestOf, Arrive, Next;
    var s := SourceAt(S, b);
    var v := File(EffectAt(S, a).regs, c);
    FileLast(EffectAt(S, a).regs, c);
    FileCond(EffectAt(S, a).regs, c, 0);
    TailRun(S.w, s, i, h1, v);
    TailTest(S.w, s, i, h1, v);
    LaterControl(s, i);
  }

  /** The branch before a delay slot is taken or not, and nothing stays pending. */
  lemma SlotRel(S: Setup, b: nat, i: nat, h: Host, a: Isa.Arch, c: Word, h1: Host)
    requires SetupOk(S) && b < 1024 && a.pc < 1024 && 1 <= i < S.cut(b) && Ready(S, b, i, h, a, c, h1, c)
    requires var s := SourceAt(S, b);
             && LastInfo(s, i).branch && !InfoAt(s, i).handlesDelaySlot && !InfoAt(s, i).branch
             && EffectAt(S, a).branch == Isa.None && h1.ind == h.ind
    ensures var s := SourceAt(S, b);
            Rel(S, Transfer(S, b, i, ChunkAt(s, i).control, Run(S.w, TailAt(s, i).code, h1)), Isa.Running(AfterArch(S, a)))
  {
    hide Good, Sim, LastInfo, InfoAt, Isa.ArchOk, InSlot, File, Rel, Dead, Isa.PcOf, BodyAt, TailAt, Table, EffectAt, InstrAt, Labelled, Low,
         ChunkAt, SlotReg, DestOf, Arrive, Transfer, Next;
    var s := SourceAt(S, b);
    var last := LastInfo(s, i);
    var a' := AfterArch(S, a);
    SlotTransfer(S, b, i, h, a, c, h1);
    var h2 := Run(S.w, TailAt(s, i).code, h1);
    assert TargetOf(last, h2) == TargetOf(last, h);
    if !last.conditional || c != 0 {
      GotoRel(S, b, i, Table(s, i + 1).es, h2, a');
    } else {
      LastIs(s, i);
      NextRel(S, b, i, h2, a', 0);
    }
  }

  /** An instruction that is neither first nor in a delay slot. */
  lemma PlainRel(S: Setup, b: nat, i: nat, h: Host, a: Isa.Arch, c: Word, h1: Host, c1: Word)
    requires SetupOk(S) && b < 1024 && a.pc < 1024 && 1 <= i < S.cut(b) && Ready(S, b, i, h, a, c, h1, c1)
    requires var s := SourceAt(S, b); var info := InfoAt(s, i);
             && !LastInfo(s, i).branch && !info.handlesDelaySlot
             && (c1 != 0 ==> info.branch && info.conditional)
             && EffectAt(S, a).branch == Pend(info, c1, h1)
    ensures var s := SourceAt(S, b);
            Rel(S, Transfer(S, b, i, ChunkAt(s, i).control, Run(S.w, TailAt(s, i).code, h1)), Isa.Running(AfterArch(S, a)))
  {
    hide Good, Sim, LastInfo, InfoAt, Isa.ArchOk, InSlot, File, Rel, Isa.PcOf, BodyAt, TailAt, Table, EffectAt, InstrAt, Labelled, Low, ChunkAt;
    var s := SourceAt(S, b);
    var a', v := AfterArch(S, a), File(EffectAt(S, a).regs, c1);
    FileSize(EffectAt(S, a).regs, c1);
    TailRun(S.w, s, i, h1, v);
    var h2 := Run(S.w, TailAt(s, i).code, h1);
    LaterControl(s, i);
    PendSame(InfoAt(s, i), c1, h1, h2);
    LastIs(s, i);
    NextRel(S, b, i, h2, a', c1);
  }

  // ---------------------------------------------------------------- one step

  /** What a slot instruction and its branch can be. */
  lemma SlotFacts(S: Setup, b: nat, i: nat, a: Isa.Arch)
    requires Calm(S, b, a) && 1 <= i < S.cut(b) && LastInfo(SourceAt(S, b), i).branch
    ensures !Isa.IsBranch(InstrAt(SourceAt(S, b), i))
  {
    var s := SourceAt(S, b);
    hide Isa.Decode, Labelled;
    assert Isa.IsBranch(InstrAt(s, i - 1)) && !Doubled(s, i);
  }

  lemma ModeOnly(w: World, i: Isa.Instr, a: Isa.Arch)
    ensures Isa.Do1(w, i, a).mode != Isa.MODE_CONTINUE ==> i.System? || i.Break?
    ensures i.Break? ==> Isa.Do1(w, i, a).mode == Isa.MODE_BREAK
  {
    hide Alu32, LoadBytes, StoreBytes;
  }

  lemma HandlesOnly(i: Isa.Instr, n: bool)
    ensures InfoOf(i, n).handlesDelaySlot == i.Break? && InfoOf(i, n).branch == Isa.IsBranch(i)
  {
  }

  lemma ChunkParts(s: Source, i: nat)
    requires SourceOk(s) && i < s.count
    ensures ChunkAt(s, i).body == BodyAt(s, i).code && ChunkAt(s, i).tail == TailAt(s, i).code
    ensures ChunkAt(s, i).exit == ExitOf(InstrAt(s, i), i == 0, LastInfo(s, i), s.base + i)
  {
    hide BodyAt, TailAt, LabelAt, InstrAt, LastInfo, InfoAt, ControlOf, ExitOf;
  }

  /** The chunk does not end the run. */
  lemma ContinueRel(S: Setup, b: nat, i: nat, h: Host, a: Isa.Arch, c: Word, h1: Host)
    requires RelAt(S, b, i, h, a, c) && Calm(S, b, a) && h1 == Run(S.w, BodyAt(SourceAt(S, b), i).code, h)
    requires EffectAt(S, a).mode == Isa.MODE_CONTINUE
    ensures var s := SourceAt(S, b);
            Rel(S, Transfer(S, b, i, ChunkAt(s, i).control, Run(S.w, TailAt(s, i).code, h1)), Isa.Step(S.w, S.imem, a))
  {
    hide Good, Sim, Isa.ArchOk, InSlot, File, Rel, Isa.PcOf, BodyAt, TailAt, LabelAt, Table, Labelled, Low, ChunkAt, Isa.Do1, Isa.Decode, Isa.Step,
         CondAfter, Transfer, Calm, Isa.Valid, Isa.Reg;
    var s := SourceAt(S, b);
    var instr, n := InstrAt(s, i), Labelled(s, i + 1);
    var e, c1 := EffectAt(S, a), CondAfter(instr, a.regs, n, c);
    StepBody(S, b, i, h, a, c);
    StepIs(S, a);
    InstrValid(s, i);
    BranchInfo(S.w, instr, a, n, c, h1);
    HandlesOnly(instr, n);
    ModeOnly(S.w, instr, a);
    assert Ready(S, b, i, h, a, c, h1, c1);
    assert InfoAt(s, i) == InfoOf(instr, n);
    if i == 0 {
      SlotNotBranch(S, b, a);
      FirstRel(S, b, h, a, c, h1, c1);
    } else if LastInfo(s, i).branch {
      SlotFacts(S, b, i, a);
      SlotRel(S, b, i, h, a, c, h1);
    } else {
      PlainRel(S, b, i, h, a, c, h1, c1);
    }
  }

  lemma SlotNotBranch(S: Setup, b: nat, a: Isa.Arch)
    requires Calm(S, b, a)
    ensures a.pc < 1024 && (a.pending.Some? ==> !Isa.IsBranch(Isa.Decode(S.imem[a.pc], a.pc)))
  {
    hide Doubled;
  }

  /** One chunk of compiled code does what one instruction does. */
  lemma StepRel(S: Setup, b: nat, i: nat, h: Host, a: Isa.Arch, c: Word)
    requires RelAt(S, b, i, h, a, c) && Calm(S, b, a)
    ensures Rel(S, StepCompiled(S, In(b, i, h)), Isa.Step(S.w, S.imem, a))
  {
    hide Good, Sim, Isa.ArchOk, InSlot, File, Rel, BodyAt, TailAt, LabelAt, Labelled, ChunkAt, Isa.Do1, Isa.Decode, Isa.Step,
         Transfer, Calm, Branching, ExitTo, LastInfo, Run;
    var s := SourceAt(S, b);
    var instr, h1 := InstrAt(s, i), Run(S.w, BodyAt(s, i).code, h);
    ChunkParts(s, i);
    ModeOnly(S.w, instr, a);
    if EffectAt(S, a).mode == Isa.MODE_CONTINUE {
      StepBody(S, b, i, h, a, c);
      ContinueRel(S, b, i, h, a, c, h1);
    } else {
      StepBody(S, b, i, h, a, c);
      ExitRel(S, b, i, h, a, c, EffectAt(S, a).mode, h1);
    }
  }
}

/** What the recompiler promises: compiled regions, however instruction memory is cut into them, run
    every program as the one-instruction-at-a-time interpreter does. */
module RecompilerTheorem {
  import opened Words
  import opened HostCode
  import opened RegisterCache
  import opened EmitterProof
  import opened Region
  import opened RecompilerProof
  import opened RecompilerRuns
  import Isa

  /** The value of MIPS register m at the start of chunk i: in a host register if it is cached, in
      sr[] otherwise. */
  function Visible(S: Setup, b: nat, i: nat, h: Host, m: nat): Word
    requires SourceOk(SourceAt(S, b)) && i < S.cut(b)
  {
    var k := FindLive(LabelAt(SourceAt(S, b), i).es, m);
    if k >= 0 then Low(Get(h, k)) else Sr(h.cpu, m)
  }

  lemma VisibleValue(S: Setup, b: nat, i: nat, h: Host, a: Isa.Arch, c: Word, m: nat)
    requires RelAt(S, b, i, h, a, c) && m <= 31
    ensures Visible(S, b, i, h, m) == a.regs[m]
  {
    hide Isa.ArchOk, InSlot, Branching, LabelAt;
    ArchZero2(a);
    GoodValue(LabelAt(SourceAt(S, b), i).es, h, File(a.regs, c), m);
  }

  lemma ArchZero2(a: Isa.Arch)
    requires Isa.ArchOk(a)
    ensures |a.regs| == 32 && a.regs[0] == 0
  {
  }

  lemma GoodValue(es: seq<Entry>, h: Host, v: seq<Word>, m: nat)
    requires Good(es, h, v, None, multiset{}) && m <= 32
    ensures |v| == 33 && v[m] == var k := FindLive(es, m); if k >= 0 then Low(Get(h, k)) else Sr(h.cpu, m)
  {
    var k := FindLive(es, m);
    if k >= 0 {
      assert EntryOk(es[k], h.r[k], h.cpu.sr, v, None);
    } else {
      assert Absent(es, m);
    }
  }

  /** The program counter a compiled state stands for. */
  function PcIn(st: State): nat {
    match st
    case In(b, i, _) => b + i
    case Out(_, pc, _) => pc
    case Stuck => 1024
  }

  /** A compiled state shows exactly the interpreter's: program counter, registers, data memory,
      coprocessors; and a finished run has everything in CPUState, with no branch left over. */
  ghost predicate Shows(S: Setup, st: State, o: Isa.Outcome) {
    && PcIn(st) == o.arch.pc
    && match st
       case In(b, i, h) =>
         && o.Running? && SourceOk(SourceAt(S, b)) && i < S.cut(b)
         && |o.arch.regs| == 32 && (forall m | 0 <= m <= 31 :: Visible(S, b, i, h, m) == o.arch.regs[m])
         && h.cpu.dmem == o.arch.dmem && h.cpu.cop == o.arch.cop
       case Out(mode, _, h) =>
         && o.Stopped? && o.mode == mode
         && |o.arch.regs| == 32 && |h.cpu.sr| == 33 && h.cpu.sr[..32] == o.arch.regs
         && h.cpu.dmem == o.arch.dmem && h.cpu.cop == o.arch.cop && h.cpu.hasDelay == 0
       case Stuck => false
  }

  lemma RelAtShows(S: Setup, b: nat, i: nat, h: Host, a: Isa.Arch, c: Word)
    requires RelAt(S, b, i, h, a, c)
    ensures Shows(S, In(b, i, h), Isa.Running(a))
  {
    hide Good, InSlot, Branching, LabelAt, Visible;
    forall m | 0 <= m <= 31 ensures Visible(S, b, i, h, m) == a.regs[m] {
      VisibleValue(S, b, i, h, a, c, m);
    }
  }

  lemma ArrivedShows(S: Setup, b: nat, i: nat, h: Host, a: Isa.Arch)
    requires Arrived(S, b, i, h, a)
    ensures Shows(S, In(b, i, h), Isa.Running(a))
  {
    hide Good, InSlot, LabelAt, Visible, Labelled;
    forall m | 0 <= m <= 31 ensures Visible(S, b, i, h, m) == a.regs[m] {
      ArchZero2(a);
      VisibleHeld(S, b, i, h, a, m);
    }
  }

  lemma VisibleHeld(S: Setup, b: nat, i: nat, h: Host, a: Isa.Arch, m: nat)
    requires SourceOk(SourceAt(S, b)) && i < S.cut(b) && |a.regs| == 32 && a.regs[0] == 0 && m <= 31
    requires Good(LabelAt(SourceAt(S, b), i).es, h, File(a.regs, 0), None, multiset{})
    ensures Visible(S, b, i, h, m) == a.regs[m]
  {
    hide LabelAt;
    GoodValue(LabelAt(SourceAt(S, b), i).es, h, File(a.regs, 0), m);
  }

  lemma RelShows(S: Setup, st: State, o: Isa.Outcome)
    requires SetupOk(S) && Rel(S, st, o)
    ensures Shows(S, st, o)
  {
    match st
    case In(b, i, h) =>
      assert o == Isa.Running(o.arch);
      if Arrived(S, b, i, h, o.arch) {
        hide *;
        ArrivedShows(S, b, i, h, o.arch);
      } else {
        var c :| RelAt(S, b, i, h, o.arch, c);
        hide *;
        RelAtShows(S, b, i, h, o.arch, c);
      }
    case Out(_, _, h) =>
      assert h.cpu.sr[..32] == o.arch.regs;
  }

  /** Compiled code shows the interpreter's state after each of the first n instructions. */
  ghost predicate Same(S: Setup, h: Host, a: Isa.Arch, n: nat) {
    SetupOk(S) && Isa.ArchOk(a) && Shows(S, RunCompiled(S, a.pc, h, n), Isa.Interpret(S.w, S.imem, a, n))
  }

  /** Meaning preservation. Start with the architectural state in CPUState; a branch may be pending
      from an earlier region. Until the interpreter has run an instruction from a mistaken slot, compiled
      code and interpreter show the same state, and one has stopped exactly when the other has. */
  lemma MeaningPreserved(S: Setup, h: Host, a: Isa.Arch, n: nat)
    requires SetupOk(S) && Parked(S, h, a) && Tame(S, a, n) && Avoids(S, a, n)
    ensures Same(S, h, a, n)
  {
    hide Rel, Shows, RunCompiled, Isa.Interpret, Tame, Avoids, Parked;
    RunRel(S, h, a, n);
    RelShows(S, RunCompiled(S, a.pc, h, n), Isa.Interpret(S.w, S.imem, a, n));
  }

  /** The first such step breaks agreement: its program counters differ. */
  lemma FirstLandingBreaks(S: Setup, h: Host, a: Isa.Arch, n: nat)
    requires SetupOk(S) && Parked(S, h, a) && Tame(S, a, n + 1) && Avoids(S, a, n) && !Avoids(S, a, n + 1)
    ensures !Same(S, h, a, n + 1)
  {
    hide Avoids, Tame, Calm, Parked, Shows, RunCompiled, Isa.Interpret, StepCompiled, Isa.Step, Lands, AtSlot, Rel, Agrees, Mistaken;
    ParkedPc(S, h, a);
    var st, o := RunCompiled(S, a.pc, h, n), Isa.Interpret(S.w, S.imem, a, n);
    AvoidsNext(S, a, n);
    TameNext(S, a, n);
    RunRel(S, h, a, n);
    AgreesParts(S, h, a, n);
    SameSlot(S, st, o, BaseAt(S, a, n));
    RunUnroll(S, a.pc, h, n + 1);
    InterpretUnroll(S.w, S.imem, a, n + 1);
    LandsMistaken(S, st, o);
    SilentBranchTaken(S, st, o);
    ShowsPc(S, StepCompiled(S, st), Isa.Step(S.w, S.imem, o.arch));
  }

  lemma ShowsPc(S: Setup, st: State, o: Isa.Outcome)
    ensures Shows(S, st, o) ==> PcIn(st) == o.arch.pc
  {
  }

  lemma RelPc(S: Setup, st: State, o: Isa.Outcome)
    requires Rel(S, st, o)
    ensures PcIn(st) == o.arch.pc
  {
    hide Good, InSlot, Branching, LabelAt, Labelled;
  }

  /** From a mistaken slot compiled code takes the branch of the BLEZ $0; the interpreter goes on. */
  lemma SilentBranchTaken(S: Setup, st: State, o: Isa.Outcome)
    requires Rel(S, st, o) && Lands(S, st, o) && Calm(S, st.b, o.arch) && Isa.ArchOk(o.arch)
    ensures st.b < 1024 && InstrAt(SourceAt(S, st.b), st.i - 1).Always?
    ensures PcIn(StepCompiled(S, st)) == InstrAt(SourceAt(S, st.b), st.i - 1).target
    ensures Isa.Step(S.w, S.imem, o.arch).arch.pc == NextPc(st.b + st.i)
  {
    LandsArrived(S, st, o);
    var b, i, h, a := st.b, st.i, st.host, o.arch;
    assert a.pc == b + i && a.pending == Isa.None;
    hide Good, LabelAt, File, Isa.Decode, Labelled, StepCompiled, Calm, Isa.Step, Rel, InstrAt;
    ArrivedStep(S, b, i, h, a);
    AlwaysInfo(SourceAt(S, b), i);
    StepPending(S, a, InstrAt(SourceAt(S, b), i - 1).target);
    RelPc(S, StepCompiled(S, st), Isa.Step(S.w, S.imem, WithBranch(S, b, i, a)));
  }

  /** Agreement, exactly: the first n instructions show the same if and only if none of the first n
      instructions of the interpreter's run starts from a mistaken slot. */
  lemma {:induction false} AgreementExact(S: Setup, h: Host, a: Isa.Arch, n: nat)
    requires SetupOk(S) && Parked(S, h, a) && Tame(S, a, n)
    ensures (forall k: nat | k <= n :: Same(S, h, a, k)) <==> Avoids(S, a, n)
    decreases n
  {
    hide *;
    ParkedPc(S, h, a);
    AvoidsNext(S, a, 0);
    TameNext(S, a, 0);
    if n == 0 {
      MeaningPreserved(S, h, a, 0);
    } else {
      AvoidsNext(S, a, n - 1);
      TameNext(S, a, n - 1);
      AgreementExact(S, h, a, n - 1);
      if Avoids(S, a, n) {
        MeaningPreserved(S, h, a, n);
      } else if Avoids(S, a, n - 1) {
        FirstLandingBreaks(S, h, a, n - 1);
      }
    }
  }

  /** At a label reached by a branch, likewise for the one step. */
  lemma ArrivalExact(S: Setup, b: nat, j: nat, h: Host, a: Isa.Arch)
    requires Arrived(S, b, j, h, a) && Calm(S, b, a)
    ensures Isa.ArchOk(a)
    ensures Shows(S, StepCompiled(S, In(b, j, h)), Isa.Step(S.w, S.imem, a)) <==> !Mistaken(S, b, j)
  {
    var st, o := In(b, j, h), Isa.Running(a);
    assert Lands(S, st, o) <==> Mistaken(S, b, j);
    assert Rel(S, st, o);
    assert SetupOk(S) && Isa.ArchOk(a);
    hide *;
    if Lands(S, st, o) {
      SilentBranchTaken(S, st, o);
      MistakenPc(S, b, j);
      ShowsPc(S, StepCompiled(S, st), Isa.Step(S.w, S.imem, a));
    } else {
      ArrivedHarmless(S, b, j, h, o);
      RelShows(S, StepCompiled(S, st), Isa.Step(S.w, S.imem, a));
    }
  }

  lemma MistakenPc(S: Setup, b: nat, i: nat)
    requires SetupOk(S) && Mistaken(S, b, i)
    ensures InstrAt(SourceAt(S, b), i - 1).target != NextPc(b + i)
  {
    hide InstrAt;
  }

  /** No BLEZ $0 has a delay slot that its own region can branch to, but for branches to the next word. */
  ghost predicate PlainSlots(S: Setup) {
    SetupOk(S) && forall b: nat, i: nat | b < 1024 && 1 <= i < S.cut(b) && Labelled(SourceAt(S, b), i) :: !Mistaken(S, b, i)
  }

  /** A condition on the program alone: then no run ever comes to a mistaken slot by a branch. */
  lemma {:induction false} PlainNeverLands(S: Setup, a: Isa.Arch, n: nat)
    requires SetupOk(S) && Isa.ArchOk(a) && Tame(S, a, n) && PlainSlots(S)
    ensures Avoids(S, a, n)
    decreases n
  {
    hide *;
    AvoidsNext(S, a, 0);
    if n > 0 {
      TameNext(S, a, n - 1);
      AvoidsNext(S, a, n - 1);
      PlainNeverLands(S, a, n - 1);
      var h := Representable(S, a);
      RunDefined(S, a);
      RunRel(S, h, a, n - 1);
      AgreesParts(S, h, a, n - 1);
      var st, o := RunCompiled(S, a.pc, h, n - 1), Isa.Interpret(S.w, S.imem, a, n - 1);
      PlainState(S, st, o);
      SameSlot(S, st, o, BaseAt(S, a, n - 1));
    }
  }

  lemma PlainState(S: Setup, st: State, o: Isa.Outcome)
    requires Rel(S, st, o) && PlainSlots(S)
    ensures !Lands(S, st, o)
  {
    hide Rel, Mistaken;
    if Lands(S, st, o) {
      LandsArrived(S, st, o);
      ArrivedPlain(S, st.b, st.i, st.host, o.arch);
      assert false;
    }
  }

  lemma ArrivedPlain(S: Setup, b: nat, i: nat, h: Host, a: Isa.Arch)
    requires Arrived(S, b, i, h, a) && PlainSlots(S)
    ensures !Mistaken(S, b, i)
  {
    hide Good, Settled, Mistaken, LabelAt, Labelled;
  }

  /** Every architectural state, a pending branch included, has a CPUState to start from. */
  lemma Representable(S: Setup, a: Isa.Arch) returns (h: Host)
    requires Isa.ArchOk(a)
    ensures Parked(S, h, a)
  {
    var target := if a.pending.Some? then a.pending.value * 4 else 0;
    h := Host(seq(S.hosts, _ => 0), 0, 0, CpuState(a.regs + [0], a.dmem, a.cop, if a.pending.Some? then 1 else 0, target));
  }

  /** A run that has stopped can be resumed, with instruction memory and its regions changed at will:
      the host state it leaves represents the architectural state for the next run. */
  lemma StoppedResumes(S: Setup, h: Host, a: Isa.Arch, n: nat, S': Setup)
    requires SetupOk(S) && Parked(S, h, a) && Tame(S, a, n) && Avoids(S, a, n) && S'.hosts == S.hosts
    requires RunCompiled(S, a.pc, h, n).Out?
    ensures var o := Isa.Interpret(S.w, S.imem, a, n);
            o.Stopped? && Parked(S', RunCompiled(S, a.pc, h, n).host, o.arch)
  {
    hide RunCompiled, Isa.Interpret, Tame, Avoids;
    RunRel(S, h, a, n);
  }

  /** Two ways of cutting instruction memory into regions cannot be told apart. */
  lemma CutsDoNotMatter(S: Setup, cut: nat -> nat, h: Host, a: Isa.Arch, n: nat)
    requires SetupOk(S) && SetupOk(S.(cut := cut)) && Parked(S, h, a)
    requires Tame(S, a, n) && Avoids(S, a, n) && Tame(S.(cut := cut), a, n) && Avoids(S.(cut := cut), a, n)
    ensures var st, st' := RunCompiled(S, a.pc, h, n), RunCompiled(S.(cut := cut), a.pc, h, n);
            && PcIn(st) == PcIn(st') && st.Out? == st'.Out?
            && (st.Out? ==> st.mode == st'.mode && |st.host.cpu.sr| == |st'.host.cpu.sr| == 33
                            && st.host.cpu.sr[..32] == st'.host.cpu.sr[..32]
                            && st.host.cpu.dmem == st'.host.cpu.dmem && st.host.cpu.cop == st'.host.cpu.cop)
  {
    MeaningPreserved(S, h, a, n);
    MeaningPreserved(S.(cut := cut), h, a, n);
    hide RunCompiled, Isa.Interpret, Tame, Avoids, Parked, Visible;
  }

  // ---------------------------------------------------------------- a program that lands

  /** J 3; a slot; BLEZ $0 to 5, whose slot is word 3. */
  function ExampleImem(): Isa.Imem {
    [0x0800_0003, 0, 0x1800_0002] + seq(1021, _ => 0)
  }

  lemma ExampleWords(k: nat)
    requires k < 1024
    ensures ExampleImem()[k] == if k == 0 then 0x0800_0003 else if k == 2 then 0x1800_0002 else 0
  {
  }

  lemma ExampleDecodes(p: nat)
    requires p < 1024
    ensures var i := Isa.Decode(ExampleImem()[p], p);
            i == if p == 0 then Isa.Jump(false, 3) else if p == 2 then Isa.Always(5) else Isa.Nop
  {
    ExampleWords(p);
    hide ExampleImem;
  }

  function WholeImem(b: nat): nat {
    if b < 1024 then 1024 - b else 1
  }

  /** One region from every entry to the end of memory. */
  function Example(w: World, hosts: nat): Setup {
    Setup(w, ExampleImem(), WholeImem, hosts)
  }

  lemma ExampleParts(w: World, hosts: nat)
    ensures var S := Example(w, hosts); S.cut(0) == 1024 && S.imem == ExampleImem() && S.w == w && S.hosts == hosts
  {
    hide ExampleImem;
  }

  lemma ExampleNoDoubleDelay()
    ensures NoDoubleDelay(ExampleImem())
  {
    hide ExampleImem, Isa.Decode;
    forall p: nat | p < 1024 && Isa.IsBranch(Isa.Decode(ExampleImem()[p], p))
      ensures !Isa.IsBranch(Isa.Decode(ExampleImem()[NextPc(p)], NextPc(p)))
    {
      ExampleDecodes(p);
      ExampleDecodes(NextPc(p));
    }
  }

  /** What the example does for two instructions. */
  lemma ExampleSteps(w: World, a: Isa.Arch)
    requires Isa.ArchOk(a) && a.pc == 0 && a.pending == Isa.None
    ensures var a1 := Isa.Interpret(w, ExampleImem(), a, 1); var a2 := Isa.Interpret(w, ExampleImem(), a, 2);
            && Isa.Interpret(w, ExampleImem(), a, 0) == Isa.Running(a)
            && a1.Running? && a1.arch.pc == 1 && a1.arch.pending == Isa.Some(3)
            && a2.Running? && a2.arch.pc == 3 && a2.arch.pending == Isa.None
  {
    hide ExampleImem, Isa.Decode;
    ExampleDecodes(0);
    ExampleDecodes(1);
    InterpretUnroll(w, ExampleImem(), a, 0);
    InterpretUnroll(w, ExampleImem(), a, 1);
    InterpretUnroll(w, ExampleImem(), a, 2);
  }

  /** They stay in the region of word 0, and come to the slot of the BLEZ $0 by its J. */
  lemma ExampleLands(w: World, hosts: nat, a: Isa.Arch)
    requires hosts >= 3 && Isa.ArchOk(a) && a.pc == 0 && a.pending == Isa.None
    ensures var S := Example(w, hosts);
            && BaseAt(S, a, 2) == 0 && Avoids(S, a, 2) && AtSlot(S, 0, Isa.Interpret(w, S.imem, a, 2))
  {
    var S := Example(w, hosts);
    ExampleParts(w, hosts);
    ExampleMistaken(w, hosts);
    ExampleSteps(w, a);
    ExampleDecodes(0);
    ExampleNotFirst(w, hosts);
    hide Example, ExampleImem, Isa.Decode, Isa.Interpret, Mistaken;
    BaseUnroll(S, a, 1);
    BaseUnroll(S, a, 2);
    AvoidsNext(S, a, 0);
    AvoidsNext(S, a, 1);
  }

  lemma ExampleNotFirst(w: World, hosts: nat)
    requires hosts >= 3
    ensures SetupOk(Example(w, hosts)) && !Mistaken(Example(w, hosts), 0, 0)
  {
    hide ExampleImem, InstrAt;
  }

  lemma ExampleMistaken(w: World, hosts: nat)
    requires hosts >= 3
    ensures SetupOk(Example(w, hosts)) && Mistaken(Example(w, hosts), 0, 3)
  {
    ExampleInstrs(w, hosts);
    hide InstrAt, ExampleImem;
  }

  lemma ExampleInstrs(w: World, hosts: nat)
    requires hosts >= 3
    ensures var S := Example(w, hosts); var s := SourceAt(S, 0);
            && SetupOk(S) && InstrAt(s, 0) == Isa.Jump(false, 3) && InstrAt(s, 1) == Isa.Nop
            && InstrAt(s, 2) == Isa.Always(5) && InstrAt(s, 3) == Isa.Nop
  {
    hide ExampleImem, Isa.Decode;
    ExampleDecodes(0);
    ExampleDecodes(1);
    ExampleDecodes(2);
    ExampleDecodes(3);
  }

  lemma ExampleStart(w: World, hosts: nat) returns (h: Host, a: Isa.Arch)
    ensures Parked(Example(w, hosts), h, a) && Isa.ArchOk(a) && a.pc == 0 && a.pending == Isa.None
  {
    a := Isa.Arch(0, seq(32, _ => 0), seq(4096, _ => 0), 0, Isa.None);
    h := Representable(Example(w, hosts), a);
  }

  /** A program that lands, run from the enter thunk: no branch is in a delay slot, two instructions
      agree, and after the third compiled code is at word 5 and the interpreter at word 4. */
  lemma BlezZeroDiffers(w: World, hosts: nat) returns (h: Host, a: Isa.Arch)
    requires hosts >= 3
    ensures var S := Example(w, hosts);
            && NoDoubleDelay(S.imem) && Parked(S, h, a) && a.pc == 0 && a.pending == Isa.None
            && Same(S, h, a, 2) && !Same(S, h, a, 3)
            && PcIn(RunCompiled(S, 0, h, 3)) == 5 && Isa.Interpret(w, S.imem, a, 3).arch.pc == 4
  {
    hide RunCompiled, Isa.Interpret, StepCompiled, Isa.Step, Same, Shows, Rel, Agrees, Lands, Avoids, Tame, Calm, AtSlot, Mistaken, BaseAt,
         Parked, NoDoubleDelay, Example, ExampleImem, InstrAt, Isa.Decode, Isa.ArchOk;
    var S := Example(w, hosts);
    h, a := ExampleStart(w, hosts);
    ExampleNoDoubleDelay();
    ExampleInstrs(w, hosts);
    ExampleParts(w, hosts);
    ExampleLands(w, hosts, a);
    ExampleSteps(w, a);
    RunDefined(S, a);
    var st, o := RunCompiled(S, 0, h, 2), Isa.Interpret(w, S.imem, a, 2);
    PlainTame(S, a, 3);
    TameNext(S, a, 2);
    AvoidsNext(S, a, 2);
    MeaningPreserved(S, h, a, 2);
    FirstLandingBreaks(S, h, a, 2);
    RunRel(S, h, a, 2);
    AgreesParts(S, h, a, 2);
    SameSlot(S, st, o, 0);
    RelPlace(S, st, o);
    RunUnroll(S, 0, h, 3);
    InterpretUnroll(w, S.imem, a, 3);
    LandsMistaken(S, st, o);
    SilentBranchTaken(S, st, o);
  }
}

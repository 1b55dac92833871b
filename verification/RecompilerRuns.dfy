/** Runs of compiled regions beside runs of the interpreter: where they agree, which region each
    instruction is run in, and the one place that parts them. */
module RecompilerRuns {
  import opened Words
  import opened HostCode
  import opened RegisterCache
  import opened Emitter
  import opened EmitterProof
  import opened Region
  import opened RegionProof
  import opened CacheTheorem
  import opened RecompilerProof
  import Isa

  lemma RunUnroll(S: Setup, pc: nat, h: Host, n: nat)
    requires SetupOk(S) && pc < 1024
    ensures RunCompiled(S, pc, h, n) == if n == 0 then Enter(S, pc, h) else StepCompiled(S, RunCompiled(S, pc, h, n - 1))
  {
    hide Enter, StepCompiled;
  }

  lemma InterpretUnroll(w: World, imem: Isa.Imem, a: Isa.Arch, n: nat)
    requires Isa.ArchOk(a)
    ensures Isa.ArchOk(Isa.Interpret(w, imem, a, n).arch)
    ensures n == 0 ==> Isa.Interpret(w, imem, a, n) == Isa.Running(a)
    ensures n > 0 ==> var o := Isa.Interpret(w, imem, a, n - 1);
              Isa.ArchOk(o.arch) && Isa.Interpret(w, imem, a, n) == if o.Stopped? then o else Isa.Step(w, imem, o.arch)
  {
    hide Isa.Step, Isa.ArchOk;
  }

  lemma ParkedPc(S: Setup, h: Host, a: Isa.Arch)
    requires Parked(S, h, a)
    ensures a.pc < 1024 && Isa.ArchOk(a)
  {
  }

  // ---------------------------------------------------------------- the slot of a BLEZ $0

  /** The slot of a BLEZ $0 in the region at b, reached by a branch: the branch before it comes from
      sequential code that was not run, and compiled code takes it all the same. */
  predicate Mistaken(S: Setup, b: nat, i: nat)
    requires SetupOk(S)
  {
    b < 1024 && 1 <= i < S.cut(b) && InstrAt(SourceAt(S, b), i - 1).Always? && InstrAt(SourceAt(S, b), i - 1).target != NextPc(b + i)
  }

  /** Compiled code is at such a slot, and the interpreter has no branch pending there. */
  ghost predicate Lands(S: Setup, st: State, o: Isa.Outcome) {
    SetupOk(S) && st.In? && o.Running? && Mistaken(S, st.b, st.i) && o.arch.pending == Isa.None
  }

  /** The architectural state compiled code runs on from. */
  function WithBranch(S: Setup, b: nat, i: nat, a: Isa.Arch): Isa.Arch
    requires SetupOk(S) && b < 1024 && 1 <= i < S.cut(b)
  {
    if InstrAt(SourceAt(S, b), i - 1).Always? then a.(pending := Isa.Some(InstrAt(SourceAt(S, b), i - 1).target)) else a
  }

  lemma ArrivedRel(S: Setup, b: nat, j: nat, h: Host, a: Isa.Arch)
    requires Arrived(S, b, j, h, a) && Calm(S, b, a)
    ensures RelAt(S, b, j, h, WithBranch(S, b, j, a), 0)
  {
    hide Good, LabelAt, File, Isa.Decode, Labelled, Isa.PcOf, Low, Calm;
    ClearPend(SourceAt(S, b), j, h);
    if InstrAt(SourceAt(S, b), j - 1).Always? {
      AlwaysInfo(SourceAt(S, b), j);
      SlotFacts(S, b, j, a);
    }
    hide InfoAt, LastInfo, InstrAt;
  }

  lemma ClearPend(s: Source, j: nat, h: Host)
    requires SourceOk(s) && 1 <= j < s.count && Labelled(s, j)
    ensures Pend(LastInfo(s, j), 0, h) == if InstrAt(s, j - 1).Always? then Isa.Some(InstrAt(s, j - 1).target) else Isa.None
  {
    hide Labelled, InstrAt, Isa.PcOf, Low;
  }

  lemma AlwaysInfo(s: Source, j: nat)
    requires SourceOk(s) && 1 <= j <= s.count && InstrAt(s, j - 1).Always?
    ensures LastInfo(s, j) == Info(true, false, false, InstrAt(s, j - 1).target, false)
    ensures InstrAt(s, j - 1).target < 1024
  {
    InstrValid(s, j - 1);
    hide InstrAt, Labelled;
  }

  /** A pending branch changes where an instruction goes and nothing else. */
  lemma StepPending(S: Setup, a: Isa.Arch, target: nat)
    requires Isa.ArchOk(a) && a.pending == Isa.None && target < 1024
    ensures var a' := a.(pending := Isa.Some(target));
            && Isa.ArchOk(a')
            && var o, o' := Isa.Step(S.w, S.imem, a), Isa.Step(S.w, S.imem, a');
            o.arch.pc == NextPc(a.pc) && o' == o.(arch := o.arch.(pc := target))
  {
    EffectPending(S.w, Isa.Decode(S.imem[a.pc], a.pc), a, Isa.Some(target));
    hide Isa.Do1, Isa.Decode;
  }

  lemma EffectPending(w: World, i: Isa.Instr, a: Isa.Arch, p: Isa.Option<nat>)
    ensures Isa.Do1(w, i, a.(pending := p)) == Isa.Do1(w, i, a)
  {
    hide Alu32, LoadBytes, StoreBytes;
  }

  lemma StillCalm(S: Setup, b: nat, j: nat, a: Isa.Arch)
    requires Calm(S, b, a) && 1 <= j < S.cut(b) && a.pc == b + j
    ensures Calm(S, b, WithBranch(S, b, j, a))
  {
    hide Isa.Decode;
    assert !Doubled(SourceAt(S, b), j);
  }

  /** One chunk of compiled code from a label reached by a branch: what the interpreter does with the
      branch of a BLEZ $0 before it pending. */
  lemma ArrivedStep(S: Setup, b: nat, j: nat, h: Host, a: Isa.Arch)
    requires Arrived(S, b, j, h, a) && Calm(S, b, a)
    ensures Isa.ArchOk(WithBranch(S, b, j, a)) && Rel(S, StepCompiled(S, In(b, j, h)), Isa.Step(S.w, S.imem, WithBranch(S, b, j, a)))
  {
    ArrivedRel(S, b, j, h, a);
    StillCalm(S, b, j, a);
    hide Good, LabelAt, File, Isa.Decode, Labelled, Isa.Step, StepCompiled, InstrAt, Calm, Branching, Rel;
    StepRel(S, b, j, h, WithBranch(S, b, j, a), 0);
  }

  // ---------------------------------------------------------------- agreement

  /** After n steps compiled code and interpreter are related. */
  ghost predicate Agrees(S: Setup, h: Host, a: Isa.Arch, n: nat) {
    SetupOk(S) && Isa.ArchOk(a) && Rel(S, RunCompiled(S, a.pc, h, n), Isa.Interpret(S.w, S.imem, a, n))
  }

  lemma AgreesAtStart(S: Setup, h: Host, a: Isa.Arch)
    requires SetupOk(S) && Parked(S, h, a)
    ensures Agrees(S, h, a, 0)
  {
    ParkedPc(S, h, a);
    hide Enter, Isa.ArchOk, Rel, Parked, RunCompiled, Isa.Interpret;
    RunUnroll(S, a.pc, h, 0);
    InterpretUnroll(S.w, S.imem, a, 0);
    EnterRel(S, a.pc, h, a);
  }

  lemma StateRel(S: Setup, st: State, o: Isa.Outcome)
    requires SetupOk(S) && Rel(S, st, o) && Isa.ArchOk(o.arch) && !Lands(S, st, o) && (st.In? ==> Calm(S, st.b, o.arch))
    ensures Rel(S, StepCompiled(S, st), if o.Stopped? then o else Isa.Step(S.w, S.imem, o.arch))
  {
    hide StepCompiled, Isa.Step, Calm, Isa.ArchOk, InSlot, RelAt, Arrived, Lands;
    match st
    case In(b, i, h) =>
      if Arrived(S, b, i, h, o.arch) {
        ArrivedHarmless(S, b, i, h, o);
      } else {
        var c :| RelAt(S, b, i, h, o.arch, c);
        StepRel(S, b, i, h, o.arch, c);
      }
    case Out(_, _, _) => StoppedStays(S, st);
  }

  lemma ArrivedHarmless(S: Setup, b: nat, i: nat, h: Host, o: Isa.Outcome)
    requires Arrived(S, b, i, h, o.arch) && Calm(S, b, o.arch) && o.Running? && !Lands(S, In(b, i, h), o)
    ensures Isa.ArchOk(o.arch) && Rel(S, StepCompiled(S, In(b, i, h)), Isa.Step(S.w, S.imem, o.arch))
  {
    ArrivedStep(S, b, i, h, o.arch);
    hide Good, LabelAt, File, Isa.Decode, Labelled, StepCompiled, Calm, Rel, Isa.Step, InSlot;
    if InstrAt(SourceAt(S, b), i - 1).Always? {
      AlwaysInfo(SourceAt(S, b), i);
      StepPending(S, o.arch, InstrAt(SourceAt(S, b), i - 1).target);
    }
  }

  lemma StoppedStays(S: Setup, st: State)
    requires SetupOk(S) && st.Out?
    ensures StepCompiled(S, st) == st
  {
  }

  lemma RunDefined(S: Setup, a: Isa.Arch)
    requires SetupOk(S) && Isa.ArchOk(a)
    ensures a.pc < 1024 && forall p: nat | p < 1024 :: SourceOk(SourceAt(S, p))
  {
  }

  lemma AgreesParts(S: Setup, h: Host, a: Isa.Arch, n: nat)
    requires Agrees(S, h, a, n)
    ensures SetupOk(S) && Isa.ArchOk(a) && Rel(S, RunCompiled(S, a.pc, h, n), Isa.Interpret(S.w, S.imem, a, n))
  {
    hide Rel, RunCompiled, Isa.Interpret;
  }

  /** A state that lands is one that arrived: run into sequentially, the branch would be pending. */
  lemma LandsArrived(S: Setup, st: State, o: Isa.Outcome)
    requires Rel(S, st, o) && Lands(S, st, o)
    ensures Arrived(S, st.b, st.i, st.host, o.arch)
  {
    forall c: Word ensures !RelAt(S, st.b, st.i, st.host, o.arch, c) {
      AlwaysPends(S, st.b, st.i, st.host, o.arch, c);
    }
    hide RelAt, Arrived, Mistaken;
  }

  lemma AlwaysPends(S: Setup, b: nat, i: nat, h: Host, a: Isa.Arch, c: Word)
    requires SetupOk(S) && Mistaken(S, b, i)
    ensures RelAt(S, b, i, h, a, c) ==> a.pending.Some?
  {
    AlwaysInfo(SourceAt(S, b), i);
    hide Good, InSlot, LabelAt, Labelled, LastInfo, InstrAt, Isa.ArchOk;
  }

  lemma LandsMistaken(S: Setup, st: State, o: Isa.Outcome)
    requires Lands(S, st, o)
    ensures SetupOk(S) && o.Running? && st.In? && st.b < 1024 && 1 <= st.i < S.cut(st.b)
    ensures InstrAt(SourceAt(S, st.b), st.i - 1).target != NextPc(st.b + st.i)
  {
    hide InstrAt;
  }

  // ---------------------------------------------------------------- the region an instruction is run in

  /** After the instruction of a in the region at b, with control going to pc: still in that region if
      it fell through to one of its words, or if a direct branch of the region led to one. */
  function NextBase(S: Setup, b: nat, a: Isa.Arch, pc: nat): nat {
    var stays :=
      if a.pending.Some? then b < a.pc <= 1024 && !Isa.Decode(S.imem[a.pc - 1], a.pc - 1).JumpReg? && b <= pc < b + S.cut(b)
      else a.pc + 1 < b + S.cut(b);
    if stays then b else pc
  }

  lemma NextIn(S: Setup, b: nat, i: nat, host: Host, a: Isa.Arch)
    requires SetupOk(S) && b < 1024 && i < S.cut(b) && a.pc == b + i && a.pending == Isa.None
    ensures var st := Next(S, b, i, host); st.In? && st.b == NextBase(S, b, a, NextPc(a.pc))
  {
    hide Run, ChunkAt, RegionCode, Low, Get, Clobber, SetSr, Isa.Decode;
  }

  lemma EnterIn(S: Setup, pc: nat, host: Host)
    requires SetupOk(S) && pc < 1024
    ensures var st := Enter(S, pc, host); st.In? && st.b == pc
  {
    hide Run, ChunkAt, Clobber, SetSr;
  }

  lemma ArriveIn(S: Setup, b: nat, i: nat, host: Host, a: Isa.Arch)
    requires SetupOk(S) && b < 1024 && 1 <= i < S.cut(b) && a.pc == b + i && a.pending.Some? && LastInfo(SourceAt(S, b), i).branch
    requires a.pending.value == TargetOf(LastInfo(SourceAt(S, b), i), host)
    ensures var st := Arrive(S, b, DestOf(SourceAt(S, b), LastInfo(SourceAt(S, b), i)), host);
            st.In? && st.b == NextBase(S, b, a, a.pending.value)
  {
    hide *;
    var s, pc := SourceAt(S, b), a.pending.value;
    SourceParts(S, b);
    LastTarget(s, i);
    IndirectOnly(s, i);
    ArriveWhere(S, b, LastInfo(s, i), host);
    EnterIn(S, pc, host);
    BranchBase(S, b, a, pc);
  }

  lemma SourceParts(S: Setup, b: nat)
    requires SetupOk(S) && b < 1024
    ensures var s := SourceAt(S, b); SourceOk(s) && s.base == b && s.count == S.cut(b) && s.imem == S.imem && b + S.cut(b) <= 1024
  {
  }

  lemma BranchBase(S: Setup, b: nat, a: Isa.Arch, pc: nat)
    requires a.pending.Some? && b < a.pc <= 1024
    ensures NextBase(S, b, a, pc) ==
              if !Isa.Decode(S.imem[a.pc - 1], a.pc - 1).JumpReg? && b <= pc < b + S.cut(b) then b else pc
  {
    hide Isa.Decode;
  }

  lemma ArriveWhere(S: Setup, b: nat, last: Info, host: Host)
    requires SetupOk(S) && b < 1024 && last.target < 1024
    ensures TargetOf(last, host) < 1024
    ensures Arrive(S, b, DestOf(SourceAt(S, b), last), host) ==
              if !last.indirect && b <= last.target < b + S.cut(b) then In(b, last.target - b, host) else Enter(S, TargetOf(last, host), host)
    ensures !last.indirect ==> TargetOf(last, host) == last.target
  {
    hide Enter, Low, Isa.PcOf;
  }

  lemma IndirectOnly(s: Source, i: nat)
    requires SourceOk(s) && 1 <= i <= s.count
    ensures LastInfo(s, i).indirect <==> Isa.Decode(s.imem[s.base + i - 1], s.base + i - 1).JumpReg?
  {
    hide Isa.Decode, Labelled;
  }

  /** A chunk that does not end the run: its body, its tail and a transfer of control. */
  lemma StepTransfers(S: Setup, b: nat, i: nat, h: Host, a: Isa.Arch, c: Word)
    requires RelAt(S, b, i, h, a, c) && EffectAt(S, a).mode == Isa.MODE_CONTINUE
    ensures var s := SourceAt(S, b); var h1 := Run(S.w, BodyAt(s, i).code, h); var n := Labelled(s, i + 1);
            && StepCompiled(S, In(b, i, h)) == Transfer(S, b, i, ChunkAt(s, i).control, Run(S.w, TailAt(s, i).code, h1))
            && Done(S, b, i, h, a, h1, EffectAt(S, a), CondAfter(InstrAt(s, i), a.regs, n, c))
            && !InfoAt(s, i).handlesDelaySlot && InfoAt(s, i).branch == Isa.IsBranch(InstrAt(s, i))
  {
    hide Good, Sim, Isa.ArchOk, InSlot, File, BodyAt, TailAt, LabelAt, Labelled, ChunkAt, Isa.Do1, Isa.Decode, Transfer,
         Branching, ExitTo, LastInfo, Run, CondAfter, InfoOf;
    var s := SourceAt(S, b);
    ChunkParts(s, i);
    StepBody(S, b, i, h, a, c);
    ModeOnly(S.w, InstrAt(s, i), a);
    HandlesOnly(InstrAt(s, i), Labelled(s, i + 1));
  }

  /** The region compiled code is in next. */
  lemma StepBase(S: Setup, b: nat, i: nat, h: Host, a: Isa.Arch, c: Word)
    requires RelAt(S, b, i, h, a, c) && Calm(S, b, a) && EffectAt(S, a).mode == Isa.MODE_CONTINUE
    ensures var st := StepCompiled(S, In(b, i, h)); st.In? && st.b == NextBase(S, b, a, AfterPc(a))
  {
    hide Good, Sim, Isa.ArchOk, InSlot, File, BodyAt, TailAt, LabelAt, Labelled, ChunkAt, EffectAt, Isa.Decode, Transfer, Calm,
         Run, InstrAt, InfoAt, LastInfo, CondAfter, NextBase, Next, Arrive, DestOf, StepCompiled, Isa.PcOf, Done;
    StepTransfers(S, b, i, h, a, c);
    if i == 0 {
      FirstBase(S, b, h, a, c);
    } else if LastInfo(SourceAt(S, b), i).branch {
      SlotBase(S, b, i, h, a, c);
    } else {
      LaterControl(SourceAt(S, b), i);
      var h1 := Run(S.w, BodyAt(SourceAt(S, b), i).code, h);
      FallTransfer(S, b, i, Run(S.w, TailAt(SourceAt(S, b), i).code, h1));
      NextIn(S, b, i, Run(S.w, TailAt(SourceAt(S, b), i).code, h1), a);
    }
  }

  lemma FallTransfer(S: Setup, b: nat, i: nat, host: Host)
    requires SetupOk(S) && b < 1024 && i < S.cut(b)
    ensures Transfer(S, b, i, Fall, host) == Next(S, b, i, host)
  {
  }

  lemma FirstBase(S: Setup, b: nat, h: Host, a: Isa.Arch, c: Word)
    requires RelAt(S, b, 0, h, a, c) && Calm(S, b, a) && EffectAt(S, a).mode == Isa.MODE_CONTINUE
    ensures var s := SourceAt(S, b); var h2 := Run(S.w, TailAt(s, 0).code, Run(S.w, BodyAt(s, 0).code, h));
            var st := Transfer(S, b, 0, ChunkAt(s, 0).control, h2);
            st.In? && st.b == NextBase(S, b, a, AfterPc(a))
  {
    hide Good, Sim, Isa.ArchOk, File, BodyAt, TailAt, LabelAt, Labelled, ChunkAt, EffectAt, Isa.Decode, Run, InstrAt, InfoAt,
         LastInfo, CondAfter, Next, StepCompiled, Isa.PcOf, SExt, JitReg, Table, Dead;
    var s := SourceAt(S, b);
    StepTransfers(S, b, 0, h, a, c);
    var h1 := Run(S.w, BodyAt(s, 0).code, h);
    var v := File(EffectAt(S, a).regs, CondAfter(InstrAt(s, 0), a.regs, Labelled(s, 1), c));
    FileSize(EffectAt(S, a).regs, CondAfter(InstrAt(s, 0), a.regs, Labelled(s, 1), c));
    TailRun(S.w, s, 0, h1, v);
    TailTest(S.w, s, 0, h1, v);
    FirstControl(s);
    SExtZero(h.cpu.hasDelay);
    var h2 := Run(S.w, TailAt(s, 0).code, h1);
    if h.cpu.hasDelay == 0 {
      NextIn(S, b, 0, h2, a);
    } else {
      assert !InfoAt(s, 0).branch by { SlotNotBranch(S, b, a); FirstInstr(S, b, a); }
    }
  }

  lemma FirstInstr(S: Setup, b: nat, a: Isa.Arch)
    requires SetupOk(S) && b < 1024 && a.pc == b
    ensures InstrAt(SourceAt(S, b), 0) == Isa.Decode(S.imem[a.pc], a.pc)
  {
  }

  lemma NoBranchCond(i: Isa.Instr, regs: seq<Word>, n: bool, c: Word)
    ensures !Isa.IsBranch(i) ==> CondAfter(i, regs, n, c) == c
  {
    hide Alu32;
  }

  lemma SlotBase(S: Setup, b: nat, i: nat, h: Host, a: Isa.Arch, c: Word)
    requires RelAt(S, b, i, h, a, c) && Calm(S, b, a) && EffectAt(S, a).mode == Isa.MODE_CONTINUE
    requires i >= 1 && LastInfo(SourceAt(S, b), i).branch
    ensures var s := SourceAt(S, b); var h2 := Run(S.w, TailAt(s, i).code, Run(S.w, BodyAt(s, i).code, h));
            var st := Transfer(S, b, i, ChunkAt(s, i).control, h2);
            st.In? && st.b == NextBase(S, b, a, AfterPc(a))
  {
    hide Good, Sim, Isa.ArchOk, InSlot, File, BodyAt, TailAt, LabelAt, Labelled, ChunkAt, EffectAt, Isa.Decode, Calm,
         Run, InstrAt, InfoAt, LastInfo, CondAfter, NextBase, Next, Arrive, DestOf, StepCompiled, Isa.PcOf, Table, Dead, Transfer;
    var s := SourceAt(S, b);
    StepTransfers(S, b, i, h, a, c);
    SlotFacts(S, b, i, a);
    NoBranchCond(InstrAt(s, i), a.regs, Labelled(s, i + 1), c);
    var h1 := Run(S.w, BodyAt(s, i).code, h);
    NoIndirect(InstrAt(s, i));
    SlotTransfer(S, b, i, h, a, c, h1);
    var h2, last := Run(S.w, TailAt(s, i).code, h1), LastInfo(s, i);
    assert TargetOf(last, h2) == TargetOf(last, h);
    if !last.conditional || c != 0 { ArriveIn(S, b, i, h2, a); } else { NextIn(S, b, i, h2, a); }
  }

  lemma NoIndirect(i: Isa.Instr)
    ensures i.JumpReg? ==> Isa.IsBranch(i)
  {
  }

  /** At a label reached by a branch: as if the branch of a BLEZ $0 to the next word were not there. */
  lemma HarmlessBase(S: Setup, b: nat, i: nat, a: Isa.Arch)
    requires SetupOk(S) && Isa.ArchOk(a) && b < 1024 && 1 <= i < S.cut(b) && a.pc == b + i && a.pending == Isa.None && !Mistaken(S, b, i)
    ensures var a' := WithBranch(S, b, i, a);
            AfterPc(a') == AfterPc(a) && NextBase(S, b, a', AfterPc(a)) == NextBase(S, b, a, AfterPc(a))
  {
    hide Isa.Decode;
  }

  lemma TrackStep(S: Setup, st: State, o: Isa.Outcome)
    requires SetupOk(S) && Rel(S, st, o) && Isa.ArchOk(o.arch) && !Lands(S, st, o) && (st.In? ==> Calm(S, st.b, o.arch))
    requires o.Running? && Isa.Step(S.w, S.imem, o.arch).Running?
    ensures var st' := StepCompiled(S, st);
            st.In? && st'.In? && st'.b == NextBase(S, st.b, o.arch, Isa.Step(S.w, S.imem, o.arch).arch.pc)
  {
    hide StepCompiled, Isa.Step, Calm, Isa.ArchOk, InSlot, RelAt, Arrived, Lands, EffectAt, AfterPc, NextBase;
    StepIs(S, o.arch);
    var b, i, h, a := st.b, st.i, st.host, o.arch;
    if Arrived(S, b, i, h, a) {
      ArrivedPlace(S, b, i, h, a);
      ArrivedStep(S, b, i, h, a);
      ArrivedRel(S, b, i, h, a);
      NotMistaken(S, st, o);
      StillCalm(S, b, i, a);
      HarmlessBase(S, b, i, a);
      TakenEffect(S, b, i, a);
      StepBase(S, b, i, h, WithBranch(S, b, i, a), 0);
    } else {
      var c :| RelAt(S, b, i, h, a, c);
      StepBase(S, b, i, h, a, c);
    }
  }

  lemma ArrivedPlace(S: Setup, b: nat, i: nat, h: Host, a: Isa.Arch)
    requires Arrived(S, b, i, h, a)
    ensures SetupOk(S) && b < 1024 && 1 <= i < S.cut(b) && a.pc == b + i && a.pending == Isa.None
  {
    hide Good, LabelAt, Labelled, Settled;
  }

  lemma NotMistaken(S: Setup, st: State, o: Isa.Outcome)
    requires SetupOk(S) && st.In? && o.Running? && o.arch.pending == Isa.None && !Lands(S, st, o)
    ensures !Mistaken(S, st.b, st.i)
  {
    hide Mistaken;
  }

  lemma TakenEffect(S: Setup, b: nat, i: nat, a: Isa.Arch)
    requires SetupOk(S) && b < 1024 && 1 <= i < S.cut(b) && a.pc < 1024
    ensures WithBranch(S, b, i, a).pc == a.pc && EffectAt(S, WithBranch(S, b, i, a)) == EffectAt(S, a)
  {
    EffectPending(S.w, Isa.Decode(S.imem[a.pc], a.pc), a, WithBranch(S, b, i, a).pending);
    hide Isa.Do1, Isa.Decode;
  }

  // ---------------------------------------------------------------- ... known from the interpreter's run

  /** The region of the n-th instruction of the interpreter's run. */
  function BaseAt(S: Setup, a: Isa.Arch, n: nat): nat
    requires Isa.ArchOk(a)
  {
    if n == 0 then a.pc
    else NextBase(S, BaseAt(S, a, n - 1), Isa.Interpret(S.w, S.imem, a, n - 1).arch, Isa.Interpret(S.w, S.imem, a, n).arch.pc)
  }

  /** The interpreter is at the slot of a BLEZ $0 of its region, to elsewhere than the next word, and no
      branch is pending: a branch of the region led there. */
  ghost predicate AtSlot(S: Setup, b: nat, o: Isa.Outcome) {
    SetupOk(S) && o.Running? && o.arch.pending == Isa.None && b <= o.arch.pc && Mistaken(S, b, o.arch.pc - b)
  }

  /** None of the first n instructions is there. Program, regions and the interpreter's run decide it. */
  ghost predicate Avoids(S: Setup, a: Isa.Arch, n: nat) {
    SetupOk(S) && Isa.ArchOk(a) && forall k: nat | k < n :: !AtSlot(S, BaseAt(S, a, k), Isa.Interpret(S.w, S.imem, a, k))
  }

  lemma AvoidsNext(S: Setup, a: Isa.Arch, n: nat)
    requires SetupOk(S) && Isa.ArchOk(a)
    ensures Avoids(S, a, 0)
    ensures Avoids(S, a, n + 1) <==> Avoids(S, a, n) && !AtSlot(S, BaseAt(S, a, n), Isa.Interpret(S.w, S.imem, a, n))
  {
    hide AtSlot, BaseAt, Isa.Interpret;
  }

  /** Of the first n instructions none is a branch in a delay slot, and the regions they are in hold none. */
  ghost predicate Tame(S: Setup, a: Isa.Arch, n: nat) {
    SetupOk(S) && Isa.ArchOk(a) &&
    forall k: nat | k < n && Isa.Interpret(S.w, S.imem, a, k).Running? :: Calm(S, BaseAt(S, a, k), Isa.Interpret(S.w, S.imem, a, k).arch)
  }

  lemma TameNext(S: Setup, a: Isa.Arch, n: nat)
    requires SetupOk(S) && Isa.ArchOk(a)
    ensures Tame(S, a, 0)
    ensures Tame(S, a, n + 1) <==> Tame(S, a, n) && var o := Isa.Interpret(S.w, S.imem, a, n); o.Running? ==> Calm(S, BaseAt(S, a, n), o.arch)
  {
    hide Calm, BaseAt, Isa.Interpret;
  }

  /** As long as the run comes to no such slot, compiled code stays with the interpreter, and in the region
      the interpreter's run says. */
  lemma {:induction false} RunRel(S: Setup, h: Host, a: Isa.Arch, n: nat)
    requires SetupOk(S) && Parked(S, h, a) && Tame(S, a, n) && Avoids(S, a, n)
    ensures Agrees(S, h, a, n)
    ensures Isa.Interpret(S.w, S.imem, a, n).Running? ==>
              var st := RunCompiled(S, a.pc, h, n); st.In? && st.b == BaseAt(S, a, n)
    decreases n
  {
    hide *;
    ParkedPc(S, h, a);
    RunDefined(S, a);
    if n == 0 {
      AgreesAtStart(S, h, a);
      StartBase(S, h, a);
    } else {
      TameNext(S, a, n - 1);
      AvoidsNext(S, a, n - 1);
      RunRel(S, h, a, n - 1);
      RunNext(S, h, a, n - 1);
    }
  }

  lemma RunNext(S: Setup, h: Host, a: Isa.Arch, n: nat)
    requires Agrees(S, h, a, n) && Tame(S, a, n + 1) && Avoids(S, a, n + 1)
    requires Isa.Interpret(S.w, S.imem, a, n).Running? ==> var st := RunCompiled(S, a.pc, h, n); st.In? && st.b == BaseAt(S, a, n)
    ensures Agrees(S, h, a, n + 1)
    ensures Isa.Interpret(S.w, S.imem, a, n + 1).Running? ==>
              var st := RunCompiled(S, a.pc, h, n + 1); st.In? && st.b == BaseAt(S, a, n + 1)
  {
    hide StepCompiled, Isa.Step, Rel, RunCompiled, Isa.Interpret, Lands, Tame, Avoids, AtSlot, Calm, BaseAt, NextBase, SetupOk;
    AgreesParts(S, h, a, n);
    RunDefined(S, a);
    var st, o := RunCompiled(S, a.pc, h, n), Isa.Interpret(S.w, S.imem, a, n);
    TameNext(S, a, n);
    AvoidsNext(S, a, n);
    InOnlyRunning(S, st, o);
    SameSlot(S, st, o, BaseAt(S, a, n));
    RunUnroll(S, a.pc, h, n + 1);
    InterpretUnroll(S.w, S.imem, a, n + 1);
    StateRel(S, st, o);
    BaseUnroll(S, a, n + 1);
    if o.Running? && Isa.Interpret(S.w, S.imem, a, n + 1).Running? { TrackStep(S, st, o); }
  }

  lemma InOnlyRunning(S: Setup, st: State, o: Isa.Outcome)
    requires Rel(S, st, o)
    ensures st.In? <==> o.Running?
  {
    hide RelAt, Arrived;
  }

  lemma StartBase(S: Setup, h: Host, a: Isa.Arch)
    requires SetupOk(S) && Isa.ArchOk(a)
    ensures var st := RunCompiled(S, a.pc, h, 0); st.In? && st.b == BaseAt(S, a, 0)
  {
    hide Run, ChunkAt, Clobber;
  }

  lemma BaseUnroll(S: Setup, a: Isa.Arch, n: nat)
    requires Isa.ArchOk(a) && n > 0
    ensures BaseAt(S, a, n) == NextBase(S, BaseAt(S, a, n - 1), Isa.Interpret(S.w, S.imem, a, n - 1).arch, Isa.Interpret(S.w, S.imem, a, n).arch.pc)
  {
    hide NextBase, Isa.Interpret;
  }

  lemma SameSlot(S: Setup, st: State, o: Isa.Outcome, b: nat)
    requires SetupOk(S) && Rel(S, st, o) && (o.Running? ==> st.In? && st.b == b)
    ensures Lands(S, st, o) <==> AtSlot(S, b, o)
  {
    hide Rel, Mistaken;
    if o.Running? { RelPlace(S, st, o); }
  }

  lemma RelPlace(S: Setup, st: State, o: Isa.Outcome)
    requires Rel(S, st, o) && st.In?
    ensures o.arch.pc == st.b + st.i
  {
    hide Good, InSlot, Branching, LabelAt, Labelled, Settled;
  }

  // ---------------------------------------------------------------- programs that are tame throughout

  /** No branch sits in another branch's delay slot; the last word's slot is word 0. */
  ghost predicate NoDoubleDelay(imem: Isa.Imem) {
    forall p: nat | p < 1024 && Isa.IsBranch(Isa.Decode(imem[p], p)) ::
      !Isa.IsBranch(Isa.Decode(imem[NextPc(p)], NextPc(p)))
  }

  lemma AfterInSlot(S: Setup, a: Isa.Arch)
    requires NoDoubleDelay(S.imem) && Isa.ArchOk(a) && InSlot(S.imem, a) && Isa.ArchOk(AfterArch(S, a))
    ensures InSlot(S.imem, AfterArch(S, a))
  {
    BranchOnly(S.w, Isa.Decode(S.imem[a.pc], a.pc), a);
    hide Isa.Decode, Isa.Do1;
  }

  lemma BranchOnly(w: World, i: Isa.Instr, a: Isa.Arch)
    ensures Isa.Do1(w, i, a).branch.Some? ==> Isa.IsBranch(i)
  {
    hide Alu32, LoadBytes, StoreBytes;
  }

  lemma NoneDoubled(S: Setup, b: nat, a: Isa.Arch)
    requires SetupOk(S) && NoDoubleDelay(S.imem) && b < 1024 && a.pc < 1024 && InSlot(S.imem, a)
    ensures Calm(S, b, a)
  {
    hide Isa.Decode;
    forall i: nat | 1 <= i < S.cut(b) ensures !Doubled(SourceAt(S, b), i) {
      assert NextPc(b + i - 1) == b + i;
    }
  }

  lemma StepInSlot(S: Setup, a: Isa.Arch)
    requires NoDoubleDelay(S.imem) && Isa.ArchOk(a) && InSlot(S.imem, a)
    ensures var o := Isa.Step(S.w, S.imem, a); Isa.ArchOk(o.arch) && InSlot(S.imem, o.arch)
  {
    StepIs(S, a);
    if EffectAt(S, a).mode == Isa.MODE_CONTINUE { AfterInSlot(S, a); }
    hide Isa.Do1, Isa.Decode, NoDoubleDelay, Isa.Step, EffectAt;
  }

  /** A condition on the program alone: no branch in a delay slot anywhere. */
  lemma {:induction false} PlainTame(S: Setup, a: Isa.Arch, n: nat)
    requires SetupOk(S) && NoDoubleDelay(S.imem) && Isa.ArchOk(a) && InSlot(S.imem, a)
    ensures Tame(S, a, n)
    ensures var o := Isa.Interpret(S.w, S.imem, a, n); o.arch.pc < 1024 && InSlot(S.imem, o.arch) && BaseAt(S, a, n) < 1024
    decreases n
  {
    hide NoDoubleDelay, InSlot, Isa.Interpret, BaseAt, Tame, Calm, Isa.Step, NextBase, SetupOk;
    InterpretUnroll(S.w, S.imem, a, n);
    if n == 0 {
      TameNext(S, a, 0);
      BaseFirst(S, a);
    } else {
      var o := Isa.Interpret(S.w, S.imem, a, n - 1);
      PlainTame(S, a, n - 1);
      TameNext(S, a, n - 1);
      InterpretUnroll(S.w, S.imem, a, n - 1);
      NoneDoubled(S, BaseAt(S, a, n - 1), o.arch);
      if o.Running? { StepInSlot(S, o.arch); }
      BaseUnroll(S, a, n);
      NextBaseSmall(S, BaseAt(S, a, n - 1), o.arch, Isa.Interpret(S.w, S.imem, a, n).arch.pc);
    }
  }

  lemma BaseFirst(S: Setup, a: Isa.Arch)
    requires Isa.ArchOk(a)
    ensures BaseAt(S, a, 0) == a.pc < 1024
  {
  }

  lemma NextBaseSmall(S: Setup, b: nat, a: Isa.Arch, pc: nat)
    requires b < 1024 && pc < 1024
    ensures NextBase(S, b, a, pc) < 1024
  {
    hide Isa.Decode;
  }
}

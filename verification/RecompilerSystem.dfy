/** The recompiler as a whole, over a mutable instruction memory: tasks set up from outside, runs out of
    the block table, and DMA that rewrites the program between one run and the next. */
module RecompilerSystem {
  import opened Words
  import opened HostCode
  import opened Region
  import opened RecompilerProof
  import opened RecompilerRuns
  import opened RecompilerTheorem
  import opened BlockTable
  import opened ServedRegions
  import Isa

  /** What happens to the RSP between two stops: the CPU writes instruction memory, data memory and the
      program counter and parallelRSPDoRspCycles compares memory; or CPU::run runs until code leaves,
      after n instructions. */
  datatype Turn = Task(writes: seq<(nat, Word)>, dmem: Dmem, pc: nat) | Go(n: nat)

  /** `ok` while every run has left and no hash collided. */
  datatype Machine = Machine(cache: Cache, host: Host, pc: nat, mode: nat, ok: bool)

  /** The interpreter over mutable memory. */
  datatype Model = Model(imem: Isa.Imem, arch: Isa.Arch, mode: nat)

  function Stored(m: Isa.Imem, ws: seq<(nat, Word)>): Isa.Imem {
    if ws == [] then m else Stored(m, ws[..|ws| - 1])[ws[|ws| - 1].0 % IMEM_WORDS := ws[|ws| - 1].1]
  }

  function WriteAll(c: Cache, ws: seq<(nat, Word)>): Cache {
    if ws == [] then c else Written(WriteAll(c, ws[..|ws| - 1]), ws[|ws| - 1].0 % IMEM_WORDS, ws[|ws| - 1].1)
  }

  function DmaAll(c: Cache, ws: seq<(nat, Word)>): Cache {
    if ws == [] then c else DmaWritten(DmaAll(c, ws[..|ws| - 1]), ws[|ws| - 1].0 % IMEM_WORDS, ws[|ws| - 1].1)
  }

  lemma {:induction false} WriteAllFrame(c: Cache, ws: seq<(nat, Word)>)
    ensures WriteAll(c, ws) == c.(imem := Stored(c.imem, ws))
  {
    if ws != [] { WriteAllFrame(c, ws[..|ws| - 1]); }
  }

  lemma {:induction false} DmaAllFrame(c: Cache, ws: seq<(nat, Word)>)
    ensures DmaAll(c, ws) == c.(imem := Stored(c.imem, ws), dirty := DmaAll(c, ws).dirty) && c.dirty <= DmaAll(c, ws).dirty
    ensures Marked(c) ==> Marked(DmaAll(c, ws))
  {
    hide Marked, Pattern;
    if ws != [] {
      DmaAllFrame(c, ws[..|ws| - 1]);
      if Marked(c) { DmaMarks(DmaAll(c, ws[..|ws| - 1]), ws[|ws| - 1].0 % IMEM_WORDS, ws[|ws| - 1].1); }
    }
  }

  function SetUp(host: Host, dmem: Dmem): Host {
    host.(cpu := host.cpu.(dmem := dmem))
  }

  /** CPU::run up to n instructions: invalidate_code, then enter. */
  ghost function Running(E: Env, m: Machine, n: nat): Served
    requires EnvOk(E) && |m.cache.blocks| == IMEM_WORDS && m.pc < IMEM_WORDS
  {
    RunServed(E, Apply(BuildOf(E), m.cache, InvalidateCode), m.pc, m.host, n)
  }

  ghost function Turned(E: Env, m: Machine, t: Turn): (m': Machine)
    requires EnvOk(E) && |m.cache.blocks| == IMEM_WORDS && m.pc < IMEM_WORDS
    ensures |m'.cache.blocks| == IMEM_WORDS && m'.pc < IMEM_WORDS
  {
    match t
    case Task(writes, dmem, pc) =>
      WriteAllFrame(m.cache, writes);
      Machine(ImemInvalidated(WriteAll(m.cache, writes)), SetUp(m.host, dmem), pc % IMEM_WORDS, m.mode, m.ok)
    case Go(n) =>
      var v := Running(E, m, n);
      if v.st.Out? then
        var ws := E.dma(v.st.mode, v.st.host.cpu.cop);
        DmaAllFrame(v.cache, ws);
        Machine(DmaAll(v.cache, ws), v.st.host, v.st.pc % IMEM_WORDS, v.st.mode, m.ok && v.ok)
      else m.(ok := false)
  }

  function Told(E: Env, a: Model, t: Turn): (a': Model)
    requires Isa.ArchOk(a.arch)
    ensures Isa.ArchOk(a'.arch)
  {
    match t
    case Task(writes, dmem, pc) => Model(Stored(a.imem, writes), a.arch.(pc := pc % IMEM_WORDS, dmem := dmem), a.mode)
    case Go(n) =>
      var o := Isa.Interpret(E.w, a.imem, a.arch, n);
      if o.Stopped? then Model(Stored(a.imem, E.dma(o.mode, o.arch.cop)), o.arch, o.mode) else a.(arch := o.arch)
  }

  ghost function MachineAfter(E: Env, m: Machine, turns: seq<Turn>): (m': Machine)
    requires EnvOk(E) && |m.cache.blocks| == IMEM_WORDS && m.pc < IMEM_WORDS
    ensures |m'.cache.blocks| == IMEM_WORDS && m'.pc < IMEM_WORDS
  {
    if turns == [] then m else Turned(E, MachineAfter(E, m, turns[..|turns| - 1]), turns[|turns| - 1])
  }

  function ModelAfter(E: Env, a: Model, turns: seq<Turn>): (a': Model)
    requires Isa.ArchOk(a.arch)
    ensures Isa.ArchOk(a'.arch)
  {
    if turns == [] then a else Told(E, ModelAfter(E, a, turns[..|turns| - 1]), turns[|turns| - 1])
  }

  // ---------------------------------------------------------------- what stays true

  /** The machine stands for the model. */
  ghost predicate Alike(E: Env, m: Machine, a: Model)
    requires EnvOk(E)
  {
    && TableOk(BuildOf(E), m.cache) && CompiledOk(BuildOf(E), m.cache) && m.cache.imem == a.imem
    && Parked(AnalysedSetup(E, a.imem), m.host, a.arch) && a.arch.pending == Isa.None
    && m.pc == a.arch.pc && m.mode == a.mode
  }

  /** The interpreter's run meets no branch in a delay slot, and no branch of a region leads it to a
      mistaken slot. */
  ghost predicate Fair(E: Env, a: Model, n: nat) {
    Tame(AnalysedSetup(E, a.imem), a.arch, n) && Avoids(AnalysedSetup(E, a.imem), a.arch, n)
  }

  /** In every run of the interpreter. */
  ghost predicate AllFair(E: Env, a: Model, turns: seq<Turn>)
    requires Isa.ArchOk(a.arch)
  {
    turns == [] ||
    var front, t := turns[..|turns| - 1], turns[|turns| - 1];
    AllFair(E, a, front) && (t.Go? ==> Fair(E, ModelAfter(E, a, front), t.n))
  }

  /** Before its runs a table is compared, then invalidated. */
  lemma ReadyForUse(E: Env, c: Cache)
    requires EnvOk(E) && TableOk(BuildOf(E), c) && CompiledOk(BuildOf(E), c) && Marked(c) && |c.blocks| == IMEM_WORDS
    ensures var c' := Apply(BuildOf(E), c, InvalidateCode); InUse(E, c') && c'.imem == c.imem
  {
    hide FreshBlock, HashOf, Marked, TableOk;
    if c.dirty == {} { NothingMarked(c); } else { CodeInvalidatedOk(BuildOf(E), c); }
  }

  lemma SameTable(E: Env, c: Cache, c': Cache)
    requires EnvOk(E) && TableOk(BuildOf(E), c) && CompiledOk(BuildOf(E), c)
    requires c' == c.(imem := c'.imem, dirty := c'.dirty) && c.dirty <= c'.dirty
    ensures TableOk(BuildOf(E), c') && CompiledOk(BuildOf(E), c')
  {
    hide FreshBlock, HashOf;
  }

  lemma TaskAlike(E: Env, m: Machine, a: Model, t: Turn)
    requires EnvOk(E) && Isa.ArchOk(a.arch) && |m.cache.blocks| == IMEM_WORDS && m.pc < IMEM_WORDS && Alike(E, m, a) && t.Task?
    ensures Alike(E, Turned(E, m, t), Told(E, a, t)) && Marked(Turned(E, m, t).cache)
  {
    var c := WriteAll(m.cache, t.writes);
    WriteAllFrame(m.cache, t.writes);
    SameTable(E, m.cache, ImemInvalidated(c));
    ImemInvalidatedMarks(c);
    hide TableOk, CompiledOk, Marked, Marks, Isa.Decode, EndOf;
  }

  /** A run out of the table, part of the way: the machine shows what the interpreter shows. */
  lemma RunShows(E: Env, m: Machine, a: Model, n: nat)
    requires EnvOk(E) && Isa.ArchOk(a.arch) && |m.cache.blocks| == IMEM_WORDS && m.pc < IMEM_WORDS
    requires Alike(E, m, a) && Marked(m.cache) && Fair(E, a, n) && Running(E, m, n).ok
    ensures var S, v := AnalysedSetup(E, a.imem), Running(E, m, n);
            && SetupOk(S) && InUse(E, v.cache) && v.cache.imem == a.imem && v.st == RunCompiled(S, a.arch.pc, m.host, n)
            && Shows(S, v.st, Isa.Interpret(E.w, a.imem, a.arch, n))
  {
    var c := Apply(BuildOf(E), m.cache, InvalidateCode);
    var S := AnalysedSetup(E, a.imem);
    AnalysedOk(E, a.imem, m.pc);
    hide TableOk, CompiledOk, Marked, InUse, RunServed, Tame, Avoids, Parked, Shows, RunCompiled, AnalysedSetup, Isa.Interpret, Apply, EndOf, RegionCode, FreshBlock;
    ReadyForUse(E, m.cache);
    ServedIsCompiled(E, c, m.pc, m.host, n);
    MeaningPreserved(S, m.host, a.arch, n);
    SameShows(S, m.host, a.arch, n);
    TracksUse(E, a.imem, Running(E, m, n));
  }

  lemma SameShows(S: Setup, h: Host, a: Isa.Arch, n: nat)
    requires Same(S, h, a, n)
    ensures SetupOk(S) && Isa.ArchOk(a) && Shows(S, RunCompiled(S, a.pc, h, n), Isa.Interpret(S.w, S.imem, a, n))
  {
    hide Shows, RunCompiled, Isa.Interpret;
  }

  lemma TracksUse(E: Env, m: Isa.Imem, v: Served)
    requires EnvOk(E) && Tracks(E, m, v)
    ensures InUse(E, v.cache) && v.cache.imem == m
  {
    hide InUse, FreshBlock;
  }

  lemma ShowsOut(S: Setup, st: State, o: Isa.Outcome)
    requires Shows(S, st, o) && st.Out?
    ensures o.Stopped? && st.mode == o.mode && st.pc == o.arch.pc && st.host.cpu.cop == o.arch.cop
  {
  }

  lemma InUseParts(E: Env, c: Cache)
    requires EnvOk(E) && InUse(E, c)
    ensures TableOk(BuildOf(E), c) && CompiledOk(BuildOf(E), c) && Marked(c)
  {
    hide TableOk, CompiledOk;
  }

  /** A stopped run leaves nothing pending, so it can be resumed on any program. */
  lemma ResumesAnywhere(E: Env, m: Machine, a: Model, n: nat, imem: Isa.Imem)
    requires EnvOk(E) && Isa.ArchOk(a.arch) && Parked(AnalysedSetup(E, a.imem), m.host, a.arch) && Fair(E, a, n)
    requires SetupOk(AnalysedSetup(E, a.imem)) && a.arch.pc < 1024 && RunCompiled(AnalysedSetup(E, a.imem), a.arch.pc, m.host, n).Out?
    ensures var o := Isa.Interpret(E.w, a.imem, a.arch, n);
            && o.Stopped? && o.arch.pending == Isa.None
            && Parked(AnalysedSetup(E, imem), RunCompiled(AnalysedSetup(E, a.imem), a.arch.pc, m.host, n).host, o.arch)
  {
    var S, S' := AnalysedSetup(E, a.imem), AnalysedSetup(E, imem);
    AnalysedOk(E, a.imem, 0);
    AnalysedOk(E, imem, 0);
    hide AnalysedSetup, RunCompiled, Isa.Interpret, Tame, Avoids, Parked, EndOf, RegionCode, FreshBlock, SetupOk;
    StoppedResumes(S, m.host, a.arch, n, S');
    ParkedPending(S', RunCompiled(S, a.arch.pc, m.host, n).host, Isa.Interpret(E.w, a.imem, a.arch, n).arch);
    StoppedClear(S, m.host, a.arch, n);
  }

  lemma ParkedPending(S: Setup, h: Host, a: Isa.Arch)
    requires Parked(S, h, a)
    ensures a.pending == Carried(h)
  {
  }

  /** ... in CPUState as well. */
  lemma StoppedClear(S: Setup, h: Host, a: Isa.Arch, n: nat)
    requires SetupOk(S) && Isa.ArchOk(a) && Parked(S, h, a) && Tame(S, a, n) && Avoids(S, a, n)
    requires a.pc < 1024 && RunCompiled(S, a.pc, h, n).Out?
    ensures Carried(RunCompiled(S, a.pc, h, n).host) == Isa.None
  {
    MeaningPreserved(S, h, a, n);
    hide Tame, Avoids, Parked, RunCompiled, Isa.Interpret, Visible;
  }

  lemma GoAlike(E: Env, m: Machine, a: Model, n: nat)
    requires EnvOk(E) && Isa.ArchOk(a.arch) && |m.cache.blocks| == IMEM_WORDS && m.pc < IMEM_WORDS
    requires Alike(E, m, a) && Marked(m.cache) && Fair(E, a, n) && Turned(E, m, Go(n)).ok
    ensures Alike(E, Turned(E, m, Go(n)), Told(E, a, Go(n))) && Marked(Turned(E, m, Go(n)).cache)
  {
    hide TableOk, CompiledOk, Marked, InUse, Tame, Avoids, Parked, Shows, RunCompiled, AnalysedSetup, Isa.Interpret,
         Running, DmaAll, Isa.ArchOk, SetupOk, Turned, Told;
    var S, v, o := AnalysedSetup(E, a.imem), Running(E, m, n), Isa.Interpret(E.w, a.imem, a.arch, n);
    TurnOut(E, m, n);
    var ws := E.dma(v.st.mode, v.st.host.cpu.cop);
    RunShows(E, m, a, n);
    ShowsOut(S, v.st, o);
    ArchPc(a.arch);
    ResumesAnywhere(E, m, a, n, Stored(a.imem, ws));
    InUseParts(E, v.cache);
    DmaAllFrame(v.cache, ws);
    SameTable(E, v.cache, DmaAll(v.cache, ws));
    InterpretUnroll(E.w, a.imem, a.arch, n);
    ArchPc(o.arch);
    ToldStopped(E, a, n);
    hide Fair;
  }

  lemma TurnOut(E: Env, m: Machine, n: nat)
    requires EnvOk(E) && |m.cache.blocks| == IMEM_WORDS && m.pc < IMEM_WORDS && Turned(E, m, Go(n)).ok
    ensures var v := Running(E, m, n);
            && v.ok && v.st.Out?
            && Turned(E, m, Go(n)) == Machine(DmaAll(v.cache, E.dma(v.st.mode, v.st.host.cpu.cop)), v.st.host, v.st.pc % IMEM_WORDS, v.st.mode, true)
  {
    hide Running, DmaAll;
  }

  lemma ToldStopped(E: Env, a: Model, n: nat)
    requires Isa.ArchOk(a.arch) && Isa.Interpret(E.w, a.imem, a.arch, n).Stopped?
    ensures var o := Isa.Interpret(E.w, a.imem, a.arch, n);
            Told(E, a, Go(n)) == Model(Stored(a.imem, E.dma(o.mode, o.arch.cop)), o.arch, o.mode)
  {
    hide Isa.Interpret, Stored;
  }

  lemma ArchPc(a: Isa.Arch)
    requires Isa.ArchOk(a)
    ensures a.pc < IMEM_WORDS
  {
  }

  /** `ok` is not regained. */
  lemma OkBefore(E: Env, m: Machine, t: Turn)
    requires EnvOk(E) && |m.cache.blocks| == IMEM_WORDS && m.pc < IMEM_WORDS && Turned(E, m, t).ok
    ensures m.ok
  {
    hide Running, DmaAll, WriteAll;
  }

  /** The recompiler with its table, over any history that begins with a task: whatever the CPU and DMA
      wrote to instruction memory in between, after every run it stands where the interpreter of that
      memory stands, with the same registers, memories, program counter and mode. */
  lemma {:induction false} SystemCorrect(E: Env, m: Machine, a: Model, turns: seq<Turn>)
    requires EnvOk(E) && Isa.ArchOk(a.arch) && |m.cache.blocks| == IMEM_WORDS && m.pc < IMEM_WORDS && Alike(E, m, a)
    requires turns != [] && turns[0].Task? && AllFair(E, a, turns) && MachineAfter(E, m, turns).ok
    ensures Alike(E, MachineAfter(E, m, turns), ModelAfter(E, a, turns)) && Marked(MachineAfter(E, m, turns).cache)
    decreases |turns|
  {
    hide Alike, Fair, Turned, Told, Marked, Isa.ArchOk;
    var front, t := turns[..|turns| - 1], turns[|turns| - 1];
    OkBefore(E, MachineAfter(E, m, front), t);
    if front == [] {
      TaskAlike(E, m, a, t);
    } else {
      SystemCorrect(E, m, a, front);
      if t.Task? {
        TaskAlike(E, MachineAfter(E, m, front), ModelAfter(E, a, front), t);
      } else {
        GoAlike(E, MachineAfter(E, m, front), ModelAfter(E, a, front), t.n);
      }
    }
  }

  /** ... and in the middle of the next run, after every instruction, it shows what the interpreter shows. */
  lemma ServedCodeRuns(E: Env, m: Machine, a: Model, turns: seq<Turn>, n: nat)
    requires EnvOk(E) && Isa.ArchOk(a.arch) && |m.cache.blocks| == IMEM_WORDS && m.pc < IMEM_WORDS && Alike(E, m, a)
    requires turns != [] && turns[0].Task? && AllFair(E, a, turns) && MachineAfter(E, m, turns).ok
    requires Fair(E, ModelAfter(E, a, turns), n) && Running(E, MachineAfter(E, m, turns), n).ok
    ensures var m', a' := MachineAfter(E, m, turns), ModelAfter(E, a, turns);
            Shows(AnalysedSetup(E, a'.imem), Running(E, m', n).st, Isa.Interpret(E.w, a'.imem, a'.arch, n))
  {
    hide *;
    SystemCorrect(E, m, a, turns);
    RunShows(E, MachineAfter(E, m, turns), ModelAfter(E, a, turns), n);
  }

  /** The constructor's state, with any instruction memory and CPUState, is one to begin from. */
  lemma PoweredOn(E: Env, imem: Isa.Imem, host: Host, arch: Isa.Arch)
    requires EnvOk(E) && Parked(AnalysedSetup(E, imem), host, arch) && arch.pending == Isa.None
    ensures Alike(E, Machine(Initially(imem), host, arch.pc, 0, true), Model(imem, arch, 0))
  {
    hide Parked, FreshBlock, AnalysedSetup;
  }
}

/** Running regions out of the block table: what the code value of one region does, and the machine
    whose every entry is a lookup. It runs as `Region`'s machine does on the regions of current memory. */
module ServedRegions {
  import opened Words
  import opened HostCode
  import opened RegisterCache
  import opened Region
  import opened RecompilerProof
  import opened BlockTable
  import Isa

  // ---------------------------------------------------------------- one region's code

  /** Where a chunk goes: within the region, to the enter thunk with NEXT_PC, or back to the caller. */
  datatype Move =
    | Within(i: nat, host: Host)
    | Onward(pc: nat, host: Host)
    | Back(mode: nat, pc: nat, host: Host)
    | Lost

  function NextMove(w: World, code: Code, b: nat, i: nat, host: Host): Move {
    if i + 1 < |code.chunks| then Within(i + 1, Run(w, code.chunks[i + 1].enter, host))
    else Onward((b + |code.chunks|) % 1024, EndHost(code, Run(w, code.end, host)))
  }

  function DestMove(dest: Dest, host: Host): Move {
    match dest
    case Local(index) => Within(index, host)
    case Far(pc) => Onward(pc % 1024, host)
    case FarIndirect => Onward(Isa.PcOf(Low(host.ind)), host)
  }

  function ControlMove(w: World, code: Code, b: nat, i: nat, control: Control, host: Host): Move {
    match control
    case Fall => NextMove(w, code, b, i, host)
    case Latent(h, double) =>
      if Get(host, h) == 0 then NextMove(w, code, b, i, host)
      else if double then Lost
      else Onward(Isa.PcOf(host.cpu.target), SetDelay(host, 0))
    case TakeIf(h, dest) => if Get(host, h) != 0 then DestMove(dest, host) else NextMove(w, code, b, i, host)
    case Take(dest) => DestMove(dest, host)
    case DoubleDelay => Lost
  }

  function BackTo(st: State): Move {
    match st
    case Out(mode, pc, host) => Back(mode, pc, host)
    case _ => Lost
  }

  /** One chunk of the region's code. */
  function ChunkMove(w: World, code: Code, b: nat, i: nat, host: Host): Move
    requires i < |code.chunks|
  {
    var c := code.chunks[i];
    var h1 := Run(w, c.body, host);
    match c.exit
    case Leave(mode, first, last, pc) => BackTo(ExitTo(mode, first, last, pc, h1))
    case LeaveUnlessContinue(first, last, pc) =>
      if h1.mode != Isa.MODE_CONTINUE then BackTo(ExitTo(h1.mode, first, last, pc, h1))
      else ControlMove(w, code, b, i, c.control, Run(w, c.tail, h1))
    case Stay => ControlMove(w, code, b, i, c.control, Run(w, c.tail, h1))
  }

  /** The same move on the regions of S. */
  function Resolve(S: Setup, b: nat, m: Move): State
    requires forall p: nat | p < 1024 :: SourceOk(SourceAt(S, p))
  {
    match m
    case Within(i, host) => In(b, i, host)
    case Onward(pc, host) => Enter(S, pc % 1024, host)
    case Back(mode, pc, host) => Out(mode, pc, host)
    case Lost => Stuck
  }

  lemma CodeParts(s: Source, i: nat)
    requires SourceOk(s) && i < s.count
    ensures |RegionCode(s).chunks| == s.count && RegionCode(s).chunks[i] == ChunkAt(s, i)
  {
    hide ChunkAt, EndTail, Table, LastInfo;
  }

  lemma EndResolves(S: Setup, b: nat, code: Code, host: Host)
    requires SetupOk(S) && b < 1024 && code == RegionCode(SourceAt(S, b)) && |code.chunks| == S.cut(b)
    ensures Resolve(S, b, Onward((b + |code.chunks|) % 1024, EndHost(code, Run(S.w, code.end, host)))) == EndOfBlock(S, b, host)
  {
    hide RegionCode, Enter, Run, Get, Low, SourceAt;
  }

  lemma NextResolves(S: Setup, b: nat, i: nat, host: Host)
    requires SetupOk(S) && b < 1024 && i < S.cut(b)
    ensures Resolve(S, b, NextMove(S.w, RegionCode(SourceAt(S, b)), b, i, host)) == Next(S, b, i, host)
  {
    hide RegionCode, Enter, ChunkAt, Run, EndHost, EndOfBlock, SetupOk, Resolve;
    SetupParts(S, b);
    var s := SourceAt(S, b);
    var code := RegionCode(s);
    CodeParts(s, i);
    if i + 1 < S.cut(b) {
      CodeParts(s, i + 1);
      ResolvesWithin(S, b, i + 1, Run(S.w, ChunkAt(s, i + 1).enter, host));
    } else {
      EndResolves(S, b, code, host);
    }
  }

  lemma ResolvesWithin(S: Setup, b: nat, i: nat, host: Host)
    requires SetupOk(S)
    ensures Resolve(S, b, Within(i, host)) == In(b, i, host)
  {
  }

  lemma SetupParts(S: Setup, b: nat)
    requires SetupOk(S) && b < 1024
    ensures forall p: nat | p < 1024 :: SourceOk(SourceAt(S, p))
    ensures SourceAt(S, b).count == S.cut(b) && SourceOk(SourceAt(S, b))
  {
  }

  lemma DestResolves(S: Setup, b: nat, dest: Dest, host: Host)
    requires SetupOk(S) && b < 1024
    ensures Resolve(S, b, DestMove(dest, host)) == Arrive(S, b, dest, host)
  {
    hide Enter;
  }

  lemma EnterResolves(S: Setup, b: nat, address: Word, host: Host)
    requires SetupOk(S)
    ensures Resolve(S, b, Onward(Isa.PcOf(address), host)) == EnterAt(S, address, host)
  {
    hide Enter;
  }

  lemma ControlResolves(S: Setup, b: nat, i: nat, control: Control, host: Host)
    requires SetupOk(S) && b < 1024 && i < S.cut(b)
    ensures Resolve(S, b, ControlMove(S.w, RegionCode(SourceAt(S, b)), b, i, control, host)) == Transfer(S, b, i, control, host)
  {
    hide NextMove, DestMove, Next, Arrive, EnterAt, RegionCode, Get, SetDelay, Isa.PcOf, Enter, SourceAt;
    SetupParts(S, b);
    NextResolves(S, b, i, host);
    match control {
    case TakeIf(_, dest) => DestResolves(S, b, dest, host);
    case Take(dest) => DestResolves(S, b, dest, host);
    case Latent(_, _) => EnterResolves(S, b, host.cpu.target, SetDelay(host, 0));
    case _ =>
    }
    hide SetupOk;
    StuckResolves(S, b);
  }

  lemma StuckResolves(S: Setup, b: nat)
    requires forall p: nat | p < 1024 :: SourceOk(SourceAt(S, p))
    ensures Resolve(S, b, Lost) == Stuck
  {
  }

  lemma ExitResolves(S: Setup, b: nat, mode: nat, first: bool, last: Info, pc: nat, host: Host)
    requires SetupOk(S)
    ensures Resolve(S, b, BackTo(ExitTo(mode, first, last, pc, host))) == ExitTo(mode, first, last, pc, host)
  {
    hide TargetOf, SetDelay, Isa.PcOf, Enter;
  }

  /** A region's code does what `Region` says of its source. */
  lemma MoveResolves(S: Setup, b: nat, i: nat, host: Host)
    requires SetupOk(S) && b < 1024 && i < S.cut(b)
    ensures var code := RegionCode(SourceAt(S, b));
            i < |code.chunks| && Resolve(S, b, ChunkMove(S.w, code, b, i, host)) == StepCompiled(S, In(b, i, host))
  {
    hide RegionCode, Enter, ChunkAt, Run, Transfer, ControlMove, BackTo, ExitTo, Resolve, SetupOk;
    SetupParts(S, b);
    var s := SourceAt(S, b);
    CodeParts(s, i);
    var c := ChunkAt(s, i);
    var h1 := Run(S.w, c.body, host);
    ControlResolves(S, b, i, c.control, Run(S.w, c.tail, h1));
    match c.exit {
    case Leave(mode, first, last, pc) => ExitResolves(S, b, mode, first, last, pc, h1);
    case LeaveUnlessContinue(first, last, pc) => ExitResolves(S, b, h1.mode, first, last, pc, h1);
    case Stay =>
    }
  }

  // ---------------------------------------------------------------- entering through the table

  /** The world, the build, and what a call that left the given mode and coprocessors behind had written
      to instruction memory by DMA: word indices, wrapping at 4 KB, and words. */
  datatype Env = Env(w: World, hosts: nat, dma: (nat, Coprocessors) -> seq<(nat, Word)>)

  function BuildOf(E: Env): Build {
    Build(E.hosts, E.w.callerRegs)
  }

  predicate EnvOk(E: Env) {
    BuildOk(BuildOf(E))
  }

  function LengthOf(imem: Isa.Imem, pc: nat): nat {
    if pc < IMEM_WORDS then EndOf(imem, pc) - pc else 1
  }

  /** Regions cut by analyze_static_end. */
  function AnalysedSetup(E: Env, imem: Isa.Imem): Setup {
    Setup(E.w, imem, pc => LengthOf(imem, pc), E.hosts)
  }

  lemma AnalysedOk(E: Env, imem: Isa.Imem, pc: nat)
    requires EnvOk(E) && pc < IMEM_WORDS
    ensures SetupOk(AnalysedSetup(E, imem)) && AnalysedSetup(E, imem).cut(pc) == EndOf(imem, pc) - pc
    ensures FreshBlock(BuildOf(E), imem, pc) == RegionCode(SourceAt(AnalysedSetup(E, imem), pc))
    ensures AnalysedSetup(E, imem).w == E.w && AnalysedSetup(E, imem).imem == imem && AnalysedSetup(E, imem).hosts == E.hosts
  {
    hide RegionCode, EndOf;
  }

  /** The CPU inside a run: the table, the code it is in, and `ok` while no hash collided. */
  datatype Served = Served(cache: Cache, code: Code, st: State, ok: bool)

  /** rsp_enter: look the block up, clear sr[32], jump to it. */
  ghost function EnterServed(E: Env, c: Cache, pc: nat, host: Host, ok: bool): (v: Served)
    requires EnvOk(E) && pc < IMEM_WORDS == |c.blocks|
    ensures |v.cache.blocks| == IMEM_WORDS
  {
    var code, h := Found(BuildOf(E), c, pc), Clobber(E.w, host);
    var h0 := h.(mode := 0, cpu := SetSr(h.cpu, COND_BRANCH_TAKEN, 0));
    var c' := Apply(BuildOf(E), c, Lookup(pc));
    if code.chunks == [] then Served(c', code, Stuck, false)
    else Served(c', code, In(pc, 0, Run(E.w, code.chunks[0].enter, h0)), ok && NoCollision(c, pc))
  }

  ghost function StepServed(E: Env, v: Served): (v': Served)
    requires EnvOk(E) && |v.cache.blocks| == IMEM_WORDS
    ensures |v'.cache.blocks| == IMEM_WORDS
  {
    match v.st
    case In(b, i, host) =>
      if i >= |v.code.chunks| then v.(st := Stuck)
      else
        (match ChunkMove(E.w, v.code, b, i, host)
         case Within(j, h) => v.(st := In(b, j, h))
         case Onward(pc, h) => EnterServed(E, v.cache, pc % 1024, h, v.ok)
         case Back(mode, pc, h) => v.(st := Out(mode, pc, h))
         case Lost => v.(st := Stuck))
    case _ => v
  }

  ghost function RunServed(E: Env, c: Cache, pc: nat, host: Host, n: nat): (v: Served)
    requires EnvOk(E) && pc < IMEM_WORDS == |c.blocks|
    ensures |v.cache.blocks| == IMEM_WORDS
  {
    if n == 0 then EnterServed(E, c, pc, host, true) else StepServed(E, RunServed(E, c, pc, host, n - 1))
  }

  /** A table in step with its memory. */
  ghost predicate InUse(E: Env, c: Cache)
    requires EnvOk(E)
  {
    TableOk(BuildOf(E), c) && CompiledOk(BuildOf(E), c) && InSync(c)
  }

  /** The code being run is that of the current region of memory m. */
  ghost predicate Tracks(E: Env, m: Isa.Imem, v: Served)
    requires EnvOk(E)
  {
    && InUse(E, v.cache) && v.cache.imem == m
    && (v.st.In? ==> v.st.b < IMEM_WORDS && v.code == FreshBlock(BuildOf(E), m, v.st.b))
  }

  lemma EnterTracks(E: Env, c: Cache, pc: nat, host: Host, ok: bool)
    requires EnvOk(E) && InUse(E, c) && pc < IMEM_WORDS && EnterServed(E, c, pc, host, ok).ok
    ensures var v := EnterServed(E, c, pc, host, ok); var S := AnalysedSetup(E, c.imem);
            ok && Tracks(E, c.imem, v) && SetupOk(S) && v.st == Enter(S, pc, host)
  {
    hide FreshBlock, RegionCode, HashOf, Run, ChunkAt, TableOk, CompiledOk, EndOf;
    AnalysedOk(E, c.imem, pc);
    BlocksLength(E, c);
    LookedUpOk(BuildOf(E), c, pc);
    CodeParts(SourceAt(AnalysedSetup(E, c.imem), pc), 0);
    LookupKeepsImem(E, c, pc);
    hide Found, LookedUp, NoCollision;
  }

  lemma BlocksLength(E: Env, c: Cache)
    requires EnvOk(E) && TableOk(BuildOf(E), c)
    ensures |c.blocks| == IMEM_WORDS
  {
    hide FreshBlock;
  }

  lemma LookupKeepsImem(E: Env, c: Cache, pc: nat)
    requires EnvOk(E) && pc < IMEM_WORDS == |c.blocks|
    ensures LookedUp(BuildOf(E), c, pc).imem == c.imem
  {
    hide Found, HashOf;
  }

  lemma StepTracks(E: Env, m: Isa.Imem, v: Served)
    requires EnvOk(E) && Tracks(E, m, v) && |v.cache.blocks| == IMEM_WORDS && StepServed(E, v).ok
    ensures var v' := StepServed(E, v); var S := AnalysedSetup(E, m);
            v.ok && Tracks(E, m, v') && SetupOk(S) && v'.st == StepCompiled(S, v.st)
  {
    hide FreshBlock, RegionCode, EnterServed, ChunkMove, InUse, EndOf, StepCompiled, Enter, AnalysedSetup;
    var S := AnalysedSetup(E, m);
    AnalysedOk(E, m, 0);
    if v.st.In? {
      AnalysedOk(E, m, v.st.b);
      InsideTracks(E, m, v, v.st.b, v.st.i, v.st.host);
    } else {
      StaysPut(S, v.st);
    }
  }

  lemma InsideTracks(E: Env, m: Isa.Imem, v: Served, b: nat, i: nat, host: Host)
    requires EnvOk(E) && Tracks(E, m, v) && |v.cache.blocks| == IMEM_WORDS && StepServed(E, v).ok && v.st == In(b, i, host)
    requires var S := AnalysedSetup(E, m); SetupOk(S) && S.w == E.w && v.code == RegionCode(SourceAt(S, b))
    ensures var v' := StepServed(E, v); var S := AnalysedSetup(E, m);
            v.ok && Tracks(E, m, v') && v'.st == StepCompiled(S, v.st)
  {
    hide FreshBlock, RegionCode, EnterServed, ChunkMove, InUse, EndOf, StepCompiled, Enter, AnalysedSetup;
    var S := AnalysedSetup(E, m);
    assert v.cache.imem == m && InUse(E, v.cache) && b < IMEM_WORDS;
    CodeParts(SourceAt(S, b), 0);
    if i < S.cut(b) {
      MoveResolves(S, b, i, host);
      var move := ChunkMove(E.w, v.code, b, i, host);
      if move.Onward? { EnterTracks(E, v.cache, move.pc % 1024, move.host, v.ok); }
    } else {
      OutsideStuck(S, b, i, host);
    }
  }

  lemma StaysPut(S: Setup, st: State)
    requires SetupOk(S) && !st.In?
    ensures StepCompiled(S, st) == st
  {
  }

  lemma OutsideStuck(S: Setup, b: nat, i: nat, host: Host)
    requires SetupOk(S) && b < 1024 && i >= S.cut(b)
    ensures StepCompiled(S, In(b, i, host)) == Stuck
  {
  }

  /** Served out of the table, a run goes as it does on the regions of its memory. */
  lemma {:induction false} ServedIsCompiled(E: Env, c: Cache, pc: nat, host: Host, n: nat)
    requires EnvOk(E) && InUse(E, c) && pc < IMEM_WORDS == |c.blocks| && RunServed(E, c, pc, host, n).ok
    ensures var v := RunServed(E, c, pc, host, n); var S := AnalysedSetup(E, c.imem);
            Tracks(E, c.imem, v) && SetupOk(S) && v.st == RunCompiled(S, pc, host, n)
    decreases n
  {
    hide Tracks, StepServed, EnterServed, InUse, StepCompiled, Enter, EndOf, RegionCode, FreshBlock, AnalysedSetup;
    AnalysedOk(E, c.imem, pc);
    if n == 0 {
      EnterTracks(E, c, pc, host, true);
    } else {
      var v := RunServed(E, c, pc, host, n - 1);
      StepOkBefore(E, v);
      ServedIsCompiled(E, c, pc, host, n - 1);
      StepTracks(E, c.imem, v);
    }
  }

  /** A collision is not forgotten. */
  lemma StepOkBefore(E: Env, v: Served)
    requires EnvOk(E) && |v.cache.blocks| == IMEM_WORDS && StepServed(E, v).ok
    ensures v.ok
  {
    hide Found, LookedUp, ChunkMove, NoCollision, Apply;
  }
}

/** The table of compiled blocks and the dirty bits that keep it in step with a mutable instruction
    memory: invalidate_imem, invalidate_code, get_jit_block, and the DMA write that marks blocks.

    `dirty` is the set of bits of state.dirty_blocks; (0x3 << i) >> 1 is the bits i - 1 and i. */
module BlockTable {
  import opened Words
  import opened HostCode
  import opened RegisterCache
  import opened Emitter
  import opened StaticEnd
  import opened Region
  import Isa

  const CODE_BLOCKS := 16
  const CODE_BLOCK_WORDS := 64
  const IMEM_WORDS := 1024

  // ---------------------------------------------------------------- compiling depends on the region's words

  predicate SameSource(s: Source, s': Source) {
    && s.base == s'.base && s.count == s'.count && s.hosts == s'.hosts && s.callerRegs == s'.callerRegs
    && SourceOk(s) && Agree(s.imem, s'.imem, s.base, s.base + s.count)
  }

  lemma EntryLocal(m: Isa.Imem, m': Isa.Imem, pc: nat, end: nat, t: nat)
    requires Agree(m, m', pc, end)
    ensures IsEntry(m, pc, end, t) <==> IsEntry(m', pc, end, t)
  {
    hide FlowOf;
    if IsEntry(m, pc, end, t) {
      var p :| pc <= p < end && p < 1024 && GotoTarget(m, p) == Isa.Some(t);
      assert GotoTarget(m', p) == Isa.Some(t);
    }
    if IsEntry(m', pc, end, t) {
      var p :| pc <= p < end && p < 1024 && GotoTarget(m', p) == Isa.Some(t);
      assert GotoTarget(m, p) == Isa.Some(t);
    }
  }

  lemma LabelLocal(s: Source, s': Source, i: nat)
    requires SameSource(s, s')
    ensures Labelled(s, i) == Labelled(s', i)
  {
    EntryLocal(s.imem, s'.imem, s.base, s.base + s.count, s.base + i);
    hide IsEntry, Agree;
  }

  lemma InstrLocal(s: Source, s': Source, i: nat)
    requires SameSource(s, s') && i < s.count
    ensures InstrAt(s, i) == InstrAt(s', i)
  {
    hide Isa.Decode;
    assert s.imem[s.base + i] == s'.imem[s.base + i];
  }

  lemma PartsLocal(s: Source, s': Source, i: nat)
    requires SameSource(s, s') && i < s.count
    ensures InstrAt(s, i) == InstrAt(s', i) && InfoAt(s, i) == InfoAt(s', i)
    ensures Labelled(s, i) == Labelled(s', i) && Labelled(s, i + 1) == Labelled(s', i + 1)
    ensures LastInfo(s, i) == LastInfo(s', i) && LastInfo(s, i + 1) == LastInfo(s', i + 1)
  {
    hide InstrAt, InfoOf, Labelled, Agree;
    LabelLocal(s, s', i);
    LabelLocal(s, s', i + 1);
    InstrLocal(s, s', i);
    if i > 0 { InstrLocal(s, s', i - 1); }
  }

  lemma {:induction false} TableLocal(s: Source, s': Source, i: nat)
    requires SameSource(s, s') && i <= s.count
    ensures Table(s, i) == Table(s', i)
    decreases i
  {
    hide TailAt, LastInfo;
    if i > 0 {
      hide Table;
      TableLocal(s, s', i - 1);
      LastLocal(s, s', i - 1);
      ChunkLocal(s, s', i - 1);
      TableNext(s, i - 1);
      TableNext(s', i - 1);
    }
  }

  lemma ChunkLocal(s: Source, s': Source, i: nat)
    requires SameSource(s, s') && i < s.count && Table(s, i) == Table(s', i)
    requires i > 0 ==> LastInfo(s, i) == LastInfo(s', i)
    ensures LabelAt(s, i) == LabelAt(s', i) && BodyAt(s, i) == BodyAt(s', i) && TailAt(s, i) == TailAt(s', i)
    ensures ChunkAt(s, i) == ChunkAt(s', i)
  {
    PartsLocal(s, s', i);
    hide Table, FlushWindow, Body, Tail, InstrAt, InfoAt, Labelled, LastInfo, ControlOf, ExitOf;
    assert ControlOf(s, BodyAt(s, i), i == 0, InfoAt(s, i), LastInfo(s, i)) == ControlOf(s', BodyAt(s', i), i == 0, InfoAt(s', i), LastInfo(s', i)) by {
      ControlLocal(s, s', BodyAt(s, i), i == 0, InfoAt(s, i), LastInfo(s, i));
    }
  }

  lemma ControlLocal(s: Source, s': Source, g: Gen, first: bool, info: Info, last: Info)
    requires s.base == s'.base && s.count == s'.count
    ensures ControlOf(s, g, first, info, last) == ControlOf(s', g, first, info, last)
  {
    hide JitReg, SlotReg;
  }

  lemma ChunkSame(s: Source, s': Source, i: nat)
    requires SameSource(s, s') && i < s.count
    ensures ChunkFrom(s, i) == ChunkFrom(s', i)
  {
    hide Table, LabelAt, BodyAt, TailAt, InfoAt, LastInfo, ChunkAt;
    TableLocal(s, s', i);
    LastLocal(s, s', i);
    ChunkLocal(s, s', i);
  }

  /** The code of a region depends on the words of the region alone. */
  lemma RegionLocal(s: Source, s': Source)
    requires SameSource(s, s')
    ensures RegionCode(s) == RegionCode(s')
  {
    hide Table, ChunkFrom, EndTail, LastInfo, JitReg, FlushWindow, Agree, InfoAt, InstrAt, Labelled;
    TableLocal(s, s', s.count);
    PartsLocal(s, s', s.count - 1);
    forall i | 0 <= i < s.count ensures ChunkFrom(s, i) == ChunkFrom(s', i) {
      ChunkSame(s, s', i);
    }
    assert RegionCode(s).chunks == RegionCode(s').chunks;
  }

  lemma LastLocal(s: Source, s': Source, i: nat)
    requires SameSource(s, s') && i < s.count
    ensures LastInfo(s, i) == LastInfo(s', i)
  {
    PartsLocal(s, s', i);
  }

  // ---------------------------------------------------------------- a block of current memory

  /** The end of the window get_jit_block scans: the next code block's end. */
  function Window(pc: nat): nat {
    Min((pc / CODE_BLOCK_WORDS + 2) * CODE_BLOCK_WORDS, IMEM_WORDS)
  }

  lemma WindowBounds(pc: nat)
    requires pc < IMEM_WORDS
    ensures pc < Window(pc) <= IMEM_WORDS && Window(pc) - pc <= 2 * CODE_BLOCK_WORDS
    ensures forall k | pc <= k < Window(pc) :: k / CODE_BLOCK_WORDS == pc / CODE_BLOCK_WORDS || k / CODE_BLOCK_WORDS == pc / CODE_BLOCK_WORDS + 1
  {
  }

  lemma WindowIs(pc: Word)
    ensures Window(pc % 4096 / 4) == Min((pc % 4096 + 512) / 256 * 64, IMEM_WORDS)
  {
  }

  /** What the host registers of this build are. */
  datatype Build = Build(hosts: nat, callerRegs: nat)

  predicate BuildOk(bd: Build) {
    bd.hosts >= 3
  }

  function EndOf(m: Isa.Imem, pc: nat): (end: nat)
    requires pc < IMEM_WORDS
    ensures pc < end <= Window(pc) <= IMEM_WORDS
  {
    WindowBounds(pc);
    StaticEndLocal(m, m, pc, Window(pc));
    StaticEndOf(m, pc, Window(pc))
  }

  function BlockSource(bd: Build, m: Isa.Imem, pc: nat): (s: Source)
    requires BuildOk(bd) && pc < IMEM_WORDS
    ensures SourceOk(s)
  {
    Source(m, pc, EndOf(m, pc) - pc, bd.hosts, bd.callerRegs)
  }

  /** What analysing and compiling memory m afresh gives. */
  function FreshBlock(bd: Build, m: Isa.Imem, pc: nat): Code
    requires BuildOk(bd) && pc < IMEM_WORDS
  {
    RegionCode(BlockSource(bd, m, pc))
  }

  /** Memories that agree on the region compile alike. */
  lemma FreshBlockLocal(bd: Build, m: Isa.Imem, m': Isa.Imem, pc: nat)
    requires BuildOk(bd) && pc < IMEM_WORDS && Agree(m, m', pc, EndOf(m, pc))
    ensures EndOf(m', pc) == EndOf(m, pc) && FreshBlock(bd, m, pc) == FreshBlock(bd, m', pc)
  {
    WindowBounds(pc);
    StaticEndLocal(m, m', pc, Window(pc));
    RegionLocal(BlockSource(bd, m, pc), BlockSource(bd, m', pc));
  }

  /** hash_imem: FNV-1 over the start, the length and the words. */
  function HashImem(m: Isa.Imem, pc: nat, count: nat): Reg
    requires pc + count <= IMEM_WORDS
  {
    var h0 := Bitwise64(Xor, Wrap64(0xcbf2_9ce4_8422_2325 * 0x100_0000_01b3), pc);
    var h1 := Bitwise64(Xor, Wrap64(h0 * 0x100_0000_01b3), count);
    HashWords(m, pc, count, h1)
  }

  function HashWords(m: Isa.Imem, pc: nat, n: nat, h: Reg): Reg
    requires pc + n <= IMEM_WORDS
  {
    if n == 0 then h else Bitwise64(Xor, Wrap64(HashWords(m, pc, n - 1, h) * 0x100_0000_01b3), m[pc + n - 1])
  }

  function HashOf(m: Isa.Imem, pc: nat): Reg
    requires pc < IMEM_WORDS
  {
    HashImem(m, pc, EndOf(m, pc) - pc)
  }

  /** Memories that agree on the region have its hash. */
  lemma HashLocal(m: Isa.Imem, m': Isa.Imem, pc: nat)
    requires pc < IMEM_WORDS && Agree(m, m', pc, EndOf(m, pc))
    ensures HashOf(m, pc) == HashOf(m', pc)
  {
    hide StaticEndOf, HashWords, Bitwise64, Wrap64;
    WindowBounds(pc);
    StaticEndLocal(m, m', pc, Window(pc));
    var n := EndOf(m, pc) - pc;
    forall h: Reg ensures HashWords(m, pc, n, h) == HashWords(m', pc, n, h) { HashWordsLocal(m, m', pc, n, h); }
  }

  lemma {:induction false} HashWordsLocal(m: Isa.Imem, m': Isa.Imem, pc: nat, n: nat, h: Reg)
    requires pc + n <= IMEM_WORDS && Agree(m, m', pc, pc + n)
    ensures HashWords(m, pc, n, h) == HashWords(m', pc, n, h)
  {
    hide Bitwise64, Wrap64;
    if n > 0 {
      assert m[pc + n - 1] == m'[pc + n - 1];
      HashWordsLocal(m, m', pc, n - 1, h);
    }
  }

  lemma FreshParts(bd: Build, m: Isa.Imem, pc: nat)
    requires BuildOk(bd) && pc < IMEM_WORDS
    ensures var end := StaticEndOf(m, pc, Window(pc));
            && end == EndOf(m, pc) && HashOf(m, pc) == HashImem(m, pc, end - pc)
            && FreshBlock(bd, m, pc) == RegionCode(Source(m, pc, end - pc, bd.hosts, bd.callerRegs))
  {
    hide RegionCode, HashImem, StaticEndOf;
  }

  // ---------------------------------------------------------------- the table as a value

  /** `compiled` is cached_blocks; `origin` records, for the proof, the memory each of its entries was
      compiled from. */
  datatype Cache = Cache(
    imem: Isa.Imem, cached: Isa.Imem, dirty: set<nat>, blocks: seq<Isa.Option<Code>>,
    compiled: map<(nat, Reg), Code>, origin: map<(nat, Reg), Isa.Imem>)

  /** The bits of (0x3 << i) >> 1. */
  function Pattern(i: nat): set<nat> {
    if i == 0 then {0} else {i - 1, i}
  }

  predicate Differs(c: Cache, i: nat) {
    exists k :: i * CODE_BLOCK_WORDS <= k < (i + 1) * CODE_BLOCK_WORDS && k < IMEM_WORDS && c.cached[k] != c.imem[k]
  }

  /** The external world writes instruction memory. */
  function Written(c: Cache, k: nat, x: Word): Cache
    requires k < IMEM_WORDS
  {
    c.(imem := c.imem[k := x])
  }

  /** The RSP's own DMA writes it and marks what it wrote. */
  function DmaWritten(c: Cache, k: nat, x: Word): Cache
    requires k < IMEM_WORDS
  {
    c.(imem := c.imem[k := x], dirty := c.dirty + Pattern(k / CODE_BLOCK_WORDS))
  }

  /** Bits set by the blocks below n that differ. */
  function Marks(c: Cache, n: nat): set<nat> {
    if n == 0 then {} else Marks(c, n - 1) + (if Differs(c, n - 1) then Pattern(n - 1) else {})
  }

  function ImemInvalidated(c: Cache): Cache {
    c.(dirty := c.dirty + Marks(c, CODE_BLOCKS))
  }

  function CachedAfter(c: Cache, k: int): Word
    requires 0 <= k < IMEM_WORDS
  {
    if k / CODE_BLOCK_WORDS in c.dirty then c.imem[k] else c.cached[k]
  }

  function BlockAfter(c: Cache, k: int): Isa.Option<Code>
    requires 0 <= k < |c.blocks|
  {
    if k / CODE_BLOCK_WORDS in c.dirty then Isa.None else c.blocks[k]
  }

  function CodeInvalidated(c: Cache): Cache {
    c.(cached := seq(IMEM_WORDS, k requires 0 <= k < IMEM_WORDS => CachedAfter(c, k)),
       blocks := seq(|c.blocks|, k requires 0 <= k < |c.blocks| => BlockAfter(c, k)),
       dirty := {})
  }

  /** The block get_jit_block returns for pc. */
  function Found(bd: Build, c: Cache, pc: nat): Code
    requires BuildOk(bd) && pc < IMEM_WORDS == |c.blocks|
  {
    if c.blocks[pc].Some? then c.blocks[pc].value
    else if (pc, HashOf(c.imem, pc)) in c.compiled then c.compiled[(pc, HashOf(c.imem, pc))]
    else FreshBlock(bd, c.imem, pc)
  }

  /** ... and the table afterwards. */
  function LookedUp(bd: Build, c: Cache, pc: nat): Cache
    requires BuildOk(bd) && pc < IMEM_WORDS == |c.blocks|
  {
    if c.blocks[pc].Some? then c
    else
      var key, code := (pc, HashOf(c.imem, pc)), Found(bd, c, pc);
      var c' := if key in c.compiled then c else c.(compiled := c.compiled[key := code], origin := c.origin[key := c.imem]);
      c'.(blocks := c.blocks[pc := Isa.Some(code)])
  }

  function Initially(imem: Isa.Imem): Cache {
    Cache(imem, seq(IMEM_WORDS, _ => 0), {}, seq(IMEM_WORDS, _ => Isa.None), map[], map[])
  }

  // ---------------------------------------------------------------- coherence

  /** What compiling memory m would give or, if not `exact`, what compiling some memory would whose
      region at pc has the same hash. */
  ghost predicate Serves(bd: Build, m: Isa.Imem, pc: nat, code: Code, exact: bool)
    requires BuildOk(bd) && pc < IMEM_WORDS
  {
    if exact then code == FreshBlock(bd, m, pc)
    else exists from: Isa.Imem :: HashOf(from, pc) == HashOf(m, pc) && code == FreshBlock(bd, from, pc)
  }

  /** Every block in the table that is not marked serves cached_imem. */
  ghost predicate TableServes(bd: Build, c: Cache, exact: bool)
    requires BuildOk(bd)
  {
    && |c.blocks| == IMEM_WORDS
    && forall pc: nat | pc < IMEM_WORDS && c.blocks[pc].Some? && pc / CODE_BLOCK_WORDS !in c.dirty ::
         Serves(bd, c.cached, pc, c.blocks[pc].value, exact)
  }

  /** ... is what compiling it would give. */
  ghost predicate TableOk(bd: Build, c: Cache)
    requires BuildOk(bd)
  {
    TableServes(bd, c, true)
  }

  ghost predicate CompiledOk(bd: Build, c: Cache)
    requires BuildOk(bd)
  {
    && c.compiled.Keys == c.origin.Keys
    && forall key: (nat, Reg) | key in c.compiled ::
      && key.0 < IMEM_WORDS && key in c.origin
      && key.1 == HashOf(c.origin[key], key.0) && c.compiled[key] == FreshBlock(bd, c.origin[key], key.0)
  }

  /** Whatever differs from cached_imem is marked, and so is the block before it. */
  ghost predicate Marked(c: Cache) {
    forall k: nat | k < IMEM_WORDS && c.cached[k] != c.imem[k] :: Pattern(k / CODE_BLOCK_WORDS) <= c.dirty
  }

  ghost predicate InSync(c: Cache) {
    c.cached == c.imem && c.dirty == {}
  }

  /** The table has no block for pc, and the hash map one compiled from other words with their hash:
      this does not happen. */
  ghost predicate NoCollision(c: Cache, pc: nat)
    requires pc < IMEM_WORDS == |c.blocks|
  {
    var key := (pc, HashOf(c.imem, pc));
    c.blocks[pc].None? && key in c.origin ==> Agree(c.origin[key], c.imem, pc, EndOf(c.origin[key], pc))
  }

  lemma {:induction false} MarksOf(c: Cache, n: nat, i: nat)
    requires i < n && Differs(c, i)
    ensures Pattern(i) <= Marks(c, n)
  {
    if i < n - 1 { MarksOf(c, n - 1, i); }
  }

  lemma {:induction false} MarksFrom(c: Cache, n: nat, j: nat)
    requires j in Marks(c, n)
    ensures exists i :: 0 <= i < n && Differs(c, i) && j in Pattern(i)
  {
    if !(Differs(c, n - 1) && j in Pattern(n - 1)) {
      MarksFrom(c, n - 1, j);
      var i :| 0 <= i < n - 1 && Differs(c, i) && j in Pattern(i);
      assert 0 <= i < n;
    }
  }

  /** Some word of the j-th 64 differs from its copy. */
  predicate DiffersIn(c: Cache, j: nat) {
    exists k: nat :: k < IMEM_WORDS && k / 64 == j && c.cached[k] != c.imem[k]
  }

  lemma DiffersThere(c: Cache, i: nat)
    ensures Differs(c, i) <==> DiffersIn(c, i)
  {
    if Differs(c, i) {
      var k :| i * CODE_BLOCK_WORDS <= k < (i + 1) * CODE_BLOCK_WORDS && k < IMEM_WORDS && c.cached[k] != c.imem[k];
      assert k / 64 == i;
    }
    if DiffersIn(c, i) {
      var k: nat :| k < IMEM_WORDS && k / 64 == i && c.cached[k] != c.imem[k];
      assert i * CODE_BLOCK_WORDS <= k < (i + 1) * CODE_BLOCK_WORDS;
    }
  }

  /** A code block is marked by the comparison exactly when it or the one after it differs. */
  lemma MarksExactly(c: Cache, j: nat)
    ensures j in Marks(c, CODE_BLOCKS) <==> DiffersIn(c, j) || DiffersIn(c, j + 1)
  {
    hide Marks, Differs, DiffersIn;
    DiffersThere(c, j);
    DiffersThere(c, j + 1);
    if j in Marks(c, CODE_BLOCKS) {
      MarksFrom(c, CODE_BLOCKS, j);
    }
    if Differs(c, j) { DiffersBelow(c, j); MarksOf(c, CODE_BLOCKS, j); }
    if Differs(c, j + 1) { DiffersBelow(c, j + 1); MarksOf(c, CODE_BLOCKS, j + 1); }
  }

  lemma DiffersBelow(c: Cache, i: nat)
    requires Differs(c, i)
    ensures i < CODE_BLOCKS
  {
  }

  lemma ImemInvalidatedMarks(c: Cache)
    ensures Marked(ImemInvalidated(c))
    ensures forall j: nat :: j in ImemInvalidated(c).dirty <==> j in c.dirty || DiffersIn(c, j) || DiffersIn(c, j + 1)
  {
    hide DiffersIn, Marks;
    forall j: nat ensures j in ImemInvalidated(c).dirty <==> j in c.dirty || DiffersIn(c, j) || DiffersIn(c, j + 1) {
      MarksExactly(c, j);
    }
    forall k: nat | k < IMEM_WORDS && c.cached[k] != c.imem[k] ensures Pattern(k / CODE_BLOCK_WORDS) <= Marks(c, CODE_BLOCKS) {
      assert Differs(c, k / CODE_BLOCK_WORDS);
      MarksOf(c, CODE_BLOCKS, k / CODE_BLOCK_WORDS);
    }
  }

  lemma ServesAlike(bd: Build, m: Isa.Imem, m': Isa.Imem, pc: nat, code: Code, exact: bool)
    requires BuildOk(bd) && pc < IMEM_WORDS && Agree(m, m', pc, EndOf(m, pc)) && Serves(bd, m, pc, code, exact)
    ensures Serves(bd, m', pc, code, exact)
  {
    FreshBlockLocal(bd, m, m', pc);
    HashLocal(m, m', pc);
    hide FreshBlock, HashOf;
  }

  /** invalidate_code keeps the table right because a region reaches one block past its start. */
  lemma CodeInvalidatedOk(bd: Build, c: Cache)
    requires BuildOk(bd) && TableOk(bd, c) && Marked(c)
    ensures TableOk(bd, CodeInvalidated(c)) && InSync(CodeInvalidated(c))
  {
    hide TableServes, Marked, CodeInvalidated;
    CodeInvalidatedServes(bd, c, true);
  }

  lemma CodeInvalidatedServes(bd: Build, c: Cache, exact: bool)
    requires BuildOk(bd) && TableServes(bd, c, exact) && Marked(c)
    ensures TableServes(bd, CodeInvalidated(c), exact) && InSync(CodeInvalidated(c))
  {
    hide Serves;
    var c' := CodeInvalidated(c);
    forall k | 0 <= k < IMEM_WORDS ensures c'.cached[k] == c.imem[k] {
      assert k / CODE_BLOCK_WORDS in Pattern(k / CODE_BLOCK_WORDS);
    }
    forall pc: nat | pc < IMEM_WORDS && c'.blocks[pc].Some? ensures Serves(bd, c'.cached, pc, c'.blocks[pc].value, exact) {
      Untouched(c, pc);
      ServesAlike(bd, c.cached, c'.cached, pc, c.blocks[pc].value, exact);
    }
  }

  lemma Untouched(c: Cache, pc: nat)
    requires Marked(c) && pc < IMEM_WORDS && pc / CODE_BLOCK_WORDS !in c.dirty
    ensures Agree(c.cached, CodeInvalidated(c).cached, pc, EndOf(c.cached, pc))
  {
    WindowBounds(pc);
    var i := pc / CODE_BLOCK_WORDS;
    forall k | pc <= k < EndOf(c.cached, pc) ensures c.cached[k] == CachedAfter(c, k) {
      assert i in Pattern(k / CODE_BLOCK_WORDS);
    }
  }

  /** With memory in step, a lookup returns a block that serves current memory and keeps the table right. */
  lemma LookedUpServes(bd: Build, c: Cache, pc: nat, exact: bool)
    requires BuildOk(bd) && TableServes(bd, c, exact) && CompiledOk(bd, c) && InSync(c) && pc < IMEM_WORDS && (exact ==> NoCollision(c, pc))
    ensures Serves(bd, c.imem, pc, Found(bd, c, pc), exact)
    ensures var c' := LookedUp(bd, c, pc); TableServes(bd, c', exact) && CompiledOk(bd, c') && InSync(c')
  {
    hide *;
    ServedSize(bd, c, exact);
    FoundServes(bd, c, pc, exact);
    LookedUpCompiled(bd, c, pc);
    OneMoreServes(bd, c, LookedUp(bd, c, pc), pc, Found(bd, c, pc), exact);
  }

  lemma ServedSize(bd: Build, c: Cache, exact: bool)
    requires BuildOk(bd) && TableServes(bd, c, exact)
    ensures |c.blocks| == IMEM_WORDS
  {
    hide Serves;
  }

  lemma OneMoreServes(bd: Build, c: Cache, c': Cache, pc: nat, code: Code, exact: bool)
    requires BuildOk(bd) && TableServes(bd, c, exact) && InSync(c) && pc < IMEM_WORDS == |c.blocks| && Serves(bd, c.imem, pc, code, exact)
    requires c'.cached == c.cached && c'.imem == c.imem && c'.dirty == c.dirty && c'.blocks == c.blocks[pc := Isa.Some(code)]
    ensures TableServes(bd, c', exact) && InSync(c')
  {
    hide Serves;
  }

  lemma LookedUpCompiled(bd: Build, c: Cache, pc: nat)
    requires BuildOk(bd) && CompiledOk(bd, c) && pc < IMEM_WORDS == |c.blocks|
    ensures var c' := LookedUp(bd, c, pc);
            CompiledOk(bd, c') && c'.cached == c.cached && c'.imem == c.imem && c'.dirty == c.dirty
            && c'.blocks == c.blocks[pc := Isa.Some(Found(bd, c, pc))]
  {
    hide FreshBlock, HashOf;
  }

  lemma FoundServes(bd: Build, c: Cache, pc: nat, exact: bool)
    requires BuildOk(bd) && TableServes(bd, c, exact) && CompiledOk(bd, c) && InSync(c) && pc < IMEM_WORDS && (exact ==> NoCollision(c, pc))
    ensures Serves(bd, c.imem, pc, Found(bd, c, pc), exact)
  {
    hide FreshBlock, HashOf;
    var key := (pc, HashOf(c.imem, pc));
    if c.blocks[pc].None? && key in c.compiled {
      assert key.1 == HashOf(c.origin[key], pc) && c.compiled[key] == FreshBlock(bd, c.origin[key], pc);
      if exact { FreshBlockLocal(bd, c.origin[key], c.imem, pc); }
    }
  }

  lemma LookedUpOk(bd: Build, c: Cache, pc: nat)
    requires BuildOk(bd) && TableOk(bd, c) && CompiledOk(bd, c) && InSync(c) && pc < IMEM_WORDS == |c.blocks| && NoCollision(c, pc)
    ensures Found(bd, c, pc) == FreshBlock(bd, c.imem, pc)
    ensures TableOk(bd, LookedUp(bd, c, pc)) && CompiledOk(bd, LookedUp(bd, c, pc)) && InSync(LookedUp(bd, c, pc))
  {
    hide FreshBlock, HashOf, TableServes, Found, LookedUp, CompiledOk, InSync, NoCollision;
    LookedUpServes(bd, c, pc, true);
  }

  // ---------------------------------------------------------------- histories

  datatype Event = Write(k: nat, x: Word) | Dma(k: nat, x: Word) | InvalidateImem | InvalidateCode | Lookup(pc: nat)

  /** How far the protocol has come since the last external write: nothing checked, memory compared,
      or table in step. */
  datatype Phase = Unchecked | Compared | Ready

  predicate EventOk(p: Phase, e: Event) {
    match e
    case Write(k, _) => k < IMEM_WORDS
    case Dma(k, _) => k < IMEM_WORDS
    case InvalidateImem => true
    case InvalidateCode => p != Unchecked
    case Lookup(pc) => p == Ready && pc < IMEM_WORDS
  }

  function PhaseAfter(p: Phase, e: Event): Phase {
    match e
    case Write(_, _) => Unchecked
    case Dma(_, _) => if p == Ready then Compared else p
    case InvalidateImem => if p == Ready then Ready else Compared
    case InvalidateCode => Ready
    case Lookup(_) => p
  }

  function Apply(bd: Build, c: Cache, e: Event): (c': Cache)
    requires BuildOk(bd) && |c.blocks| == IMEM_WORDS
    requires match e case Write(k, _) => k < IMEM_WORDS case Dma(k, _) => k < IMEM_WORDS case Lookup(pc) => pc < IMEM_WORDS case _ => true
    ensures |c'.blocks| == IMEM_WORDS
  {
    match e
    case Write(k, x) => Written(c, k, x)
    case Dma(k, x) => DmaWritten(c, k, x)
    case InvalidateImem => ImemInvalidated(c)
    case InvalidateCode => if c.dirty == {} then c else CodeInvalidated(c)
    case Lookup(pc) => LookedUp(bd, c, pc)
  }

  datatype Reached = Reached(cache: Cache, phase: Phase, ok: bool, clear: bool)

  /** The table after a history; `ok` while every event came in its phase, `clear` while no hash collided. */
  ghost function After(bd: Build, imem: Isa.Imem, es: seq<Event>): (r: Reached)
    requires BuildOk(bd)
    ensures |r.cache.blocks| == IMEM_WORDS
  {
    if es == [] then Reached(Initially(imem), Unchecked, true, true)
    else
      var r, e := After(bd, imem, es[..|es| - 1]), es[|es| - 1];
      if r.ok && EventOk(r.phase, e)
      then Reached(Apply(bd, r.cache, e), PhaseAfter(r.phase, e), true, r.clear && (e.Lookup? ==> NoCollision(r.cache, e.pc)))
      else r.(ok := false)
  }

  ghost predicate Good(bd: Build, c: Cache, p: Phase, exact: bool)
    requires BuildOk(bd)
  {
    TableServes(bd, c, exact) && CompiledOk(bd, c) && (p.Compared? ==> Marked(c)) && (p.Ready? ==> InSync(c))
  }

  lemma DmaMarks(c: Cache, k: nat, x: Word)
    requires Marked(c) && k < IMEM_WORDS
    ensures Marked(DmaWritten(c, k, x))
  {
  }

  lemma ApplyGood(bd: Build, c: Cache, p: Phase, e: Event, exact: bool)
    requires BuildOk(bd) && Good(bd, c, p, exact) && EventOk(p, e) && |c.blocks| == IMEM_WORDS && (exact && e.Lookup? ==> NoCollision(c, e.pc))
    ensures Good(bd, Apply(bd, c, e), PhaseAfter(p, e), exact)
  {
    hide FreshBlock, HashOf, Pattern, Serves;
    match e
    case Write(k, x) =>
    case Dma(k, x) => if !p.Unchecked? { DmaMarks(c, k, x); }
    case InvalidateImem => ImemInvalidatedGood(bd, c, p, exact);
    case InvalidateCode => if c.dirty != {} { CodeInvalidatedServes(bd, c, exact); } else { NothingMarked(c); }
    case Lookup(pc) => LookedUpServes(bd, c, pc, exact);
  }

  lemma NothingMarked(c: Cache)
    requires Marked(c) && c.dirty == {}
    ensures InSync(c)
  {
    forall k: nat | k < IMEM_WORDS ensures c.cached[k] == c.imem[k] {
      assert k / CODE_BLOCK_WORDS in Pattern(k / CODE_BLOCK_WORDS);
    }
  }

  lemma {:induction false} SyncMarksNothing(c: Cache, n: nat)
    requires c.cached == c.imem
    ensures Marks(c, n) == {}
  {
    if n > 0 { SyncMarksNothing(c, n - 1); }
  }

  lemma ImemInvalidatedGood(bd: Build, c: Cache, p: Phase, exact: bool)
    requires BuildOk(bd) && Good(bd, c, p, exact)
    ensures Good(bd, ImemInvalidated(c), PhaseAfter(p, InvalidateImem), exact)
  {
    hide Serves;
    ImemInvalidatedMarks(c);
    if p.Ready? { SyncMarksNothing(c, CODE_BLOCKS); }
  }

  lemma {:induction false} HistoryGood(bd: Build, imem: Isa.Imem, es: seq<Event>, exact: bool)
    requires BuildOk(bd) && After(bd, imem, es).ok && (exact ==> After(bd, imem, es).clear)
    ensures Good(bd, After(bd, imem, es).cache, After(bd, imem, es).phase, exact)
  {
    if es != [] {
      var r, e := After(bd, imem, es[..|es| - 1]), es[|es| - 1];
      HistoryGood(bd, imem, es[..|es| - 1], exact);
      hide Good, Apply, NoCollision;
      ApplyGood(bd, r.cache, r.phase, e, exact);
    }
  }

  /** Coherence: after any history that keeps to the protocol, a lookup returns the code of a region that
      has the hash of the current one. */
  lemma LookupsMatchHash(bd: Build, imem: Isa.Imem, es: seq<Event>, pc: nat)
    requires BuildOk(bd) && pc < IMEM_WORDS && After(bd, imem, es).ok && After(bd, imem, es).phase == Ready
    ensures var c := After(bd, imem, es).cache;
            exists from: Isa.Imem :: HashOf(from, pc) == HashOf(c.imem, pc) && Found(bd, c, pc) == FreshBlock(bd, from, pc)
  {
    HistoryGood(bd, imem, es, false);
    hide FreshBlock, HashOf, Found, After;
    FoundServes(bd, After(bd, imem, es).cache, pc, false);
  }

  /** ... and if no hash collided, exactly what analysing and compiling current memory would give. */
  lemma LookupsAreFresh(bd: Build, imem: Isa.Imem, es: seq<Event>, pc: nat)
    requires BuildOk(bd) && pc < IMEM_WORDS
    requires var r := After(bd, imem, es); r.ok && r.clear && r.phase == Ready && NoCollision(r.cache, pc)
    ensures var c := After(bd, imem, es).cache; Found(bd, c, pc) == FreshBlock(bd, c.imem, pc)
  {
    HistoryGood(bd, imem, es, true);
    hide FreshBlock, HashOf, Found, After, NoCollision;
    FoundServes(bd, After(bd, imem, es).cache, pc, true);
  }

  // ---------------------------------------------------------------- why the order matters

  lemma {:induction false} ScanStraight(m: Isa.Imem, pc: nat, end: nat, p: nat, q: nat)
    requires pc <= p <= q <= end <= IMEM_WORDS && forall k | p <= k < q :: FlowOf(m[k], k) == Straight
    ensures ScanFrom(m, pc, end, p, p) == ScanFrom(m, pc, end, q, q)
    decreases q - p
  {
    if p < q {
      ScanStraight(m, pc, end, p + 1, q);
    }
  }

  function Zeros(): Isa.Imem {
    seq(IMEM_WORDS, _ => 0)
  }

  lemma ZeroIsStraight(k: nat)
    ensures FlowOf(0, k) == Straight
  {
  }

  /** A table in step, with a block compiled for word 0 that reaches into the second code block. */
  function Sample(bd: Build): Cache
    requires BuildOk(bd)
  {
    LookedUp(bd, Initially(Zeros()), 0)
  }

  /** Word 128 is written, memory is compared, and only then word 64 is made a BREAK: invalidate_code
      then brings cached_imem up to date without dropping the block of word 0, for good. */
  function WrittenBetween(bd: Build): Cache
    requires BuildOk(bd)
  {
    CodeInvalidated(Written(ImemInvalidated(Written(Sample(bd), 128, 1)), 64, 13))
  }

  lemma SampleMarks(bd: Build)
    requires BuildOk(bd)
    ensures 0 !in Marks(Written(Sample(bd), 128, 1), CODE_BLOCKS) && {1, 2} <= Marks(Written(Sample(bd), 128, 1), CODE_BLOCKS)
  {
    hide FreshBlock, HashOf;
    var c := Written(Sample(bd), 128, 1);
    assert c.cached[128] != c.imem[128] && 2 * CODE_BLOCK_WORDS <= 128 < 3 * CODE_BLOCK_WORDS;
    assert Differs(c, 2);
    MarksOf(c, CODE_BLOCKS, 2);
    assert forall k: nat | k < IMEM_WORDS && c.cached[k] != c.imem[k] :: k == 128;
    assert forall i: nat | Differs(c, i) :: i == 2;
    if 0 in Marks(c, CODE_BLOCKS) { MarksFrom(c, CODE_BLOCKS, 0); }
  }

  lemma RegionLengths(bd: Build, m: Isa.Imem)
    requires BuildOk(bd) && m == Zeros()[128 := 1][64 := 13]
    ensures |FreshBlock(bd, Zeros(), 0).chunks| == 128 && |FreshBlock(bd, m, 0).chunks| == 65
  {
    forall k: nat ensures FlowOf(0, k) == Straight { ZeroIsStraight(k); }
    ScanStraight(Zeros(), 0, 128, 0, 128);
    ScanStraight(m, 0, 128, 0, 64);
    assert FlowOf(m[64], 64) == Halt;
    assert EndOf(Zeros(), 0) == 128 && EndOf(m, 0) == 65;
    hide FlowOf, ChunkFrom, EndTail, LastInfo, Table, JitReg;
  }

  /** Dropping the second and third code blocks brings every difference up to date. */
  lemma SyncedWithout(c: Cache)
    requires |c.blocks| == IMEM_WORDS && {1, 2} <= c.dirty && 0 !in c.dirty
    requires c.imem == c.cached[128 := 1][64 := 13]
    ensures CodeInvalidated(c).cached == c.imem && CodeInvalidated(c).blocks[0] == c.blocks[0]
  {
    forall k | 0 <= k < IMEM_WORDS ensures CachedAfter(c, k) == c.imem[k] {
    }
  }

  lemma SampleState(bd: Build)
    requires BuildOk(bd)
    ensures var c := Sample(bd);
            && c.imem == c.cached == Zeros() && c.dirty == {} && |c.blocks| == IMEM_WORDS
            && c.blocks[0] == Isa.Some(FreshBlock(bd, Zeros(), 0))
  {
    hide FreshBlock, HashOf;
  }

  /** The protocol's order is needed: written between the comparison and the invalidation, memory and
      table part silently, and comparing again finds nothing. */
  lemma WrittenBetweenIsStale(bd: Build)
    requires BuildOk(bd)
    ensures var c := WrittenBetween(bd);
            && Marks(c, CODE_BLOCKS) == {} && c.dirty == {} && c.cached == c.imem && |c.blocks| == IMEM_WORDS
            && Found(bd, c, 0) != FreshBlock(bd, c.imem, 0)
  {
    hide FreshBlock, HashOf, Differs, Marks, Sample, CachedAfter, BlockAfter;
    SampleState(bd);
    SampleMarks(bd);
    var c1 := Written(ImemInvalidated(Written(Sample(bd), 128, 1)), 64, 13);
    SyncedWithout(c1);
    RegionLengths(bd, c1.imem);
    SyncMarksNothing(CodeInvalidated(c1), CODE_BLOCKS);
  }

  /** One word written between the comparison and the invalidation keeps the marks right if and only if
      it is what cached_imem has, or its block and the one before are marked anyway ... */
  lemma WriteKeepsMarks(c: Cache, k: nat, x: Word)
    requires Marked(c) && k < IMEM_WORDS
    ensures Marked(Written(c, k, x)) <==> x == c.cached[k] || Pattern(k / CODE_BLOCK_WORDS) <= c.dirty
  {
    var c' := Written(c, k, x);
    hide Pattern;
    assert forall j: nat | j < IMEM_WORDS && j != k :: c'.imem[j] == c.imem[j];
    if x != c.cached[k] { assert c'.cached[k] != c'.imem[k]; }
  }

  /** ... and then does no harm. */
  lemma WriteHarmless(bd: Build, c: Cache, k: nat, x: Word)
    requires BuildOk(bd) && TableOk(bd, c) && Marked(c) && k < IMEM_WORDS
    requires x == c.cached[k] || Pattern(k / CODE_BLOCK_WORDS) <= c.dirty
    ensures var c' := CodeInvalidated(Written(c, k, x)); TableOk(bd, c') && InSync(c')
  {
    hide FreshBlock, Pattern;
    WriteKeepsMarks(c, k, x);
    CodeInvalidatedOk(bd, Written(c, k, x));
  }

  /** What the next comparison can still see of it: everything, unless its own block was marked. A write
      into a marked block whose predecessor is not marked is the one that parts table and memory unseen. */
  lemma WriteSeen(c: Cache, k: nat, x: Word)
    requires Marked(c) && k < IMEM_WORDS && |c.blocks| == IMEM_WORDS
    ensures CodeInvalidated(Written(c, k, x)).cached == Written(c, k, x).imem <==> x == c.cached[k] || k / CODE_BLOCK_WORDS in c.dirty
  {
    var c' := Written(c, k, x);
    assert CodeInvalidated(c').cached[k] == CachedAfter(c', k);
    forall j | 0 <= j < IMEM_WORDS && j != k ensures CachedAfter(c', j) == c'.imem[j] {
      assert j / CODE_BLOCK_WORDS in Pattern(j / CODE_BLOCK_WORDS);
    }
  }

  // ---------------------------------------------------------------- the object

  /** The part of CPU that owns the block table; `code` values stand for function pointers. */
  class CpuBlocks {
    const build: Build
    var imem: array<Word>
    var cachedImem: array<Word>
    var dirtyBlocks: set<nat>
    var blocks: array<Isa.Option<Code>>
    var cachedBlocks: map<(nat, Reg), Code>
    ghost var origin: map<(nat, Reg), Isa.Imem>

    ghost predicate Valid()
      reads this
    {
      && BuildOk(build) && imem.Length == cachedImem.Length == blocks.Length == IMEM_WORDS
      && imem != cachedImem
    }

    ghost function View(): Cache
      reads this, imem, cachedImem, blocks
      requires Valid()
    {
      Cache(imem[..], cachedImem[..], dirtyBlocks, blocks[..], cachedBlocks, origin)
    }

    constructor (build: Build, imem: array<Word>)
      requires BuildOk(build) && imem.Length == IMEM_WORDS
      ensures Valid() && View() == Initially(imem[..]) && this.imem == imem && fresh(cachedImem) && fresh(blocks)
    {
      this.build := build;
      this.imem := imem;
      cachedImem := new Word[IMEM_WORDS](_ => 0);
      dirtyBlocks := {};
      blocks := new Isa.Option<Code>[IMEM_WORDS](_ => Isa.None);
      cachedBlocks := map[];
      origin := map[];
    }

    /** memcmp of one code block. */
    method BlockDiffers(i: nat) returns (d: bool)
      requires Valid() && i < CODE_BLOCKS
      ensures d == Differs(View(), i)
    {
      d := false;
      for k := i * CODE_BLOCK_WORDS to (i + 1) * CODE_BLOCK_WORDS
        invariant !d
        invariant forall j | i * CODE_BLOCK_WORDS <= j < k :: cachedImem[j] == imem[j]
      {
        if cachedImem[k] != imem[k] {
          assert View().cached[k] != View().imem[k];
          return true;
        }
      }
    }

    method InvalidateImem()
      requires Valid()
      modifies `dirtyBlocks
      ensures Valid() && View() == ImemInvalidated(old(View()))
    {
      ghost var before := View();
      for i := 0 to CODE_BLOCKS
        invariant dirtyBlocks == before.dirty + Marks(before, i)
      {
        var d := BlockDiffers(i);
        assert Differs(View(), i) == Differs(before, i);
        if d { dirtyBlocks := dirtyBlocks + Pattern(i); }
      }
    }

    method InvalidateCode()
      requires Valid()
      modifies cachedImem, blocks, `dirtyBlocks
      ensures Valid() && View() == if old(dirtyBlocks) == {} then old(View()) else CodeInvalidated(old(View()))
    {
      if dirtyBlocks == {} { return; }
      ghost var before := View();
      for i := 0 to CODE_BLOCKS
        invariant dirtyBlocks == before.dirty
        invariant forall k | 0 <= k < IMEM_WORDS ::
          && cachedImem[k] == (if k < i * CODE_BLOCK_WORDS then CachedAfter(before, k) else before.cached[k])
          && blocks[k] == (if k < i * CODE_BLOCK_WORDS then BlockAfter(before, k) else before.blocks[k])
      {
        if i in dirtyBlocks {
          forall k | i * CODE_BLOCK_WORDS <= k < (i + 1) * CODE_BLOCK_WORDS { blocks[k] := Isa.None; }
          forall k | i * CODE_BLOCK_WORDS <= k < (i + 1) * CODE_BLOCK_WORDS { cachedImem[k] := imem[k]; }
        }
      }
      dirtyBlocks := {};
    }

    /** One word of an RSP DMA into instruction memory. */
    method DmaWrite(k: nat, x: Word)
      requires Valid() && k < IMEM_WORDS
      modifies imem, `dirtyBlocks
      ensures Valid() && View() == DmaWritten(old(View()), k, x)
      ensures forall j: nat :: j in dirtyBlocks <==> j in old(dirtyBlocks) || k / 64 == j || k / 64 == j + 1
    {
      dirtyBlocks := dirtyBlocks + Pattern(k / CODE_BLOCK_WORDS);
      imem[k] := x;
    }

    /** The miss path: analyse, hash, and reuse or compile. */
    method FindOrCompile(pc: nat, end: nat) returns (code: Code)
      requires Valid() && pc < IMEM_WORDS && end == Window(pc) && blocks[pc].None?
      modifies `cachedBlocks, `origin
      ensures Valid() && code == Found(build, old(View()), pc)
      ensures View() == LookedUp(build, old(View()), pc).(blocks := old(View().blocks))
    {
      hide FreshBlock, RegionCode, HashImem, StaticEndOf, HashOf, Window, EndOf, EndTail, Table, LastInfo;
      WindowBounds(pc);
      var m: Isa.Imem := imem[..];
      var last := AnalyzeStaticEnd(m, pc, end);
      FreshParts(build, m, pc);
      var key := (pc, HashImem(m, pc, last - pc));
      if key in cachedBlocks {
        code := cachedBlocks[key];
      } else {
        var table;
        code, table := JitRegion(Source(m, pc, last - pc, build.hosts, build.callerRegs));
        cachedBlocks := cachedBlocks[key := code];
        origin := origin[key := m];
      }
    }

    method GetJitBlock(pc: Word) returns (code: Code)
      requires Valid()
      modifies blocks, `cachedBlocks, `origin
      ensures Valid() && code == Found(build, old(View()), pc % 4096 / 4) && View() == LookedUp(build, old(View()), pc % 4096 / 4)
    {
      hide FreshBlock, HashOf, Window;
      var wordPc := pc % 4096 / 4;
      if blocks[wordPc].Some? {
        code := blocks[wordPc].value;
      } else {
        var end := (pc % 4096 + 512) / 256 * 64;
        if end > IMEM_WORDS { end := IMEM_WORDS; }
        WindowIs(pc);
        code := FindOrCompile(wordPc, end);
        blocks[wordPc] := Isa.Some(code);
      }
    }
  }
}

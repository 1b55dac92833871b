/** Compile-time soundness of the emitter: on a table of three or more host registers every request
    for a register succeeds, every unlock finds its lock, and every flush sees none, in every region. */
module CacheTheorem {
  import opened Words
  import opened HostCode
  import opened RegisterCache
  import opened Emitter
  import opened EmitterProof
  import opened Region
  import opened RegionProof
  import Isa

  /** The register file after the code that follows an instruction: a delay slot clears the condition. */
  function AfterTail(v: seq<Word>, first: bool, info: Info, last: Info): seq<Word>
    requires |v| == 33
  {
    if !(first && !info.handlesDelaySlot) && !(info.branch && last.branch) && !info.handlesDelaySlot && last.branch
    then v[32 := 0] else v
  }

  lemma TailSim(w: World, g: Gen, start: Host, v: seq<Word>, first: bool, info: Info, last: Info)
    requires Sim(w, g, start, v, None, multiset{}) && |v| == 33 && g.code == []
    ensures Sim(w, Tail(g, first, info, last), start, AfterTail(v, first, info, last), None, multiset{})
    ensures Quiet(Now(w, g, start), Now(w, Tail(g, first, info, last), start))
  {
    hide Sim, LatentTail, SlotTail;
    LatentSim(w, g, start, v);
    SlotSim(w, g, start, v);
    StaticSlotSim(w, g, start, v);
  }

  lemma LabelSim(w: World, s: Source, i: nat, h: Host, v: seq<Word>)
    requires SourceOk(s) && i < s.count && Sim(w, Table(s, i), h, v, None, multiset{})
    ensures Sim(w, LabelAt(s, i), h, v, None, multiset{})
    ensures Quiet(Now(w, Table(s, i), h), Now(w, LabelAt(s, i), h))
    ensures Labelled(s, i) ==> Dead(LabelAt(s, i).es)
  {
    hide Sim, FlushWindow, Table;
    if Labelled(s, i) { FlushSim(w, Table(s, i), h, v); }
  }

  lemma TableCode(s: Source, i: nat)
    requires SourceOk(s) && i <= s.count
    ensures Table(s, i).code == []
  {
    hide TailAt;
  }

  /** The architectural state a register file stands for. */
  function ArchOf(v: seq<Word>, h: Host, pc: nat): Isa.Arch
    requires |v| == 33
  {
    Isa.Arch(pc, v[..32], h.cpu.dmem, h.cpu.cop, Isa.None)
  }

  lemma BeforeAny(w: World, g: Gen, start: Host, v: seq<Word>, pc: nat)
    requires Sim(w, g, start, v, None, multiset{}) && |v| == 33
    ensures v[0] == 0 && Before(w, g, start, ArchOf(v, Now(w, g, start), pc), v[32])
  {
    assert File(v[..32], v[32]) == v;
  }

  /** A host state and a register file that the table before chunk i can describe. */
  ghost predicate Witness(s: Source, i: nat, h: Host, v: seq<Word>)
    requires SourceOk(s) && i <= s.count
  {
    && |v| == 33 && Table(s, i).ok && |Table(s, i).es| == s.hosts
    && Good(Table(s, i).es, h, v, None, multiset{})
  }

  lemma EmptyGood(n: nat, h: Host, v: seq<Word>)
    requires n >= 3 && |h.r| == n && |h.cpu.sr| == 33 && |v| == 33
    requires h.cpu.sr[0] == 0 && v[32] <= 1 && forall m | 0 <= m <= 32 :: h.cpu.sr[m] == v[m]
    ensures Good(Empty(n).es, h, v, None, multiset{})
  {
  }

  /** One chunk's straight-line code keeps the cache sound, whatever the instruction does. */
  lemma ChunkSim(w: World, s: Source, i: nat, h: Host, v: seq<Word>) returns (h': Host, v': seq<Word>)
    requires SourceOk(s) && i < s.count && w.callerRegs == s.callerRegs
    requires Sim(w, Table(s, i), h, v, None, multiset{}) && |v| == 33 && |h.r| == s.hosts
    ensures |v'| == 33 && |h'.r| == s.hosts && Sim(w, Table(s, i + 1), h', v', None, multiset{})
  {
    hide Sim, Table, LabelAt, BodyAt, TailAt, FlushWindow, Body, Tail, Isa.Do1, Labelled, InfoAt, LastInfo, InstrAt, CondAfter, Isa.Decode;
    LabelSim(w, s, i, h, v);
    TableCode(s, i);
    var g0 := LabelAt(s, i);
    FreshSim(w, g0, h, v);
    var h0 := Now(w, g0, h);
    BeforeAny(w, Fresh(g0), h0, v, s.base + i);
    var a := ArchOf(v, h0, s.base + i);
    var instr := InstrAt(s, i);
    InstrValid(s, i);
    BodySim(w, Fresh(g0), h0, instr, a, v[32], Labelled(s, i + 1));
    var g1 := BodyAt(s, i);
    BodyIs(s, i);
    var v1 := File(Isa.Do1(w, instr, a).regs, CondAfter(instr, a.regs, Labelled(s, i + 1), v[32]));
    FreshSim(w, g1, h0, v1);
    var h1 := Now(w, g1, h0);
    TailSim(w, Fresh(g1), h1, v1, i == 0, InfoAt(s, i), LastInfo(s, i));
    TailIs(s, i);
    v' := AfterTail(v1, i == 0, InfoAt(s, i), LastInfo(s, i));
    FreshSim(w, TailAt(s, i), h1, v');
    TableNext(s, i);
    h' := Now(w, TailAt(s, i), h1);
  }

  lemma InstrValid(s: Source, i: nat)
    requires SourceOk(s) && i < s.count
    ensures Isa.Valid(InstrAt(s, i))
  {
  }

  lemma BodyIs(s: Source, i: nat)
    requires SourceOk(s) && i < s.count
    ensures BodyAt(s, i) == Body(Fresh(LabelAt(s, i)), s.callerRegs, InstrAt(s, i), s.base + i, Labelled(s, i + 1))
  {
    hide Body, LabelAt, InstrAt, Labelled;
  }

  lemma TailIs(s: Source, i: nat)
    requires SourceOk(s) && i < s.count
    ensures TailAt(s, i) == Tail(Fresh(BodyAt(s, i)), i == 0, InfoAt(s, i), LastInfo(s, i))
  {
    hide Tail, BodyAt, InfoAt, LastInfo;
  }

  lemma SimSize(w: World, g: Gen, h: Host, v: seq<Word>)
    requires Sim(w, g, h, v, None, multiset{}) && g.code == []
    ensures |g.es| == |h.r| && g.ok && Good(g.es, h, v, None, multiset{})
  {
  }

  lemma SimStart(w: World, g: Gen, h: Host, v: seq<Word>)
    requires g.code == [] && g.ok && Good(g.es, h, v, None, multiset{})
    ensures Sim(w, g, h, v, None, multiset{})
  {
  }

  lemma FirstTableSound(s: Source) returns (h: Host, v: seq<Word>)
    requires SourceOk(s)
    ensures Witness(s, 0, h, v)
  {
    v := seq(33, _ => 0);
    h := Host(seq(s.hosts, _ => 0), 0, 0, CpuState(v, seq(4096, _ => 0), 0, 0, 0));
    EmptyGood(s.hosts, h, v);
  }

  lemma WitnessSim(w: World, s: Source, i: nat, h: Host, v: seq<Word>)
    requires SourceOk(s) && i <= s.count && Witness(s, i, h, v)
    ensures Sim(w, Table(s, i), h, v, None, multiset{}) && |v| == 33 && |h.r| == s.hosts
  {
    TableCode(s, i);
    hide Table;
    SimStart(w, Table(s, i), h, v);
  }

  lemma SimWitness(w: World, s: Source, i: nat, h: Host, v: seq<Word>)
    requires SourceOk(s) && i <= s.count && Sim(w, Table(s, i), h, v, None, multiset{}) && |v| == 33 && |h.r| == s.hosts
    ensures Witness(s, i, h, v)
  {
    TableCode(s, i);
    hide Table;
    SimSize(w, Table(s, i), h, v);
  }

  lemma {:induction false} TablesSound(w: World, s: Source, i: nat) returns (h: Host, v: seq<Word>)
    requires SourceOk(s) && i <= s.count && w.callerRegs == s.callerRegs
    ensures Witness(s, i, h, v)
    decreases i
  {
    hide Witness, Sim, Table;
    if i == 0 {
      h, v := FirstTableSound(s);
    } else {
      var h0, v0 := TablesSound(w, s, i - 1);
      WitnessSim(w, s, i - 1, h0, v0);
      h, v := ChunkSim(w, s, i - 1, h0, v0);
      SimWitness(w, s, i, h, v);
    }
  }

  /** No assertion of the register cache fails while a region is compiled, and at every label the
      cache is empty. */
  lemma CompilationSound(s: Source, i: nat)
    requires SourceOk(s) && i <= s.count
    ensures Table(s, i).ok && |Table(s, i).es| == s.hosts
    ensures i < s.count ==> LabelAt(s, i).ok && |LabelAt(s, i).es| == s.hosts
    ensures i < s.count && Labelled(s, i) ==> Dead(LabelAt(s, i).es)
    ensures i < s.count ==> TailAt(s, i).ok
    ensures EndTail(Table(s, s.count), LastInfo(s, s.count)).ok
  {
    var w := World(s.callerRegs, (_, _) => 0, (_, _, d: Dmem, c) => Called(d, c, 0, 0));
    var h, v := TablesSound(w, s, i);
    TableCode(s, i);
    SimStart(w, Table(s, i), h, v);
    var he, ve := TablesSound(w, s, s.count);
    TableCode(s, s.count);
    SimStart(w, Table(s, s.count), he, ve);
    hide Good, Table, TailAt, LabelAt, EndTail, LastInfo;
    EndSim(w, Table(s, s.count), he, ve, LastInfo(s, s.count));
    if i < s.count {
      LabelSim(w, s, i, h, v);
      LabelSize(w, s, i, h, v);
      var h2, v2 := TablesSound(w, s, i + 1);
      TableNext(s, i);
    }
  }

  lemma LabelSize(w: World, s: Source, i: nat, h: Host, v: seq<Word>)
    requires SourceOk(s) && i < s.count && Sim(w, LabelAt(s, i), h, v, None, multiset{})
    requires Sim(w, Table(s, i), h, v, None, multiset{})
    requires Quiet(Now(w, Table(s, i), h), Now(w, LabelAt(s, i), h))
    ensures |LabelAt(s, i).es| == |Table(s, i).es|
  {
    hide Table, LabelAt;
  }
}

/** The register cache as a server of requests: any legal sequence of loads, assignments, unlocks and
    flushes leaves host registers, memory and table together holding a plain register file. */
module CacheRequests {
  import opened Words
  import opened HostCode
  import opened RegisterCache

  datatype Request =
    | LoadReg(m: nat, ext: Sign)
    | AssignReg(m: nat, x: Reg)        // modify_mips_register, then an operation that computes x
    | ImmediateReg(m: nat, value: Word)
    | UnlockReg(m: nat)
    | FlushAll
    | FlushCalls(callerRegs: nat)
    | FlushReg(m: nat)

  function Serve(g: Gen, r: Request): Gen {
    match r
    case LoadReg(m, ext) => Load(g, m, ext)
    case AssignReg(m, x) => Emit(Modify(g, m), MovI(if Pick(g.es, m) < 0 then 0 else Pick(g.es, m), x))
    case ImmediateReg(m, x) => Immediate(g, m, SExt(x))
    case UnlockReg(m) => Unlock(g, m)
    case FlushAll => FlushWindow(g)
    case FlushCalls(n) => FlushCallerSave(g, n)
    case FlushReg(m) => FlushOne(g, m)
  }

  /** A register file and the registers its user holds. */
  datatype Plain = Plain(v: seq<Word>, locks: multiset<nat>)

  function ServePlain(p: Plain, r: Request): Plain {
    match r
    case LoadReg(m, _) => p.(locks := p.locks + multiset{m})
    case AssignReg(m, x) => Plain(Assign(p.v, m, Low(x)), p.locks + multiset{m})
    case ImmediateReg(m, x) => Plain(Assign(p.v, m, x), p.locks + multiset{m})
    case UnlockReg(m) => p.(locks := p.locks - multiset{m})
    case _ => p
  }

  ghost predicate AtMostTwo(locks: multiset<nat>) {
    exists a: nat, b: nat :: OnlyThese(locks, a, b)
  }

  ghost predicate OnlyThese(locks: multiset<nat>, a: nat, b: nat) {
    forall r: nat | r in locks :: r == a || r == b
  }

  /** What a user may ask: with two registers held it may ask for a third, and it flushes with none. */
  ghost predicate Legal(p: Plain, r: Request) {
    match r
    case LoadReg(m, _) => m <= 32 && AtMostTwo(p.locks)
    case AssignReg(m, x) => 1 <= m <= 32 && AtMostTwo(p.locks) && (m == 32 ==> x <= 1)
    case ImmediateReg(m, x) => 1 <= m <= 32 && AtMostTwo(p.locks) && (m == 32 ==> x <= 1)
    case UnlockReg(m) => m in p.locks
    case FlushReg(m) => m <= 32 && p.locks == multiset{}
    case _ => p.locks == multiset{}
  }

  ghost predicate Refines(w: World, g: Gen, start: Host, p: Plain) {
    |p.v| == 33 && Sim(w, g, start, p.v, None, p.locks)
  }

  lemma ServeRefines(w: World, g: Gen, start: Host, p: Plain, r: Request)
    requires Refines(w, g, start, p) && Legal(p, r)
    ensures Refines(w, Serve(g, r), start, ServePlain(p, r))
  {
    hide Sim, Load, Modify, Immediate, Unlock, FlushWindow, FlushCallerSave, FlushOne, Pick, Low, SExt;
    match r
    case LoadReg(m, ext) =>
      var a, b :| OnlyThese(p.locks, a, b);
      SimLoad(w, g, start, p.v, p.locks, m, ext, a, b);
    case AssignReg(m, x) =>
      var a, b :| OnlyThese(p.locks, a, b);
      SimModify(w, g, start, p.v, p.locks, m, a, b);
      SimWrite(w, Modify(g, m), start, p.v, p.locks + multiset{m}, Pick(g.es, m), m, MovI(Pick(g.es, m), x), x, m);
    case ImmediateReg(m, x) =>
      var a, b :| OnlyThese(p.locks, a, b);
      LowOfExt(x);
      if m == 32 { SmallExt(x); }
      SimImmediate(w, g, start, p.v, p.locks, m, SExt(x), a, b);
    case UnlockReg(m) => SimUnlock(w, g, start, p.v, None, p.locks, m);
    case FlushAll => SimFlushWindow(w, g, start, p.v);
    case FlushCalls(n) => SimFlushCallerSave(w, g, start, p.v, n);
    case FlushReg(m) => SimFlushOne(w, g, start, p.v, m);
  }

  lemma SmallExt(x: Word)
    requires x <= 1
    ensures SExt(x) <= 1
  {
  }

  function ServeAll(g: Gen, rs: seq<Request>): Gen {
    if rs == [] then g else Serve(ServeAll(g, rs[..|rs| - 1]), rs[|rs| - 1])
  }

  function ServeAllPlain(p: Plain, rs: seq<Request>): Plain {
    if rs == [] then p else ServePlain(ServeAllPlain(p, rs[..|rs| - 1]), rs[|rs| - 1])
  }

  ghost predicate AllLegal(p: Plain, rs: seq<Request>) {
    rs == [] || (AllLegal(p, rs[..|rs| - 1]) && Legal(ServeAllPlain(p, rs[..|rs| - 1]), rs[|rs| - 1]))
  }

  /** The refinement, over every legal sequence of requests. */
  lemma {:induction false} RequestsRefine(w: World, g: Gen, start: Host, p: Plain, rs: seq<Request>)
    requires Refines(w, g, start, p) && AllLegal(p, rs)
    ensures Refines(w, ServeAll(g, rs), start, ServeAllPlain(p, rs))
    decreases |rs|
  {
    if rs != [] {
      RequestsRefine(w, g, start, p, rs[..|rs| - 1]);
      hide Refines, Legal, Serve, ServePlain;
      ServeRefines(w, ServeAll(g, rs[..|rs| - 1]), start, ServeAllPlain(p, rs[..|rs| - 1]), rs[|rs| - 1]);
    }
  }

  /** What refinement means for a register m: it is live in at most one entry; there its value is the
      low word of the host register and its extension tag is truthful; elsewhere it is in sr[]. */
  lemma RefinedValue(w: World, g: Gen, start: Host, p: Plain, m: nat)
    requires Refines(w, g, start, p) && m <= 32
    ensures var h := Now(w, g, start);
            && g.ok && |h.r| == |g.es| && |h.cpu.sr| == 33
            && (forall i, j | 0 <= i < |g.es| && 0 <= j < |g.es| && Holds(g.es[i], m) && Holds(g.es[j], m) :: i == j)
            && (forall i | 0 <= i < |g.es| && Holds(g.es[i], m) :: Low(h.r[i]) == p.v[m] && TagOk(g.es[i].sign, h.r[i]))
            && (Absent(g.es, m) ==> h.cpu.sr[m] == p.v[m])
  {
    var h := Now(w, g, start);
    forall i | 0 <= i < |g.es| && Holds(g.es[i], m) ensures Low(h.r[i]) == p.v[m] && TagOk(g.es[i].sign, h.r[i]) {
      assert EntryOk(g.es[i], h.r[i], h.cpu.sr, p.v, None);
    }
  }

  /** After flush_register_window memory holds every register. */
  lemma FlushedMemory(w: World, g: Gen, start: Host, p: Plain)
    requires Refines(w, g, start, p) && p.locks == multiset{}
    ensures var h := Now(w, Serve(g, FlushAll), start);
            |h.cpu.sr| == 33 && h.cpu.sr[1..] == p.v[1..] && forall m :: Absent(Serve(g, FlushAll).es, m)
  {
    hide FlushWindow;
    SimFlushWindow(w, g, start, p.v);
  }

  // ---------------------------------------------------------------- which register is given up

  predicate Asks(r: Request, m: nat) {
    match r
    case LoadReg(m', _) => m' == m
    case AssignReg(m', _) => m' == m
    case ImmediateReg(m', _) => m' == m
    case _ => false
  }

  /** When register m was last asked for, counted from 1; 0 if it never was. */
  function LastAsked(rs: seq<Request>, m: nat): (n: nat)
    ensures n <= |rs|
    ensures n > 0 ==> Asks(rs[n - 1], m)
    ensures forall i | n <= i < |rs| :: !Asks(rs[i], m)
  {
    if rs == [] then 0 else if Asks(rs[|rs| - 1], m) then |rs| else LastAsked(rs[..|rs| - 1], m)
  }

  /** Time stamps are in the order of the last requests. */
  ghost predicate InOrder(g: Gen, rs: seq<Request>) {
    && (forall i | 0 <= i < |g.es| && g.es[i].live :: g.es[i].stamp <= g.clock && LastAsked(rs, g.es[i].mips) > 0)
    && (forall i, j | 0 <= i < |g.es| && 0 <= j < |g.es| && g.es[i].live && g.es[j].live ::
          g.es[i].stamp < g.es[j].stamp <==> LastAsked(rs, g.es[i].mips) < LastAsked(rs, g.es[j].mips))
  }

  function Asked(r: Request): nat {
    match r
    case LoadReg(m, _) => m
    case AssignReg(m, _) => m
    case ImmediateReg(m, _) => m
    case _ => 0
  }

  predicate IsAsk(r: Request) {
    r.LoadReg? || r.AssignReg? || r.ImmediateReg?
  }

  /** A request for a register changes one entry, which then carries the newest stamp. */
  lemma AskEntries(g: Gen, r: Request)
    requires IsAsk(r) && Serve(g, r).ok
    ensures var k, t := Pick(g.es, Asked(r)), Serve(g, r);
            && 0 <= k && |t.es| == |g.es| && t.clock == g.clock + 1
            && t.es[k].live && t.es[k].mips == Asked(r) && t.es[k].stamp == g.clock + 1
            && forall i | 0 <= i < |g.es| && i != k :: t.es[i] == g.es[i]
  {
    hide Pick, SExt;
  }

  /** Any other request leaves entries as they are, but for locks, or frees them. */
  ghost predicate Thinned(es: seq<Entry>, es': seq<Entry>) {
    |es'| == |es| && forall i | 0 <= i < |es| :: !es'[i].live || (es[i].live && es'[i].mips == es[i].mips && es'[i].stamp == es[i].stamp)
  }

  lemma ReleaseThins(g: Gen, k: nat)
    requires k < |g.es|
    ensures Thinned(g.es, Release(g, k).es) && Release(g, k).clock == g.clock
  {
  }

  lemma {:induction false} ReleaseFirstThins(g: Gen, n: nat)
    requires n <= |g.es|
    ensures Thinned(g.es, ReleaseFirst(g, n).es) && ReleaseFirst(g, n).clock == g.clock
    ensures forall i | 0 <= i < n :: !ReleaseFirst(g, n).es[i].live
  {
    hide Release;
    if n > 0 {
      ReleaseFirstThins(g, n - 1);
      ReleaseThins(ReleaseFirst(g, n - 1), n - 1);
      Freed(ReleaseFirst(g, n - 1), n - 1);
    }
  }

  lemma Freed(g: Gen, k: nat)
    requires k < |g.es|
    ensures !Release(g, k).es[k].live
  {
  }

  lemma OtherThins(g: Gen, r: Request)
    requires !IsAsk(r)
    ensures Thinned(g.es, Serve(g, r).es)
    ensures Serve(g, r).clock == g.clock || forall i | 0 <= i < |g.es| :: !Serve(g, r).es[i].live
  {
    hide Release, ReleaseFirst, FindLive;
    match r
    case FlushAll => ReleaseFirstThins(g, |g.es|);
    case FlushCalls(n) => ReleaseFirstThins(g, if n <= |g.es| then n else |g.es|);
    case FlushReg(m) => if FindLive(g.es, m) >= 0 { ReleaseThins(g, FindLive(g.es, m)); }
    case UnlockReg(_) =>
  }

  lemma LastAskedNext(rs: seq<Request>, r: Request, m: nat)
    ensures LastAsked(rs + [r], m) == if Asks(r, m) then |rs| + 1 else LastAsked(rs, m)
  {
    assert (rs + [r])[..|rs|] == rs;
  }

  lemma AskInOrder(g: Gen, rs: seq<Request>, r: Request)
    requires InOrder(g, rs) && IsAsk(r) && Serve(g, r).ok
    requires forall i | 0 <= i < |g.es| && Holds(g.es[i], Asked(r)) :: i == Pick(g.es, Asked(r))
    ensures InOrder(Serve(g, r), rs + [r])
  {
    hide Serve, Pick, LastAsked;
    AskEntries(g, r);
    forall m: nat ensures LastAsked(rs + [r], m) == if m == Asked(r) then |rs| + 1 else LastAsked(rs, m) {
      LastAskedNext(rs, r, m);
    }
  }

  lemma OtherInOrder(g: Gen, rs: seq<Request>, r: Request)
    requires InOrder(g, rs) && !IsAsk(r)
    ensures InOrder(Serve(g, r), rs + [r])
  {
    hide Serve, LastAsked;
    OtherThins(g, r);
    forall m: nat ensures LastAsked(rs + [r], m) == LastAsked(rs, m) {
      LastAskedNext(rs, r, m);
    }
  }

  lemma OnePlace(w: World, g: Gen, start: Host, p: Plain, m: nat)
    requires Refines(w, g, start, p) && m <= 32 && Pick(g.es, m) >= 0
    ensures forall i | 0 <= i < |g.es| && Holds(g.es[i], m) :: i == Pick(g.es, m)
  {
    RefinedValue(w, g, start, p, m);
    hide Sim;
  }

  lemma {:induction false} RequestsInOrder(w: World, g: Gen, start: Host, p: Plain, rs: seq<Request>)
    requires Refines(w, g, start, p) && AllLegal(p, rs) && forall i | 0 <= i < |g.es| :: !g.es[i].live
    ensures InOrder(ServeAll(g, rs), rs)
    decreases |rs|
  {
    hide Refines, Legal, Serve, ServePlain, InOrder;
    if rs == [] {
      NothingLive(g);
    } else {
      var front, r := rs[..|rs| - 1], rs[|rs| - 1];
      var g1, p1 := ServeAll(g, front), ServeAllPlain(p, front);
      RequestsInOrder(w, g, start, p, front);
      RequestsRefine(w, g, start, p, front);
      ServeRefines(w, g1, start, p1, r);
      RefinesOk(w, Serve(g1, r), start, ServePlain(p1, r));
      assert front + [r] == rs;
      if IsAsk(r) {
        AskEntries(g1, r);
        LegalAsk(p1, r);
        OnePlace(w, g1, start, p1, Asked(r));
        AskInOrder(g1, front, r);
      } else {
        OtherInOrder(g1, front, r);
      }
    }
  }

  lemma NothingLive(g: Gen)
    requires forall i | 0 <= i < |g.es| :: !g.es[i].live
    ensures InOrder(g, [])
  {
  }

  lemma RefinesOk(w: World, g: Gen, start: Host, p: Plain)
    requires Refines(w, g, start, p)
    ensures g.ok
  {
  }

  lemma LegalAsk(p: Plain, r: Request)
    requires Legal(p, r) && IsAsk(r)
    ensures Asked(r) <= 32
  {
  }

  /** After any legal sequence of requests, from an empty table: a register is given up only if all are
      taken, and it is the one that was last asked for the longest ago among those not locked. */
  lemma EvictsLeastRecent(w: World, g: Gen, start: Host, p: Plain, rs: seq<Request>, m: nat, j: nat)
    requires Refines(w, g, start, p) && AllLegal(p, rs) && forall i | 0 <= i < |g.es| :: !g.es[i].live
    requires var es := ServeAll(g, rs).es; var k := Pick(es, m);
             k >= 0 && es[k].live && es[k].mips != m && j < |es|
    ensures var es := ServeAll(g, rs).es; var k := Pick(es, m);
            && es[k].locks == 0 && es[j].live
            && (es[j].locks == 0 ==> LastAsked(rs, es[k].mips) <= LastAsked(rs, es[j].mips))
  {
    hide Refines, Legal, Serve, ServePlain;
    RequestsInOrder(w, g, start, p, rs);
    hide LastAsked;
  }
}

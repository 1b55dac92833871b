/** The recompiler's register cache as a function of its table, and the proof that the code it emits
    refines a plain register file.

    Entry i of the table stands for host register i. Registers 1..31 are the MIPS registers, 32 is
    COND_BRANCH_TAKEN, 33 and 34 are scratch registers that are never written to memory. */
module RegisterCache {
  import opened Words
  import opened HostCode

  const COND_BRANCH_TAKEN := 32
  const SCRATCH_REGISTER0 := 33
  const SCRATCH_REGISTER1 := 34

  datatype Entry = Entry(mips: nat, stamp: nat, locks: nat, sign: Sign, live: bool, modified: bool)

  const Blank := Entry(0, 0, 0, SExtended, false, false)

  /** The table, its clock, the code emitted so far, and whether every assertion has held. */
  datatype Gen = Gen(es: seq<Entry>, clock: nat, code: seq<Op>, ok: bool)

  predicate Holds(e: Entry, m: nat) {
    e.live && e.mips == m
  }

  function FindLive(es: seq<Entry>, m: nat, from: nat := 0): (k: int)
    ensures -1 <= k < |es| && (k >= 0 ==> from <= k && Holds(es[k], m))
    ensures forall j | from <= j < (if k < 0 then |es| else k) :: !Holds(es[j], m)
    decreases |es| - from
  {
    if from >= |es| then -1 else if Holds(es[from], m) then from else FindLive(es, m, from + 1)
  }

  predicate Absent(es: seq<Entry>, m: nat) {
    forall j | 0 <= j < |es| :: !Holds(es[j], m)
  }

  function FindFree(es: seq<Entry>, from: nat := 0): (k: int)
    ensures -1 <= k < |es| && (k >= 0 ==> from <= k && !es[k].live)
    ensures forall j | from <= j < (if k < 0 then |es| else k) :: es[j].live
    decreases |es| - from
  {
    if from >= |es| then -1 else if !es[from].live then from else FindFree(es, from + 1)
  }

  predicate Evictable(e: Entry) {
    e.live && e.locks == 0
  }

  /** The first of the oldest evictable entries among the first n. */
  function FindOldest(es: seq<Entry>, n: nat): (k: int)
    requires n <= |es|
    ensures -1 <= k < n && (k >= 0 ==> Evictable(es[k]))
    ensures forall j | 0 <= j < n && Evictable(es[j]) :: 0 <= k && es[k].stamp <= es[j].stamp
    ensures forall j | 0 <= j < k && Evictable(es[j]) :: es[k].stamp < es[j].stamp
  {
    if n == 0 then -1
    else
      var k := FindOldest(es, n - 1);
      if Evictable(es[n - 1]) && (k < 0 || es[n - 1].stamp < es[k].stamp) then n - 1 else k
  }

  /** find_register; -1 when its assertion fails. */
  function Pick(es: seq<Entry>, m: nat): (k: int)
    ensures -1 <= k < |es|
  {
    if FindLive(es, m) >= 0 then FindLive(es, m)
    else if FindFree(es) >= 0 then FindFree(es)
    else FindOldest(es, |es|)
  }

  function Emit(g: Gen, op: Op): Gen {
    g.(code := g.code + [op])
  }

  function Fail(g: Gen): Gen {
    g.(ok := false)
  }

  function Writeback(g: Gen, k: nat): Gen
    requires k < |g.es|
  {
    var e := g.es[k];
    var stored := if e.mips <= COND_BRANCH_TAKEN then Emit(g, StoreSr(e.mips, k)) else g;
    stored.(es := g.es[k := e.(modified := false)], ok := g.ok && e.mips != 0)
  }

  /** Makes entry k stand for m, saving what it held. */
  function Claim(g: Gen, k: nat, m: nat): Gen
    requires k < |g.es|
  {
    var g' := if g.es[k].live && g.es[k].mips != m && g.es[k].modified then Writeback(g, k) else g;
    g'.(es := g'.es[k := g'.es[k].(mips := m, live := true)])
  }

  function Touch(g: Gen, k: nat): Gen
    requires k < |g.es|
  {
    var e := g.es[k];
    g.(clock := g.clock + 1, es := g.es[k := e.(stamp := g.clock + 1, locks := e.locks + 1)])
  }

  /** load_mips_register_noext / _sext / _zext for ext = Unknown / SExtended / ZExtended. */
  function Load(g: Gen, m: nat, ext: Sign): Gen {
    var k := Pick(g.es, m);
    if k < 0 || m > COND_BRANCH_TAKEN then Fail(g)
    else if Holds(g.es[k], m) then
      if ext.Unknown? || g.es[k].sign == ext then Touch(g, k)
      else
        var g' := if m != 0 then Emit(g, ExtR(k, ext)) else g;
        Touch(g'.(es := g'.es[k := g'.es[k].(sign := ext)]), k)
    else
      var tag := if ext.ZExtended? then ZExtended else SExtended;
      var g' := Claim(g, k, m);
      var g'' := Emit(g', if m != 0 then LoadSr(k, m, tag) else MovI(k, 0));
      Touch(g''.(es := g''.es[k := g''.es[k].(sign := tag, modified := false)]), k)
  }

  /** modify_mips_register. */
  function Modify(g: Gen, m: nat): Gen {
    var k := Pick(g.es, m);
    if k < 0 then Fail(g)
    else
      var g' := Claim(g, k, m);
      Touch(g'.(es := g'.es[k := g'.es[k].(sign := Unknown, modified := true)]), k)
  }

  /** immediate_mips_register. */
  function Immediate(g: Gen, m: nat, value: Reg): Gen {
    var k := Pick(g.es, m);
    if k < 0 then Fail(g)
    else
      var g' := Emit(Modify(g, m), MovI(k, value));
      g'.(es := g'.es[k := g'.es[k].(sign := SExtended)])
  }

  function Unlock(g: Gen, m: nat): Gen {
    var k := FindLive(g.es, m);
    if k < 0 || g.es[k].locks == 0 then Fail(g)
    else g.(es := g.es[k := g.es[k].(locks := g.es[k].locks - 1)])
  }

  /** Writes back and frees entry k. */
  function Release(g: Gen, k: nat): Gen
    requires k < |g.es|
  {
    if !g.es[k].live then g
    else
      var g' := if g.es[k].modified then Writeback(g, k) else g;
      g'.(ok := g'.ok && g.es[k].locks == 0, es := g'.es[k := Blank])
  }

  /** Releases entries 0..n-1 in order. */
  function ReleaseFirst(g: Gen, n: nat): (r: Gen)
    requires n <= |g.es|
    ensures |r.es| == |g.es|
  {
    if n == 0 then g else Release(ReleaseFirst(g, n - 1), n - 1)
  }

  /** flush_register_window. */
  function FlushWindow(g: Gen): Gen {
    ReleaseFirst(g, |g.es|).(clock := 0)
  }

  /** flush_caller_save_registers: the registers a call may overwrite. */
  function FlushCallerSave(g: Gen, callerRegs: nat): Gen {
    ReleaseFirst(g, if callerRegs <= |g.es| then callerRegs else |g.es|)
  }

  /** flush_mips_register. */
  function FlushOne(g: Gen, m: nat): Gen {
    var k := FindLive(g.es, m);
    if k < 0 then g else Release(g, k)
  }

  /** An empty table of n entries. */
  function Empty(n: nat): Gen {
    Gen(seq(n, _ => Blank), 0, [], true)
  }

  // ---------------------------------------------------------------- the register file behind it

  /** Host registers, memory and table together hold register file v. `hole` names a register whose
      entry is about to be overwritten (or is none: 35). */
  ghost predicate Rep(es: seq<Entry>, host: Host, v: seq<Word>, hole: nat) {
    && |v| == 33 && v[0] == 0 && v[32] <= 1
    && |host.r| == |es| && |host.cpu.sr| == 33 && host.cpu.sr[0] == 0
    && (forall i | 0 <= i < |es| && es[i].live :: es[i].mips <= 34 && EntryOk(es[i], host.r[i], host.cpu.sr, v, hole))
    && (forall i, j | 0 <= i < j < |es| && es[i].live && es[j].live :: es[i].mips != es[j].mips)
    && (forall m | 1 <= m <= 32 && Absent(es, m) :: host.cpu.sr[m] == v[m])
  }

  predicate EntryOk(e: Entry, x: Reg, sr: seq<Word>, v: seq<Word>, hole: nat)
    requires |sr| == 33 && |v| == 33
  {
    && (e.mips == 0 ==> !e.modified && !e.sign.Unknown?)
    && (e.mips <= 32 && e.mips != hole ==>
          && Low(x) == v[e.mips]
          && TagOk(e.sign, x)
          && (e.mips == 32 ==> x == Low(x))
          && (!e.modified ==> sr[e.mips] == v[e.mips]))
    && (e.mips <= 32 && e.mips == hole ==> e.modified && e.sign.Unknown?)
  }

  /** The lock counts are those of the multiset `locks` of registers. */
  ghost predicate Locked(es: seq<Entry>, locks: multiset<nat>) {
    && (forall i | 0 <= i < |es| :: es[i].locks == if es[i].live then locks[es[i].mips] else 0)
    && (forall m: nat | m in locks :: !Absent(es, m))
  }

  const None := 35

  ghost predicate Good(es: seq<Entry>, host: Host, v: seq<Word>, hole: nat, locks: multiset<nat>) {
    |es| >= 3 && Rep(es, host, v, hole) && Locked(es, locks)
  }

  /** Running the emitted code from `start` reaches a state that represents v. */
  ghost predicate Sim(w: World, g: Gen, start: Host, v: seq<Word>, hole: nat, locks: multiset<nat>) {
    g.ok && Good(g.es, Run(w, g.code, start), v, hole, locks)
  }

  // ---------------------------------------------------------------- one entry at a time

  /** Memory after entry e, held in host register x, was saved if it had to be. */
  function Saved(host: Host, e: Entry, x: Reg): Host {
    if e.live && e.modified && e.mips <= 32 then host.(cpu := SetSr(host.cpu, e.mips, Low(x))) else host
  }

  lemma RepRelease(es: seq<Entry>, host: Host, v: seq<Word>, k: nat)
    requires Rep(es, host, v, None) && k < |es|
    ensures Rep(es[k := Blank], Saved(host, es[k], host.r[k]), v, None)
  {
    var es', host' := es[k := Blank], Saved(host, es[k], host.r[k]);
    forall i | 0 <= i < |es'| && es'[i].live ensures EntryOk(es'[i], host'.r[i], host'.cpu.sr, v, None) {
      assert EntryOk(es[i], host.r[i], host.cpu.sr, v, None);
      if es[k].live { assert es[i].mips != es[k].mips; }
    }
    forall m | 1 <= m <= 32 && Absent(es', m) ensures host'.cpu.sr[m] == v[m] {
      if es[k].live && es[k].mips == m {
        assert EntryOk(es[k], host.r[k], host.cpu.sr, v, None);
      } else {
        assert Absent(es, m);
      }
    }
  }

  /** A free entry k starts to stand for e.mips with value x. */
  lemma RepFill(es: seq<Entry>, host: Host, v: seq<Word>, k: nat, e: Entry, x: Reg, hole: nat)
    requires Rep(es, host, v, None) && k < |es| && !es[k].live
    requires e.live && e.mips <= 34 && Absent(es, e.mips) && (hole == e.mips || hole == None)
    requires EntryOk(e, x, host.cpu.sr, v, hole)
    ensures Rep(es[k := e], Set(host, k, x), v, hole)
  {
    var es', host' := es[k := e], Set(host, k, x);
    forall i | 0 <= i < |es'| && es'[i].live ensures EntryOk(es'[i], host'.r[i], host'.cpu.sr, v, hole) {
      if i != k { assert EntryOk(es[i], host.r[i], host.cpu.sr, v, None); }
    }
    forall m | 1 <= m <= 32 && Absent(es', m) ensures host'.cpu.sr[m] == v[m] {
      assert !Holds(es'[k], m);
      assert forall j | 0 <= j < |es| :: Holds(es'[j], m) || !Holds(es[j], m);
    }
  }

  /** Entry k goes on standing for its register, which takes value v'[e.mips]. */
  lemma RepUpdate(es: seq<Entry>, host: Host, v: seq<Word>, v': seq<Word>, k: nat, e: Entry, x: Reg, hole: nat, hole': nat)
    requires Rep(es, host, v, hole) && k < |es| && es[k].live && e.live && e.mips == es[k].mips
    requires |v'| == 33 && v'[0] == 0 && v'[32] <= 1
    requires forall m | 0 <= m < 33 && m != e.mips :: v'[m] == v[m]
    requires hole == None || hole == e.mips
    requires hole' == None || hole' == e.mips
    requires EntryOk(e, x, host.cpu.sr, v', hole')
    ensures Rep(es[k := e], Set(host, k, x), v', hole')
  {
    var es', host' := es[k := e], Set(host, k, x);
    forall i | 0 <= i < |es'| && es'[i].live ensures EntryOk(es'[i], host'.r[i], host'.cpu.sr, v', hole') {
      if i != k {
        assert EntryOk(es[i], host.r[i], host.cpu.sr, v, hole);
        assert es[i].mips != es[k].mips;
      }
    }
    forall m | 1 <= m <= 32 && Absent(es', m) ensures host'.cpu.sr[m] == v'[m] {
      assert forall j | 0 <= j < |es| :: Holds(es'[j], m) == Holds(es[j], m);
    }
  }

  lemma LockedUpdate(es: seq<Entry>, locks: multiset<nat>, k: nat, e: Entry, locks': multiset<nat>)
    requires Locked(es, locks) && k < |es|
    requires forall i | 0 <= i < |es| && i != k && es[i].live ::
      (e.live ==> es[i].mips != e.mips) && (es[k].live ==> es[i].mips != es[k].mips)
    requires e.locks == (if e.live then locks'[e.mips] else 0)
    requires es[k].live && (!e.live || e.mips != es[k].mips) ==> locks[es[k].mips] == 0
    requires forall m: nat | m != e.mips || !e.live :: locks'[m] == locks[m]
    ensures Locked(es[k := e], locks')
  {
    var es' := es[k := e];
    forall m: nat | m in locks' ensures !Absent(es', m) {
      if e.live && m == e.mips {
        assert Holds(es'[k], m);
      } else {
        assert m in locks;
        var j :| 0 <= j < |es| && Holds(es[j], m);
        assert j != k;
        assert Holds(es'[j], m);
      }
    }
  }

  // ---------------------------------------------------------------- the operations of the cache

  function Now(w: World, g: Gen, start: Host): Host {
    Run(w, g.code, start)
  }

  lemma EmitNow(w: World, g: Gen, op: Op, start: Host)
    ensures Now(w, Emit(g, op), start) == Do(w, op, Now(w, g, start))
  {
    RunOne(w, g.code, op, start);
  }

  lemma ReleaseShape(w: World, g: Gen, start: Host, k: nat)
    requires k < |g.es| && g.es[k].live && g.es[k].locks == 0 && g.es[k].mips <= 34
    requires g.es[k].modified ==> g.es[k].mips != 0
    requires k < |Now(w, g, start).r|
    ensures Release(g, k).es == g.es[k := Blank] && Release(g, k).clock == g.clock && Release(g, k).ok == g.ok
    ensures Now(w, Release(g, k), start) == Saved(Now(w, g, start), g.es[k], Now(w, g, start).r[k])
  {
    var e := g.es[k];
    if e.modified && e.mips <= 32 {
      EmitNow(w, g, StoreSr(e.mips, k), start);
      assert Release(g, k).code == Emit(g, StoreSr(e.mips, k)).code;
    } else {
      assert Release(g, k).code == g.code;
    }
  }

  lemma SimRelease(w: World, g: Gen, start: Host, v: seq<Word>, locks: multiset<nat>, k: nat)
    requires Sim(w, g, start, v, None, locks) && k < |g.es| && g.es[k].live && g.es[k].locks == 0
    ensures Sim(w, Release(g, k), start, v, None, locks)
    ensures Release(g, k).es == g.es[k := Blank] && Release(g, k).clock == g.clock
    ensures Now(w, Release(g, k), start) == Saved(Now(w, g, start), g.es[k], Now(w, g, start).r[k])
  {
    assert EntryOk(g.es[k], Now(w, g, start).r[k], Now(w, g, start).cpu.sr, v, None);
    ReleaseShape(w, g, start, k);
    LockedUpdate(g.es, locks, k, Blank, locks);
    RepRelease(g.es, Now(w, g, start), v, k);
  }

  /** Everything but host registers and sr[] is the same. */
  predicate Quiet(a: Host, b: Host) {
    && a.ind == b.ind && a.mode == b.mode
    && a.cpu.dmem == b.cpu.dmem && a.cpu.cop == b.cpu.cop
    && a.cpu.hasDelay == b.cpu.hasDelay && a.cpu.target == b.cpu.target
    && |a.r| == |b.r|
  }

  /** Only entry and host register k changed. */
  ghost predicate Moved(a: seq<Entry>, ha: Host, b: seq<Entry>, hb: Host, k: nat) {
    && Quiet(ha, hb) && |a| == |b| == |ha.r|
    && (forall i | 0 <= i < |a| && i != k :: a[i] == b[i])
    && (forall i | 0 <= i < |a| && i != k :: ha.r[i] == hb.r[i])
  }

  /** Register m, of value x, is now in host register k with the extension asked for; a register
      that was there already with that extension has not changed. */
  ghost predicate Loaded(es: seq<Entry>, h: Host, es': seq<Entry>, h': Host, x: Word, k: nat, m: nat, ext: Sign) {
    && k < |es| && Moved(es, h, es', h', k) && Holds(es'[k], m)
    && Low(h'.r[k]) == x && TagOk(es'[k].sign, h'.r[k]) && (m == 32 ==> h'.r[k] == x)
    && (ext.Unknown? || es'[k].sign == ext)
    && (Holds(es[k], m) && (ext.Unknown? || es[k].sign == ext) ==> h'.r[k] == h.r[k] && es'[k].sign == es[k].sign)
  }

  /** With at most two registers locked, find_register succeeds on a table of three or more. */
  lemma PickSucceeds(es: seq<Entry>, locks: multiset<nat>, m: nat, a: nat, b: nat)
    requires |es| >= 3 && Locked(es, locks)
    requires forall i, j | 0 <= i < j < |es| && es[i].live && es[j].live :: es[i].mips != es[j].mips
    requires forall r: nat | r in locks :: r == a || r == b
    ensures Pick(es, m) >= 0
  {
    assert es[0].live ==> es[0].locks == locks[es[0].mips];
    assert es[1].live ==> es[1].locks == locks[es[1].mips];
    assert es[2].live ==> es[2].locks == locks[es[2].mips];
  }

  lemma PickFacts(es: seq<Entry>, m: nat)
    requires Pick(es, m) >= 0
    ensures var e := es[Pick(es, m)]; Holds(e, m) || (Absent(es, m) && (e.live ==> e.locks == 0))
  {
  }

  /** The tag and value a hit leaves in entry k. */
  function HitTag(e: Entry, ext: Sign): Sign {
    if ext.Unknown? then e.sign else ext
  }

  function HitValue(e: Entry, x: Reg, ext: Sign): Reg {
    if HitTag(e, ext) == e.sign || e.mips == 0 then x else Extended(ext, Low(x))
  }

  lemma LoadHit(w: World, g: Gen, start: Host, m: nat, ext: Sign, k: nat)
    requires k == FindLive(g.es, m) && m <= 32 && |Now(w, g, start).r| == |g.es|
    ensures var e, host, g' := g.es[k], Now(w, g, start), Load(g, m, ext);
            && g'.es == g.es[k := e.(sign := HitTag(e, ext), stamp := g.clock + 1, locks := e.locks + 1)]
            && g'.ok == g.ok
            && Now(w, g', start) == Set(host, k, HitValue(e, host.r[k], ext))
  {
    var host, e := Now(w, g, start), g.es[k];
    assert Pick(g.es, m) == k;
    if HitTag(e, ext) == e.sign {
      assert Load(g, m, ext) == Touch(g, k);
      assert Set(host, k, host.r[k]) == host;
    } else {
      var tagged := g.es[k := e.(sign := ext)];
      if m == 0 {
        assert Load(g, m, ext) == Touch(g.(es := tagged), k);
        assert Set(host, k, host.r[k]) == host;
      } else {
        EmitNow(w, g, ExtR(k, ext), start);
        assert Load(g, m, ext) == Touch(Emit(g, ExtR(k, ext)).(es := tagged), k);
      }
    }
  }

  /** A lock more on entry k, whose register keeps its value. */
  lemma HitGood(es: seq<Entry>, host: Host, v: seq<Word>, locks: multiset<nat>, k: nat, e: Entry, x: Reg, hole: nat)
    requires Good(es, host, v, None, locks) && k < |es| && es[k].live && e.live && e.mips == es[k].mips
    requires e.locks == es[k].locks + 1 && (hole == None || hole == e.mips)
    requires EntryOk(e, x, host.cpu.sr, v, hole)
    ensures Good(es[k := e], Set(host, k, x), v, hole, locks + multiset{e.mips})
  {
    RepUpdate(es, host, v, v, k, e, x, None, hole);
    LockedUpdate(es, locks, k, e, locks + multiset{e.mips});
  }

  lemma SimLoadHit(w: World, g: Gen, start: Host, v: seq<Word>, locks: multiset<nat>, m: nat, ext: Sign, k: nat)
    requires Sim(w, g, start, v, None, locks) && m <= 32 && k == FindLive(g.es, m)
    ensures Sim(w, Load(g, m, ext), start, v, None, locks + multiset{m})
  {
    var host, e := Now(w, g, start), g.es[k];
    assert EntryOk(e, host.r[k], host.cpu.sr, v, None);
    assert |host.r| == |g.es|;
    hide Good, Load, FindLive, Low, EntryOk;
    LoadHit(w, g, start, m, ext, k);
    LowOfExt(Low(host.r[k]));
    var e' := e.(sign := HitTag(e, ext), stamp := g.clock + 1, locks := e.locks + 1);
    HitGood(g.es, host, v, locks, k, e', HitValue(e, host.r[k], ext), None);
  }

  lemma LoadedByHit(w: World, g: Gen, start: Host, v: seq<Word>, m: nat, ext: Sign, k: nat)
    requires Rep(g.es, Now(w, g, start), v, None) && m <= 32 && k == FindLive(g.es, m)
    ensures Loaded(g.es, Now(w, g, start), Load(g, m, ext).es, Now(w, Load(g, m, ext), start), v[m], k, m, ext)
  {
    var host, e := Now(w, g, start), g.es[k];
    assert EntryOk(e, host.r[k], host.cpu.sr, v, None);
    LoadHit(w, g, start, m, ext, k);
    LowOfExt(Low(host.r[k]));
  }

  /** Entry k free, its register saved. */
  function Room(g: Gen, k: nat): Gen
    requires k < |g.es|
  {
    if g.es[k].live then Release(g, k) else g
  }

  /** The table with entry k standing for m, freshly touched. */
  function Taken(g: Gen, k: nat, m: nat, sign: Sign, modified: bool): seq<Entry>
    requires k < |g.es|
  {
    g.es[k := Entry(m, g.clock + 1, 1, sign, true, modified)]
  }

  lemma SimRoom(w: World, g: Gen, start: Host, v: seq<Word>, locks: multiset<nat>, k: nat)
    requires Sim(w, g, start, v, None, locks) && k < |g.es| && g.es[k].locks == 0
    ensures Sim(w, Room(g, k), start, v, None, locks)
    ensures Moved(g.es, Now(w, g, start), Room(g, k).es, Now(w, Room(g, k), start), k)
    ensures !Room(g, k).es[k].live && Room(g, k).clock == g.clock
    ensures Now(w, Room(g, k), start).r == Now(w, g, start).r
  {
    if g.es[k].live { SimRelease(w, g, start, v, locks, k); }
  }

  lemma FillGood(es: seq<Entry>, host: Host, v: seq<Word>, locks: multiset<nat>, k: nat, e: Entry, tag: Sign)
    requires Good(es, host, v, None, locks) && k < |es| && !es[k].live
    requires e.mips <= 32 && Absent(es, e.mips) && !tag.Unknown?
    requires e == Entry(e.mips, e.stamp, 1, tag, true, false)
    ensures Good(es[k := e], Set(host, k, Extended(tag, v[e.mips])), v, None, locks + multiset{e.mips})
  {
    var x := Extended(tag, v[e.mips]);
    LowOfExt(v[e.mips]);
    RepFill(es, host, v, k, e, x, None);
    assert e.mips !in locks;
    LockedUpdate(es, locks, k, e, locks + multiset{e.mips});
  }

  /** The free entry k loaded with register m. */
  function Filled(g: Gen, k: nat, m: nat, tag: Sign): Gen
    requires k < |g.es|
  {
    Emit(g, if m != 0 then LoadSr(k, m, tag) else MovI(k, 0)).(clock := g.clock + 1, es := Taken(g, k, m, tag, false))
  }

  lemma FilledNow(w: World, g: Gen, start: Host, v: seq<Word>, k: nat, m: nat, tag: Sign)
    requires k < |g.es| && m < |v| && !tag.Unknown? && Sr(Now(w, g, start).cpu, m) == v[m] && v[0] == 0
    ensures Now(w, Filled(g, k, m, tag), start) == Set(Now(w, g, start), k, Extended(tag, v[m]))
  {
    EmitNow(w, g, if m != 0 then LoadSr(k, m, tag) else MovI(k, 0), start);
  }

  lemma SimFill(w: World, g: Gen, start: Host, v: seq<Word>, locks: multiset<nat>, k: nat, m: nat, tag: Sign)
    requires Sim(w, g, start, v, None, locks) && k < |g.es| && !g.es[k].live
    requires m <= 32 && Absent(g.es, m) && !tag.Unknown?
    ensures Sim(w, Filled(g, k, m, tag), start, v, None, locks + multiset{m})
    ensures Now(w, Filled(g, k, m, tag), start) == Set(Now(w, g, start), k, Extended(tag, v[m]))
  {
    FilledNow(w, g, start, v, k, m, tag);
    FillGood(g.es, Now(w, g, start), v, locks, k, Entry(m, g.clock + 1, 1, tag, true, false), tag);
  }

  lemma StillAbsent(es: seq<Entry>, freed: seq<Entry>, k: nat, m: nat)
    requires |es| == |freed| && k < |es| && !freed[k].live && Absent(es, m)
    requires forall i | 0 <= i < |es| && i != k :: freed[i] == es[i]
    ensures Absent(freed, m)
  {
    assert forall j | 0 <= j < |es| :: !Holds(es[j], m);
  }

  function LoadTag(ext: Sign): Sign {
    if ext.ZExtended? then ZExtended else SExtended
  }

  lemma LoadMiss(g: Gen, m: nat, ext: Sign, k: nat)
    requires k == Pick(g.es, m) && Absent(g.es, m) && m <= 32 && g.es[k].locks == 0
    requires g.es[k].live && g.es[k].modified ==> g.es[k].mips != 0
    ensures Load(g, m, ext) == Filled(Room(g, k), k, m, LoadTag(ext))
  {
    var e := Entry(m, g.clock + 1, 1, LoadTag(ext), true, false);
    assert g.es[k := Blank][k := e] == g.es[k := e];
  }

  lemma SimLoadMiss(w: World, g: Gen, start: Host, v: seq<Word>, locks: multiset<nat>, m: nat, ext: Sign, k: nat)
    requires Sim(w, g, start, v, None, locks) && m <= 32
    requires k == Pick(g.es, m) && Absent(g.es, m)
    ensures Sim(w, Load(g, m, ext), start, v, None, locks + multiset{m})
    ensures Load(g, m, ext).es == Taken(Room(g, k), k, m, LoadTag(ext), false)
    ensures Now(w, Load(g, m, ext), start) == Set(Now(w, Room(g, k), start), k, Extended(LoadTag(ext), v[m]))
  {
    assert g.es[k].live ==> EntryOk(g.es[k], Now(w, g, start).r[k], Now(w, g, start).cpu.sr, v, None);
    hide Pick;
    LoadMiss(g, m, ext, k);
    hide Load;
    SimRoom(w, g, start, v, locks, k);
    StillAbsent(g.es, Room(g, k).es, k, m);
    SimFill(w, Room(g, k), start, v, locks, k, m, LoadTag(ext));
  }

  lemma LoadedByFill(es: seq<Entry>, h: Host, es1: seq<Entry>, h1: Host, e: Entry, x: Word, k: nat, ext: Sign)
    requires Moved(es, h, es1, h1, k) && k < |es| && !Holds(es[k], e.mips) && e.live && e.sign == LoadTag(ext)
    requires e.mips == 32 ==> x <= 1
    ensures Loaded(es, h, es1[k := e], Set(h1, k, Extended(e.sign, x)), x, k, e.mips, ext)
  {
    LowOfExt(x);
  }

  lemma SimLoadMissed(w: World, g: Gen, start: Host, v: seq<Word>, locks: multiset<nat>, m: nat, ext: Sign, k: nat)
    requires Sim(w, g, start, v, None, locks) && m <= 32
    requires k == Pick(g.es, m) && Absent(g.es, m)
    ensures Loaded(g.es, Now(w, g, start), Load(g, m, ext).es, Now(w, Load(g, m, ext), start), v[m], k, m, ext)
  {
    assert g.es[k].locks == 0 && |v| == 33 && v[32] <= 1 && !Holds(g.es[k], m);
    hide Good, Room, Load, Pick, Absent, Loaded, Moved;
    SimLoadMiss(w, g, start, v, locks, m, ext, k);
    SimRoom(w, g, start, v, locks, k);
    LoadedByFill(g.es, Now(w, g, start), Room(g, k).es, Now(w, Room(g, k), start),
      Entry(m, Room(g, k).clock + 1, 1, LoadTag(ext), true, false), v[m], k, ext);
  }

  /** Loading register m: the plain register file is unchanged, m is in host register k with the
      extension asked for, and no other host register changed. */
  lemma SimLoad(w: World, g: Gen, start: Host, v: seq<Word>, locks: multiset<nat>, m: nat, ext: Sign, a: nat, b: nat)
    requires Sim(w, g, start, v, None, locks) && m <= 32
    requires forall r: nat | r in locks :: r == a || r == b
    ensures Pick(g.es, m) >= 0
    ensures Sim(w, Load(g, m, ext), start, v, None, locks + multiset{m})
    ensures Loaded(g.es, Now(w, g, start), Load(g, m, ext).es, Now(w, Load(g, m, ext), start), v[m], Pick(g.es, m), m, ext)
  {
    PickSucceeds(g.es, locks, m, a, b);
    PickFacts(g.es, m);
    var k := Pick(g.es, m);
    if FindLive(g.es, m) >= 0 {
      SimLoadHit(w, g, start, v, locks, m, ext, k);
      LoadedByHit(w, g, start, v, m, ext, k);
    } else {
      SimLoadMiss(w, g, start, v, locks, m, ext, k);
      SimLoadMissed(w, g, start, v, locks, m, ext, k);
    }
  }

  // ---------------------------------------------------------------- modify

  /** Modify leaves host registers alone; entry k stands for m, marked modified, untagged. */
  ghost predicate Claimed(es: seq<Entry>, h: Host, es': seq<Entry>, h': Host, k: nat, m: nat) {
    && k < |es| && Moved(es, h, es', h', k) && h'.r == h.r
    && Holds(es'[k], m) && es'[k].modified && es'[k].sign.Unknown?
  }

  lemma ModifyHit(g: Gen, m: nat, k: nat)
    requires k == FindLive(g.es, m)
    ensures Modify(g, m).es == g.es[k := g.es[k].(sign := Unknown, modified := true, stamp := g.clock + 1, locks := g.es[k].locks + 1)]
    ensures Modify(g, m).code == g.code && Modify(g, m).ok == g.ok
  {
  }

  lemma ModifyMiss(g: Gen, m: nat, k: nat)
    requires k == Pick(g.es, m) && FindLive(g.es, m) < 0 && g.es[k].locks == 0
    requires g.es[k].live && g.es[k].modified ==> g.es[k].mips != 0
    ensures Modify(g, m).es == Taken(g, k, m, Unknown, true)
    ensures Modify(g, m).code == Room(g, k).code && Modify(g, m).ok == Room(g, k).ok
  {
  }

  /** hole of a register: scratch registers need none. */
  function HoleOf(m: nat): nat {
    if m <= 32 then m else None
  }

  function Claiming(e: Entry, stamp: nat): Entry {
    e.(sign := Unknown, modified := true, stamp := stamp, locks := e.locks + 1)
  }

  lemma ModifyHitGood(es: seq<Entry>, host: Host, v: seq<Word>, locks: multiset<nat>, k: nat, stamp: nat)
    requires Good(es, host, v, None, locks) && k < |es| && es[k].live && 1 <= es[k].mips
    ensures Good(es[k := Claiming(es[k], stamp)], host, v, HoleOf(es[k].mips), locks + multiset{es[k].mips})
  {
    assert EntryOk(es[k], host.r[k], host.cpu.sr, v, None);
    assert Set(host, k, host.r[k]) == host;
    hide Locked;
    HitGood(es, host, v, locks, k, Claiming(es[k], stamp), host.r[k], HoleOf(es[k].mips));
  }

  lemma SimModifyHit(w: World, g: Gen, start: Host, v: seq<Word>, locks: multiset<nat>, m: nat, k: nat)
    requires Sim(w, g, start, v, None, locks) && 1 <= m <= 34 && k == FindLive(g.es, m)
    ensures Sim(w, Modify(g, m), start, v, HoleOf(m), locks + multiset{m})
  {
    hide Modify, FindLive, Good;
    ModifyHit(g, m, k);
    ModifyHitGood(g.es, Now(w, g, start), v, locks, k, g.clock + 1);
  }

  lemma ClaimedByHit(w: World, g: Gen, start: Host, m: nat, k: nat)
    requires |Now(w, g, start).r| == |g.es| && k == FindLive(g.es, m)
    ensures Claimed(g.es, Now(w, g, start), Modify(g, m).es, Now(w, Modify(g, m), start), k, m)
  {
    ModifyHit(g, m, k);
  }

  lemma ClaimGood(es: seq<Entry>, host: Host, v: seq<Word>, locks: multiset<nat>, k: nat, e: Entry)
    requires Good(es, host, v, None, locks) && k < |es| && !es[k].live
    requires 1 <= e.mips <= 34 && Absent(es, e.mips)
    requires e == Entry(e.mips, e.stamp, 1, Unknown, true, true)
    ensures Good(es[k := e], host, v, HoleOf(e.mips), locks + multiset{e.mips})
  {
    assert Set(host, k, host.r[k]) == host;
    RepFill(es, host, v, k, e, host.r[k], HoleOf(e.mips));
    assert e.mips !in locks;
    LockedUpdate(es, locks, k, e, locks + multiset{e.mips});
  }

  lemma SimClaim(w: World, f: Gen, start: Host, v: seq<Word>, locks: multiset<nat>, k: nat, e: Entry, g: Gen)
    requires Sim(w, f, start, v, None, locks) && k < |f.es| && !f.es[k].live
    requires 1 <= e.mips <= 34 && Absent(f.es, e.mips)
    requires e == Entry(e.mips, e.stamp, 1, Unknown, true, true)
    requires g.es == f.es[k := e] && g.code == f.code && g.ok == f.ok
    ensures Sim(w, g, start, v, HoleOf(e.mips), locks + multiset{e.mips})
  {
    ClaimGood(f.es, Now(w, f, start), v, locks, k, e);
  }

  lemma ModifyMissShape(g: Gen, m: nat, k: nat)
    requires k == Pick(g.es, m) && FindLive(g.es, m) < 0 && g.es[k].locks == 0
    requires g.es[k].live ==> Release(g, k).es == g.es[k := Blank]
    requires g.es[k].live && g.es[k].modified ==> g.es[k].mips != 0
    ensures Modify(g, m).es == Room(g, k).es[k := Entry(m, g.clock + 1, 1, Unknown, true, true)]
    ensures Modify(g, m).code == Room(g, k).code && Modify(g, m).ok == Room(g, k).ok
  {
    ModifyMiss(g, m, k);
  }

  lemma SimModifyMiss(w: World, g: Gen, start: Host, v: seq<Word>, locks: multiset<nat>, m: nat, k: nat)
    requires Sim(w, g, start, v, None, locks) && 1 <= m <= 34 && k == Pick(g.es, m) && Absent(g.es, m)
    ensures Sim(w, Modify(g, m), start, v, HoleOf(m), locks + multiset{m})
  {
    assert g.es[k].live ==> EntryOk(g.es[k], Now(w, g, start).r[k], Now(w, g, start).cpu.sr, v, None);
    hide Pick;
    if g.es[k].live { SimRelease(w, g, start, v, locks, k); }
    ModifyMissShape(g, m, k);
    hide Modify, Good, Absent;
    StillAbsent(g.es, Room(g, k).es, k, m);
    SimClaim(w, Room(g, k), start, v, locks, k, Entry(m, g.clock + 1, 1, Unknown, true, true), Modify(g, m));
  }

  lemma ClaimedByFill(es: seq<Entry>, h: Host, es1: seq<Entry>, h1: Host, e: Entry, k: nat)
    requires Moved(es, h, es1, h1, k) && k < |es| && h1.r == h.r && e.live && e.modified && e.sign.Unknown?
    ensures Claimed(es, h, es1[k := e], h1, k, e.mips)
  {
  }

  /** The table after a miss: room made in entry k, then claimed. */
  lemma ModifiedByMiss(w: World, g: Gen, start: Host, v: seq<Word>, locks: multiset<nat>, m: nat, k: nat)
    requires Sim(w, g, start, v, None, locks) && k == Pick(g.es, m) && Absent(g.es, m)
    ensures k < |Room(g, k).es| && Modify(g, m).es == Room(g, k).es[k := Entry(m, g.clock + 1, 1, Unknown, true, true)]
    ensures Modify(g, m).code == Room(g, k).code && Modify(g, m).ok == Room(g, k).ok
  {
    assert g.es[k].live ==> EntryOk(g.es[k], Now(w, g, start).r[k], Now(w, g, start).cpu.sr, v, None);
    assert g.es[k].locks == 0 && FindLive(g.es, m) < 0;
    hide Good, FindLive, Modify, Pick, Absent, Release;
    if g.es[k].live { SimRelease(w, g, start, v, locks, k); }
    ModifyMissShape(g, m, k);
  }

  lemma ClaimedByMiss(w: World, g: Gen, start: Host, v: seq<Word>, locks: multiset<nat>, m: nat, k: nat)
    requires Sim(w, g, start, v, None, locks) && k == Pick(g.es, m) && Absent(g.es, m)
    ensures Claimed(g.es, Now(w, g, start), Modify(g, m).es, Now(w, Modify(g, m), start), k, m)
  {
    assert g.es[k].locks == 0;
    hide Good, FindLive, Modify, Pick, Absent, EntryOk, Room, Release, Moved, Claimed;
    ModifiedByMiss(w, g, start, v, locks, m, k);
    SimRoom(w, g, start, v, locks, k);
    ClaimedByFill(g.es, Now(w, g, start), Room(g, k).es, Now(w, Room(g, k), start), Entry(m, g.clock + 1, 1, Unknown, true, true), k);
  }

  lemma SimModify(w: World, g: Gen, start: Host, v: seq<Word>, locks: multiset<nat>, m: nat, a: nat, b: nat)
    requires Sim(w, g, start, v, None, locks) && 1 <= m <= 34
    requires forall r: nat | r in locks :: r == a || r == b
    ensures Pick(g.es, m) >= 0
    ensures Sim(w, Modify(g, m), start, v, HoleOf(m), locks + multiset{m})
    ensures Claimed(g.es, Now(w, g, start), Modify(g, m).es, Now(w, Modify(g, m), start), Pick(g.es, m), m)
  {
    PickSucceeds(g.es, locks, m, a, b);
    PickFacts(g.es, m);
    if FindLive(g.es, m) >= 0 {
      SimModifyHit(w, g, start, v, locks, m, Pick(g.es, m));
      ClaimedByHit(w, g, start, m, Pick(g.es, m));
    } else {
      SimModifyMiss(w, g, start, v, locks, m, Pick(g.es, m));
      ClaimedByMiss(w, g, start, v, locks, m, Pick(g.es, m));
    }
  }

  /** Modifying a register that is live: its value is there until it is overwritten. */
  lemma SimModifyLive(w: World, g: Gen, start: Host, v: seq<Word>, locks: multiset<nat>, m: nat, k: nat)
    requires Sim(w, g, start, v, None, locks) && 1 <= m <= 32 && k == FindLive(g.es, m) && k < |g.es|
    ensures Sim(w, Modify(g, m), start, v, None, locks + multiset{m})
    ensures Now(w, Modify(g, m), start) == Now(w, g, start)
    ensures Holds(Modify(g, m).es[k], m) && Modify(g, m).es[k].modified && Modify(g, m).es[k].sign.Unknown?
  {
    hide Modify, FindLive, Good;
    ModifyHit(g, m, k);
    ModifyLiveGood(g.es, Now(w, g, start), v, locks, k, g.clock + 1);
  }

  lemma ModifyLiveGood(es: seq<Entry>, host: Host, v: seq<Word>, locks: multiset<nat>, k: nat, stamp: nat)
    requires Good(es, host, v, None, locks) && k < |es| && es[k].live && 1 <= es[k].mips
    ensures Good(es[k := Claiming(es[k], stamp)], host, v, None, locks + multiset{es[k].mips})
  {
    assert EntryOk(es[k], host.r[k], host.cpu.sr, v, None);
    assert Set(host, k, host.r[k]) == host;
    hide Locked;
    HitGood(es, host, v, locks, k, Claiming(es[k], stamp), host.r[k], None);
  }

  // ---------------------------------------------------------------- writing through an entry

  /** The register file after m is given value x; scratch registers are not part of it. */
  function Assign(v: seq<Word>, m: nat, x: Word): seq<Word> {
    if m < |v| then v[m := x] else v
  }

  lemma WriteGood(es: seq<Entry>, host: Host, v: seq<Word>, locks: multiset<nat>, k: nat, m: nat, x: Reg, hole: nat)
    requires Good(es, host, v, hole, locks) && (hole == None || hole == m)
    requires k < |es| && Holds(es[k], m) && es[k].modified && es[k].sign.Unknown? && 1 <= m <= 32
    requires m == 32 ==> x <= 1
    ensures Good(es, Set(host, k, x), v[m := Low(x)], None, locks)
  {
    RepUpdate(es, host, v, v[m := Low(x)], k, es[k], x, hole, None);
    assert es[k := es[k]] == es;
  }

  /** After Modify, an operation that computes x into host register k assigns x to register m. */
  lemma SimWrite(w: World, g: Gen, start: Host, v: seq<Word>, locks: multiset<nat>, k: nat, m: nat, op: Op, x: Reg, hole: nat)
    requires Sim(w, g, start, v, hole, locks) && (hole == None || hole == m)
    requires k < |g.es| && Holds(g.es[k], m) && g.es[k].modified && g.es[k].sign.Unknown? && 1 <= m <= 32
    requires Do(w, op, Now(w, g, start)) == Set(Now(w, g, start), k, x) && (m == 32 ==> x <= 1)
    ensures Sim(w, Emit(g, op), start, v[m := Low(x)], None, locks)
    ensures Now(w, Emit(g, op), start) == Set(Now(w, g, start), k, x)
  {
    EmitNow(w, g, op, start);
    WriteGood(g.es, Now(w, g, start), v, locks, k, m, x, hole);
  }

  /** Host registers that stand for no MIPS register may change freely. */
  ghost predicate Scribble(es: seq<Entry>, h: Host, h': Host) {
    && |h'.r| == |h.r| == |es| && h'.cpu.sr == h.cpu.sr
    && forall i | 0 <= i < |es| && es[i].live && es[i].mips <= 32 :: h'.r[i] == h.r[i]
  }

  lemma ScribbleGood(es: seq<Entry>, h: Host, h': Host, v: seq<Word>, hole: nat, locks: multiset<nat>)
    requires Good(es, h, v, hole, locks) && Scribble(es, h, h')
    ensures Good(es, h', v, hole, locks)
  {
    forall i | 0 <= i < |es| && es[i].live ensures EntryOk(es[i], h'.r[i], h'.cpu.sr, v, hole) {
      assert EntryOk(es[i], h.r[i], h.cpu.sr, v, hole);
    }
  }

  lemma SimScribble(w: World, g: Gen, start: Host, v: seq<Word>, hole: nat, locks: multiset<nat>, op: Op)
    requires Sim(w, g, start, v, hole, locks)
    requires Scribble(g.es, Now(w, g, start), Do(w, op, Now(w, g, start)))
    ensures Sim(w, Emit(g, op), start, v, hole, locks)
    ensures Now(w, Emit(g, op), start) == Do(w, op, Now(w, g, start))
  {
    EmitNow(w, g, op, start);
    ScribbleGood(g.es, Now(w, g, start), Do(w, op, Now(w, g, start)), v, hole, locks);
  }

  lemma TagGood(es: seq<Entry>, host: Host, v: seq<Word>, locks: multiset<nat>, k: nat)
    requires Good(es, host, v, None, locks) && k < |es| && es[k].live && es[k].mips >= 1
    requires k < |host.r| ==> host.r[k] == SExt(Low(host.r[k]))
    ensures Good(es[k := es[k].(sign := SExtended)], host, v, None, locks)
  {
    var e := es[k].(sign := SExtended);
    assert EntryOk(es[k], host.r[k], host.cpu.sr, v, None);
    assert Set(host, k, host.r[k]) == host;
    RepUpdate(es, host, v, v, k, e, host.r[k], None, None);
    LockedUpdate(es, locks, k, e, locks);
  }

  /** immediate_mips_register of a sign-extended constant. */
  lemma SimImmediate(w: World, g: Gen, start: Host, v: seq<Word>, locks: multiset<nat>, m: nat, value: Reg, a: nat, b: nat)
    requires Sim(w, g, start, v, None, locks) && 1 <= m <= 32
    requires forall r: nat | r in locks :: r == a || r == b
    requires value == SExt(Low(value)) && (m == 32 ==> value <= 1)
    ensures Sim(w, Immediate(g, m, value), start, v[m := Low(value)], None, locks + multiset{m})
    ensures Quiet(Now(w, g, start), Now(w, Immediate(g, m, value), start))
  {
    hide Pick, Modify, SExt;
    SimModify(w, g, start, v, locks, m, a, b);
    var k, g' := Pick(g.es, m), Modify(g, m);
    SimWrite(w, g', start, v, locks + multiset{m}, k, m, MovI(k, value), value, m);
    TagGood(g'.es, Now(w, Emit(g', MovI(k, value)), start), v[m := Low(value)], locks + multiset{m}, k);
  }

  // ---------------------------------------------------------------- unlocking and flushing

  lemma UnlockGood(es: seq<Entry>, host: Host, v: seq<Word>, hole: nat, locks: multiset<nat>, m: nat, k: nat)
    requires Good(es, host, v, hole, locks) && m in locks && k < |es| && Holds(es[k], m)
    ensures es[k].locks > 0
    ensures Good(es[k := es[k].(locks := es[k].locks - 1)], host, v, hole, locks - multiset{m})
  {
    var es' := es[k := es[k].(locks := es[k].locks - 1)];
    forall i | 0 <= i < |es'| && es'[i].live ensures EntryOk(es'[i], host.r[i], host.cpu.sr, v, hole) {
      assert EntryOk(es[i], host.r[i], host.cpu.sr, v, hole);
    }
    assert forall n: nat, j | 0 <= j < |es| :: Holds(es'[j], n) == Holds(es[j], n);
    forall n | 1 <= n <= 32 && Absent(es', n) ensures host.cpu.sr[n] == v[n] {
      assert Absent(es, n);
    }
    LockedUpdate(es, locks, k, es'[k], locks - multiset{m});
  }

  /** unlock_mips_register of a register that is locked. */
  lemma SimUnlock(w: World, g: Gen, start: Host, v: seq<Word>, hole: nat, locks: multiset<nat>, m: nat)
    requires Sim(w, g, start, v, hole, locks) && m in locks
    ensures Sim(w, Unlock(g, m), start, v, hole, locks - multiset{m})
  {
    hide Rep;
    assert !Absent(g.es, m);
    UnlockGood(g.es, Now(w, g, start), v, hole, locks, m, FindLive(g.es, m));
  }

  /** Unlocking changes lock counts only. */
  lemma UnlockFrame(g: Gen, m: nat)
    ensures Unlock(g, m).code == g.code && |Unlock(g, m).es| == |g.es|
    ensures forall i | 0 <= i < |g.es| :: Unlock(g, m).es[i].(locks := 0) == g.es[i].(locks := 0)
  {
  }

  /** After releasing entries 0..n-1. */
  ghost predicate Released(w: World, g: Gen, start: Host, v: seq<Word>, locks: multiset<nat>, n: nat)
    requires n <= |g.es|
  {
    var g' := ReleaseFirst(g, n);
    && Sim(w, g', start, v, None, locks)
    && Quiet(Now(w, g, start), Now(w, g', start)) && Now(w, g', start).r == Now(w, g, start).r
    && (forall i | 0 <= i < |g.es| :: g'.es[i] == if i < n && g.es[i].live then Blank else g.es[i])
  }

  lemma ReleasedNone(w: World, g: Gen, start: Host, v: seq<Word>, locks: multiset<nat>)
    requires Sim(w, g, start, v, None, locks)
    ensures Released(w, g, start, v, locks, 0)
  {
    hide Sim;
  }

  lemma ReleasedNext(w: World, g: Gen, start: Host, v: seq<Word>, locks: multiset<nat>, n: nat)
    requires n < |g.es| && Released(w, g, start, v, locks, n) && g.es[n].locks == 0
    ensures Released(w, g, start, v, locks, n + 1)
  {
    hide Sim, Release;
    ReleaseNext(w, ReleaseFirst(g, n), start, v, locks, n);
  }

  lemma {:induction false} ReleasedAll(w: World, g: Gen, start: Host, v: seq<Word>, locks: multiset<nat>, n: nat)
    requires Sim(w, g, start, v, None, locks) && n <= |g.es|
    requires forall i | 0 <= i < n :: g.es[i].locks == 0
    ensures Released(w, g, start, v, locks, n)
    decreases n
  {
    hide Sim, Released;
    if n == 0 {
      ReleasedNone(w, g, start, v, locks);
    } else {
      ReleasedAll(w, g, start, v, locks, n - 1);
      ReleasedNext(w, g, start, v, locks, n - 1);
    }
  }

  lemma SimReleaseFirst(w: World, g: Gen, start: Host, v: seq<Word>, locks: multiset<nat>, n: nat)
    requires Sim(w, g, start, v, None, locks) && n <= |g.es|
    requires forall i | 0 <= i < n :: g.es[i].locks == 0
    ensures Sim(w, ReleaseFirst(g, n), start, v, None, locks)
    ensures Quiet(Now(w, g, start), Now(w, ReleaseFirst(g, n), start)) && Now(w, ReleaseFirst(g, n), start).r == Now(w, g, start).r
    ensures forall i | 0 <= i < |g.es| :: ReleaseFirst(g, n).es[i] == if i < n && g.es[i].live then Blank else g.es[i]
  {
    ReleasedAll(w, g, start, v, locks, n);
    hide Sim;
  }

  lemma ReleaseNext(w: World, g: Gen, start: Host, v: seq<Word>, locks: multiset<nat>, k: nat)
    requires Sim(w, g, start, v, None, locks) && k < |g.es| && g.es[k].locks == 0
    ensures Sim(w, Release(g, k), start, v, None, locks)
    ensures Quiet(Now(w, g, start), Now(w, Release(g, k), start)) && Now(w, Release(g, k), start).r == Now(w, g, start).r
    ensures Release(g, k).es == if g.es[k].live then g.es[k := Blank] else g.es
  {
    if g.es[k].live { SimRelease(w, g, start, v, locks, k); }
  }

  /** flush_register_window with nothing locked: memory holds every architectural value. */
  lemma SimFlushWindow(w: World, g: Gen, start: Host, v: seq<Word>)
    requires Sim(w, g, start, v, None, multiset{})
    ensures Sim(w, FlushWindow(g), start, v, None, multiset{})
    ensures Quiet(Now(w, g, start), Now(w, FlushWindow(g), start)) && Now(w, FlushWindow(g), start).r == Now(w, g, start).r
    ensures forall i | 0 <= i < |FlushWindow(g).es| :: !FlushWindow(g).es[i].live
    ensures Now(w, FlushWindow(g), start).cpu.sr[1..] == v[1..]
  {
    SimReleaseFirst(w, g, start, v, multiset{}, |g.es|);
    assert forall m | 1 <= m <= 32 :: Absent(FlushWindow(g).es, m);
  }

  lemma SimFlushCallerSave(w: World, g: Gen, start: Host, v: seq<Word>, n: nat)
    requires Sim(w, g, start, v, None, multiset{})
    ensures Sim(w, FlushCallerSave(g, n), start, v, None, multiset{})
    ensures Quiet(Now(w, g, start), Now(w, FlushCallerSave(g, n), start)) && Now(w, FlushCallerSave(g, n), start).r == Now(w, g, start).r
    ensures |FlushCallerSave(g, n).es| == |g.es|
    ensures forall i | 0 <= i < |g.es| :: FlushCallerSave(g, n).es[i] == if i < n && g.es[i].live then Blank else g.es[i]
  {
    SimReleaseFirst(w, g, start, v, multiset{}, if n <= |g.es| then n else |g.es|);
  }

  lemma SimFlushOne(w: World, g: Gen, start: Host, v: seq<Word>, m: nat)
    requires Sim(w, g, start, v, None, multiset{}) && m <= 32
    ensures Sim(w, FlushOne(g, m), start, v, None, multiset{})
    ensures Quiet(Now(w, g, start), Now(w, FlushOne(g, m), start)) && Now(w, FlushOne(g, m), start).r == Now(w, g, start).r
    ensures Absent(FlushOne(g, m).es, m) && Now(w, FlushOne(g, m), start).cpu.sr[m] == v[m]
    ensures |FlushOne(g, m).es| == |g.es|
    ensures forall i | 0 <= i < |g.es| :: FlushOne(g, m).es[i] == g.es[i] || !FlushOne(g, m).es[i].live
  {
    var k := FindLive(g.es, m);
    if k >= 0 {
      assert g.es[k].locks == 0;
      SimRelease(w, g, start, v, multiset{}, k);
    }
    assert Absent(FlushOne(g, m).es, m);
  }
}

/** Delay slots and region ends: the code around an instruction, against the register file. */
module RegionProof {
  import opened Words
  import opened HostCode
  import opened RegisterCache
  import opened Emitter
  import opened EmitterProof
  import opened Region

  /** No entry is in use. */
  predicate Dead(es: seq<Entry>) {
    forall i | 0 <= i < |es| :: !es[i].live
  }

  lemma FreshSim(w: World, g: Gen, start: Host, v: seq<Word>)
    requires Sim(w, g, start, v, None, multiset{})
    ensures Sim(w, Fresh(g), Now(w, g, start), v, None, multiset{})
    ensures Now(w, Fresh(g), Now(w, g, start)) == Now(w, g, start)
  {
    hide Good;
  }

  /** Flushing: nothing live, host registers and everything but sr[] untouched. */
  lemma FlushSim(w: World, g: Gen, start: Host, v: seq<Word>)
    requires Sim(w, g, start, v, None, multiset{})
    ensures var g' := FlushWindow(g);
            && Sim(w, g', start, v, None, multiset{}) && Dead(g'.es)
            && Quiet(Now(w, g, start), Now(w, g', start)) && Now(w, g', start).r == Now(w, g, start).r
  {
    hide Sim, FlushWindow;
    SimFlushWindow(w, g, start, v);
  }

  lemma SExtZero(x: Word)
    ensures SExt(x) == 0 <==> x == 0
  {
  }

  lemma LatentSim(w: World, g: Gen, start: Host, v: seq<Word>)
    requires Sim(w, g, start, v, None, multiset{})
    ensures var g', k := LatentTail(g), JitReg(g, SCRATCH_REGISTER0);
            && Sim(w, g', start, v, None, multiset{}) && Dead(g'.es)
            && Quiet(Now(w, g, start), Now(w, g', start))
            && Get(Now(w, g', start), k) == SExt(Now(w, g, start).cpu.hasDelay)
  {
    hide Sim, Modify, Unlock, FlushWindow, Pick, Quiet, SExt;
    var S := SCRATCH_REGISTER0;
    Modify1(w, g, start, v, multiset{}, S, 0, 0);
    assert multiset{} + multiset{S} == multiset{S};
    var g1 := Modify(g, S);
    var k := JitReg(g, S);
    var x := SExt(Now(w, g, start).cpu.hasDelay);
    assert Now(w, g1, start).cpu.hasDelay == Now(w, g, start).cpu.hasDelay by { QuietDelay(Now(w, g, start), Now(w, g1, start)); }
    SimScratch(w, g1, start, v, multiset{S}, S, k, LoadHasDelay(k), x);
    var g2 := Emit(g1, LoadHasDelay(k));
    QuietSet(Now(w, g1, start), k, x);
    QuietChain(Now(w, g, start), Now(w, g1, start), Now(w, g2, start));
    UnlockOne(w, g2, start, v, S);
    FlushSim(w, Unlock(g2, S), start, v);
    QuietChain(Now(w, g, start), Now(w, g2, start), Now(w, FlushWindow(Unlock(g2, S)), start));
  }

  lemma QuietDelay(a: Host, b: Host)
    requires Quiet(a, b)
    ensures a.cpu.hasDelay == b.cpu.hasDelay
  {
  }

  /** Up to the copy of the condition; c and t are the two registers. */
  lemma SlotClaims(w: World, g: Gen, start: Host, v: seq<Word>)
    requires Sim(w, g, start, v, None, multiset{}) && |v| == 33
    ensures var C, S := COND_BRANCH_TAKEN, SCRATCH_REGISTER0;
            var g1 := Load(g, C, Unknown); var g2 := Modify(g1, C); var c, t := JitReg(g1, C), JitReg(g2, S);
            var g3 := Modify(g2, S);
            && Sim(w, g3, start, v, None, multiset{C} + multiset{C} + multiset{S})
            && Live(g3, c, C, Unknown) && g3.es[c].modified && g3.es[c].sign.Unknown?
            && Live(g3, t, S, Unknown) && t != c
            && Quiet(Now(w, g, start), Now(w, g3, start))
            && Get(Now(w, g3, start), c) == v[C]
  {
    var C, S := COND_BRANCH_TAKEN, SCRATCH_REGISTER0;
    var g1 := Load(g, C, Unknown);
    var c := JitReg(g1, C);
    assert FindLive(g1.es, C) == c && c < |g1.es| && |Now(w, g1, start).r| == |g1.es| && Get(Now(w, g1, start), c) == v[C]
           && Sim(w, g1, start, v, None, multiset{C}) && Quiet(Now(w, g, start), Now(w, g1, start)) by {
      LoadedCond(w, g, start, v);
    }
    hide Sim, Load, Modify, Quiet, Pick, FindLive;
    var g2 := Modify(g1, C);
    SimModifyLive(w, g1, start, v, multiset{C}, C, c);
    Modify1(w, g2, start, v, multiset{C} + multiset{C}, S, C, C);
    ModifyKeeps(w, g2, start, v, multiset{C} + multiset{C}, S, C, C, C, c);
    ModifyKeepsEntry(w, g2, start, v, multiset{C} + multiset{C}, S, C, C, c);
    QuietChain(Now(w, g, start), Now(w, g2, start), Now(w, Modify(g2, S), start));
  }

  lemma ModifyKeepsEntry(w: World, g: Gen, start: Host, v: seq<Word>, locks: multiset<nat>, m: nat, a: nat, b: nat, k: nat)
    requires Sim(w, g, start, v, None, locks) && 1 <= m <= 34
    requires forall r: nat | r in locks :: r == a || r == b
    requires k < |g.es| && k != JitReg(g, m)
    ensures k < |Modify(g, m).es| && Modify(g, m).es[k] == g.es[k]
  {
    hide Sim, Modify, Pick;
    SimModify(w, g, start, v, locks, m, a, b);
  }

  lemma LoadedCond(w: World, g: Gen, start: Host, v: seq<Word>)
    requires Sim(w, g, start, v, None, multiset{}) && |v| == 33
    ensures var C := COND_BRANCH_TAKEN; var g1 := Load(g, C, Unknown); var c := JitReg(g1, C);
            && Sim(w, g1, start, v, None, multiset{C}) && FindLive(g1.es, C) == c && c < |g1.es|
            && |Now(w, g1, start).r| == |g1.es| && Get(Now(w, g1, start), c) == v[C]
            && Quiet(Now(w, g, start), Now(w, g1, start))
  {
    var C := COND_BRANCH_TAKEN;
    var g1 := Load(g, C, Unknown);
    assert Sim(w, g1, start, v, None, multiset{C}) && Live(g1, JitReg(g, C), C, Unknown) && Quiet(Now(w, g, start), Now(w, g1, start)) by {
      hide Sim, Load, Pick, Quiet;
      Load1(w, g, start, v, C, Unknown);
    }
    hide Load;
    CondValue(g1.es, Now(w, g1, start), v, multiset{C});
  }

  /** Where COND_BRANCH_TAKEN is live, its host register is exactly its value. */
  lemma CondValue(es: seq<Entry>, h: Host, v: seq<Word>, locks: multiset<nat>)
    requires Good(es, h, v, None, locks) && !Absent(es, 32)
    ensures |h.r| == |es| && |v| == 33
    ensures var k := FindLive(es, 32); 0 <= k < |es| && RegOf(Pick(es, 32)) == k && h.r[k] == v[32]
  {
    var k := FindLive(es, 32);
    assert EntryOk(es[k], h.r[k], h.cpu.sr, v, None);
  }

  /** The condition is copied to t and cleared in c. */
  lemma SlotCopy(w: World, g: Gen, start: Host, v: seq<Word>, locks: multiset<nat>, c: nat, t: nat)
    requires Sim(w, g, start, v, None, locks) && |v| == 33
    requires Live(g, c, COND_BRANCH_TAKEN, Unknown) && g.es[c].modified && g.es[c].sign.Unknown?
    requires Live(g, t, SCRATCH_REGISTER0, Unknown) && t != c
    requires Get(Now(w, g, start), c) == v[32]
    ensures var g' := Emit(Emit(g, MovR(t, c)), MovI(c, 0));
            && Sim(w, g', start, v[32 := 0], None, locks)
            && Quiet(Now(w, g, start), Now(w, g', start))
            && Get(Now(w, g', start), t) == v[32]
  {
    hide Sim;
    SimScratch(w, g, start, v, locks, SCRATCH_REGISTER0, t, MovR(t, c), v[32]);
    LowZero();
    SimWrite(w, Emit(g, MovR(t, c)), start, v, locks, c, COND_BRANCH_TAKEN, MovI(c, 0), 0, None);
  }

  lemma SlotSim(w: World, g: Gen, start: Host, v: seq<Word>)
    requires Sim(w, g, start, v, None, multiset{}) && |v| == 33
    ensures var g' := SlotTail(g, true);
            && Sim(w, g', start, v[32 := 0], None, multiset{}) && Dead(g'.es)
            && Quiet(Now(w, g, start), Now(w, g', start))
            && Get(Now(w, g', start), SlotReg(g)) == v[32]
  {
    hide Sim, Load, Modify, Unlock3, FlushWindow, Pick, Quiet, Live, Dead, Now;
    var C, S := COND_BRANCH_TAKEN, SCRATCH_REGISTER0;
    var g1 := Load(g, C, Unknown);
    var g2 := Modify(g1, C);
    var c, t := JitReg(g1, C), JitReg(g2, S);
    var g3 := Modify(g2, S);
    SlotClaims(w, g, start, v);
    SlotCopy(w, g3, start, v, multiset{C} + multiset{C} + multiset{S}, c, t);
    var g5 := Emit(Emit(g3, MovR(t, c)), MovI(c, 0));
    QuietChain(Now(w, g, start), Now(w, g3, start), Now(w, g5, start));
    UnlockThree(w, g5, start, v[32 := 0], None, C, C, S);
    FlushSim(w, Unlock3(g5, C, C, S), start, v[32 := 0]);
    QuietChain(Now(w, g, start), Now(w, g5, start), Now(w, FlushWindow(Unlock3(g5, C, C, S)), start));
  }

  lemma LowZero()
    ensures Low(0) == 0
  {
  }

  lemma StaticSlotSim(w: World, g: Gen, start: Host, v: seq<Word>)
    requires Sim(w, g, start, v, None, multiset{}) && |v| == 33
    ensures var g' := SlotTail(g, false);
            && Sim(w, g', start, v[32 := 0], None, multiset{}) && Dead(g'.es)
            && Quiet(Now(w, g, start), Now(w, g', start))
  {
    hide Sim, Modify, Unlock, FlushWindow, Pick, Quiet;
    var C := COND_BRANCH_TAKEN;
    Modify1(w, g, start, v, multiset{}, C, 0, 0);
    assert multiset{} + multiset{C} == multiset{C};
    var g1 := Modify(g, C);
    var c := JitReg(g, C);
    LowZero();
    SimWrite(w, g1, start, v, multiset{C}, c, C, MovI(c, 0), 0, C);
    var g2 := Emit(g1, MovI(c, 0));
    QuietSet(Now(w, g1, start), c, 0);
    QuietChain(Now(w, g, start), Now(w, g1, start), Now(w, g2, start));
    UnlockOne(w, g2, start, v[32 := 0], C);
    FlushSim(w, Unlock(g2, C), start, v[32 := 0]);
    QuietChain(Now(w, g, start), Now(w, g2, start), Now(w, FlushWindow(Unlock(g2, C)), start));
  }

  /** The first part of jit_end_of_block: the condition, when there is one, in its register. */
  lemma EndCond(w: World, g: Gen, start: Host, v: seq<Word>, last: Info)
    requires Sim(w, g, start, v, None, multiset{}) && |v| == 33 && Dead(g.es)
    ensures var g1 := if last.branch && last.conditional then Unlock(Load(g, COND_BRANCH_TAKEN, Unknown), COND_BRANCH_TAKEN) else g;
            && Sim(w, g1, start, v, None, multiset{}) && Quiet(Now(w, g, start), Now(w, g1, start))
            && (last.branch && last.conditional ==> Get(Now(w, g1, start), JitReg(g, COND_BRANCH_TAKEN)) == v[32])
  {
    var C := COND_BRANCH_TAKEN;
    if last.branch && last.conditional {
      var g1 := Load(g, C, Unknown);
      assert Live(g1, JitReg(g, C), C, Unknown) by {
        hide Sim, Load, Pick;
        Load1(w, g, start, v, C, Unknown);
      }
      LoadedCond(w, g, start, v);
      assert JitReg(g1, C) == JitReg(g, C) by {
        assert Sim(w, g1, start, v, None, multiset{C});
        OneLive(g1.es, Now(w, g1, start), v, multiset{C}, JitReg(g, C));
      }
      hide Sim, Load, Unlock;
      UnlockOne(w, g1, start, v, C);
    }
  }

  lemma OneLive(es: seq<Entry>, h: Host, v: seq<Word>, locks: multiset<nat>, k: nat)
    requires Good(es, h, v, None, locks) && k < |es| && Holds(es[k], 32)
    ensures RegOf(Pick(es, 32)) == k
  {
  }

  lemma EndSim(w: World, g: Gen, start: Host, v: seq<Word>, last: Info)
    requires Sim(w, g, start, v, None, multiset{}) && |v| == 33
    ensures var g' := EndTail(g, last);
            && Sim(w, g', start, v, None, multiset{}) && Dead(g'.es)
            && Quiet(Now(w, g, start), Now(w, g', start))
            && (last.branch && last.conditional ==> Get(Now(w, g', start), JitReg(FlushWindow(g), COND_BRANCH_TAKEN)) == v[32])
  {
    hide Sim, Load, Modify, Unlock, FlushWindow, Pick, Quiet;
    var C, S := COND_BRANCH_TAKEN, SCRATCH_REGISTER0;
    var g0 := FlushWindow(g);
    FlushSim(w, g, start, v);
    EndCond(w, g0, start, v, last);
    var g1 := if last.branch && last.conditional then Unlock(Load(g0, C, Unknown), C) else g0;
    QuietChain(Now(w, g, start), Now(w, g0, start), Now(w, g1, start));
    Modify1(w, g1, start, v, multiset{}, S, 0, 0);
    assert multiset{} + multiset{S} == multiset{S};
    var g2 := Modify(g1, S);
    QuietChain(Now(w, g, start), Now(w, g1, start), Now(w, g2, start));
    assert HoleOf(S) == None;
    UnlockOne(w, g2, start, v, S);
    FlushSim(w, Unlock(g2, S), start, v);
    QuietChain(Now(w, g, start), Now(w, g2, start), Now(w, FlushWindow(Unlock(g2, S)), start));
  }
}

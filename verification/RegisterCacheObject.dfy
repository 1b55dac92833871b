/** The register cache as the object the recompiler keeps: its table is updated in place and code is
    appended as a side effect. Each method is proved equal to the corresponding function of the table;
    a method may be called where none of its assertions fails. */
module RegisterCacheObject {
  import opened Words
  import opened HostCode
  import opened RegisterCache

  class Cache {
    const entries: array<Entry>
    var timestamp: nat
    var code: seq<Op>

    constructor (n: nat)
      ensures fresh(entries) && View() == Empty(n)
    {
      entries := new Entry[n](_ => Blank);
      timestamp := 0;
      code := [];
      new;
      assert entries[..] == Empty(n).es;
    }

    /** The value of the object; its assertions have held. */
    ghost function View(): Gen
      reads this, entries
    {
      Gen(entries[..], timestamp, code, true)
    }

    method FindLiveMipsRegister(m: nat) returns (k: int)
      ensures k == FindLive(entries[..], m)
    {
      k := 0;
      while k < entries.Length
        invariant 0 <= k <= entries.Length && FindLive(entries[..], m) == FindLive(entries[..], m, k)
      {
        if entries[k].live && entries[k].mips == m { return; }
        k := k + 1;
      }
      k := -1;
    }

    method FindFreeRegister() returns (k: int)
      ensures k == FindFree(entries[..])
    {
      k := 0;
      while k < entries.Length
        invariant 0 <= k <= entries.Length && FindFree(entries[..]) == FindFree(entries[..], k)
      {
        if !entries[k].live { return; }
        k := k + 1;
      }
      k := -1;
    }

    method FindOldestUnlockedRegister() returns (best: int)
      ensures best == FindOldest(entries[..], entries.Length)
    {
      best := -1;
      for i := 0 to entries.Length
        invariant best == FindOldest(entries[..], i)
      {
        if entries[i].live && entries[i].locks == 0 {
          if best < 0 || entries[i].stamp < entries[best].stamp { best := i; }
        }
      }
    }

    method FindRegister(m: nat) returns (k: nat)
      requires Pick(entries[..], m) >= 0
      ensures k == Pick(entries[..], m)
    {
      var reg := FindLiveMipsRegister(m);
      if reg < 0 { reg := FindFreeRegister(); }
      if reg < 0 { reg := FindOldestUnlockedRegister(); }
      k := reg;
    }

    method WritebackRegister(k: nat)
      requires k < entries.Length && entries[k].mips != 0
      modifies this, entries
      ensures View() == Writeback(old(View()), k)
    {
      if entries[k].mips <= COND_BRANCH_TAKEN { code := code + [StoreSr(entries[k].mips, k)]; }
      entries[k] := entries[k].(modified := false);
    }

    /** load_mips_register_noext, _sext and _zext, which differ in the extension they ask for. */
    method LoadMipsRegister(m: nat, ext: Sign) returns (k: nat)
      requires Load(View(), m, ext).ok
      modifies this, entries
      ensures k == Pick(old(entries[..]), m) && View() == Load(old(View()), m, ext)
    {
      hide Pick;
      k := FindRegister(m);
      if !entries[k].live || entries[k].mips != m {
        if entries[k].live && entries[k].modified { WritebackRegister(k); }
        var tag := if ext.ZExtended? then ZExtended else SExtended;
        code := code + [if m != 0 then LoadSr(k, m, tag) else MovI(k, 0)];
        entries[k] := entries[k].(mips := m, live := true, sign := tag, modified := false);
      } else if !ext.Unknown? && entries[k].sign != ext {
        if m != 0 { code := code + [ExtR(k, ext)]; }
        entries[k] := entries[k].(sign := ext);
      }
      timestamp := timestamp + 1;
      entries[k] := entries[k].(stamp := timestamp, locks := entries[k].locks + 1);
    }

    method ModifyMipsRegister(m: nat) returns (k: nat)
      requires Modify(View(), m).ok
      modifies this, entries
      ensures k == Pick(old(entries[..]), m) && View() == Modify(old(View()), m)
    {
      hide Pick;
      k := FindRegister(m);
      if entries[k].live && entries[k].mips != m {
        if entries[k].modified { WritebackRegister(k); }
        entries[k] := entries[k].(mips := m);
      } else if !entries[k].live {
        entries[k] := entries[k].(mips := m, live := true);
      }
      timestamp := timestamp + 1;
      entries[k] := entries[k].(sign := Unknown, stamp := timestamp, locks := entries[k].locks + 1, modified := true);
    }

    method ImmediateMipsRegister(m: nat, value: Reg) returns (k: nat)
      requires Immediate(View(), m, value).ok
      modifies this, entries
      ensures k == Pick(old(entries[..]), m) && View() == Immediate(old(View()), m, value)
    {
      hide Pick, Modify;
      k := ModifyMipsRegister(m);
      code := code + [MovI(k, value)];
      entries[k] := entries[k].(sign := SExtended);
    }

    method UnlockMipsRegister(m: nat)
      requires Unlock(View(), m).ok
      modifies entries
      ensures View() == Unlock(old(View()), m)
    {
      hide FindLive;
      var k := FindLiveMipsRegister(m);
      entries[k] := entries[k].(locks := entries[k].locks - 1);
    }

    /** The body of the flush loops. */
    method ReleaseRegister(k: nat)
      requires k < entries.Length && Release(View(), k).ok
      modifies this, entries
      ensures View() == Release(old(View()), k)
    {
      if entries[k].live {
        if entries[k].modified { WritebackRegister(k); }
        entries[k] := Blank;
      }
    }

    method ReleaseRegisters(n: nat)
      requires n <= entries.Length && ReleaseFirst(View(), n).ok
      modifies this, entries
      ensures View() == ReleaseFirst(old(View()), n)
    {
      hide Release;
      ghost var before := View();
      for i := 0 to n
        invariant View() == ReleaseFirst(before, i)
      {
        ReleasedOk(before, i + 1, n);
        assert Release(View(), i).ok;
        ReleaseRegister(i);
      }
    }

    method FlushRegisterWindow()
      requires FlushWindow(View()).ok
      modifies this, entries
      ensures View() == FlushWindow(old(View()))
    {
      ReleaseRegisters(entries.Length);
      timestamp := 0;
    }

    method FlushCallerSaveRegisters(callerRegs: nat)
      requires FlushCallerSave(View(), callerRegs).ok
      modifies this, entries
      ensures View() == FlushCallerSave(old(View()), callerRegs)
    {
      ReleaseRegisters(if callerRegs <= entries.Length then callerRegs else entries.Length);
    }

    method FlushMipsRegister(m: nat)
      requires FlushOne(View(), m).ok
      modifies this, entries
      ensures View() == FlushOne(old(View()), m)
    {
      hide FindLive, Release;
      var k := FindLiveMipsRegister(m);
      if k >= 0 { ReleaseRegister(k); }
    }

    method Reset()
      modifies entries
      ensures View() == old(View()).(es := Empty(entries.Length).es)
    {
      forall i | 0 <= i < entries.Length { entries[i] := Blank; }
      assert entries[..] == Empty(entries.Length).es;
    }
  }

  /** A flush whose assertions all held held at every step. */
  lemma {:induction false} ReleasedOk(g: Gen, i: nat, n: nat)
    requires i <= n <= |g.es| && ReleaseFirst(g, n).ok
    ensures ReleaseFirst(g, i).ok
  {
    if i < n { ReleasedOk(g, i, n - 1); }
  }
}

/** analyze_static_end and jit_mark_block_entries: where a region ends, and which of its
    instructions can be branched to from inside it. Both look at raw words only. */
module StaticEnd {
  import opened Words
  import opened Isa

  /** How a word can move control, as the two scans read it. */
  datatype Flow =
    | Straight
    | Goto(target: nat)      // conditional branches, BGTZ $0 and BLEZ $0 included
    | JumpTo(target: nat)    // J, JAL
    | Return                 // JR, JALR
    | Halt                   // BREAK

  function FlowOf(x: Word, pc: nat): Flow {
    if IsVector(x) then Straight
    else
      match x / 0x400_0000
      case 0 => if x % 64 == 8 || x % 64 == 9 then Return else if x % 64 == 13 then Halt else Straight
      case 1 => if FieldRt(x) in {0, 1, 16, 17} then Goto(BranchTarget(x, pc)) else Straight
      case 2 => JumpTo(x % 1024)
      case 3 => JumpTo(x % 1024)
      case 4 => Goto(BranchTarget(x, pc))
      case 5 => Goto(BranchTarget(x, pc))
      case 6 => Goto(BranchTarget(x, pc))
      case 7 => Goto(BranchTarget(x, pc))
      case _ => Straight
  }

  /** The scans agree with the decoder: a word is a Goto or a JumpTo exactly if it is a direct branch, to
      its target; but BGTZ $0, which is never taken, counts as a Goto too. */
  lemma FlowOfDecode(x: Word, pc: nat)
    ensures var i := Decode(x, pc);
            && (i.BranchEq? || i.BranchZero? || i.Always? ==> FlowOf(x, pc) == Goto(i.target))
            && (FlowOf(x, pc).Goto? ==> i.BranchEq? || i.BranchZero? || i.Always? || (i.Nop? && 0x1c00_0000 <= x < 0x1c20_0000))
            && (i.Jump? <==> FlowOf(x, pc).JumpTo?) && (i.Jump? ==> FlowOf(x, pc).target == i.target)
            && (i.JumpReg? <==> FlowOf(x, pc).Return?)
            && (i.Break? <==> FlowOf(x, pc).Halt?)
  {
  }

  // ---------------------------------------------------------------- the end of a region

  function Max(a: nat, b: nat): nat { if a >= b then a else b }
  function Min(a: nat, b: nat): nat { if a <= b then a else b }

  /** max_static_pc after the instruction at p, when the scan goes on. */
  function Reach(f: Flow, pc: nat, end: nat, p: nat, top: nat): nat {
    var here := Max(p + 1, top);
    match f
    case Goto(t) => if pc <= t < end then Max(here, t + 1) else here
    case JumpTo(t) => if pc <= t < end then Max(here, t + 1) else here
    case _ => here
  }

  /** An unconditional transfer that nothing scanned so far can jump past. */
  predicate EndsHere(f: Flow, p: nat, top: nat) {
    (f.JumpTo? || f.Return? || f.Halt?) && p + 1 >= top
  }

  /** The rest of the scan from p. */
  function ScanFrom(m: Imem, pc: nat, end: nat, p: nat, top: nat): nat
    requires pc <= p <= end <= 1024
    decreases end - p
  {
    if p == end then Min(top, end)
    else
      var f := FlowOf(m[p], p);
      if EndsHere(f, p, top) then Min(if f.Halt? then p + 1 else p + 2, end)
      else ScanFrom(m, pc, end, p + 1, Reach(f, pc, end, p, top))
  }

  function StaticEndOf(m: Imem, pc: nat, end: nat): nat
    requires pc < end <= 1024
  {
    ScanFrom(m, pc, end, pc, pc)
  }

  method AnalyzeStaticEnd(m: Imem, pc: nat, end: nat) returns (ret: nat)
    requires pc < end <= 1024
    ensures ret == StaticEndOf(m, pc, end)
  {
    hide FlowOf;
    var maxStaticPc: nat := pc;
    var i := 0;
    while i < end - pc
      invariant 0 <= i <= end - pc
      invariant StaticEndOf(m, pc, end) == ScanFrom(m, pc, end, pc + i, maxStaticPc)
    {
      var p := pc + i;
      var forwardGoto := p + 1 < maxStaticPc;
      if !forwardGoto { maxStaticPc := p + 1; }
      match FlowOf(m[p], p) {
      case Return =>
        if !forwardGoto { maxStaticPc := Max(p + 2, maxStaticPc); break; }
      case Halt =>
        if !forwardGoto { break; }
      case JumpTo(target) =>
        if pc <= target < end {
          if !forwardGoto {
            maxStaticPc := Max(p + 2, maxStaticPc);
            break;
          } else {
            maxStaticPc := Max(maxStaticPc, target + 1);
          }
        } else if !forwardGoto {
          maxStaticPc := Max(p + 2, maxStaticPc);
          break;
        }
      case Goto(target) =>
        if pc <= target < end { maxStaticPc := Max(maxStaticPc, target + 1); }
      case Straight =>
      }
      i := i + 1;
    }
    ret := Min(maxStaticPc, end);
  }

  /** The scan stays inside the window and goes past where it started. */
  lemma {:induction false} ScanBounds(m: Imem, pc: nat, end: nat, p: nat, top: nat)
    requires pc <= p <= end <= 1024 && (p < end || p <= top) && pc < end
    ensures p <= ScanFrom(m, pc, end, p, top) <= end
    ensures p < end ==> p < ScanFrom(m, pc, end, p, top)
    decreases end - p
  {
    hide FlowOf;
    if p < end {
      var f := FlowOf(m[p], p);
      if !EndsHere(f, p, top) { ScanBounds(m, pc, end, p + 1, Reach(f, pc, end, p, top)); }
    }
  }

  predicate Agree(m: Imem, m': Imem, lo: nat, hi: nat) {
    hi <= 1024 && forall k | lo <= k < hi :: m[k] == m'[k]
  }

  lemma {:induction false} ScanLocal(m: Imem, m': Imem, pc: nat, end: nat, p: nat, top: nat)
    requires pc <= p <= end <= 1024 && pc < end && (p < end || p <= top)
    requires ScanFrom(m, pc, end, p, top) <= 1024 && Agree(m, m', p, ScanFrom(m, pc, end, p, top))
    ensures ScanFrom(m', pc, end, p, top) == ScanFrom(m, pc, end, p, top)
    decreases end - p
  {
    if p < end {
      ScanBounds(m, pc, end, p, top);
      var f := FlowOf(m[p], p);
      if !EndsHere(f, p, top) { ScanLocal(m, m', pc, end, p + 1, Reach(f, pc, end, p, top)); }
    }
  }

  /** The region is nonempty, inside the window, and depends on the words of the region alone. */
  lemma StaticEndLocal(m: Imem, m': Imem, pc: nat, end: nat)
    requires pc < end <= 1024
    ensures pc < StaticEndOf(m, pc, end) <= end
    ensures Agree(m, m', pc, StaticEndOf(m, pc, end)) ==> StaticEndOf(m', pc, end) == StaticEndOf(m, pc, end)
  {
    ScanBounds(m, pc, end, pc, pc);
    if Agree(m, m', pc, StaticEndOf(m, pc, end)) { ScanLocal(m, m', pc, end, pc, pc); }
  }

  /** p is an unconditional transfer. */
  predicate Transfers(m: Imem, p: nat) {
    p < 1024 && (FlowOf(m[p], p).JumpTo? || FlowOf(m[p], p).Return? || FlowOf(m[p], p).Halt?)
  }

  /** Every conditional branch from p on, up to where the scan stopped, stays below r. */
  ghost predicate Contained(m: Imem, pc: nat, end: nat, p: nat, stop: nat, r: nat) {
    forall q | p <= q < stop && q < 1024 && FlowOf(m[q], q).Goto? ::
      pc <= FlowOf(m[q], q).target < end ==> FlowOf(m[q], q).target < r
  }

  /** Where the scan from p stops reading. */
  ghost function StopFrom(m: Imem, pc: nat, end: nat, p: nat, top: nat): nat
    requires pc <= p <= end <= 1024
    decreases end - p
  {
    if p == end then end
    else
      var f := FlowOf(m[p], p);
      if EndsHere(f, p, top) then p + 1 else StopFrom(m, pc, end, p + 1, Reach(f, pc, end, p, top))
  }

  lemma {:induction false} ScanContains(m: Imem, pc: nat, end: nat, p: nat, top: nat)
    requires pc <= p <= end <= 1024 && pc < end && (p < end || p <= top)
    ensures var r, stop := ScanFrom(m, pc, end, p, top), StopFrom(m, pc, end, p, top);
            && p <= stop <= r <= stop + 1 && Min(top, end) <= r
            && Contained(m, pc, end, p, stop, r)
            && (r == end || (stop > pc && Transfers(m, stop - 1) && r == if FlowOf(m[stop - 1], stop - 1).Halt? then stop else stop + 1))
    decreases end - p
  {
    hide FlowOf;
    if p < end {
      var f := FlowOf(m[p], p);
      if !EndsHere(f, p, top) { ScanContains(m, pc, end, p + 1, Reach(f, pc, end, p, top)); }
    }
  }

  /** A region ends at the window's end, or with an unconditional transfer and its delay slot that
      no conditional branch of the region jumps past. */
  lemma StaticEndClosed(m: Imem, pc: nat, end: nat) returns (stop: nat)
    requires pc < end <= 1024
    ensures var r := StaticEndOf(m, pc, end);
            && pc <= stop <= r <= stop + 1
            && Contained(m, pc, end, pc, stop, r)
            && (r == end || (stop > pc && Transfers(m, stop - 1) && r == if FlowOf(m[stop - 1], stop - 1).Halt? then stop else stop + 1))
  {
    stop := StopFrom(m, pc, end, pc, pc);
    ScanContains(m, pc, end, pc, pc);
  }

  /** A branch scanned before q leads past q, inside the window. */
  ghost predicate JumpedPast(m: Imem, pc: nat, end: nat, q: nat) {
    exists p :: pc <= p < q && p < 1024 && (FlowOf(m[p], p).Goto? || FlowOf(m[p], p).JumpTo?) && q < FlowOf(m[p], p).target < end
  }

  /** Where max_static_pc comes from. */
  ghost predicate TopFrom(m: Imem, pc: nat, end: nat, p: nat, top: nat) {
    top <= p || exists b :: pc <= b < p && b < 1024 && (FlowOf(m[b], b).Goto? || FlowOf(m[b], b).JumpTo?) &&
                  FlowOf(m[b], b).target + 1 == top && FlowOf(m[b], b).target < end
  }

  lemma TopNext(m: Imem, pc: nat, end: nat, p: nat, top: nat)
    requires pc <= p < end <= 1024 && TopFrom(m, pc, end, p, top)
    ensures TopFrom(m, pc, end, p + 1, Reach(FlowOf(m[p], p), pc, end, p, top))
  {
    hide FlowOf;
    var top' := Reach(FlowOf(m[p], p), pc, end, p, top);
    if top' > p + 1 && top' == top {
      var b :| pc <= b < p && b < 1024 && (FlowOf(m[b], b).Goto? || FlowOf(m[b], b).JumpTo?) &&
        FlowOf(m[b], b).target + 1 == top && FlowOf(m[b], b).target < end;
      assert pc <= b < p + 1;
    }
  }

  lemma {:induction false} ScanTight(m: Imem, pc: nat, end: nat, p: nat, top: nat, q: nat)
    requires pc <= p <= q < end <= 1024 && pc < end && TopFrom(m, pc, end, p, top)
    requires Transfers(m, q) && q + (if FlowOf(m[q], q).Halt? then 1 else 2) < ScanFrom(m, pc, end, p, top)
    ensures JumpedPast(m, pc, end, q)
    decreases end - p
  {
    hide FlowOf;
    var f := FlowOf(m[p], p);
    if !EndsHere(f, p, top) {
      if p < q {
        TopNext(m, pc, end, p, top);
        ScanTight(m, pc, end, p + 1, Reach(f, pc, end, p, top), q);
      } else {
        assert top > p + 1;
      }
    }
  }

  /** The scan stops no later than it must: an unconditional transfer inside a region, its slot not being
      the region's last word, has been jumped past. */
  lemma StaticEndTight(m: Imem, pc: nat, end: nat, q: nat)
    requires pc < end <= 1024 && pc <= q < end
    requires Transfers(m, q) && q + (if FlowOf(m[q], q).Halt? then 1 else 2) < StaticEndOf(m, pc, end)
    ensures JumpedPast(m, pc, end, q)
  {
    hide FlowOf;
    ScanTight(m, pc, end, pc, pc, q);
  }

  // ---------------------------------------------------------------- block entries

  /** The target a word branches to, if the scans treat it as a goto. */
  function GotoTarget(m: Imem, p: nat): Option<nat>
    requires p < 1024
  {
    var f := FlowOf(m[p], p);
    if f.Goto? || f.JumpTo? then Some(f.target) else None
  }

  /** Some instruction of [pc, end) branches to t. */
  predicate IsEntry(m: Imem, pc: nat, end: nat, t: nat) {
    exists p :: pc <= p < end && p < 1024 && GotoTarget(m, p) == Some(t)
  }

  method MarkBlockEntries(m: Imem, pc: nat, end: nat, blockEntries: array<bool>)
    requires pc <= end <= 1024 && blockEntries.Length >= end - pc
    requires forall i | 0 <= i < end - pc :: !blockEntries[i]
    modifies blockEntries
    ensures forall i | 0 <= i < end - pc :: blockEntries[i] <==> IsEntry(m, pc, end, pc + i)
    ensures forall i | end - pc <= i < blockEntries.Length :: blockEntries[i] == old(blockEntries[i])
  {
    for i := 0 to end - pc
      invariant forall k | 0 <= k < end - pc :: blockEntries[k] <==> IsEntry(m, pc, pc + i, pc + k)
      invariant forall k | end - pc <= k < blockEntries.Length :: blockEntries[k] == old(blockEntries[k])
    {
      ghost var before := blockEntries[..];
      match GotoTarget(m, pc + i) {
        case Some(target) =>
          if pc <= target < end { blockEntries[target - pc] := true; }
        case None =>
      }
      forall t: nat
        ensures IsEntry(m, pc, pc + i + 1, t) <==> IsEntry(m, pc, pc + i, t) || GotoTarget(m, pc + i) == Some(t)
      {
        EntryStep(m, pc, pc + i, t);
      }
    }
  }

  lemma EntryStep(m: Imem, pc: nat, p: nat, t: nat)
    requires pc <= p < 1024
    ensures IsEntry(m, pc, p + 1, t) <==> IsEntry(m, pc, p, t) || GotoTarget(m, p) == Some(t)
  {
    if IsEntry(m, pc, p, t) {
      var q :| pc <= q < p && q < 1024 && GotoTarget(m, q) == Some(t);
      assert pc <= q < p + 1;
    }
    if IsEntry(m, pc, p + 1, t) {
      var q :| pc <= q < p + 1 && q < 1024 && GotoTarget(m, q) == Some(t);
      if q < p { assert IsEntry(m, pc, p, t); }
    }
  }

  /** Every direct branch into the region is marked. */
  lemma DirectTargetIsEntry(m: Imem, pc: nat, end: nat, p: nat)
    requires pc <= p < end <= 1024
    requires var i := Decode(m[p], p); (i.BranchEq? || i.BranchZero? || i.Always? || i.Jump?)
    ensures var i := Decode(m[p], p); IsEntry(m, pc, end, i.target)
  {
    FlowOfDecode(m[p], p);
    assert GotoTarget(m, p) == Some(Decode(m[p], p).target);
  }
}

/** What the hash of a region can tell apart. FNV-1 folds every word in: two regions of one start and
    length that differ in exactly one word never share a hash, so a program that is patched one word at
    a time is served its own code. */
module BlockHash {
  import opened Words
  import opened StaticEnd
  import opened BlockTable
  import Isa

  const PRIME := 0x100_0000_01b3
  const INVERSE := 0xce96_5057_aff6_957b    // of PRIME modulo 2^64

  lemma WholeTurns(h: Reg, turns: int)
    ensures Wrap64(h + turns * TWO_64) == h
  {
  }

  /** The odd multiplier is invertible modulo 2^64. */
  lemma TimesPrimeInverse(h: Reg)
    ensures Wrap64(Wrap64(h * PRIME) * INVERSE) == h
  {
    var x, turns := h * PRIME, h * PRIME / TWO_64;
    assert PRIME * INVERSE == 1 + 887_285_111_055 * TWO_64;
    assert Wrap64(x) * INVERSE == h + (h * 887_285_111_055 - turns * INVERSE) * TWO_64;
    WholeTurns(h, h * 887_285_111_055 - turns * INVERSE);
  }

  /** A step tells apart the hashes before it, and the words folded in. */
  lemma StepInjective(h: Reg, h': Reg, x: Word, x': Word)
    requires Bitwise64(Xor, Wrap64(h * PRIME), x) == Bitwise64(Xor, Wrap64(h' * PRIME), x')
    ensures x == x' ==> h == h'
    ensures h == h' ==> x == x'
  {
    hide Bitwise64;
    if x == x' {
      Xor64Injective(Wrap64(h * PRIME), Wrap64(h' * PRIME), x);
      TimesPrimeInverse(h);
      TimesPrimeInverse(h');
    } else if h == h' {
      Xor64Injective(x, x', Wrap64(h * PRIME));
    }
  }

  /** FNV-1 over 32-bit words. */
  function Fnv1(xs: seq<Word>): Reg {
    if xs == [] then 0xcbf2_9ce4_8422_2325
    else Bitwise64(Xor, Wrap64(Fnv1(xs[..|xs| - 1]) * 0x100_0000_01b3), xs[|xs| - 1])
  }

  /** One step of the hash. */
  function Folded(h: Reg, x: Word): Reg {
    Bitwise64(Xor, Wrap64(h * 0x100_0000_01b3), x)
  }

  lemma FnvOne(x: Word)
    ensures Fnv1([x]) == Folded(0xcbf2_9ce4_8422_2325, x)
  {
    hide Bitwise64, Wrap64;
    assert [x][..0] == [];
    assert Fnv1([]) == 0xcbf2_9ce4_8422_2325;
  }

  lemma FnvTwo(x: Word, y: Word)
    ensures Fnv1([x, y]) == Folded(Folded(0xcbf2_9ce4_8422_2325, x), y)
  {
    FnvOne(x);
    hide Bitwise64, Wrap64;
    assert [x, y][..1] == [x];
  }

  lemma HeaderFolded(m: Isa.Imem, pc: nat, n: nat)
    requires pc + n <= IMEM_WORDS
    ensures HashImem(m, pc, n) == HashWords(m, pc, n, Folded(Folded(0xcbf2_9ce4_8422_2325, pc), n))
  {
    hide Bitwise64, Wrap64, HashWords;
  }

  /** The hash of a region is FNV-1 of its start, its length and its words, in order. */
  lemma HashIsFnv1(m: Isa.Imem, pc: nat, n: nat)
    requires pc + n <= IMEM_WORDS
    ensures HashImem(m, pc, n) == Fnv1([pc, n] + m[pc..pc + n])
  {
    hide HashImem, HashWords, Fnv1, Folded;
    HeaderFolded(m, pc, n);
    FnvTwo(pc, n);
    FoldIsFnv1(m, pc, n, [pc, n]);
  }

  lemma {:induction false} FoldIsFnv1(m: Isa.Imem, pc: nat, n: nat, before: seq<Word>)
    requires pc + n <= IMEM_WORDS
    ensures HashWords(m, pc, n, Fnv1(before)) == Fnv1(before + m[pc..pc + n])
  {
    hide Bitwise64, Wrap64;
    var xs := before + m[pc..pc + n];
    if n == 0 {
      assert xs == before;
    } else {
      FoldIsFnv1(m, pc, n - 1, before);
      assert xs[..|xs| - 1] == before + m[pc..pc + n - 1];
    }
  }

  lemma {:induction false} WordsTold(m: Isa.Imem, m': Isa.Imem, pc: nat, n: nat, h: Reg, j: nat)
    requires pc <= j < pc + n <= IMEM_WORDS && m[j] != m'[j]
    requires forall k | pc <= k < pc + n && k != j :: m[k] == m'[k]
    ensures HashWords(m, pc, n, h) != HashWords(m', pc, n, h)
  {
    hide Bitwise64, Wrap64;
    var last := pc + n - 1;
    if j == last {
      HashWordsLocal(m, m', pc, n - 1, h);
    } else {
      WordsTold(m, m', pc, n - 1, h, j);
    }
    var g, g' := HashWords(m, pc, n - 1, h), HashWords(m', pc, n - 1, h);
    if HashWords(m, pc, n, h) == HashWords(m', pc, n, h) { StepInjective(g, g', m[last], m'[last]); }
  }

  /** Regions of one start and length that differ in exactly one word have different hashes. */
  lemma OneWordTold(m: Isa.Imem, m': Isa.Imem, pc: nat, j: nat)
    requires pc < IMEM_WORDS && EndOf(m', pc) == EndOf(m, pc) && pc <= j < EndOf(m, pc) && m[j] != m'[j]
    requires forall k | pc <= k < EndOf(m, pc) && k != j :: m[k] == m'[k]
    ensures HashOf(m, pc) != HashOf(m', pc)
  {
    hide HashWords, Bitwise64, Wrap64, EndOf;
    var n := EndOf(m, pc) - pc;
    forall h: Reg ensures HashWords(m, pc, n, h) != HashWords(m', pc, n, h) { WordsTold(m, m', pc, n, h, j); }
  }

  /** The regions at pc have one length and differ in at most one word. */
  predicate Near(m: Isa.Imem, m': Isa.Imem, pc: nat)
    requires pc < IMEM_WORDS
  {
    && EndOf(m', pc) == EndOf(m, pc)
    && forall j, k | pc <= j < k < EndOf(m, pc) :: m[j] == m'[j] || m[k] == m'[k]
  }

  lemma NearElsewhere(m: Isa.Imem, m': Isa.Imem, pc: nat, j: nat)
    requires pc < IMEM_WORDS && Near(m, m', pc) && pc <= j < EndOf(m, pc) && m[j] != m'[j]
    ensures forall k | pc <= k < EndOf(m, pc) && k != j :: m[k] == m'[k]
  {
    hide EndOf;
  }

  lemma NearTold(m: Isa.Imem, m': Isa.Imem, pc: nat)
    requires pc < IMEM_WORDS && Near(m, m', pc) && HashOf(m, pc) == HashOf(m', pc)
    ensures Agree(m, m', pc, EndOf(m, pc))
  {
    hide HashOf, EndOf;
    forall j | pc <= j < EndOf(m, pc) ensures m[j] == m'[j] {
      if m[j] != m'[j] {
        NearElsewhere(m, m', pc, j);
        OneWordTold(m, m', pc, j);
        assert false;
      }
    }
  }

  /** Every region compiled at pc so far is near the current one. */
  ghost predicate OriginsNear(c: Cache, pc: nat)
    requires pc < IMEM_WORDS
  {
    forall key: (nat, Reg) | key in c.origin && key.0 == pc :: Near(c.origin[key], c.imem, pc)
  }

  lemma NearNoCollision(bd: Build, c: Cache, pc: nat)
    requires BuildOk(bd) && CompiledOk(bd, c) && pc < IMEM_WORDS == |c.blocks| && OriginsNear(c, pc)
    ensures NoCollision(c, pc)
  {
    hide HashOf, FreshBlock, Near, EndOf;
    var key := (pc, HashOf(c.imem, pc));
    if key in c.origin {
      assert key in c.compiled && key.1 == HashOf(c.origin[key], pc);
      NearTold(c.origin[key], c.imem, pc);
    }
  }

  /** At every lookup of the history, the regions compiled there before are near the current one. */
  ghost predicate Patched(bd: Build, imem: Isa.Imem, es: seq<Event>)
    requires BuildOk(bd)
  {
    es == [] ||
    var front, e := es[..|es| - 1], es[|es| - 1];
    Patched(bd, imem, front) && (e.Lookup? && e.pc < IMEM_WORDS ==> OriginsNear(After(bd, imem, front).cache, e.pc))
  }

  lemma {:induction false} PatchedClear(bd: Build, imem: Isa.Imem, es: seq<Event>)
    requires BuildOk(bd) && After(bd, imem, es).ok && Patched(bd, imem, es)
    ensures After(bd, imem, es).clear
  {
    if es != [] {
      var front, e := es[..|es| - 1], es[|es| - 1];
      PatchedClear(bd, imem, front);
      HistoryGood(bd, imem, front, false);
      hide OriginsNear, NoCollision, Apply, TableServes, CompiledOk;
      if e.Lookup? { NearNoCollision(bd, After(bd, imem, front).cache, e.pc); }
    }
  }

  lemma PatchedLast(bd: Build, imem: Isa.Imem, es: seq<Event>, pc: nat)
    requires BuildOk(bd) && pc < IMEM_WORDS && Patched(bd, imem, es + [Lookup(pc)])
    ensures Patched(bd, imem, es) && OriginsNear(After(bd, imem, es).cache, pc)
  {
    hide OriginsNear, After;
    assert (es + [Lookup(pc)])[..|es|] == es;
  }

  lemma GoodCompiled(bd: Build, c: Cache, p: Phase)
    requires BuildOk(bd) && Good(bd, c, p, false)
    ensures CompiledOk(bd, c)
  {
    hide TableServes, CompiledOk;
  }

  /** Coherence without a word about hashes: after any history that keeps to the protocol, and in which
      no region looked up differs in more than one word from those compiled at its start before, a lookup
      returns exactly what compiling current memory gives. */
  lemma PatchesAreServed(bd: Build, imem: Isa.Imem, es: seq<Event>, pc: nat)
    requires BuildOk(bd) && pc < IMEM_WORDS && Patched(bd, imem, es + [Lookup(pc)])
    requires After(bd, imem, es).ok && After(bd, imem, es).phase == Ready
    ensures var c := After(bd, imem, es).cache; Found(bd, c, pc) == FreshBlock(bd, c.imem, pc)
  {
    hide *;
    PatchedLast(bd, imem, es, pc);
    HistoryGood(bd, imem, es, false);
    GoodCompiled(bd, After(bd, imem, es).cache, After(bd, imem, es).phase);
    PatchedClear(bd, imem, es);
    NearNoCollision(bd, After(bd, imem, es).cache, pc);
    LookupsAreFresh(bd, imem, es, pc);
  }
}

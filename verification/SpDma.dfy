/** SP DMA of su.c: rows of 64-bit units between the 8 KiB SP memory (DMEM then IMEM) and RDRAM.

    Memories are sequences of 64-bit units; RDRAM's address register has 24 bits, so 2^21 units. */
module SpDma {
  import opened Words

  const SP_UNITS := 1024
  const DRAM_UNITS := 0x20_0000
  const DRAM_LIMIT := 0x10_0000        // 8 MiB, in units

  type Unit = int

  /** The fields of a length word as MT_DMA_*_LENGTH stores it, its low three bits set: bytes per
      row in units, rows, and the distance between rows in RDRAM in bytes. */
  datatype Transfer = Transfer(line: nat, rows: nat, stride: nat)

  function TransferOf(lengthWord: Word): (t: Transfer)
    ensures TransferOk(t)
  {
    var line := lengthWord % 0x1000 / 8 + 1;
    Transfer(line, lengthWord / 0x1000 % 0x100 + 1, lengthWord / 0x10_0000 + 8 * line)
  }

  /** SR | 07, as the length registers store it. */
  function OrSeven(w: Word): Word {
    w / 8 * 8 + 7
  }

  /** The loop bounds su.c computes from the stored register are those of the transfer. */
  lemma LengthFields(w: Word)
    ensures var reg, t := OrSeven(w), TransferOf(w);
            && reg % 0x1000 + 1 == 8 * t.line
            && reg / 0x1000 % 0x100 + 1 == t.rows
            && reg / 0x10_0000 + (reg % 0x1000 + 1) == t.stride
            && TransferOk(t)
  {
    var h, c := w / 0x1000, w % 0x1000 / 8;
    assert w == 0x1000 * h + 8 * c + w % 8;
    assert OrSeven(w) == 0x1000 * h + 8 * c + 7;
    assert OrSeven(w) / 0x1000 == h && OrSeven(w) % 0x1000 == 8 * c + 7;
    SameHigh(w, OrSeven(w));
  }

  lemma SameHigh(a: Word, b: Word)
    requires a / 0x1000 == b / 0x1000
    ensures a / 0x10_0000 == b / 0x10_0000
  {
    assert a / 0x10_0000 == a / 0x1000 / 0x100;
    assert b / 0x10_0000 == b / 0x1000 / 0x100;
  }

  function Total(t: Transfer): nat {
    t.line * t.rows
  }

  /** SP unit of the k-th unit of a transfer whose SP address register holds `cache`. */
  function SpAt(cache: Word, k: nat): (x: nat)
    ensures x < SP_UNITS
  {
    (cache / 8 + k) % SP_UNITS
  }

  /** Row and column of the k-th unit. */
  function Row(t: Transfer, k: nat): nat
    requires t.line > 0
  {
    k / t.line
  }

  function Col(t: Transfer, k: nat): (i: nat)
    requires t.line > 0
    ensures i < t.line
  {
    k % t.line
  }

  /** First unit of row r in RDRAM: the row's byte address need not be a multiple of 8. */
  function RowStart(dram: Word, t: Transfer, r: nat): nat {
    (r * t.stride + dram / 8 * 8) / 8
  }

  /** RDRAM unit of the k-th unit. */
  function DramAt(dram: Word, t: Transfer, k: nat): (y: nat)
    requires t.line > 0
    ensures y < DRAM_UNITS
  {
    (RowStart(dram, t, Row(t, k)) + Col(t, k)) % DRAM_UNITS
  }

  predicate TransferOk(t: Transfer) {
    1 <= t.line <= 512 && 1 <= t.rows <= 256 && 8 * t.line <= t.stride <= 8 * t.line + 4095
  }

  // ---------------------------------------------------------------- where units go

  lemma RowBelow(t: Transfer, k: nat)
    requires t.line > 0 && k < Total(t)
    ensures Row(t, k) < t.rows && k == Row(t, k) * t.line + Col(t, k)
  {
    var r := k / t.line;
    assert k == t.line * r + k % t.line;
    assert t.line * r == r * t.line;
    if r >= t.rows {
      assert t.line * r == t.line * t.rows + t.line * (r - t.rows);
      assert t.line * t.rows == t.rows * t.line;
      NotNegative(t.line, r - t.rows);
    }
  }

  lemma NotNegative(a: nat, b: nat)
    ensures a * b >= 0
  {
  }

  lemma DivStep(x: nat, s: nat, line: nat)
    requires 8 * line <= s <= 8 * line + 4095 && line <= 512
    ensures x / 8 + line <= (x + s) / 8 <= x / 8 + 1024
  {
  }

  lemma RowStep(dram: Word, t: Transfer, r: nat)
    requires TransferOk(t)
    ensures RowStart(dram, t, r) + t.line <= RowStart(dram, t, r + 1) <= RowStart(dram, t, r) + 1024
  {
    assert (r + 1) * t.stride == r * t.stride + t.stride;
    DivStep(r * t.stride + dram / 8 * 8, t.stride, t.line);
  }

  /** Rows follow one another without overlap, even where the skip is not a multiple of 8. */
  lemma {:induction false} RowGap(dram: Word, t: Transfer, r: nat, r': nat)
    requires TransferOk(t) && r < r'
    ensures RowStart(dram, t, r) + t.line <= RowStart(dram, t, r') <= RowStart(dram, t, r) + 1024 * (r' - r)
    decreases r' - r
  {
    hide RowStart;
    RowStep(dram, t, r);
    if r + 1 < r' { RowGap(dram, t, r + 1, r'); }
  }

  lemma ModApart(a: nat, b: nat)
    requires a < b < a + DRAM_UNITS
    ensures a % DRAM_UNITS != b % DRAM_UNITS
  {
  }

  lemma RowOrder(t: Transfer, r: nat, i: nat, r': nat, i': nat)
    requires r * t.line + i < r' * t.line + i' && i < t.line && i' < t.line
    ensures r <= r'
  {
    if r > r' {
      assert r * t.line == (r - r' - 1) * t.line + r' * t.line + t.line;
      NotNegative(r - r' - 1, t.line);
    }
  }

  lemma UnitsApart(dram: Word, t: Transfer, r: nat, i: nat, r': nat, i': nat)
    requires TransferOk(t) && i < t.line && i' < t.line && r' < t.rows && (r < r' || (r == r' && i < i'))
    ensures RowStart(dram, t, r) + i < RowStart(dram, t, r') + i' < RowStart(dram, t, r) + i + DRAM_UNITS
  {
    hide RowStart;
    if r < r' { RowGap(dram, t, r, r'); }
  }

  lemma DramOrdered(dram: Word, t: Transfer, k: nat, k': nat)
    requires TransferOk(t) && k < k' < Total(t)
    ensures DramAt(dram, t, k) != DramAt(dram, t, k')
  {
    RowBelow(t, k);
    RowBelow(t, k');
    hide RowStart, Row, Col;
    var r, i, r', i' := Row(t, k), Col(t, k), Row(t, k'), Col(t, k');
    RowOrder(t, r, i, r', i');
    UnitsApart(dram, t, r, i, r', i');
    ModApart(RowStart(dram, t, r) + i, RowStart(dram, t, r') + i');
  }

  /** No RDRAM unit is touched twice by one transfer. */
  lemma DramDistinct(dram: Word, t: Transfer, k: nat, k': nat)
    requires TransferOk(t) && k < Total(t) && k' < Total(t) && k != k'
    ensures DramAt(dram, t, k) != DramAt(dram, t, k')
  {
    hide DramAt;
    if k < k' { DramOrdered(dram, t, k, k'); } else { DramOrdered(dram, t, k', k); }
  }

  /** Within one lap of SP memory no SP unit is touched twice. */
  lemma SpDistinct(cache: Word, k: nat, k': nat)
    requires k < k' < k + SP_UNITS
    ensures SpAt(cache, k) != SpAt(cache, k')
  {
  }

  /** What a read delivers: zero beyond 8 MiB. */
  function Delivered(dram: seq<Unit>, y: nat): Unit
    requires y < |dram|
  {
    if y < DRAM_LIMIT then dram[y] else 0
  }

  // ---------------------------------------------------------------- in bytes

  /** Unit i of row r is moved. */
  predicate Moves(t: Transfer, r: nat, i: nat) {
    r < t.rows && i < t.line
  }

  /** A read, by byte addresses: DMEM and IMEM wrap at 8 KB, the RDRAM address at 16 MB, and there is
      nothing beyond 8 MB. Where the transfer laps itself in SP memory the first lap stays. */
  ghost predicate ReadBytes(was: seq<Unit>, now: seq<Unit>, mem: seq<Unit>, cache: Word, dram: Word, t: Transfer)
    requires |was| == |now| == 0x2000 / 8 && |mem| == 0x100_0000 / 8
  {
    && (forall r: nat, i: nat | Moves(t, r, i) && 8 * (r * t.line + i) < 0x2000 ::
          var sp, d := (8 * (r * t.line) + cache / 8 * 8 + 8 * i) % 0x2000, (r * t.stride + dram / 8 * 8 + 8 * i) % 0x100_0000;
          now[sp / 8] == if d < 0x80_0000 then mem[d / 8] else 0)
    && (forall x | 0 <= x < 0x2000 / 8 &&
          (forall r: nat, i: nat | Moves(t, r, i) :: (8 * (r * t.line) + cache / 8 * 8 + 8 * i) % 0x2000 / 8 != x) ::
          now[x] == was[x])
  }

  /** A write, likewise. */
  ghost predicate WroteBytes(sp: seq<Unit>, was: seq<Unit>, now: seq<Unit>, cache: Word, dram: Word, t: Transfer)
    requires |sp| == 0x2000 / 8 && |was| == |now| == 0x100_0000 / 8
  {
    && (forall r: nat, i: nat | Moves(t, r, i) ::
          now[(r * t.stride + dram / 8 * 8 + 8 * i) % 0x100_0000 / 8] == sp[(8 * (r * t.line) + cache / 8 * 8 + 8 * i) % 0x2000 / 8])
    && (forall y | 0 <= y < 0x100_0000 / 8 &&
          (forall r: nat, i: nat | Moves(t, r, i) :: (r * t.stride + dram / 8 * 8 + 8 * i) % 0x100_0000 / 8 != y) ::
          now[y] == was[y])
  }

  lemma PlaceOfRow(t: Transfer, r: nat, i: nat)
    requires TransferOk(t) && Moves(t, r, i)
    ensures 0 <= r * t.line + i < Total(t) && Row(t, r * t.line + i) == r && Col(t, r * t.line + i) == i
  {
    NotNegative(r, t.line);
    var k := r * t.line + i;
    assert Total(t) == (r + 1) * t.line + (t.rows - r - 1) * t.line;
    assert (r + 1) * t.line == r * t.line + t.line;
    NotNegative(t.rows - r - 1, t.line);
    assert k == t.line * r + i;
    ModUnique(k, t.line, r, i);
  }

  lemma SpBytes(x: int, c: nat, i: nat)
    requires x >= 0
    ensures (c / 8 + (x + i)) % 1024 == (8 * x + c / 8 * 8 + 8 * i) % 0x2000 / 8
  {
  }

  lemma DramBytes(x: int, i: nat)
    requires x >= 0
    ensures (x / 8 + i) % 0x20_0000 == (x + 8 * i) % 0x100_0000 / 8
  {
  }

  /** The unit in row r and column i goes by these addresses. */
  lemma UnitBytes(cache: Word, dram: Word, t: Transfer, r: nat, i: nat)
    requires TransferOk(t) && Moves(t, r, i)
    ensures var k := r * t.line + i;
            && 0 <= k < Total(t)
            && SpAt(cache, k) == (8 * (r * t.line) + cache / 8 * 8 + 8 * i) % 0x2000 / 8
            && DramAt(dram, t, k) == (r * t.stride + dram / 8 * 8 + 8 * i) % 0x100_0000 / 8
  {
    PlaceOfRow(t, r, i);
    NotNegative(r, t.line);
    NotNegative(r, t.stride);
    SpBytes(r * t.line, cache, i);
    DramBytes(r * t.stride + dram / 8 * 8, i);
    hide Row, Col;
  }

  lemma UnitMoves(t: Transfer, k: nat)
    requires TransferOk(t) && k < Total(t)
    ensures Moves(t, Row(t, k), Col(t, k)) && k == Row(t, k) * t.line + Col(t, k)
  {
    RowBelow(t, k);
  }

  lemma ReadInBytes(was: seq<Unit>, now: seq<Unit>, mem: seq<Unit>, cache: Word, dram: Word, t: Transfer)
    requires |was| == |now| == SP_UNITS && |mem| == DRAM_UNITS && TransferOk(t) && Read(was, now, mem, cache, dram, t)
    ensures ReadBytes(was, now, mem, cache, dram, t)
  {
    hide SpAt, DramAt, Row, Col, Total, Moves;
    forall r: nat, i: nat | Moves(t, r, i) && 8 * (r * t.line + i) < 0x2000
      ensures var sp, d := (8 * (r * t.line) + cache / 8 * 8 + 8 * i) % 0x2000, (r * t.stride + dram / 8 * 8 + 8 * i) % 0x100_0000;
              now[sp / 8] == if d < 0x80_0000 then mem[d / 8] else 0
    {
      UnitBytes(cache, dram, t, r, i);
    }
    forall x: nat | x < SP_UNITS && forall r: nat, i: nat | Moves(t, r, i) :: (8 * (r * t.line) + cache / 8 * 8 + 8 * i) % 0x2000 / 8 != x
      ensures now[x] == was[x]
    {
      var k := SpCovered(cache, x);
      if k < Total(t) {
        UnitMoves(t, k);
        UnitBytes(cache, dram, t, Row(t, k), Col(t, k));
        assert false;
      }
    }
  }

  lemma WroteInBytes(sp: seq<Unit>, was: seq<Unit>, now: seq<Unit>, cache: Word, dram: Word, t: Transfer)
    requires |sp| == SP_UNITS && |was| == |now| == DRAM_UNITS && TransferOk(t) && Wrote(sp, was, now, cache, dram, t)
    ensures WroteBytes(sp, was, now, cache, dram, t)
  {
    hide SpAt, DramAt, Row, Col, Total, Moves;
    forall r: nat, i: nat | Moves(t, r, i)
      ensures now[(r * t.stride + dram / 8 * 8 + 8 * i) % 0x100_0000 / 8] == sp[(8 * (r * t.line) + cache / 8 * 8 + 8 * i) % 0x2000 / 8]
    {
      UnitBytes(cache, dram, t, r, i);
    }
    forall y: nat | y < DRAM_UNITS && forall r: nat, i: nat | Moves(t, r, i) :: (r * t.stride + dram / 8 * 8 + 8 * i) % 0x100_0000 / 8 != y
      ensures now[y] == was[y]
    {
      if Touched(dram, t, 0, Total(t), y) {
        var k: nat :| 0 <= k < Total(t) && DramAt(dram, t, k) == y;
        UnitMoves(t, k);
        UnitBytes(cache, dram, t, Row(t, k), Col(t, k));
        assert false;
      }
    }
  }

  // ---------------------------------------------------------------- the loops

  lemma FirstOfRow(t: Transfer, count: nat)
    requires count < t.rows
    ensures (count + 1) * t.line == count * t.line + t.line <= Total(t)
  {
    assert Total(t) == (count + 1) * t.line + (t.rows - count - 1) * t.line;
    NotNegative(t.rows - count - 1, t.line);
  }

  /** What unit k of SP memory's lap holds once the units from `first` on are in place. */
  function Landed(was: seq<Unit>, dram: seq<Unit>, cache: Word, dramAddr: Word, t: Transfer, k: nat): Unit
    requires |was| == SP_UNITS && |dram| == DRAM_UNITS && t.line > 0
  {
    if k < Total(t) then Delivered(dram, DramAt(dramAddr, t, k)) else was[SpAt(cache, k)]
  }

  /** One row of a read. */
  method ReadRow(sp: array<Unit>, dram: array<Unit>, cache: Word, dramAddr: Word, t: Transfer, count: nat, ghost was: seq<Unit>, ghost first: nat)
    requires sp.Length == |was| == SP_UNITS && dram.Length == DRAM_UNITS && sp != dram && TransferOk(t)
    requires first == count * t.line && first + t.line <= Total(t)
    requires forall k: nat | first + t.line <= k < first + t.line + SP_UNITS :: sp[SpAt(cache, k)] == Landed(was, dram[..], cache, dramAddr, t, k)
    modifies sp
    ensures forall k: nat | first <= k < first + SP_UNITS :: sp[SpAt(cache, k)] == Landed(was, dram[..], cache, dramAddr, t, k)
  {
    hide SpAt, DramAt, Delivered;
    for i := 0 to t.line
      invariant forall k: nat | first <= k < first + i || first + t.line <= k < first + SP_UNITS ::
        sp[SpAt(cache, k)] == Landed(was, dram[..], cache, dramAddr, t, k)
    {
      var at := count * t.line + i;
      forall k: nat | first <= k < first + SP_UNITS && k != at ensures SpAt(cache, k) != SpAt(cache, at) {
        if k < at { SpDistinct(cache, k, at); } else { SpDistinct(cache, at, k); }
      }
      sp[SpAt(cache, at)] := Delivered(dram[..], DramAt(dramAddr, t, at));
    }
  }

  /** SP_DMA_READ: rows from the last to the first. Unit k of the first lap of SP memory receives
      unit k of the transfer, later laps being overwritten; beyond the transfer nothing changes. */
  method SpDmaRead(sp: array<Unit>, dram: array<Unit>, cache: Word, dramAddr: Word, t: Transfer)
    requires sp.Length == SP_UNITS && dram.Length == DRAM_UNITS && sp != dram && TransferOk(t)
    modifies sp
    ensures Read(old(sp[..]), sp[..], dram[..], cache, dramAddr, t)
    ensures ReadBytes(old(sp[..]), sp[..], dram[..], cache, dramAddr, t)
  {
    hide SpAt, DramAt, Delivered, Landed, TransferOk, ReadBytes;
    ghost var was := sp[..];
    StartLanded(was, dram[..], cache, dramAddr, t);
    var count := t.rows;
    ghost var first: nat := Total(t);
    while count > 0
      invariant count <= t.rows && first == count * t.line
      invariant forall k: nat | first <= k < first + SP_UNITS :: sp[SpAt(cache, k)] == Landed(was, dram[..], cache, dramAddr, t, k)
    {
      count := count - 1;
      FirstOfRow(t, count);
      NotNegative(count, t.line);
      first := count * t.line;
      ReadRow(sp, dram, cache, dramAddr, t, count, was, first);
    }
    ReadFromLanded(was, sp[..], dram[..], cache, dramAddr, t);
    ReadInBytes(was, sp[..], dram[..], cache, dramAddr, t);
  }

  lemma StartLanded(was: seq<Unit>, dram: seq<Unit>, cache: Word, dramAddr: Word, t: Transfer)
    requires |was| == SP_UNITS && |dram| == DRAM_UNITS && TransferOk(t)
    ensures t.line > 0 && Total(t) == t.rows * t.line
    ensures forall k: nat | k >= Total(t) :: was[SpAt(cache, k)] == Landed(was, dram, cache, dramAddr, t, k)
  {
    hide SpAt, DramAt, Delivered;
  }

  lemma ReadFromLanded(was: seq<Unit>, now: seq<Unit>, dram: seq<Unit>, cache: Word, dramAddr: Word, t: Transfer)
    requires |was| == |now| == SP_UNITS && |dram| == DRAM_UNITS && t.line > 0
    requires forall k: nat | 0 <= k < SP_UNITS :: now[SpAt(cache, k)] == Landed(was, dram, cache, dramAddr, t, k)
    ensures Read(was, now, dram, cache, dramAddr, t)
  {
    hide SpAt, DramAt, Delivered;
  }

  /** One row of a write. */
  method WriteRow(sp: array<Unit>, dram: array<Unit>, cache: Word, dramAddr: Word, t: Transfer, count: nat, ghost was: seq<Unit>, ghost first: nat)
    requires sp.Length == SP_UNITS && dram.Length == |was| == DRAM_UNITS && sp != dram && TransferOk(t)
    requires first == count * t.line && first + t.line <= Total(t)
    requires forall k: nat | first + t.line <= k < Total(t) :: dram[DramAt(dramAddr, t, k)] == sp[SpAt(cache, k)]
    requires forall y: nat | y < DRAM_UNITS && !Touched(dramAddr, t, first + t.line, Total(t), y) :: dram[y] == was[y]
    modifies dram
    ensures forall k: nat | first <= k < Total(t) :: dram[DramAt(dramAddr, t, k)] == sp[SpAt(cache, k)]
    ensures forall y: nat | y < DRAM_UNITS && !Touched(dramAddr, t, first, Total(t), y) :: dram[y] == was[y]
  {
    hide SpAt, DramAt;
    for i := 0 to t.line
      invariant forall k: nat | first <= k < first + i || first + t.line <= k < Total(t) ::
        dram[DramAt(dramAddr, t, k)] == sp[SpAt(cache, k)]
      invariant forall y: nat | y < DRAM_UNITS && !Touched(dramAddr, t, first, Total(t), y) :: dram[y] == was[y]
    {
      var at := count * t.line + i;
      forall k: nat | k < Total(t) && k != at ensures DramAt(dramAddr, t, k) != DramAt(dramAddr, t, at) {
        DramDistinct(dramAddr, t, k, at);
      }
      dram[DramAt(dramAddr, t, at)] := sp[SpAt(cache, at)];
    }
  }

  /** SP_DMA_WRITE: every unit of the transfer reaches its place, nothing else changes. */
  method SpDmaWrite(sp: array<Unit>, dram: array<Unit>, cache: Word, dramAddr: Word, t: Transfer)
    requires sp.Length == SP_UNITS && dram.Length == DRAM_UNITS && sp != dram && TransferOk(t)
    modifies dram
    ensures Wrote(sp[..], old(dram[..]), dram[..], cache, dramAddr, t)
    ensures WroteBytes(sp[..], old(dram[..]), dram[..], cache, dramAddr, t)
  {
    hide SpAt, DramAt, Touched, WroteBytes;
    ghost var was := dram[..];
    var count := t.rows;
    ghost var first: nat := Total(t);
    while count > 0
      invariant count <= t.rows && first == count * t.line
      invariant forall k: nat | first <= k < Total(t) :: dram[DramAt(dramAddr, t, k)] == sp[SpAt(cache, k)]
      invariant forall y: nat | y < DRAM_UNITS && !Touched(dramAddr, t, first, Total(t), y) :: dram[y] == was[y]
    {
      count := count - 1;
      FirstOfRow(t, count);
      NotNegative(count, t.line);
      first := count * t.line;
      WriteRow(sp, dram, cache, dramAddr, t, count, was, first);
    }
    WroteInBytes(sp[..], was, dram[..], cache, dramAddr, t);
  }

  /** Unit y of RDRAM belongs to one of the units lo .. hi - 1 of the transfer. */
  ghost predicate Touched(dram: Word, t: Transfer, lo: nat, hi: nat, y: nat)
    requires t.line > 0
  {
    exists k :: 0 <= lo <= k < hi && DramAt(dram, t, k) == y
  }

  // ---------------------------------------------------------------- both ways

  /** What SpDmaWrite leaves in RDRAM. */
  ghost predicate Wrote(sp: seq<Unit>, before: seq<Unit>, after: seq<Unit>, cache: Word, dram: Word, t: Transfer)
    requires |sp| == SP_UNITS && |before| == |after| == DRAM_UNITS && t.line > 0
  {
    && (forall k | 0 <= k < Total(t) :: after[DramAt(dram, t, k)] == sp[SpAt(cache, k)])
    && (forall y | 0 <= y < DRAM_UNITS && !Touched(dram, t, 0, Total(t), y) :: after[y] == before[y])
  }

  /** What SpDmaRead leaves in SP memory. */
  ghost predicate Read(sp: seq<Unit>, after: seq<Unit>, dramMemory: seq<Unit>, cache: Word, dram: Word, t: Transfer)
    requires |sp| == |after| == SP_UNITS && |dramMemory| == DRAM_UNITS && t.line > 0
  {
    forall k | 0 <= k < SP_UNITS ::
      after[SpAt(cache, k)] == if k < Total(t) then Delivered(dramMemory, DramAt(dram, t, k)) else sp[SpAt(cache, k)]
  }

  /** Every SP unit is the k-th of exactly one k of the first lap. */
  lemma SpCovered(cache: Word, x: nat) returns (k: nat)
    requires x < SP_UNITS
    ensures k < SP_UNITS && SpAt(cache, k) == x
  {
    k := (x + SP_UNITS - cache / 8 % SP_UNITS) % SP_UNITS;
  }

  /** A write followed by a read with the same registers restores SP memory exactly when every unit
      the transfer moves in the first lap lies within 8 MiB or was zero. */
  lemma WriteThenRead(sp: seq<Unit>, before: seq<Unit>, between: seq<Unit>, after: seq<Unit>, cache: Word, dram: Word, t: Transfer)
    requires |sp| == |after| == SP_UNITS && |before| == |between| == DRAM_UNITS && TransferOk(t)
    requires Wrote(sp, before, between, cache, dram, t) && Read(sp, after, between, cache, dram, t)
    ensures after == sp <==>
      forall k | 0 <= k < SP_UNITS && k < Total(t) :: DramAt(dram, t, k) < DRAM_LIMIT || sp[SpAt(cache, k)] == 0
  {
    hide SpAt, DramAt, Touched;
    if forall k | 0 <= k < SP_UNITS && k < Total(t) :: DramAt(dram, t, k) < DRAM_LIMIT || sp[SpAt(cache, k)] == 0 {
      forall x | 0 <= x < SP_UNITS ensures after[x] == sp[x] {
        var k := SpCovered(cache, x);
        assert after[SpAt(cache, k)] == sp[SpAt(cache, k)];
      }
    }
  }
}

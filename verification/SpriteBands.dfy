/** How f3d_emit_sprite splits a sprite's rows: a CI image into bands that fit the 2 KB of TMEM below
    the palette, with one row of overlap for bilerp, and a direct RGBA16 image into strips of 4 KB.

    Screen coordinates are 10.2, texture steps s5.10, T starts s10.5; `s1` is the first image row. */
module SpriteBands {

  const LOW_TMEM := 2048
  const FULL_TMEM := 4096

  /** Texture rows [low, high], screen rows [top, bottom) and the T start of one rectangle. */
  datatype Band = Band(low: nat, high: int, top: nat, bottom: nat, t: int)

  datatype Sprite = Sprite(disph: nat, dtdy: nat, s1: nat, siz: nat, width: nat, mirrored: bool)

  /** Bytes per row of CI4, CI8 or 16-bit texels. */
  function RowBytes(s: Sprite): nat {
    if s.siz == 0 then (s.width + 1) / 2 else if s.siz == 1 then s.width else s.width * 2
  }

  /** A row is whole bytes, as few as hold its texels of 4, 8 or 16 bits. */
  lemma RowHoldsTexels(s: Sprite)
    ensures var bits := (if s.siz == 0 then 4 else if s.siz == 1 then 8 else 16);
            RowBytes(s) == (s.width * bits + 7) / 8 && 8 * RowBytes(s) - 8 < s.width * bits <= 8 * RowBytes(s)
  {
  }

  function MaxRows(s: Sprite): nat {
    if RowBytes(s) != 0 && RowBytes(s) <= LOW_TMEM then LOW_TMEM / RowBytes(s) else s.disph
  }

  function FullHeight(s: Sprite): nat {
    if s.dtdy != 0 then s.disph * 4096 / s.dtdy else s.disph * 4
  }

  /** Rows from one band to the next. */
  function Advance(s: Sprite): (n: nat)
    ensures n >= 1
  {
    if MaxRows(s) > 1 then MaxRows(s) - 1 else 1
  }

  /** Screen height of a band: the advance, rounded up to whole pixels. */
  function BandHeight(s: Sprite): nat {
    if s.dtdy != 0 then (Advance(s) * 4096 + s.dtdy * 4 - 1) / (s.dtdy * 4) * 4 else Advance(s) * 4
  }

  /** Where the k-th of equal pieces starts. */
  function Start(k: nat, step: nat): nat {
    k * step
  }

  lemma StartNext(k: nat, step: nat)
    ensures Start(k + 1, step) == Start(k, step) + step && Start(0, step) == 0
  {
  }

  predicate Split(s: Sprite) {
    s.disph > MaxRows(s)
  }

  function Min(a: nat, b: nat): nat {
    if a < b then a else b
  }

  /** The b-th band. */
  function BandAt(s: Sprite, b: nat): Band
    requires Start(b, Advance(s)) < s.disph
  {
    var adv, h := Advance(s), BandHeight(s);
    var tl := s.s1 + Start(b, adv);
    var th := if Start(b, adv) + adv < s.disph then tl + adv else s.s1 + s.disph;
    var end := s.s1 + s.disph;
    var low, high := if s.mirrored then end - th else tl, if s.mirrored then end - tl else th;
    Band(low, high, Min(Start(b, h), FullHeight(s)), Min(Start(b + 1, h), FullHeight(s)),
         if s.mirrored then end * 32 - b * ((h * s.dtdy + 127) / 128) - low * 32
         else b * (h * s.dtdy / 128 - adv * 32))
  }

  /** The bands of a sprite, as the loop emits them. */
  ghost predicate AreBands(s: Sprite, bands: seq<Band>) {
    && |bands| > 0 && s.disph <= Start(|bands|, Advance(s))
    && forall b | 0 <= b < |bands| :: Start(b, Advance(s)) < s.disph && bands[b] == BandAt(s, b)
  }

  /** The loop of f3d_emit_sprite over bands; a band stands for the commands appended for it. */
  method EmitBands(s: Sprite) returns (bands: seq<Band>)
    requires Split(s)
    ensures AreBands(s, bands)
  {
    bands := [];
    var adv, h, fullH, end := Advance(s), BandHeight(s), FullHeight(s), s.s1 + s.disph;
    var bfrac, cstep := h * s.dtdy / 128 - adv * 32, (h * s.dtdy + 127) / 128;
    var b := 0;
    StartNext(0, adv);
    while Start(b, adv) < s.disph
      invariant b == |bands| && (b == 0 ==> s.disph > 0)
      invariant forall k | 0 <= k < b :: Start(k, Advance(s)) < s.disph && bands[k] == BandAt(s, k)
      decreases s.disph - Start(b, adv)
    {
      var tl := s.s1 + Start(b, adv);
      var th := if Start(b, adv) + adv < s.disph then tl + adv else s.s1 + s.disph;
      var yh := if Start(b, h) < fullH then Start(b, h) else fullH;
      var yl := if Start(b + 1, h) < fullH then Start(b + 1, h) else fullH;
      var low, high := if s.mirrored then end - th else tl, if s.mirrored then end - tl else th;
      var tc := if s.mirrored then end * 32 - b * cstep - low * 32 else b * bfrac;
      assert Band(low, high, yh, yl, tc) == BandAt(s, b);
      bands := bands + [Band(low, high, yh, yl, tc)];
      StartNext(b, adv);
      b := b + 1;
    }
  }

  /** An image that is not split is one rectangle, without the overlap row. */
  function OneBand(s: Sprite, yh: nat): Band {
    Band(s.s1, s.s1 + s.disph - 1, yh, yh + FullHeight(s), if s.mirrored then (s.disph - 1) * 32 else 0)
  }

  /** It loads its rows, is drawn from yh on for as many quarter pixels as its step makes of them, and
      starts at its first row, or mirrored at its last. */
  lemma OneBandPlace(s: Sprite, yh: nat)
    ensures var one := OneBand(s, yh);
            && one.low == s.s1 && one.high == s.s1 + s.disph - 1 && one.top == yh
            && one.t + 32 * one.low == 32 * (if s.mirrored then one.high else one.low)
            && Covers(s.dtdy, s.disph, one.bottom - one.top)
  {
    ScreenHeight(s);
    hide FullHeight, Covers;
  }

  /** h quarter pixels are what n rows take at a step of dtdy s5.10 texels a pixel, rounded down; no step
      is a step of one. */
  predicate Covers(dtdy: nat, n: nat, h: int) {
    if dtdy == 0 then h == 4 * n else h * dtdy <= 4096 * n < (h + 1) * dtdy
  }

  lemma FloorDiv(n: nat, d: nat)
    requires d > 0
    ensures n / d * d <= n < (n / d + 1) * d
  {
    var q, r := n / d, n % d;
    assert n == d * q + r;
    assert q * d == d * q && (q + 1) * d == q * d + d;
  }

  lemma ScreenHeight(s: Sprite)
    ensures Covers(s.dtdy, s.disph, FullHeight(s))
  {
    if s.dtdy != 0 { FloorDiv(s.disph * 4096, s.dtdy); }
  }

  /** An image is split exactly if one row fits and all do not. */
  lemma SplitExactly(s: Sprite)
    ensures Split(s) <==> RowBytes(s) <= 2048 < s.disph * RowBytes(s)
  {
    var n, rows := RowBytes(s), MaxRows(s);
    hide RowBytes;
    if n == 0 {
      assert s.disph * n == 0;
    } else if n <= 2048 {
      FloorDiv(2048, n);
      if s.disph > rows { MulMono(n, rows + 1, s.disph); } else { MulMono(n, s.disph, rows); }
    }
  }

  /** A sprite's rectangles, split or not. */
  method EmitSprite(s: Sprite, yh: nat) returns (bands: seq<Band>)
    ensures var bytes := (s.width * (if s.siz == 0 then 4 else if s.siz == 1 then 8 else 16) + 7) / 8;
            if bytes <= 2048 < s.disph * bytes then AreBands(s, bands) else bands == [OneBand(s, yh)]
  {
    RowHoldsTexels(s);
    SplitExactly(s);
    if s.disph <= MaxRows(s) {
      bands := [OneBand(s, yh)];
    } else {
      bands := EmitBands(s);
    }
  }

  // ---------------------------------------------------------------- the screen

  /** A band's height covers its advance at the sprite's step. */
  lemma HeightCovers(s: Sprite)
    ensures s.dtdy != 0 ==> BandHeight(s) * s.dtdy >= Advance(s) * 4096
    ensures s.dtdy == 0 ==> BandHeight(s) == Advance(s) * 4
  {
    if s.dtdy != 0 {
      var n, d := Advance(s) * 4096, s.dtdy * 4;
      CeilDiv(n, d);
      assert BandHeight(s) * s.dtdy == (n + d - 1) / d * d by {
        var c := (n + d - 1) / d;
        assert c * 4 * s.dtdy == c * (s.dtdy * 4);
      }
    }
  }

  lemma CeilDiv(n: nat, d: nat)
    requires d > 0
    ensures (n + d - 1) / d * d >= n
  {
    var q, r := (n + d - 1) / d, (n + d - 1) % d;
    assert n + d - 1 == d * q + r;
    assert q * d == d * q;
  }

  lemma DivBelow(a: nat, d: nat, c: nat)
    requires d > 0 && a <= c * d
    ensures a / d <= c
  {
  }

  lemma MulMono(n: nat, a: nat, b: nat)
    requires a <= b
    ensures n * a <= n * b
  {
    assert n * b == n * a + n * (b - a);
  }

  lemma Assoc(a: nat, b: nat, c: nat)
    ensures a * b * c == a * (b * c)
  {
  }

  lemma ReachArith(n: nat, adv: nat, h: nat, dtdy: nat, disph: nat)
    requires disph <= n * adv && h * dtdy >= adv * 4096 && dtdy > 0
    ensures disph * 4096 / dtdy <= n * h
  {
    MulMono(n, adv * 4096, h * dtdy);
    Assoc(n, adv, 4096);
    Assoc(n, h, dtdy);
    DivBelow(disph * 4096, dtdy, n * h);
  }

  /** n bands that take every row take the whole height. */
  lemma BandsReach(s: Sprite, n: nat)
    requires s.disph <= Start(n, Advance(s))
    ensures FullHeight(s) <= Start(n, BandHeight(s))
  {
    HeightCovers(s);
    var adv, h := Advance(s), BandHeight(s);
    hide Advance, BandHeight;
    if s.dtdy != 0 {
      ReachArith(n, adv, h, s.dtdy, s.disph);
    } else {
      Assoc(n, adv, 4);
    }
  }

  /** A band is the fewest whole pixels high that show the rows to the next one. */
  lemma BandHeightLeast(s: Sprite)
    requires s.dtdy != 0
    ensures var h, n := BandHeight(s), 4096 * Advance(s); h % 4 == 0 && (h - 4) * s.dtdy < n <= h * s.dtdy
  {
    hide Advance;
    LeastPixels(Advance(s) * 4096, s.dtdy);
  }

  lemma LeastPixels(n: nat, step: nat)
    requires step > 0
    ensures var c := (n + step * 4 - 1) / (step * 4); (c * 4 - 4) * step < n <= c * 4 * step
  {
    var d := step * 4;
    var c := (n + d - 1) / d;
    FloorDiv(n + d - 1, d);
    TimesFour(c, step);
    TimesFour(c - 1, step);
    assert (c + 1) * d == c * d + d && (c - 1) * d == c * d - d;
  }

  lemma TimesFour(c: int, step: nat)
    ensures c * 4 * step == c * (step * 4)
  {
  }

  /** The bands abut and cover exactly the screen rows of the image. */
  lemma BandsTileScreen(s: Sprite, bands: seq<Band>)
    requires AreBands(s, bands)
    ensures bands[0].top == 0 && Covers(s.dtdy, s.disph, bands[|bands| - 1].bottom)
    ensures forall b | 0 <= b < |bands| - 1 :: bands[b].bottom == bands[b + 1].top
    ensures forall b | 0 <= b < |bands| :: bands[b].top <= bands[b].bottom
  {
    ScreenHeight(s);
    BandsReach(s, |bands|);
    StartNext(0, BandHeight(s));
    hide BandHeight, FullHeight, Advance, Start, Covers;
    forall b | 0 <= b < |bands| ensures bands[b].top <= bands[b].bottom {
      StartNext(b, BandHeight(s));
    }
  }

  // ---------------------------------------------------------------- the image

  /** Unmirrored, consecutive bands share exactly one row and together load rows s1 to s1 + disph: the
      image, and the one row past it that bilerp reads. */
  lemma BandsCoverImage(s: Sprite, bands: seq<Band>)
    requires !s.mirrored && AreBands(s, bands)
    ensures bands[0].low == s.s1 && bands[|bands| - 1].high == s.s1 + s.disph
    ensures forall b | 0 <= b < |bands| - 1 :: bands[b].high == bands[b + 1].low
  {
    var n, adv := |bands|, Advance(s);
    StartNext(n - 1, adv);
    StartNext(0, adv);
    hide BandHeight, FullHeight, Advance, Start;
    forall b | 0 <= b < n - 1 ensures bands[b].high == bands[b + 1].low {
      StartNext(b, adv);
      assert bands[b + 1] == BandAt(s, b + 1);
    }
  }

  /** Mirrored, the same ranges reflected: they descend from row disph to row 0, so they load the
      image exactly when its first row is row 0. */
  lemma MirroredBands(s: Sprite, bands: seq<Band>)
    requires s.mirrored && AreBands(s, bands)
    ensures bands[0].high == s.disph && bands[|bands| - 1].low == 0
    ensures forall b | 0 <= b < |bands| - 1 :: bands[b].low == bands[b + 1].high
    ensures (bands[|bands| - 1].low == s.s1 && bands[0].high == s.s1 + s.disph) <==> s.s1 == 0
  {
    var n, adv := |bands|, Advance(s);
    StartNext(n - 1, adv);
    StartNext(0, adv);
    hide BandHeight, FullHeight, Advance, Start;
    forall b | 0 <= b < n - 1 ensures bands[b].low == bands[b + 1].high {
      StartNext(b, adv);
      assert bands[b + 1] == BandAt(s, b + 1);
    }
  }

  function RowsLoaded(b: Band): int {
    b.high - b.low + 1
  }

  /** No band is higher than TMEM allows, exactly when two rows fit at all. */
  lemma BandsFit(s: Sprite)
    requires Split(s) && RowBytes(s) > 0
    ensures (forall b: nat | Start(b, Advance(s)) < s.disph :: RowsLoaded(BandAt(s, b)) <= MaxRows(s)) <==> MaxRows(s) >= 2
  {
    var adv := Advance(s);
    if MaxRows(s) >= 2 {
      assert adv == MaxRows(s) - 1;
      forall b: nat | Start(b, adv) < s.disph ensures RowsLoaded(BandAt(s, b)) <= MaxRows(s) {
        hide BandHeight, FullHeight, Advance, MaxRows;
      }
    } else {
      assert Start(0, adv) < s.disph;
      assert RowsLoaded(BandAt(s, 0)) == 2;
    }
  }

  lemma QuotientFits(total: nat, n: nat)
    requires 0 < n <= total
    ensures 1 <= total / n && total / n * n <= total
  {
    var q, r := total / n, total % n;
    assert total == n * q + r;
    assert q * n == n * q && (q == 0 ==> n * q == 0);
  }

  /** ... and then a band's bytes fit the low half of TMEM. */
  lemma BandBytesFit(s: Sprite, b: nat)
    requires Split(s) && 0 < RowBytes(s) && MaxRows(s) >= 2 && Start(b, Advance(s)) < s.disph
    ensures RowsLoaded(BandAt(s, b)) * RowBytes(s) <= LOW_TMEM
  {
    BandsFit(s);
    var rows: nat := RowsLoaded(BandAt(s, b));
    assert rows <= MaxRows(s) == LOW_TMEM / RowBytes(s);
    hide BandAt, RowsLoaded, MaxRows, Advance, Start, Split;
    var n := RowBytes(s);
    hide RowBytes;
    QuotientFits(LOW_TMEM, n);
    MulMono(n, rows, LOW_TMEM / n);
    assert n * rows == rows * n && n * (LOW_TMEM / n) == LOW_TMEM / n * n;
  }

  /** With one row of over 1 KB the overlap does not fit: a band of a 2048-byte row loads two. */
  lemma OverlapTooLarge()
    ensures var s := Sprite(2, 0x400, 0, 1, 2048, false);
            Split(s) && RowsLoaded(BandAt(s, 0)) * RowBytes(s) > LOW_TMEM
  {
    var s := Sprite(2, 0x400, 0, 1, 2048, false);
    assert MaxRows(s) == 1 && Advance(s) == 1;
    assert Start(0, Advance(s)) < s.disph;
  }

  /** One rectangle of a whole image fits if and only if its rows do one by one: a wider row is loaded
      all the same, with every other. */
  lemma OneBandFits(s: Sprite, yh: nat)
    requires !Split(s)
    ensures RowsLoaded(OneBand(s, yh)) * RowBytes(s) <= LOW_TMEM <==> s.disph == 0 || RowBytes(s) <= LOW_TMEM
  {
    var n, rows := RowBytes(s), MaxRows(s);
    assert RowsLoaded(OneBand(s, yh)) == s.disph;
    assert n > 0 && n <= LOW_TMEM ==> rows == LOW_TMEM / n;
    hide RowBytes, MaxRows, OneBand, RowsLoaded;
    if n == 0 || s.disph == 0 {
      assert s.disph * n == 0;
    } else if n <= LOW_TMEM {
      QuotientFits(LOW_TMEM, n);
      MulMono(n, s.disph, rows);
    } else {
      MulMono(n, 1, s.disph);
    }
  }

  /** Every load of a sprite fits the low half of TMEM if and only if two of its rows do, or the one
      row of an image that has no second. */
  lemma LoadsFit(s: Sprite, yh: nat)
    ensures var bytes := (s.width * (if s.siz == 0 then 4 else if s.siz == 1 then 8 else 16) + 7) / 8;
            (if Split(s) then forall b: nat | Start(b, Advance(s)) < s.disph :: RowsLoaded(BandAt(s, b)) * bytes <= 2048
             else RowsLoaded(OneBand(s, yh)) * bytes <= 2048)
            <==> Min(s.disph, 2) * bytes <= 2048
  {
    RowHoldsTexels(s);
    hide RowsLoaded, BandAt, OneBand, Start, Advance, RowBytes;
    if Split(s) {
      SplitFits(s);
      SplitWidth(s);
    } else {
      OneBandFits(s, yh);
      WholeWidth(s);
    }
  }

  /** Bands are no smaller than they must be: but for the last, another row would not fit. */
  lemma BandsFull(s: Sprite, b: nat)
    requires Split(s) && 2 * RowBytes(s) <= 2048 && Start(b, Advance(s)) + Advance(s) < s.disph
    ensures (RowsLoaded(BandAt(s, b)) + 1) * RowBytes(s) > 2048
  {
    SplitWidth(s);
    FloorDiv(2048, RowBytes(s));
    assert RowsLoaded(BandAt(s, b)) == MaxRows(s) by { hide RowBytes, MaxRows, FullHeight, BandHeight, Start; }
    hide RowBytes, BandAt, RowsLoaded, Advance, Start;
  }

  /** Of a split image at least two rows are asked for, and only rows that fit one by one are split. */
  lemma SplitWidth(s: Sprite)
    requires Split(s)
    ensures 0 < RowBytes(s) <= LOW_TMEM && s.disph >= 2 && (MaxRows(s) >= 2 <==> 2 * RowBytes(s) <= LOW_TMEM)
  {
    var n := RowBytes(s);
    hide RowBytes;
    QuotientFits(LOW_TMEM, n);
    if LOW_TMEM / n >= 2 { MulMono(n, 2, LOW_TMEM / n); }
  }

  lemma WholeWidth(s: Sprite)
    requires !Split(s)
    ensures s.disph == 0 || RowBytes(s) <= LOW_TMEM <==> Min(s.disph, 2) * RowBytes(s) <= LOW_TMEM
  {
    var n := RowBytes(s);
    hide RowBytes;
    if s.disph >= 2 && 0 < n <= LOW_TMEM {
      QuotientFits(LOW_TMEM, n);
      if LOW_TMEM / n >= 2 { MulMono(n, 2, LOW_TMEM / n); }
    }
  }

  lemma SplitFits(s: Sprite)
    requires Split(s)
    ensures (forall b: nat | Start(b, Advance(s)) < s.disph :: RowsLoaded(BandAt(s, b)) * RowBytes(s) <= LOW_TMEM) <==> MaxRows(s) >= 2
  {
    SplitWidth(s);
    if MaxRows(s) >= 2 {
      forall b: nat | Start(b, Advance(s)) < s.disph ensures RowsLoaded(BandAt(s, b)) * RowBytes(s) <= LOW_TMEM {
        BandBytesFit(s, b);
      }
    } else {
      assert Start(0, Advance(s)) < s.disph;
      assert RowsLoaded(BandAt(s, 0)) == 2;
    }
  }

  // ---------------------------------------------------------------- the T coordinate

  lemma FloorSum(b: nat, x: nat)
    ensures b * (x / 128) <= b * x / 128 && (b > 0 ==> b * x / 128 < b * (x / 128) + b)
  {
    var q, r := x / 128, x % 128;
    assert x == 128 * q + r;
    assert b * x == 128 * (b * q) + b * r by { assert b * (128 * q + r) == b * (128 * q) + b * r; assert b * (128 * q) == 128 * (b * q); }
    assert b * r <= b * 127 by { MulMono(b, r, 127); }
    assert b * r >= 0 by { MulMono(b, 0, r); }
  }

  lemma DriftArith(b: nat, x: nat, q: nat)
    requires x >= q * 128
    ensures var t := b * q + b * (x / 128 - q); t <= b * x / 128 && (b > 0 ==> b * x / 128 < t + b)
    ensures b * (x / 128 - q) >= 0
  {
    FloorSum(b, x);
    FloorAbove(x, q);
    assert b * (x / 128) == b * q + b * (x / 128 - q);
    MulMono(b, 0, x / 128 - q);
  }

  /** The accumulated T start of band b lags the true texture coordinate of its first screen row by
      less than b 32nds of a texel, and never runs ahead of it. */
  lemma TextureDrift(s: Sprite, b: nat)
    requires !s.mirrored && s.dtdy != 0 && Start(b, Advance(s)) < s.disph
    ensures var x := b * (BandHeight(s) * s.dtdy) / 128;   // s10.5 texels below the image's first row
            var t := b * (Advance(s) * 32) + BandAt(s, b).t;
            t <= x && (b > 0 ==> x < t + b) && BandAt(s, b).t >= 0
  {
    HeightCovers(s);
    hide BandHeight, Advance, FullHeight;
    DriftArith(b, BandHeight(s) * s.dtdy, Advance(s) * 32);
  }

  lemma CeilSum(b: nat, x: nat)
    ensures var down := b * ((x + 127) / 128); b * x <= down * 128 && (b > 0 ==> down * 128 < b * x + 128 * b)
  {
    var c := (x + 127) / 128;
    assert x <= c * 128 <= x + 127;
    MulMono(b, x, c * 128);
    MulMono(b, c * 128, x + 127);
    Assoc(b, c, 128);
    assert b * (x + 127) == b * x + b * 127;
  }

  /** Mirrored, the T start counts down from the far edge of the image; by band b it has gone at least
      as far as the true coordinate, and less than b 32nds of a texel further. */
  lemma MirroredDrift(s: Sprite, b: nat)
    requires s.mirrored && s.dtdy != 0 && Start(b, Advance(s)) < s.disph
    ensures var band := BandAt(s, b);
            var down, travel := (s.s1 + s.disph) * 32 - (band.low * 32 + band.t), b * (BandHeight(s) * s.dtdy);
            travel <= down * 128 && (b > 0 ==> down * 128 < travel + 128 * b)
  {
    hide BandHeight, Advance, FullHeight;
    CeilSum(b, BandHeight(s) * s.dtdy);
  }

  /** Image rows from the first down to the end of band b. */
  function RowsThrough(s: Sprite, b: nat): nat {
    if Start(b, Advance(s)) + Advance(s) < s.disph then Start(b, Advance(s)) + Advance(s) else s.disph
  }

  /** T a mirrored band steps down, in s10.5: its screen height at the sprite's step, rounded up. */
  function StepDown(s: Sprite): nat {
    (BandHeight(s) * s.dtdy + 127) / 128
  }

  /** A mirrored band's T start, which is packed unsigned, is negative exactly when the bands before it
      have stepped down past the rows it loads. */
  lemma MirroredStart(s: Sprite, b: nat)
    requires s.mirrored && Start(b, Advance(s)) < s.disph
    ensures BandAt(s, b).t == (s.s1 + RowsThrough(s, b)) * 32 - b * StepDown(s)
    ensures BandAt(s, b).t >= 0 <==> b * StepDown(s) <= (s.s1 + RowsThrough(s, b)) * 32
  {
    hide BandHeight, Advance, FullHeight, Start;
  }

  /** It never does where whole pixels of screen are whole rows of image. */
  lemma ExactStart(s: Sprite, b: nat)
    requires s.mirrored && Start(b, Advance(s)) < s.disph && BandHeight(s) * s.dtdy == Advance(s) * 4096
    ensures BandAt(s, b).t > 0
  {
    MirroredStart(s, b);
    assert StepDown(s) == Advance(s) * 32;
    Assoc(b, Advance(s), 32);
    hide BandHeight, Advance, FullHeight;
  }

  /** Elsewhere a band that is drawn can start below zero: rows of 1 KB at a step of 0x3ff. */
  lemma NegativeStart()
    ensures var s := Sprite(5, 0x3ff, 0, 1, 1024, true);
            && Split(s) && Start(2, Advance(s)) < s.disph && BandAt(s, 2).top < BandAt(s, 2).bottom && BandAt(s, 2).t == -32
  {
    var s := Sprite(5, 0x3ff, 0, 1, 1024, true);
    assert MaxRows(s) == 2 && Advance(s) == 1 && BandHeight(s) == 8 && FullHeight(s) == 20;
    assert StepDown(s) == 64;
    hide MaxRows, Advance, BandHeight, FullHeight, StepDown;
    assert Start(2, 1) == 2 && Start(2, 8) == 16 && Start(3, 8) == 24;
    MirroredStart(s, 2);
  }

  lemma FloorAbove(x: nat, q: nat)
    requires x >= q * 128
    ensures x / 128 >= q
  {
  }

  // ---------------------------------------------------------------- direct colour images

  datatype Strip = Strip(low: nat, high: nat, top: nat, bottom: nat)

  function StripStep(dtdy: nat): (d: nat)
    ensures d > 0
  {
    if dtdy == 0 then 0x400 else dtdy
  }

  /** The strip that starts at image row r0. */
  function StripAt(disph: nat, maxRows: nat, dtdy: nat, toff: nat, yh: nat, r0: nat): Strip
    requires r0 < disph && maxRows > 0
  {
    var h := if disph - r0 < maxRows then disph - r0 else maxRows;
    Strip(toff + r0, toff + r0 + h - 1, yh + r0 * 4096 / StripStep(dtdy), yh + (r0 + h) * 4096 / StripStep(dtdy))
  }

  /** Rows per strip; none when a row does not fit and there are no rows. */
  function StripRows(disph: nat, bytesPerRow: nat): nat {
    if bytesPerRow != 0 && bytesPerRow <= FULL_TMEM then FULL_TMEM / bytesPerRow else disph
  }

  /** The strip loop for fmt 0, of 16-bit texels. */
  method EmitStrips(disph: nat, width: nat, dtdy: nat, toff: nat, yh: nat) returns (strips: seq<Strip>)
    ensures var rows := StripRows(disph, 2 * width);
            if rows == 0 then strips == []
            else disph <= Start(|strips|, rows) && forall k | 0 <= k < |strips| ::
              Start(k, rows) < disph && strips[k] == StripAt(disph, rows, dtdy, toff, yh, Start(k, rows))
  {
    strips := [];
    var maxRows := StripRows(disph, width * 2);
    if maxRows == 0 { return; }
    hide StripRows, StripAt, Start;
    StartNext(0, maxRows);
    var r0 := 0;
    while r0 < disph
      invariant r0 == Start(|strips|, maxRows)
      invariant forall k | 0 <= k < |strips| ::
        Start(k, maxRows) < disph && strips[k] == StripAt(disph, maxRows, dtdy, toff, yh, Start(k, maxRows))
      decreases disph - r0
    {
      StartNext(|strips|, maxRows);
      strips := strips + [StripAt(disph, maxRows, dtdy, toff, yh, r0)];
      r0 := r0 + maxRows;
    }
  }

  /** A strip's bytes fit TMEM if and only if one row does: a wider row is loaded all the same, with
      the whole image in one strip. Where rows are left over, another would not have fitted. */
  lemma StripBytesFit(disph: nat, bytesPerRow: nat, dtdy: nat, toff: nat, yh: nat, r0: nat)
    requires r0 < disph
    ensures var rows := StripRows(disph, bytesPerRow);
            && rows > 0
            && (var strip := StripAt(disph, rows, dtdy, toff, yh, r0);
                && ((strip.high - strip.low + 1) * bytesPerRow <= 4096 <==> bytesPerRow <= 4096)
                && (strip.high - strip.low + 1 < disph - r0 ==> (strip.high - strip.low + 2) * bytesPerRow > 4096))
  {
    var rows := StripRows(disph, bytesPerRow);
    if 0 < bytesPerRow <= FULL_TMEM { QuotientFits(FULL_TMEM, bytesPerRow); FloorDiv(FULL_TMEM, bytesPerRow); }
    var strip := StripAt(disph, rows, dtdy, toff, yh, r0);
    var n: nat := strip.high - strip.low + 1;
    assert 1 <= n <= rows && (n < disph - r0 ==> n == rows < disph);
    hide StripRows, StripAt, StripStep;
    MulMono(bytesPerRow, 1, n);
    MulMono(bytesPerRow, n, rows);
    assert bytesPerRow * n == n * bytesPerRow && bytesPerRow * rows == rows * bytesPerRow;
  }

  lemma StripScreen(dtdy: nat, n: nat)
    ensures Covers(dtdy, n, n * 4096 / StripStep(dtdy))
  {
    FloorDiv(n * 4096, StripStep(dtdy));
  }

  lemma StripShown(disph: nat, maxRows: nat, dtdy: nat, toff: nat, yh: nat, r0: nat)
    requires r0 < disph && maxRows > 0
    ensures var strip := StripAt(disph, maxRows, dtdy, toff, yh, r0);
            strip.low >= toff && Covers(dtdy, strip.low - toff, strip.top - yh)
  {
    hide Covers, StripStep;
    StripScreen(dtdy, r0);
  }

  /** What StripsTile needs of each strip. */
  lemma StripFacts(disph: nat, maxRows: nat, dtdy: nat, toff: nat, yh: nat, r0: nat)
    requires r0 < disph && maxRows > 0
    ensures var strip := StripAt(disph, maxRows, dtdy, toff, yh, r0);
            && strip.low == toff + r0 && strip.low <= strip.high < strip.low + maxRows
            && (r0 + maxRows < disph ==>
                  var next := StripAt(disph, maxRows, dtdy, toff, yh, r0 + maxRows);
                  next.low == strip.high + 1 && next.top == strip.bottom)
            && (r0 + maxRows >= disph ==> strip.high == toff + disph - 1 && Covers(dtdy, disph, strip.bottom - yh))
            && (r0 == 0 ==> strip.top == yh)
  {
    hide Covers, StripStep;
    StripScreen(dtdy, disph);
    assert 0 * 4096 / StripStep(dtdy) == 0;
  }

  /** The strips partition the image's rows and abut on the screen, each where its first row is shown, and
      none has more rows than planned. */
  lemma StripsTile(disph: nat, bytesPerRow: nat, dtdy: nat, toff: nat, yh: nat, strips: seq<Strip>)
    requires disph > 0 && |strips| > 0
    requires var rows := StripRows(disph, bytesPerRow);
             && rows > 0 && disph <= Start(|strips|, rows)
             && forall k | 0 <= k < |strips| :: Start(k, rows) < disph && strips[k] == StripAt(disph, rows, dtdy, toff, yh, Start(k, rows))
    ensures strips[0].low == toff && strips[|strips| - 1].high == toff + disph - 1
    ensures strips[0].top == yh && Covers(dtdy, disph, strips[|strips| - 1].bottom - yh)
    ensures forall k | 0 <= k < |strips| :: strips[k].low >= toff && Covers(dtdy, strips[k].low - toff, strips[k].top - yh)
    ensures forall k | 0 <= k < |strips| - 1 :: strips[k + 1].low == strips[k].high + 1 && strips[k + 1].top == strips[k].bottom
    ensures forall k | 0 <= k < |strips| :: strips[k].low <= strips[k].high < strips[k].low + StripRows(disph, bytesPerRow)
  {
    hide StripRows, StripStep, StripAt, Start, Covers;
    var rows, n := StripRows(disph, bytesPerRow), |strips|;
    StartNext(n - 1, rows);
    StartNext(0, rows);
    StripFacts(disph, rows, dtdy, toff, yh, Start(0, rows));
    StripFacts(disph, rows, dtdy, toff, yh, Start(n - 1, rows));
    forall k | 0 <= k < n
      ensures strips[k].low >= toff && Covers(dtdy, strips[k].low - toff, strips[k].top - yh)
      ensures strips[k].low <= strips[k].high < strips[k].low + rows
    {
      StripFacts(disph, rows, dtdy, toff, yh, Start(k, rows));
      StripShown(disph, rows, dtdy, toff, yh, Start(k, rows));
    }
    forall k | 0 <= k < n - 1
      ensures strips[k + 1].low == strips[k].high + 1 && strips[k + 1].top == strips[k].bottom
    {
      StartNext(k, rows);
      StripFacts(disph, rows, dtdy, toff, yh, Start(k, rows));
      assert strips[k + 1] == StripAt(disph, rows, dtdy, toff, yh, Start(k + 1, rows));
    }
  }
}

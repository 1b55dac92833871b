/** The texture-load kernels of image_convert.h: copying bytes out of word-swapped memory into a
    buffer that wraps, and exchanging the halves of 64-bit lines in place.

    Indices are masked with size - 1, the size being a power of two; the model reduces modulo it. */
module ImageConvert {
  import opened Words

  type Byte = x: int | 0 <= x < 256

  /** index & mask. */
  function Wrap(i: nat, size: nat): (r: nat)
    requires size > 0
    ensures r < size
  {
    i % size
  }

  /** Byte address a of memory whose 32-bit words are stored reversed: a ^ 3. */
  function Unswap(a: nat): nat {
    a / 4 * 4 + 3 - a % 4
  }

  /** The end of the word that holds byte a - 1. */
  function WordEnd(a: nat): nat {
    (a + 3) / 4 * 4
  }

  lemma UnswapInside(a: nat)
    ensures Unswap(a) < WordEnd(a + 1) && a <= WordEnd(a) <= WordEnd(a + 1)
  {
  }

  predicate Aligned(a: nat) {
    a % 4 == 0
  }

  /** Bytes a .. a + count - 1 are in one word. */
  predicate InWord(a: nat, count: nat) {
    a % 4 + count <= 4
  }

  /** Within a word the host address goes down as the byte address goes up. */
  lemma UnswapDown(a: nat, count: nat, i: nat)
    requires InWord(a, count) && i < count
    ensures Unswap(a + i) == Unswap(a) - i
  {
  }

  lemma WordEndGrows(a: nat, b: nat)
    requires a <= b
    ensures WordEnd(a) <= WordEnd(b)
  {
  }

  // ---------------------------------------------------------------- wrapping indices

  lemma Apart(a: nat, i: nat, j: nat, size: nat)
    requires i < j < i + size
    ensures Wrap(a + i, size) != Wrap(a + j, size)
  {
    if (a + i) % size == (a + j) % size {
      var q, q' := (a + i) / size, (a + j) / size;
      assert a + i == size * q + (a + i) % size && a + j == size * q' + (a + i) % size;
      assert j - i == size * (q' - q) by { assert size * (q' - q) == size * q' - size * q; }
      if q' - q >= 1 { MulAtLeast(size, q' - q); } else { NotPositive(size, q' - q); }
    }
  }

  lemma NotPositive(a: nat, b: int)
    requires b <= 0
    ensures a * b <= 0
  {
  }

  lemma NextIndex(i: nat, size: nat)
    requires size > 0
    ensures Wrap(i + 1, size) == if Wrap(i, size) == size - 1 then 0 else Wrap(i, size) + 1
  {
    var q, r := i / size, i % size;
    assert i == size * q + r;
    if r == size - 1 {
      assert i + 1 == size * (q + 1) + 0;
      ModUnique(i + 1, size, q + 1, 0);
    } else {
      ModUnique(i + 1, size, q, r + 1);
    }
  }

  lemma SameParity(i: nat, size: nat)
    requires size > 0 && size % 2 == 0
    ensures Wrap(i, size) % 2 == i % 2
  {
    var q, r, h := i / size, i % size, size / 2;
    assert i == size * q + r && size == 2 * h;
    assert size * q == 2 * (h * q);
  }

  // ---------------------------------------------------------------- UnswapCopyWrap

  /** The simple form: byte by byte, n bytes. */
  function Copied(dest: seq<Byte>, src: seq<Byte>, srcIdx: nat, destIdx: nat, size: nat, n: nat): (r: seq<Byte>)
    requires 0 < size <= |dest| && WordEnd(srcIdx + n) <= |src|
    ensures |r| == |dest|
  {
    if n == 0 then dest
    else
      UnswapInside(srcIdx + n - 1);
      Copied(dest, src, srcIdx, destIdx, size, n - 1)[Wrap(destIdx + n - 1, size) := src[Unswap(srcIdx + n - 1)]]
  }

  /** Four bytes written last to first, as the dword loop does. */
  function FourBack(d: seq<Byte>, src: seq<Byte>, s: nat, destIdx: nat, size: nat): (r: seq<Byte>)
    requires 0 < size <= |d| && s + 4 <= |src|
    ensures |r| == |d|
  {
    d[Wrap(destIdx + 3, size) := src[s]][Wrap(destIdx + 2, size) := src[s + 1]]
     [Wrap(destIdx + 1, size) := src[s + 2]][Wrap(destIdx + 0, size) := src[s + 3]]
  }

  /** The same four bytes first to last. */
  function FourOn(d: seq<Byte>, src: seq<Byte>, s: nat, destIdx: nat, size: nat): (r: seq<Byte>)
    requires 0 < size <= |d| && s + 4 <= |src|
    ensures |r| == |d|
  {
    d[Wrap(destIdx + 0, size) := src[s + 3]][Wrap(destIdx + 1, size) := src[s + 2]]
     [Wrap(destIdx + 2, size) := src[s + 1]][Wrap(destIdx + 3, size) := src[s]]
  }

  lemma FourAgree(d: seq<Byte>, src: seq<Byte>, s: nat, destIdx: nat, size: nat)
    requires 4 <= size <= |d| && s + 4 <= |src|
    ensures FourBack(d, src, s, destIdx, size) == FourOn(d, src, s, destIdx, size)
  {
    hide Wrap;
    Apart(destIdx, 0, 1, size);
    Apart(destIdx, 0, 2, size);
    Apart(destIdx, 0, 3, size);
    Apart(destIdx, 1, 2, size);
    Apart(destIdx, 1, 3, size);
    Apart(destIdx, 2, 3, size);
  }

  /** Four more bytes of the simple form, starting at a word boundary. */
  lemma CopiedFour(dest: seq<Byte>, src: seq<Byte>, srcIdx: nat, destIdx: nat, size: nat, n: nat)
    requires 0 < size <= |dest| && Aligned(srcIdx + n) && srcIdx + n + 4 <= |src|
    ensures WordEnd(srcIdx + n) <= WordEnd(srcIdx + n + 4) <= |src|
    ensures Copied(dest, src, srcIdx, destIdx, size, n + 4)
         == FourOn(Copied(dest, src, srcIdx, destIdx, size, n), src, srcIdx + n, destIdx + n, size)
  {
    var s := srcIdx + n;
    assert Unswap(s) == s + 3 && Unswap(s + 1) == s + 2 && Unswap(s + 2) == s + 1 && Unswap(s + 3) == s;
    assert WordEnd(s) == s && WordEnd(s + 1) == WordEnd(s + 2) == WordEnd(s + 3) == WordEnd(s + 4) == s + 4;
    hide Wrap, Unswap, WordEnd;
    var c1 := Copied(dest, src, srcIdx, destIdx, size, n + 1);
    var c2 := Copied(dest, src, srcIdx, destIdx, size, n + 2);
    var c3 := Copied(dest, src, srcIdx, destIdx, size, n + 3);
    assert c1 == Copied(dest, src, srcIdx, destIdx, size, n)[Wrap(destIdx + n, size) := src[s + 3]];
    assert c2 == c1[Wrap(destIdx + n + 1, size) := src[s + 2]];
    assert c3 == c2[Wrap(destIdx + n + 2, size) := src[s + 1]];
  }

  // ---------------------------------------------------------------- the three phases

  /** The dword loop, n words. */
  function WordsBack(d: seq<Byte>, src: seq<Byte>, s: nat, destIdx: nat, size: nat, n: nat): (r: seq<Byte>)
    requires 0 < size <= |d| && s + 4 * n <= |src|
    ensures |r| == |d|
  {
    if n == 0 then d
    else FourBack(WordsBack(d, src, s, destIdx, size, n - 1), src, s + 4 * (n - 1), destIdx + 4 * (n - 1), size)
  }

  /** Bytes before the first word boundary. */
  function Leading(srcIdx: nat, numBytes: nat): (n: nat)
    ensures n <= numBytes && (numBytes > n ==> Aligned(srcIdx + n))
    ensures InWord(srcIdx, n)
  {
    if srcIdx % 4 == 0 then 0 else if 4 - srcIdx % 4 > numBytes then numBytes else 4 - srcIdx % 4
  }

  /** numDWords. */
  function DWords(srcIdx: nat, numBytes: nat): nat {
    (numBytes - Leading(srcIdx, numBytes)) / 4
  }

  function TrailingFrom(srcIdx: nat, numBytes: nat): (n: nat)
    ensures n == Leading(srcIdx, numBytes) + 4 * DWords(srcIdx, numBytes) && n <= numBytes < n + 4
    ensures DWords(srcIdx, numBytes) > 0 ==> Aligned(srcIdx + Leading(srcIdx, numBytes))
    ensures InWord(srcIdx + n, numBytes - n)
  {
    assert numBytes > Leading(srcIdx, numBytes) ==> Aligned(srcIdx + Leading(srcIdx, numBytes));
    Leading(srcIdx, numBytes) + 4 * DWords(srcIdx, numBytes)
  }

  /** The leading bytes, whole words, and the trailing bytes. */
  function Phased(dest: seq<Byte>, src: seq<Byte>, srcIdx: nat, destIdx: nat, size: nat, numBytes: nat): (r: seq<Byte>)
    requires 0 < size <= |dest| && WordEnd(srcIdx + numBytes) <= |src|
    ensures |r| == |dest|
  {
    var l, w, t := Leading(srcIdx, numBytes), DWords(srcIdx, numBytes), TrailingFrom(srcIdx, numBytes);
    WordEndGrows(srcIdx + l, srcIdx + numBytes);
    WordEndGrows(srcIdx + t, srcIdx + numBytes);
    WordEndAbove(srcIdx + t);
    Copied(WordsBack(Copied(dest, src, srcIdx, destIdx, size, l), src, srcIdx + l, destIdx + l, size, w),
           src, srcIdx + t, destIdx + t, size, numBytes - t)
  }

  lemma WordEndAbove(a: nat)
    ensures a <= WordEnd(a)
  {
  }

  /** The bytes left in one source word, one at a time, from host address `first` downwards. */
  method CopyWithinWord(src: array<Byte>, first: nat, dest: array<Byte>, destIdx: nat, size: nat, count: nat, ghost srcIdx: nat)
    requires src != dest && 0 < size <= dest.Length && WordEnd(srcIdx + count) <= src.Length
    requires first == Unswap(srcIdx) && InWord(srcIdx, count)
    modifies dest
    ensures dest[..] == Copied(old(dest[..]), src[..], srcIdx, destIdx, size, count)
  {
    hide Wrap, Unswap, WordEnd, InWord;
    WordEndGrows(srcIdx, srcIdx + count);
    var at: int := first;
    for i := 0 to count
      invariant at == first - i && WordEnd(srcIdx + i) <= src.Length
      invariant dest[..] == Copied(old(dest[..]), src[..], srcIdx, destIdx, size, i)
    {
      UnswapDown(srcIdx, count, i);
      WordEndGrows(srcIdx + i + 1, srcIdx + count);
      UnswapInside(srcIdx + i);
      dest[Wrap(destIdx + i, size)] := src[at];
      at := at - 1;
    }
  }

  /** The dword loop. */
  method CopyWords(src: array<Byte>, srcIdx: nat, dest: array<Byte>, destIdx: nat, size: nat, numDWords: nat)
    requires src != dest && 0 < size <= dest.Length && srcIdx + 4 * numDWords <= src.Length
    modifies dest
    ensures dest[..] == WordsBack(old(dest[..]), src[..], srcIdx, destIdx, size, numDWords)
  {
    hide Wrap, FourBack;
    var s, d := srcIdx, destIdx;
    for i := 0 to numDWords
      invariant s == srcIdx + 4 * i && d == destIdx + 4 * i
      invariant dest[..] == WordsBack(old(dest[..]), src[..], srcIdx, destIdx, size, i)
    {
      CopyWord(src, s, dest, d, size);
      s, d := s + 4, d + 4;
    }
  }

  /** The body of the dword loop. */
  method CopyWord(src: array<Byte>, s: nat, dest: array<Byte>, d: nat, size: nat)
    requires src != dest && 0 < size <= dest.Length && s + 4 <= src.Length
    modifies dest
    ensures dest[..] == FourBack(old(dest[..]), src[..], s, d, size)
  {
    hide Wrap;
    dest[Wrap(d + 3, size)] := src[s];
    dest[Wrap(d + 2, size)] := src[s + 1];
    dest[Wrap(d + 1, size)] := src[s + 2];
    dest[Wrap(d + 0, size)] := src[s + 3];
  }

  /** The copy is its three phases, and equals the byte-by-byte copy wherever those keep the order. */
  method UnswapCopyWrap(src: array<Byte>, srcIdx: nat, dest: array<Byte>, destIdx: nat, size: nat, numBytes: nat)
    requires src != dest && 0 < size <= dest.Length && WordEnd(srcIdx + numBytes) <= src.Length
    modifies dest
    ensures dest[..] == Phased(old(dest[..]), src[..], srcIdx, destIdx, size, numBytes)
    ensures KeepsOrder(srcIdx, size, numBytes) ==> dest[..] == Copied(old(dest[..]), src[..], srcIdx, destIdx, size, numBytes)
  {
    hide Wrap, Unswap, Copied, Leading, DWords, WordEnd, InWord, Aligned, WordsBack, KeepsOrder, TrailingFrom, Phased;
    ghost var before := dest[..];
    var leadingBytes := Leading(srcIdx, numBytes);
    var numDWords := DWords(srcIdx, numBytes);
    var done := TrailingFrom(srcIdx, numBytes);
    WordEndGrows(srcIdx + leadingBytes, srcIdx + numBytes);
    WordEndGrows(srcIdx + done, srcIdx + numBytes);
    WordEndAbove(srcIdx + done);
    CopyWithinWord(src, Unswap(srcIdx), dest, destIdx, size, leadingBytes, srcIdx);
    CopyWords(src, srcIdx + leadingBytes, dest, destIdx + leadingBytes, size, numDWords);
    CopyWithinWord(src, Unswap(srcIdx + done), dest, destIdx + done, size, numBytes - done, srcIdx + done);
    PhasedIs(before, src[..], srcIdx, destIdx, size, numBytes);
    if KeepsOrder(srcIdx, size, numBytes) { PhasedIsCopied(before, src[..], srcIdx, destIdx, size, numBytes); }
  }

  lemma PhasedIs(dest: seq<Byte>, src: seq<Byte>, srcIdx: nat, destIdx: nat, size: nat, numBytes: nat)
    requires 0 < size <= |dest| && WordEnd(srcIdx + numBytes) <= |src|
    ensures var l, w, t := Leading(srcIdx, numBytes), DWords(srcIdx, numBytes), TrailingFrom(srcIdx, numBytes);
            && WordEnd(srcIdx + l) <= |src| && WordEnd(srcIdx + t) <= |src| && srcIdx + t <= |src|
            && Phased(dest, src, srcIdx, destIdx, size, numBytes)
               == Copied(WordsBack(Copied(dest, src, srcIdx, destIdx, size, l), src, srcIdx + l, destIdx + l, size, w),
                         src, srcIdx + t, destIdx + t, size, numBytes - t)
  {
    hide Wrap, Unswap, Copied, Leading, DWords, WordEnd, InWord, Aligned, WordsBack, TrailingFrom;
    WordEndGrows(srcIdx + Leading(srcIdx, numBytes), srcIdx + numBytes);
    WordEndGrows(srcIdx + TrailingFrom(srcIdx, numBytes), srcIdx + numBytes);
    WordEndAbove(srcIdx + TrailingFrom(srcIdx, numBytes));
  }

  // ---------------------------------------------------------------- when that is the simple form

  /** Four bytes are apart, no word is copied, or the trailing bytes cover what the words left. */
  predicate KeepsOrder(srcIdx: nat, size: nat, numBytes: nat) {
    size >= 4 || DWords(srcIdx, numBytes) == 0 || numBytes - TrailingFrom(srcIdx, numBytes) >= size
  }

  lemma {:induction false} CopiedSplit(dest: seq<Byte>, src: seq<Byte>, srcIdx: nat, destIdx: nat, size: nat, m: nat, n: nat)
    requires 0 < size <= |dest| && WordEnd(srcIdx + m + n) <= |src| && WordEnd(srcIdx + m) <= |src|
    ensures Copied(dest, src, srcIdx, destIdx, size, m + n)
         == Copied(Copied(dest, src, srcIdx, destIdx, size, m), src, srcIdx + m, destIdx + m, size, n)
    decreases n
  {
    hide Wrap, Unswap, WordEnd;
    if n > 0 {
      UnswapInside(srcIdx + m + n - 1);
      CopiedSplit(dest, src, srcIdx, destIdx, size, m, n - 1);
    }
  }

  lemma {:induction false} WordsCopied(d: seq<Byte>, src: seq<Byte>, s: nat, destIdx: nat, size: nat, n: nat)
    requires 4 <= size <= |d| && s + 4 * n <= |src| && (n > 0 ==> Aligned(s)) && WordEnd(s + 4 * n) <= |src|
    ensures WordsBack(d, src, s, destIdx, size, n) == Copied(d, src, s, destIdx, size, 4 * n)
    decreases n
  {
    hide Wrap, Unswap, WordEnd, FourBack, FourOn, Aligned;
    if n > 0 {
      var m := 4 * (n - 1);
      WordEndGrows(s + m, s + 4 * n);
      AlignedFour(s, n - 1);
      WordsCopied(d, src, s, destIdx, size, n - 1);
      CopiedFour(d, src, s, destIdx, size, m);
      FourAgree(Copied(d, src, s, destIdx, size, m), src, s + m, destIdx + m, size);
    }
  }

  lemma AlignedFour(s: nat, n: nat)
    requires Aligned(s)
    ensures Aligned(s + 4 * n)
  {
  }

  /** The simple form in the same three parts. */
  lemma CopiedPhases(dest: seq<Byte>, src: seq<Byte>, srcIdx: nat, destIdx: nat, size: nat, numBytes: nat)
    requires 0 < size <= |dest| && WordEnd(srcIdx + numBytes) <= |src|
    ensures var l, t := Leading(srcIdx, numBytes), TrailingFrom(srcIdx, numBytes);
            && WordEnd(srcIdx + l) <= |src| && WordEnd(srcIdx + t) <= |src|
            && Copied(dest, src, srcIdx, destIdx, size, numBytes)
               == Copied(Copied(Copied(dest, src, srcIdx, destIdx, size, l), src, srcIdx + l, destIdx + l, size, t - l),
                         src, srcIdx + t, destIdx + t, size, numBytes - t)
  {
    var l, t := Leading(srcIdx, numBytes), TrailingFrom(srcIdx, numBytes);
    hide Wrap, Unswap, WordEnd, Copied, Leading, TrailingFrom;
    WordEndGrows(srcIdx + l, srcIdx + numBytes);
    WordEndGrows(srcIdx + t, srcIdx + numBytes);
    CopiedSplit(dest, src, srcIdx, destIdx, size, t, numBytes - t);
    CopiedSplit(dest, src, srcIdx, destIdx, size, l, t - l);
  }

  /** As many bytes as the buffer has leave nothing of what was there before. */
  lemma {:induction false} CopiedCovers(d: seq<Byte>, d': seq<Byte>, src: seq<Byte>, srcIdx: nat, destIdx: nat, size: nat, n: nat, x: nat)
    requires 0 < size <= |d| == |d'| && WordEnd(srcIdx + n) <= |src| && x < |d|
    requires d[x] == d'[x] || exists k: nat | k < n :: x == Lands(destIdx, k, size)
    ensures Copied(d, src, srcIdx, destIdx, size, n)[x] == Copied(d', src, srcIdx, destIdx, size, n)[x]
    decreases n
  {
    if n > 0 {
      UnswapInside(srcIdx + n - 1);
      if x != Lands(destIdx, n - 1, size) {
        hide Unswap, WordEnd;
        CopiedCovers(d, d', src, srcIdx, destIdx, size, n - 1, x);
      }
    }
  }

  /** Any `size` consecutive indices land on every cell. */
  lemma EveryCell(destIdx: nat, size: nat, n: nat, x: nat)
    requires 0 < size <= n && size < 4 && x < size
    ensures exists k: nat | k < n :: x == Lands(destIdx, k, size)
  {
    NextIndex(destIdx, size);
    NextIndex(destIdx + 1, size);
    hide Wrap;
    assert Lands(destIdx, 0, size) == Wrap(destIdx, size);
    if size > 1 { assert Lands(destIdx, 1, size) == Wrap(destIdx + 1, size); }
    if size > 2 { assert Lands(destIdx, 2, size) == Wrap(destIdx + 2, size); }
  }

  lemma {:induction false} WordsInside(d: seq<Byte>, src: seq<Byte>, s: nat, destIdx: nat, size: nat, n: nat, x: nat)
    requires 0 < size <= |d| && s + 4 * n <= |src| && size <= x < |d|
    ensures WordsBack(d, src, s, destIdx, size, n)[x] == d[x]
  {
    if n > 0 {
      hide Wrap;
      WordsInside(d, src, s, destIdx, size, n - 1, x);
    }
  }

  lemma PhasedIsCopied(dest: seq<Byte>, src: seq<Byte>, srcIdx: nat, destIdx: nat, size: nat, numBytes: nat)
    requires 0 < size <= |dest| && WordEnd(srcIdx + numBytes) <= |src| && KeepsOrder(srcIdx, size, numBytes)
    ensures Phased(dest, src, srcIdx, destIdx, size, numBytes) == Copied(dest, src, srcIdx, destIdx, size, numBytes)
  {
    hide Wrap, Unswap, WordEnd, Copied, Leading, TrailingFrom, DWords, Phased, WordsBack, Aligned, InWord;
    var l, w, t := Leading(srcIdx, numBytes), DWords(srcIdx, numBytes), TrailingFrom(srcIdx, numBytes);
    CopiedPhases(dest, src, srcIdx, destIdx, size, numBytes);
    PhasedIs(dest, src, srcIdx, destIdx, size, numBytes);
    var d := Copied(dest, src, srcIdx, destIdx, size, l);
    var d1, d2 := WordsBack(d, src, srcIdx + l, destIdx + l, size, w), Copied(d, src, srcIdx + l, destIdx + l, size, t - l);
    if size >= 4 {
      WordsCopied(d, src, srcIdx + l, destIdx + l, size, w);
    } else if w == 0 {
      NoneCopied(d, src, srcIdx + l, destIdx + l, size);
      NoWords(d, src, srcIdx + l, destIdx + l, size);
    } else {
      var r1, r2 := Copied(d1, src, srcIdx + t, destIdx + t, size, numBytes - t), Copied(d2, src, srcIdx + t, destIdx + t, size, numBytes - t);
      forall x | 0 <= x < |d| ensures r1[x] == r2[x] {
        SameAfter(d, d1, d2, src, srcIdx, destIdx, size, l, w, t, numBytes, x);
      }
    }
  }

  lemma NoWords(d: seq<Byte>, src: seq<Byte>, s: nat, destIdx: nat, size: nat)
    requires 0 < size <= |d| && s <= |src|
    ensures WordsBack(d, src, s, destIdx, size, 0) == d
  {
  }

  lemma SameAfter(d: seq<Byte>, d1: seq<Byte>, d2: seq<Byte>, src: seq<Byte>, srcIdx: nat, destIdx: nat, size: nat,
                  l: nat, w: nat, t: nat, numBytes: nat, x: nat)
    requires 0 < size <= |d| && size < 4 && t == l + 4 * w && t + size <= numBytes && x < |d|
    requires srcIdx + t <= |src| && WordEnd(srcIdx + t) <= |src| && WordEnd(srcIdx + numBytes) <= |src|
    requires d1 == WordsBack(d, src, srcIdx + l, destIdx + l, size, w) && d2 == Copied(d, src, srcIdx + l, destIdx + l, size, t - l)
    ensures Copied(d1, src, srcIdx + t, destIdx + t, size, numBytes - t)[x] == Copied(d2, src, srcIdx + t, destIdx + t, size, numBytes - t)[x]
  {
    hide Wrap, Unswap, WordEnd, Copied, WordsBack, Lands;
    if x < size {
      EveryCell(destIdx + t, size, numBytes - t, x);
    } else {
      WordsInside(d, src, srcIdx + l, destIdx + l, size, w, x);
      LandsInside(destIdx + l, size);
      CopiedElsewhere(d, src, srcIdx + l, destIdx + l, size, t - l, x);
    }
    CopiedCovers(d1, d2, src, srcIdx + t, destIdx + t, size, numBytes - t, x);
  }

  lemma LandsInside(destIdx: nat, size: nat)
    requires size > 0
    ensures forall k: nat :: Lands(destIdx, k, size) < size
  {
  }

  lemma NoneCopied(d: seq<Byte>, src: seq<Byte>, srcIdx: nat, destIdx: nat, size: nat)
    requires 0 < size <= |d| && WordEnd(srcIdx) <= |src|
    ensures Copied(d, src, srcIdx, destIdx, size, 0) == d
  {
  }

  lemma {:induction false} CopiedWrapped(dest: seq<Byte>, src: seq<Byte>, srcIdx: nat, destIdx: nat, size: nat, n: nat, k: nat)
    requires 0 < size <= |dest| && WordEnd(srcIdx + n) <= |src| && k < n <= size
    ensures Unswap(srcIdx + k) < |src|
    ensures Copied(dest, src, srcIdx, destIdx, size, n)[Wrap(destIdx + k, size)] == src[Unswap(srcIdx + k)]
  {
    hide Wrap, Unswap, WordEnd;
    UnswapInside(srcIdx + n - 1);
    UnswapInside(srcIdx + k);
    WordEndGrows(srcIdx + k + 1, srcIdx + n);
    if k < n - 1 {
      CopiedWrapped(dest, src, srcIdx, destIdx, size, n - 1, k);
      Apart(destIdx, k, n - 1, size);
    }
  }

  lemma ByteInWord(a: nat)
    ensures Unswap(a) == a - a % 4 + (3 - a % 4)
  {
  }

  /** What the copy means: while it does not lap itself, byte k is at its place. */
  lemma CopiedByte(dest: seq<Byte>, src: seq<Byte>, srcIdx: nat, destIdx: nat, size: nat, n: nat, k: nat)
    requires 0 < size <= |dest| && WordEnd(srcIdx + n) <= |src| && k < n <= size
    ensures var a := srcIdx + k; var x := a - a % 4 + (3 - a % 4);
            x < |src| && Copied(dest, src, srcIdx, destIdx, size, n)[(destIdx + k) % size] == src[x]
  {
    hide Unswap, WordEnd, Copied;
    ByteInWord(srcIdx + k);
    CopiedWrapped(dest, src, srcIdx, destIdx, size, n, k);
  }

  /** Where byte k of the copy lands. */
  function Lands(destIdx: nat, k: int, size: nat): nat
    requires size > 0 && 0 <= k
  {
    Wrap(destIdx + k, size)
  }

  /** ... and every other byte is as it was. */
  lemma {:induction false} CopiedElsewhere(dest: seq<Byte>, src: seq<Byte>, srcIdx: nat, destIdx: nat, size: nat, n: nat, x: nat)
    requires 0 < size <= |dest| && WordEnd(srcIdx + n) <= |src| && x < |dest|
    requires forall k | 0 <= k < n :: x != Lands(destIdx, k, size)
    ensures Copied(dest, src, srcIdx, destIdx, size, n)[x] == dest[x]
  {
    if n > 0 {
      UnswapInside(srcIdx + n - 1);
      assert x != Lands(destIdx, n - 1, size);
      hide Wrap, Unswap, WordEnd;
      CopiedElsewhere(dest, src, srcIdx, destIdx, size, n - 1, x);
    }
  }

  // ---------------------------------------------------------------- ... and only then

  /** Bytes that number their place in the word. */
  function Numbered(n: nat): (src: seq<Byte>)
    ensures |src| == n
  {
    seq(n, i => i % 4 + 1)
  }

  /** The cell that shows the order: the first of the last word, or the second where one trailing byte
      covers the first. */
  function Telling(size: nat, trailing: nat): nat {
    if size == 2 && trailing == 1 then 1 else 0
  }

  /** In a buffer of under four bytes the two orders leave different bytes there. */
  lemma OrdersDiffer(d: seq<Byte>, d': seq<Byte>, n: nat, s: nat, destIdx: nat, size: nat, trailing: nat)
    requires 0 < size < 4 && size <= |d| == |d'| && Aligned(s) && s + 4 <= n && trailing < size
    ensures var x := Lands(destIdx, Telling(size, trailing), size);
            FourBack(d, Numbered(n), s, destIdx, size)[x] != FourOn(d', Numbered(n), s, destIdx, size)[x]
  {
    var src := Numbered(n);
    assert src[s] == 1 && src[s + 1] == 2 && src[s + 2] == 3 && src[s + 3] == 4;
    NextIndex(destIdx, size);
    NextIndex(destIdx + 1, size);
    NextIndex(destIdx + 2, size);
    hide Wrap, Numbered;
  }

  /** The trailing bytes do not reach it. */
  lemma TellingKept(destIdx: nat, from: nat, size: nat, trailing: nat)
    requires 0 < size < 4 && trailing < size && from == destIdx + 4
    ensures var x := Lands(destIdx, Telling(size, trailing), size);
            forall k | 0 <= k < trailing :: x != Lands(from, k, size)
  {
    NextIndex(destIdx, size);
    NextIndex(destIdx + 1, size);
    NextIndex(destIdx + 2, size);
    NextIndex(destIdx + 3, size);
    NextIndex(destIdx + 4, size);
    hide Wrap;
    assert Lands(from, 0, size) == Wrap(destIdx + 4, size);
    assert Lands(from, 1, size) == Wrap(destIdx + 5, size);
    assert Lands(destIdx, 0, size) == Wrap(destIdx, size);
    assert Lands(destIdx, 1, size) == Wrap(destIdx + 1, size);
    assert trailing <= 2;
  }

  lemma LastWordDiffers(d: seq<Byte>, n: nat, s: nat, destIdx: nat, size: nat, w: nat, trailing: nat)
    requires 0 < size < 4 && size <= |d| && w > 0 && Aligned(s) && trailing < size
    requires WordEnd(s + 4 * w) <= n && s + 4 * w <= n
    ensures var x := Lands(destIdx + 4 * (w - 1), Telling(size, trailing), size);
            WordsBack(d, Numbered(n), s, destIdx, size, w)[x] != Copied(d, Numbered(n), s, destIdx, size, 4 * w)[x]
  {
    hide Wrap, Unswap, WordEnd, FourBack, FourOn, Numbered, Lands, Telling, Aligned;
    var src, m := Numbered(n), 4 * (w - 1);
    WordEndGrows(s + m, s + 4 * w);
    AlignedFour(s, w - 1);
    CopiedFour(d, src, s, destIdx, size, m);
    OrdersDiffer(WordsBack(d, src, s, destIdx, size, w - 1), Copied(d, src, s, destIdx, size, m), n, s + m, destIdx + m, size, trailing);
    LandsInside(destIdx + m, size);
    hide Copied;
  }

  lemma PhasedDiffers(dest: seq<Byte>, srcIdx: nat, destIdx: nat, size: nat, numBytes: nat)
    requires 0 < size <= |dest| && !KeepsOrder(srcIdx, size, numBytes)
    ensures var src := Numbered(WordEnd(srcIdx + numBytes));
            Phased(dest, src, srcIdx, destIdx, size, numBytes) != Copied(dest, src, srcIdx, destIdx, size, numBytes)
  {
    hide Wrap, Unswap, WordEnd, Copied, Leading, TrailingFrom, DWords, Lands, Telling, Numbered, WordsBack, Phased, Aligned, InWord;
    var n := WordEnd(srcIdx + numBytes);
    var src := Numbered(n);
    var l, w, t := Leading(srcIdx, numBytes), DWords(srcIdx, numBytes), TrailingFrom(srcIdx, numBytes);
    CopiedPhases(dest, src, srcIdx, destIdx, size, numBytes);
    PhasedIs(dest, src, srcIdx, destIdx, size, numBytes);
    var d := Copied(dest, src, srcIdx, destIdx, size, l);
    var d1, d2 := WordsBack(d, src, srcIdx + l, destIdx + l, size, w), Copied(d, src, srcIdx + l, destIdx + l, size, t - l);
    var at := destIdx + l + 4 * (w - 1);
    var x := Lands(at, Telling(size, numBytes - t), size);
    LastWordDiffers(d, n, srcIdx + l, destIdx + l, size, w, numBytes - t);
    TellingKept(at, destIdx + t, size, numBytes - t);
    LandsInside(at, size);
    CopiedElsewhere(d1, src, srcIdx + t, destIdx + t, size, numBytes - t, x);
    CopiedElsewhere(d2, src, srcIdx + t, destIdx + t, size, numBytes - t, x);
  }

  /** Exactly when the three phases copy like the simple form, whatever the buffers hold; they do in any
      buffer of at least as many bytes as are copied. */
  lemma CopyExact(srcIdx: nat, destIdx: nat, size: nat, numBytes: nat)
    requires size > 0
    ensures KeepsOrder(srcIdx, size, numBytes) <==>
      forall dest: seq<Byte>, src: seq<Byte> | size <= |dest| && WordEnd(srcIdx + numBytes) <= |src| ::
        Phased(dest, src, srcIdx, destIdx, size, numBytes) == Copied(dest, src, srcIdx, destIdx, size, numBytes)
    ensures size >= numBytes ==> KeepsOrder(srcIdx, size, numBytes)
  {
    assert size >= numBytes ==> KeepsOrder(srcIdx, size, numBytes);
    hide Phased, Copied, WordEnd, KeepsOrder;
    if KeepsOrder(srcIdx, size, numBytes) {
      forall dest: seq<Byte>, src: seq<Byte> | size <= |dest| && WordEnd(srcIdx + numBytes) <= |src|
        ensures Phased(dest, src, srcIdx, destIdx, size, numBytes) == Copied(dest, src, srcIdx, destIdx, size, numBytes)
      {
        PhasedIsCopied(dest, src, srcIdx, destIdx, size, numBytes);
      }
    } else {
      var dest: seq<Byte> := seq(size, _ => 0);
      PhasedDiffers(dest, srcIdx, destIdx, size, numBytes);
    }
  }

  // ---------------------------------------------------------------- DWordInterleaveWrap

  function Swapped<T>(s: seq<T>, a: nat, b: nat): (r: seq<T>)
    requires a < |s| && b < |s|
    ensures |r| == |s|
  {
    s[a := s[b]][b := s[a]]
  }

  function Pair<T>(s: seq<T>, idx: nat, size: nat): (r: seq<T>)
    requires 0 < size <= |s|
    ensures |r| == |s|
  {
    Swapped(s, Wrap(idx, size), Wrap(idx + 1, size))
  }

  /** n 64-bit lines from idx, their halves exchanged. */
  function Interleaved<T>(s: seq<T>, idx: nat, size: nat, n: nat): (r: seq<T>)
    requires 0 < size <= |s|
    ensures |r| == |s|
  {
    if n == 0 then s else Pair(Interleaved(s, idx, size, n - 1), idx + 2 * (n - 1), size)
  }

  method DWordInterleaveWrap<T>(src: array<T>, srcIdx: nat, size: nat, numQWords: nat)
    requires 0 < size <= src.Length
    modifies src
    ensures src[..] == Interleaved(old(src[..]), srcIdx, size, numQWords)
  {
    hide Wrap;
    var idx := srcIdx;
    for done := 0 to numQWords
      invariant idx == srcIdx + 2 * done
      invariant src[..] == Interleaved(old(src[..]), srcIdx, size, done)
    {
      var tmp := src[Wrap(idx, size)];
      src[Wrap(idx, size)] := src[Wrap(idx + 1, size)];
      idx := idx + 1;
      src[Wrap(idx, size)] := tmp;
      idx := idx + 1;
    }
  }

  /** The other element of a line. */
  function Partner(j: nat): nat {
    if j % 2 == 0 then j + 1 else j - 1
  }

  lemma LandsApart(idx: nat, i: nat, j: nat, size: nat)
    requires i < j < i + size
    ensures Lands(idx, i, size) != Lands(idx, j, size)
  {
    hide Wrap;
    Apart(idx, i, j, size);
  }

  /** The last line exchanged. */
  lemma LastPair<T>(s: seq<T>, idx: nat, size: nat, n: nat)
    requires 1 < size <= |s| && n > 0
    ensures forall k: nat :: Lands(idx, k, size) < |s|
    ensures var t, u := Interleaved(s, idx, size, n - 1), Interleaved(s, idx, size, n);
            var a, b := Lands(idx, 2 * (n - 1), size), Lands(idx, 2 * (n - 1) + 1, size);
            && u[a] == t[b] && u[b] == t[a]
            && forall x | 0 <= x < |s| && x != a && x != b :: u[x] == t[x]
  {
    var last := 2 * (n - 1);
    Apart(idx, last, last + 1, size);
    assert idx + last + 1 == idx + (last + 1);
    LandsInside(idx, size);
    hide Wrap;
  }

  lemma {:induction false} InterleavedLands<T>(s: seq<T>, idx: nat, size: nat, n: nat, j: nat)
    requires 0 < size <= |s| && j < 2 * n <= size
    ensures Interleaved(s, idx, size, n)[Lands(idx, j, size)] == s[Lands(idx, Partner(j), size)]
  {
    hide Wrap, Pair, Lands, Interleaved;
    var last := 2 * (n - 1);
    LandsInside(idx, size);
    LastPair(s, idx, size, n);
    if j < last {
      LandsApart(idx, j, last, size);
      LandsApart(idx, j, last + 1, size);
      InterleavedLands(s, idx, size, n - 1, j);
    } else {
      forall i | 0 <= i < last ensures Lands(idx, i, size) != Lands(idx, last, size) && Lands(idx, i, size) != Lands(idx, last + 1, size) {
        LandsApart(idx, i, last, size);
        LandsApart(idx, i, last + 1, size);
      }
      InterleavedElsewhere(s, idx, size, n - 1, Lands(idx, last, size));
      InterleavedElsewhere(s, idx, size, n - 1, Lands(idx, last + 1, size));
    }
  }

  /** While the lines do not lap the buffer, each of their elements changes places with the other one of
      its line ... */
  lemma InterleavedAt<T>(s: seq<T>, idx: nat, size: nat, n: nat, j: nat)
    requires 0 < size <= |s| && j < 2 * n <= size
    ensures Interleaved(s, idx, size, n)[(idx + j) % size] == s[(idx + (if j % 2 == 0 then j + 1 else j - 1)) % size]
  {
    hide Interleaved;
    InterleavedLands(s, idx, size, n, j);
  }

  /** ... and nothing else moves. */
  lemma {:induction false} InterleavedElsewhere<T>(s: seq<T>, idx: nat, size: nat, n: nat, x: nat)
    requires 0 < size <= |s| && x < |s|
    requires forall j | 0 <= j < 2 * n :: Lands(idx, j, size) != x
    ensures Interleaved(s, idx, size, n)[x] == s[x]
  {
    hide Wrap;
    if n > 0 {
      var last := 2 * (n - 1);
      assert Lands(idx, last, size) != x && Lands(idx, last + 1, size) != x;
      assert Lands(idx, last, size) == Wrap(idx + last, size) && Lands(idx, last + 1, size) == Wrap(idx + last + 1, size);
      InterleavedElsewhere(s, idx, size, n - 1, x);
    }
  }

  lemma PairTwice<T>(s: seq<T>, i: nat, size: nat)
    requires 0 < size <= |s|
    ensures Pair(Pair(s, i, size), i, size) == s
  {
    hide Wrap;
  }

  lemma SwapsCommute<T>(s: seq<T>, a: nat, a': nat, b: nat, b': nat)
    requires a < |s| && a' < |s| && b < |s| && b' < |s|
    requires (a == b && a' == b') || (a != b && a != b' && a' != b && a' != b') || (a == a' == b == b')
    ensures Swapped(Swapped(s, a, a'), b, b') == Swapped(Swapped(s, b, b'), a, a')
  {
  }

  /** The next index of a buffer. */
  function NextTo(a: nat, size: nat): nat {
    if a + 1 == size then 0 else a + 1
  }

  lemma PairsApart(a: nat, b: nat, size: nat)
    requires a < size && b < size && size % 2 == 0 && a % 2 == b % 2 && a != b
    ensures a != NextTo(b, size) && NextTo(a, size) != b && NextTo(a, size) != NextTo(b, size)
    ensures NextTo(a, size) < size && NextTo(b, size) < size
  {
  }

  /** Lines an even distance apart are the same line or disjoint, so their exchanges commute. */
  lemma PairsCommute<T>(s: seq<T>, i: nat, j: nat, size: nat)
    requires 0 < size <= |s| && (size == 1 || size % 2 == 0) && i % 2 == j % 2
    ensures Pair(Pair(s, i, size), j, size) == Pair(Pair(s, j, size), i, size)
  {
    NextIndex(i, size);
    NextIndex(j, size);
    if size > 1 {
      SameParity(i, size);
      SameParity(j, size);
      hide Wrap;
      if Wrap(i, size) != Wrap(j, size) { PairsApart(Wrap(i, size), Wrap(j, size), size); }
      SwapsCommute(s, Wrap(i, size), Wrap(i + 1, size), Wrap(j, size), Wrap(j + 1, size));
    } else {
      hide Wrap;
      SwapsCommute(s, Wrap(i, size), Wrap(i + 1, size), Wrap(j, size), Wrap(j + 1, size));
    }
  }

  lemma {:induction false} PairThenAll<T>(s: seq<T>, i: nat, idx: nat, size: nat, n: nat)
    requires 0 < size <= |s| && (size == 1 || size % 2 == 0) && i % 2 == idx % 2
    ensures Interleaved(Pair(s, i, size), idx, size, n) == Pair(Interleaved(s, idx, size, n), i, size)
  {
    if n > 0 {
      hide Pair;
      SameLine(idx, n - 1);
      PairThenAll(s, i, idx, size, n - 1);
      PairsCommute(Interleaved(s, idx, size, n - 1), i, idx + 2 * (n - 1), size);
    }
  }

  lemma SameLine(idx: nat, n: nat)
    ensures (idx + 2 * n) % 2 == idx % 2
  {
  }

  /** Done twice it is undone, for every count, even where the lines wrap onto themselves. */
  lemma {:induction false} InterleaveTwice<T>(s: seq<T>, idx: nat, size: nat, n: nat)
    requires 0 < size <= |s| && (size == 1 || size % 2 == 0)
    ensures Interleaved(Interleaved(s, idx, size, n), idx, size, n) == s
  {
    if n > 0 {
      var t, i := Interleaved(s, idx, size, n - 1), idx + 2 * (n - 1);
      hide Pair;
      SameLine(idx, n - 1);
      PairThenAll(t, i, idx, size, n - 1);
      InterleaveTwice(s, idx, size, n - 1);
      PairTwice(s, i, size);
    }
  }
}

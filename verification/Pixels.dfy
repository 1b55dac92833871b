/** What the hazard barrier sees of an image: its pixels, from the bits of the command that sets it. */
module Pixels {
  import opened Words
  import opened RdpCommands

  /** SET_COLOR_IMAGE with pixels of 8, 16 or 32 bits. */
  predicate SetsPixels(c: Command) {
    |c| == 2 && c[0] / 0x100_0000 % 64 == 0x3f && c[0] / 0x8_0000 % 4 != 0
  }

  /** Byte b belongs to pixel x of row y; an image counts as 240 rows high. */
  predicate InPixel(c: Command, x: nat, y: nat, b: nat)
    requires SetsPixels(c)
  {
    var size := c[0] / 0x8_0000 % 4;
    PixelAt(c[1] % 0x100_0000, c[0] % 0x400 + 1, if size == 1 then 1 else if size == 2 then 2 else 4, x, y, b)
  }

  predicate PixelAt(addr: nat, width: nat, bytes: nat, x: nat, y: nat, b: nat) {
    x < width && y < 240 && addr + (y * width + x) * bytes <= b < addr + (y * width + x + 1) * bytes
  }

  lemma PixelCommand(prev: Images, c: Command)
    requires SetsPixels(c)
    ensures Whole(c) && IsImage(c) && IdOf(c[0]) == CMD_ID_SET_COLOR_IMAGE
    ensures var bytes := (if c[0] / 0x8_0000 % 4 == 1 then 1 else if c[0] / 0x8_0000 % 4 == 2 then 2 else 4);
            ImageOf(prev, c) == Image(c[1] % 0x100_0000, (c[0] % 0x400 + 1) * 240 * bytes)
  {
  }

  lemma PixelNumber(width: nat, x: nat, y: nat)
    requires x < width && y < 240
    ensures 0 <= y * width + x + 1 <= width * 240
    ensures 239 * width + (width - 1) + 1 == width * 240
  {
    assert y * width + (240 - y) * width == 240 * width;
    assert (240 - y) * width >= width by { assert (239 - y) * width >= 0; assert (240 - y) * width == (239 - y) * width + width; }
    assert y * width >= 0;
  }

  lemma Scaled(a: nat, b: nat, n: nat)
    requires a <= b && n > 0
    ensures a * n <= b * n
  {
    assert b * n == a * n + (b - a) * n;
    assert (b - a) * n >= 0;
  }

  lemma PixelInside(addr: nat, width: nat, bytes: nat, x: nat, y: nat, b: nat)
    requires PixelAt(addr, width, bytes, x, y, b) && bytes > 0
    ensures addr <= b < addr + width * 240 * bytes
  {
    PixelNumber(width, x, y);
    Scaled(y * width + x + 1, width * 240, bytes);
    Scaled(0, y * width + x, bytes);
  }

  lemma LastPixel(addr: nat, width: nat, bytes: nat)
    requires width > 0 && bytes > 0
    ensures var end := addr + width * 240 * bytes;
            end >= 1 && PixelAt(addr, width, bytes, width - 1, 239, end - 1) && !PixelAt(addr, width, bytes, width - 1, 239, end)
  {
    PixelNumber(width, width - 1, 239);
    var n := 239 * width + (width - 1);
    assert (n + 1) * bytes == n * bytes + bytes;
    Scaled(0, n, bytes);
  }

  /** Every byte of every pixel lies in the estimated extent, and the last one ends it. */
  lemma PixelsFillExtent(prev: Images, c: Command, x: nat, y: nat, b: nat)
    requires SetsPixels(c) && InPixel(c, x, y, b)
    ensures Whole(c) && var i := ImageOf(prev, c);
            && i.addr <= b < i.addr + i.extent
            && InPixel(c, c[0] % 0x400, 239, i.addr + i.extent - 1) && !InPixel(c, c[0] % 0x400, 239, i.addr + i.extent)
  {
    hide ImageOf, Whole, IsImage, PixelAt;
    PixelCommand(prev, c);
    var width, size := c[0] % 0x400 + 1, c[0] / 0x8_0000 % 4;
    var bytes := if size == 1 then 1 else if size == 2 then 2 else 4;
    PixelInside(c[1] % 0x100_0000, width, bytes, x, y, b);
    LastPixel(c[1] % 0x100_0000, width, bytes);
  }

  /** Of 4-bit pixels half a byte each is counted, a row rounded down. */
  lemma NibbleExtent(prev: Images, c: Command)
    requires |c| == 2 && c[0] / 0x100_0000 % 64 == 0x3f && c[0] / 0x8_0000 % 4 == 0
    ensures Whole(c) && ImageOf(prev, c).extent == 240 * ((c[0] % 0x400 + 1) / 2)
  {
  }

  /** A depth image is taken to be as large as the last colour image, or 320 by 240 of 16 bits. */
  lemma DepthExtent(prev: Images, c: Command)
    requires |c| == 2 && c[0] / 0x100_0000 % 64 == 0x3e
    ensures Whole(c) && IsImage(c) && IdOf(c[0]) == CMD_ID_SET_MASK_IMAGE
    ensures ImageOf(prev, c).addr == c[1] % 0x100_0000
    ensures ImageOf(prev, c).extent == if prev.color.Some? then prev.color.value.extent else 2 * 320 * 240
  {
  }

  lemma ExtentsMeet(a: Image, i: Image, b: nat)
    requires a.addr <= b < a.addr + a.extent && i.addr <= b < i.addr + i.extent
    ensures Clashes(Some(a), i) <==> i != a
  {
  }

  /** A colour image that shares a byte of a pixel with the one set before it is a hazard exactly where
      its address or its extent is another. */
  lemma SharedPixels(before: Images, a: Command, c: Command, x: nat, y: nat, x': nat, y': nat, b: nat)
    requires SetsPixels(a) && SetsPixels(c) && InPixel(a, x, y, b) && InPixel(c, x', y', b)
    ensures Whole(a) && Whole(c)
    ensures var prev := Remember(before, a);
            && (Clashes(prev.color, ImageOf(prev, c)) <==> ImageOf(prev, c) != ImageOf(before, a))
            && (ImageOf(prev, c) != ImageOf(before, a) ==> Hazard(prev, c))
  {
    PixelCommand(before, a);
    var prev := Remember(before, a);
    PixelCommand(prev, c);
    PixelsFillExtent(before, a, x, y, b);
    PixelsFillExtent(prev, c, x', y', b);
    hide SetsPixels, InPixel, ImageOf, IdOf, LengthOf, Clashes;
    ExtentsMeet(ImageOf(before, a), ImageOf(prev, c), b);
  }

  /** So a change of pixel layout alone goes unseen: 320 pixels of 16 bits, then 640 of 8 at one address. */
  lemma LayoutMissed(addr: Word)
    requires addr < 0x100_0000
    ensures var a, c := [0x3f10_013f, addr], [0x3f08_027f, addr];
            && SetsPixels(a) && SetsPixels(c) && Whole(a) && Whole(c)
            && InPixel(a, 0, 1, addr + 640) && InPixel(c, 0, 1, addr + 640) && InPixel(a, 1, 0, addr + 2) && InPixel(c, 2, 0, addr + 2)
            && !Hazard(Remember(Images(None, None), a), c)
  {
    var a, c := [0x3f10_013f, addr], [0x3f08_027f, addr];
    PixelCommand(Images(None, None), a);
    PixelCommand(Remember(Images(None, None), a), c);
  }
}

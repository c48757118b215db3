/** Thumbnail geometry (art/art.go): the whole-block reduction, the orientation maps and the
    size a picture ends at. */
module Geometry {
  import opened Common

  type Word = n: nat | n < 0x1_0000

  datatype Channel = Red | Green | Blue | Alpha

  /** A colour as it is read, sixteen bits a channel, and as an RGBA buffer stores it, eight. */
  datatype Pixel = Pixel(r: Word, g: Word, b: Word, a: Word)
  datatype Bytes = Bytes(r: Byte, g: Byte, b: Byte, a: Byte)

  /** A picture as its callers see it: bounds that need not start at the origin, and a colour at
      each point. */
  datatype Picture = Picture(minX: int, minY: int, w: nat, h: nat, at: (int, int) -> Pixel)

  function Level(p: Pixel, c: Channel): Word {
    match c
    case Red => p.r
    case Green => p.g
    case Blue => p.b
    case Alpha => p.a
  }

  function Stored(p: Pixel): Bytes {
    Bytes(p.r / 256, p.g / 256, p.b / 256, p.a / 256)
  }

  function Loaded(q: Bytes): Pixel {
    Pixel(257 * q.r, 257 * q.g, 257 * q.b, 257 * q.a)
  }

  // ---------------------------------------------------------------------------
  // The reduction factor
  // ---------------------------------------------------------------------------

  function Max(a: int, b: int): int { if a < b then b else a }
  function Min(a: int, b: int): int { if a < b then a else b }

  /** How many blocks of k cover n. */
  function Blocks(n: nat, k: nat): nat
    requires k > 0
  {
    (n + k - 1) / k
  }

  function ReduceFactor(long: nat, maxDim: nat): nat
    requires maxDim > 0
  {
    if long <= 2 * maxDim then 1 else Blocks(long, 2 * maxDim)
  }

  lemma ProductGrows(a: int, b: int, k: nat)
    requires a <= b
    ensures a * k <= b * k
  {}

  lemma ProductOrders(a: int, b: int, k: nat)
    requires k > 0 && a * k < b * k
    ensures a < b
  {
    if b <= a {
      ProductGrows(b, a, k);
    }
  }

  /** The count of blocks is the least whose blocks reach n. */
  lemma BlocksReach(n: nat, k: nat)
    requires k > 0
    ensures (Blocks(n, k) - 1) * k < n <= Blocks(n, k) * k
  {
    var b := Blocks(n, k);
    assert n + k - 1 == b * k + (n + k - 1) % k;
    assert (b - 1) * k == b * k - k;
  }

  lemma QuotientIs(n: nat, k: nat, q: int)
    requires k > 0 && q * k <= n < (q + 1) * k
    ensures n / k == q
  {
    var r := n / k;
    assert n == r * k + n % k;
    assert (r + 1) * k == r * k + k;
    ProductOrders(r, q + 1, k);
    ProductOrders(q, r + 1, k);
  }

  lemma BlocksGrow(m: nat, n: nat, k: nat)
    requires k > 0 && m <= n
    ensures Blocks(m, k) <= Blocks(n, k)
  {
    hide Blocks;
    BlocksReach(m, k);
    BlocksReach(n, k);
    ProductOrders(Blocks(m, k) - 1, Blocks(n, k), k);
  }

  /** A source over two boxes reduces to a longest side above one box and at most two; any other
      is left alone. */
  lemma ReducedSide(w: nat, h: nat, maxDim: nat)
    requires maxDim > 0
    ensures var k := ReduceFactor(Max(w, h), maxDim);
            && k >= 1
            && (k > 1 <==> Max(w, h) > 2 * maxDim)
            && var long := Max(Blocks(w, k), Blocks(h, k));
            if k > 1 then maxDim < long <= 2 * maxDim else long == Max(w, h)
  {
    var n := Max(w, h);
    if n > 2 * maxDim {
      LongSide(n, maxDim);
      var k := ReduceFactor(n, maxDim);
      BlocksGrow(Min(w, h), n, k);
    }
  }

  lemma LongSide(n: nat, maxDim: nat)
    requires 0 < 2 * maxDim < n
    ensures var k := ReduceFactor(n, maxDim); k > 1 && maxDim < Blocks(n, k) <= 2 * maxDim
  {
    hide Blocks;
    var k := Blocks(n, 2 * maxDim);
    BlocksReach(n, 2 * maxDim);
    ProductOrders(1, k, 2 * maxDim);
    var long := Blocks(n, k);
    BlocksReach(n, k);
    assert k * (2 * maxDim) == (2 * maxDim) * k;
    ProductOrders(long - 1, 2 * maxDim, k);
    ProductGrows(k, 2 * (k - 1), maxDim);
    assert (2 * (k - 1)) * maxDim == (k - 1) * (2 * maxDim);
    assert k * maxDim == maxDim * k;
    ProductOrders(maxDim, long, k);
  }

  // ---------------------------------------------------------------------------
  // The blocks
  // ---------------------------------------------------------------------------

  /** Where block i ends along a side of n: its own k, or what remains. */
  function Edge(i: nat, k: nat, n: nat): nat {
    Min(i * k, n)
  }

  /** Along a side, block i holds the points from its start to its edge. */
  predicate InBlock(s: int, i: nat, k: nat, n: nat) {
    i * k <= s < Edge(i + 1, k, n)
  }

  /** Along a side of n each point lies in the block of its quotient and in no other. */
  lemma BlocksTile(n: nat, k: nat, s: nat)
    requires k > 0 && s < n
    ensures s / k < Blocks(n, k)
    ensures forall i: nat :: InBlock(s, i, k, n) <==> i == s / k
  {
    hide Blocks;
    var q := s / k;
    assert s == q * k + s % k;
    assert (q + 1) * k == q * k + k;
    BlocksReach(n, k);
    ProductOrders(q, Blocks(n, k), k);
    forall i: nat ensures InBlock(s, i, k, n) <==> i == s / k {
      if InBlock(s, i, k, n) {
        QuotientIs(s, k, i);
      }
    }
  }

  lemma BlockFilled(n: nat, k: nat, i: nat)
    requires k > 0 && i < Blocks(n, k)
    ensures i * k == Edge(i, k, n) < Edge(i + 1, k, n)
  {
    hide Blocks;
    BlocksReach(n, k);
    ProductGrows(i, Blocks(n, k) - 1, k);
    assert (i + 1) * k == i * k + k;
  }

  /** Every pixel is in exactly one block, that block is one of the reduced picture's, and no
      block of the reduced picture is empty. */
  lemma EveryPixelOnce(w: nat, h: nat, k: nat, sx: nat, sy: nat)
    requires k > 0 && sx < w && sy < h
    ensures sx / k < Blocks(w, k) && sy / k < Blocks(h, k)
    ensures forall x: nat, y: nat :: InBlock(sx, x, k, w) && InBlock(sy, y, k, h) <==> x == sx / k && y == sy / k
    ensures forall x: nat :: x < Blocks(w, k) ==> InBlock(x * k, x, k, w)
    ensures forall y: nat :: y < Blocks(h, k) ==> InBlock(y * k, y, k, h)
  {
    hide Blocks;
    BlocksTile(w, k, sx);
    BlocksTile(h, k, sy);
    forall x: nat | x < Blocks(w, k) ensures InBlock(x * k, x, k, w) { BlockFilled(w, k, x); }
    forall y: nat | y < Blocks(h, k) ensures InBlock(y * k, y, k, h) { BlockFilled(h, k, y); }
  }

  /** A picture's levels of one channel, counted from its corner. */
  ghost function Levels(img: Picture, c: Channel): (int, int) -> int {
    (x, y) => Level(img.at(img.minX + x, img.minY + y), c)
  }

  ghost function RowSum(f: (int, int) -> int, y: int, x0: int, x1: int): int
    decreases x1 - x0
  {
    if x1 <= x0 then 0 else RowSum(f, y, x0, x1 - 1) + f(x1 - 1, y)
  }

  ghost function RectSum(f: (int, int) -> int, x0: int, x1: int, y0: int, y1: int): int
    decreases y1 - y0
  {
    if y1 <= y0 then 0 else RectSum(f, x0, x1, y0, y1 - 1) + RowSum(f, y1 - 1, x0, x1)
  }

  lemma {:induction false} RowSplits(f: (int, int) -> int, y: int, x0: int, x1: int, x2: int)
    requires x0 <= x1 <= x2
    ensures RowSum(f, y, x0, x2) == RowSum(f, y, x0, x1) + RowSum(f, y, x1, x2)
    decreases x2 - x1
  {
    if x1 < x2 {
      RowSplits(f, y, x0, x1, x2 - 1);
    }
  }

  lemma {:induction false} RectSplitsAcross(f: (int, int) -> int, x0: int, x1: int, x2: int, y0: int, y1: int)
    requires x0 <= x1 <= x2
    ensures RectSum(f, x0, x2, y0, y1) == RectSum(f, x0, x1, y0, y1) + RectSum(f, x1, x2, y0, y1)
    decreases y1 - y0
  {
    if y0 < y1 {
      RectSplitsAcross(f, x0, x1, x2, y0, y1 - 1);
      RowSplits(f, y1 - 1, x0, x1, x2);
    }
  }

  lemma {:induction false} RectSplitsDown(f: (int, int) -> int, x0: int, x1: int, y0: int, y1: int, y2: int)
    requires y0 <= y1 <= y2
    ensures RectSum(f, x0, x1, y0, y2) == RectSum(f, x0, x1, y0, y1) + RectSum(f, x0, x1, y1, y2)
    decreases y2 - y1
  {
    if y1 < y2 {
      RectSplitsDown(f, x0, x1, y0, y1, y2 - 1);
    }
  }

  ghost function BlockSum(f: (int, int) -> int, w: nat, h: nat, k: nat, x: nat, y: nat): int {
    RectSum(f, x * k, Edge(x + 1, k, w), y * k, Edge(y + 1, k, h))
  }

  /** The first x blocks of a row of blocks, and the first y rows of them. */
  ghost function StripSum(f: (int, int) -> int, w: nat, h: nat, k: nat, x: nat, y: nat): int {
    if x == 0 then 0 else StripSum(f, w, h, k, x - 1, y) + BlockSum(f, w, h, k, x - 1, y)
  }

  ghost function AllBlocksSum(f: (int, int) -> int, w: nat, h: nat, k: nat, y: nat): int
    requires k > 0
  {
    if y == 0 then 0 else AllBlocksSum(f, w, h, k, y - 1) + StripSum(f, w, h, k, Blocks(w, k), y - 1)
  }

  lemma {:induction false} EmptyRow(f: (int, int) -> int, x: int, y0: int, y1: int)
    ensures RectSum(f, x, x, y0, y1) == 0
    decreases y1 - y0
  {
    if y0 < y1 {
      EmptyRow(f, x, y0, y1 - 1);
    }
  }

  lemma {:induction false} StripIsRect(f: (int, int) -> int, w: nat, h: nat, k: nat, x: nat, y: nat)
    requires k > 0 && x <= Blocks(w, k)
    ensures StripSum(f, w, h, k, x, y) == RectSum(f, 0, Edge(x, k, w), y * k, Edge(y + 1, k, h))
  {
    if x == 0 {
      EmptyRow(f, 0, y * k, Edge(y + 1, k, h));
    } else {
      StripIsRect(f, w, h, k, x - 1, y);
      BlockFilled(w, k, x - 1);
      RectSplitsAcross(f, 0, (x - 1) * k, Edge(x, k, w), y * k, Edge(y + 1, k, h));
    }
  }

  lemma {:induction false} BlocksAreRect(f: (int, int) -> int, w: nat, h: nat, k: nat, y: nat)
    requires k > 0 && y <= Blocks(h, k)
    ensures AllBlocksSum(f, w, h, k, y) == RectSum(f, 0, w, 0, Edge(y, k, h))
  {
    if y > 0 {
      BlocksAreRect(f, w, h, k, y - 1);
      StripIsRect(f, w, h, k, Blocks(w, k), y - 1);
      BlocksReach(w, k);
      BlockFilled(h, k, y - 1);
      RectSplitsDown(f, 0, w, 0, (y - 1) * k, Edge(y, k, h));
    }
  }

  /** Nothing is lost or counted twice: the blocks' sums add up to the picture's. */
  lemma BlocksConserve(f: (int, int) -> int, w: nat, h: nat, k: nat)
    requires k > 0
    ensures AllBlocksSum(f, w, h, k, Blocks(h, k)) == RectSum(f, 0, w, 0, h)
  {
    BlocksAreRect(f, w, h, k, Blocks(h, k));
    BlocksReach(h, k);
  }

  lemma {:induction false} RowBound(f: (int, int) -> int, y: int, x0: int, x1: int)
    requires x0 <= x1 && forall x, y :: 0 <= f(x, y) < 0x1_0000
    ensures 0 <= RowSum(f, y, x0, x1) <= 0xFFFF * (x1 - x0)
    decreases x1 - x0
  {
    if x0 < x1 {
      RowBound(f, y, x0, x1 - 1);
    }
  }

  lemma {:induction false} RectBound(f: (int, int) -> int, x0: int, x1: int, y0: int, y1: int)
    requires x0 <= x1 && y0 <= y1 && forall x, y :: 0 <= f(x, y) < 0x1_0000
    ensures 0 <= RectSum(f, x0, x1, y0, y1) <= 0xFFFF * ((x1 - x0) * (y1 - y0))
    decreases y1 - y0
  {
    if y0 < y1 {
      RectBound(f, x0, x1, y0, y1 - 1);
      RowBound(f, y1 - 1, x0, x1);
      assert (x1 - x0) * (y1 - y0) == (x1 - x0) * (y1 - 1 - y0) + (x1 - x0);
    }
  }

  /** d is the mean of n levels that add up to sum, kept to its high byte. */
  predicate MeanByte(d: Byte, sum: int, n: int) {
    n > 0 && (256 * d) * n <= sum < (256 * (d + 1)) * n
  }

  function HighByteOfMean(sum: nat, n: nat): (d: Byte)
    requires n > 0 && sum <= 0xFFFF * n
    ensures MeanByte(d, sum, n)
  {
    MeanFits(sum, n);
    sum / n / 256
  }

  lemma MeanFits(sum: nat, n: nat)
    requires n > 0 && sum <= 0xFFFF * n
    ensures sum / n / 256 < 256 && MeanByte(sum / n / 256, sum, n)
  {
    var m := sum / n;
    assert sum == m * n + sum % n;
    assert (m + 1) * n == m * n + n;
    ProductOrders(m, 0x1_0000, n);
    var d := m / 256;
    ProductGrows(256 * d, m, n);
    ProductGrows(m + 1, 256 * (d + 1), n);
  }

  /** The sums of a block's four channels. */
  datatype Tally = Tally(r: nat, g: nat, b: nat, a: nat)

  function Of(t: Tally, c: Channel): nat {
    match c
    case Red => t.r
    case Green => t.g
    case Blue => t.b
    case Alpha => t.a
  }

  function ByteOf(d: Bytes, c: Channel): Byte {
    match c
    case Red => d.r
    case Green => d.g
    case Blue => d.b
    case Alpha => d.a
  }

  /** The tally holds the rows y0 to sy whole and row sy up to sx. */
  ghost predicate Tallied(img: Picture, t: Tally, x0: int, x1: int, y0: int, sy: int, sx: int) {
    forall c :: Of(t, c) == RectSum(Levels(img, c), x0, x1, y0, sy) + RowSum(Levels(img, c), sy, x0, sx)
  }

  lemma TallyPixel(img: Picture, t: Tally, x0: int, x1: int, y0: int, sy: int, sx: int)
    requires x0 <= sx && Tallied(img, t, x0, x1, y0, sy, sx)
    ensures var p := img.at(img.minX + sx, img.minY + sy);
            Tallied(img, Tally(t.r + p.r, t.g + p.g, t.b + p.b, t.a + p.a), x0, x1, y0, sy, sx + 1)
  {
    var p := img.at(img.minX + sx, img.minY + sy);
    var t' := Tally(t.r + p.r, t.g + p.g, t.b + p.b, t.a + p.a);
    forall c ensures Of(t', c) == RectSum(Levels(img, c), x0, x1, y0, sy) + RowSum(Levels(img, c), sy, x0, sx + 1) {
      assert Levels(img, c)(sx, sy) == Level(p, c);
      assert Of(t', c) == Of(t, c) + Level(p, c);
    }
  }

  lemma TallyRow(img: Picture, t: Tally, x0: int, x1: int, y0: int, sy: int)
    requires y0 <= sy && Tallied(img, t, x0, x1, y0, sy, x1)
    ensures Tallied(img, t, x0, x1, y0, sy + 1, x0)
  {}

  lemma TallyBound(img: Picture, t: Tally, x0: int, x1: int, y0: int, y1: int, c: Channel)
    requires x0 <= x1 && y0 <= y1 && Tallied(img, t, x0, x1, y0, y1, x0)
    ensures Of(t, c) == RectSum(Levels(img, c), x0, x1, y0, y1) <= 0xFFFF * ((x1 - x0) * (y1 - y0))
  {
    forall x, y ensures 0 <= Levels(img, c)(x, y) < 0x1_0000 {
      assert Levels(img, c)(x, y) == Level(img.at(img.minX + x, img.minY + y), c);
    }
    RectBound(Levels(img, c), x0, x1, y0, y1);
  }

  /** Each byte is the mean of its own channel over the rectangle. */
  ghost predicate MeanOver(img: Picture, x0: int, x1: int, y0: int, y1: int, d: Bytes) {
    forall c :: MeanByte(ByteOf(d, c), RectSum(Levels(img, c), x0, x1, y0, y1), (x1 - x0) * (y1 - y0))
  }

  /** The mean of one block, channel by channel. */
  method AverageBlock(img: Picture, x0: int, x1: int, y0: int, y1: int) returns (d: Bytes)
    requires x0 < x1 && y0 < y1
    ensures MeanOver(img, x0, x1, y0, y1, d)
  {
    hide Tallied, RectSum, RowSum, MeanByte;
    var t, n := Tally(0, 0, 0, 0), 0;
    assert Tallied(img, t, x0, x1, y0, y0, x0) by {
      TallyStarts(img, x0, x1, y0);
    }
    for sy := y0 to y1
      invariant n == (x1 - x0) * (sy - y0)
      invariant Tallied(img, t, x0, x1, y0, sy, x0)
    {
      ghost var n0 := n;
      for sx := x0 to x1
        invariant n == n0 + (sx - x0)
        invariant Tallied(img, t, x0, x1, y0, sy, sx)
      {
        TallyPixel(img, t, x0, x1, y0, sy, sx);
        var p := img.at(img.minX + sx, img.minY + sy);
        t, n := Tally(t.r + p.r, t.g + p.g, t.b + p.b, t.a + p.a), n + 1;
      }
      TallyRow(img, t, x0, x1, y0, sy);
      assert (x1 - x0) * (sy + 1 - y0) == (x1 - x0) * (sy - y0) + (x1 - x0);
    }
    ProductGrows(1, x1 - x0, y1 - y0);
    forall c ensures Of(t, c) == RectSum(Levels(img, c), x0, x1, y0, y1) <= 0xFFFF * n {
      TallyBound(img, t, x0, x1, y0, y1, c);
    }
    assert Of(t, Red) <= 0xFFFF * n && Of(t, Green) <= 0xFFFF * n && Of(t, Blue) <= 0xFFFF * n
           && Of(t, Alpha) <= 0xFFFF * n;
    d := Bytes(HighByteOfMean(t.r, n), HighByteOfMean(t.g, n), HighByteOfMean(t.b, n), HighByteOfMean(t.a, n));
    forall c ensures MeanByte(ByteOf(d, c), Of(t, c), n) {}
  }

  lemma TallyStarts(img: Picture, x0: int, x1: int, y0: int)
    ensures Tallied(img, Tally(0, 0, 0, 0), x0, x1, y0, y0, x0)
  {}

  ghost predicate BlockMean(img: Picture, k: nat, x: nat, y: nat, d: Bytes) {
    MeanOver(img, x * k, Edge(x + 1, k, img.w), y * k, Edge(y + 1, k, img.h), d)
  }

  /** So a pixel of the reduced picture is the mean, red for red and so on, of the block whose sums
      add up to the picture's. */
  lemma BlockMeanIs(img: Picture, k: nat, x: nat, y: nat, d: Bytes)
    requires k > 0 && x < Blocks(img.w, k) && y < Blocks(img.h, k) && BlockMean(img, k, x, y, d)
    ensures var n := (Min((x + 1) * k, img.w) - x * k) * (Min((y + 1) * k, img.h) - y * k);
            && MeanByte(d.r, BlockSum(Levels(img, Red), img.w, img.h, k, x, y), n)
            && MeanByte(d.g, BlockSum(Levels(img, Green), img.w, img.h, k, x, y), n)
            && MeanByte(d.b, BlockSum(Levels(img, Blue), img.w, img.h, k, x, y), n)
            && MeanByte(d.a, BlockSum(Levels(img, Alpha), img.w, img.h, k, x, y), n)
  {
    hide RectSum, MeanByte;
    assert ByteOf(d, Red) == d.r && ByteOf(d, Green) == d.g && ByteOf(d, Blue) == d.b && ByteOf(d, Alpha) == d.a;
  }

  /** The levels are the picture's own, read from its corner. */
  lemma LevelsAre(img: Picture, x: int, y: int)
    ensures var p := img.at(img.minX + x, img.minY + y);
            && Levels(img, Red)(x, y) == p.r && Levels(img, Green)(x, y) == p.g
            && Levels(img, Blue)(x, y) == p.b && Levels(img, Alpha)(x, y) == p.a
  {
    var p := img.at(img.minX + x, img.minY + y);
    forall c ensures Levels(img, c)(x, y) == Level(p, c) {}
    assert Levels(img, Red)(x, y) == Level(p, Red) && Levels(img, Green)(x, y) == Level(p, Green);
    assert Levels(img, Blue)(x, y) == Level(p, Blue) && Levels(img, Alpha)(x, y) == Level(p, Alpha);
  }

  /** One pixel a block, each the mean of its own block of the source. */
  method BoxReduce(img: Picture, k: nat) returns (dst: array2<Bytes>)
    requires k > 0
    ensures dst.Length0 == Blocks(img.h, k) && dst.Length1 == Blocks(img.w, k)
    ensures forall x, y :: 0 <= x < dst.Length1 && 0 <= y < dst.Length0 ==> BlockMean(img, k, x, y, dst[y, x])
  {
    hide MeanOver, Blocks;
    var w, h := Blocks(img.w, k), Blocks(img.h, k);
    dst := new Bytes[h, w];
    for y := 0 to h
      invariant forall x, y' :: 0 <= x < w && 0 <= y' < y ==> BlockMean(img, k, x, y', dst[y', x])
    {
      var y0, y1 := y * k, Edge(y + 1, k, img.h);
      BlockFilled(img.h, k, y);
      for x := 0 to w
        invariant forall x', y' :: 0 <= x' < w && 0 <= y' < y ==> BlockMean(img, k, x', y', dst[y', x'])
        invariant forall x' :: 0 <= x' < x ==> BlockMean(img, k, x', y, dst[y, x'])
      {
        var x0, x1 := x * k, Edge(x + 1, k, img.w);
        BlockFilled(img.w, k, x);
        var d := AverageBlock(img, x0, x1, y0, y1);
        dst[y, x] := d;
      }
    }
  }

  // ---------------------------------------------------------------------------
  // Orientation
  // ---------------------------------------------------------------------------

  predicate Turns(o: int) {
    1 < o <= 8
  }

  predicate Swaps(o: int) {
    Turns(o) && o >= 5
  }

  function ShownWidth(w: nat, h: nat, o: int): nat { if Swaps(o) then h else w }
  function ShownHeight(w: nat, h: nat, o: int): nat { if Swaps(o) then w else h }

  /** The source point shown at a point, in a source of w by h. */
  function SourceOf(o: int, w: int, h: int, x: int, y: int): (int, int) {
    match o
    case 2 => (w - 1 - x, y)
    case 3 => (w - 1 - x, h - 1 - y)
    case 4 => (x, h - 1 - y)
    case 5 => (y, x)
    case 6 => (y, h - 1 - x)
    case 7 => (w - 1 - y, h - 1 - x)
    case 8 => (w - 1 - y, x)
    case _ => (x, y)
  }

  function Inverse(o: int): int {
    if o == 6 then 8 else if o == 8 then 6 else o
  }

  predicate Inside(w: nat, h: nat, p: (int, int)) {
    0 <= p.0 < w && 0 <= p.1 < h
  }

  /** A code takes each shown point into the source, and its inverse code, over the shown picture's
      own size, takes that source point back. */
  lemma TurnedPoint(o: int, w: nat, h: nat, x: int, y: int)
    requires Inside(ShownWidth(w, h, o), ShownHeight(w, h, o), (x, y))
    ensures var s := SourceOf(o, w, h, x, y);
            Inside(w, h, s) && SourceOf(Inverse(o), ShownWidth(w, h, o), ShownHeight(w, h, o), s.0, s.1) == (x, y)
  {}

  /** So every code is a bijection between the shown picture and the source. */
  lemma OrientationBijection(o: int, w: nat, h: nat)
    ensures forall x, y :: Inside(ShownWidth(w, h, o), ShownHeight(w, h, o), (x, y)) ==>
              Inside(w, h, SourceOf(o, w, h, x, y))
    ensures forall x, y, x', y' ::
              (&& Inside(ShownWidth(w, h, o), ShownHeight(w, h, o), (x, y))
               && Inside(ShownWidth(w, h, o), ShownHeight(w, h, o), (x', y'))
               && SourceOf(o, w, h, x, y) == SourceOf(o, w, h, x', y')) ==> x == x' && y == y'
    ensures forall sx, sy :: Inside(w, h, (sx, sy)) ==>
              var p := SourceOf(Inverse(o), ShownWidth(w, h, o), ShownHeight(w, h, o), sx, sy);
              Inside(ShownWidth(w, h, o), ShownHeight(w, h, o), p) && SourceOf(o, w, h, p.0, p.1) == (sx, sy)
  {
    hide SourceOf;
    var dw, dh := ShownWidth(w, h, o), ShownHeight(w, h, o);
    forall x, y | Inside(dw, dh, (x, y))
      ensures var s := SourceOf(o, w, h, x, y); Inside(w, h, s) && SourceOf(Inverse(o), dw, dh, s.0, s.1) == (x, y)
    {
      TurnedPoint(o, w, h, x, y);
    }
    forall sx, sy | Inside(w, h, (sx, sy))
      ensures var p := SourceOf(Inverse(o), dw, dh, sx, sy);
              Inside(dw, dh, p) && SourceOf(o, w, h, p.0, p.1) == (sx, sy)
    {
      TurnedPoint(Inverse(o), dw, dh, sx, sy);
    }
  }

  datatype Side = Top | Bottom | Left | Right

  /** The visual side the stored first row and first column stand for, as the Orientation field in
      section 8 of TIFF 6.0 lists them. */
  function FirstRowShows(o: int): Side
    requires 1 <= o <= 8
  {
    [Top, Top, Bottom, Bottom, Left, Right, Right, Left][o - 1]
  }

  function FirstColumnShows(o: int): Side
    requires 1 <= o <= 8
  {
    [Left, Right, Right, Left, Top, Top, Bottom, Bottom][o - 1]
  }

  function FromSide(side: Side, w: int, h: int, x: int, y: int): int {
    match side
    case Top => y
    case Bottom => h - 1 - y
    case Left => x
    case Right => w - 1 - x
  }

  /** The pixel shown at a point is stored as many rows from the first as the point lies from the
      side that row stands for, and likewise for columns. */
  lemma OrientationIsTiff(o: int, w: nat, h: nat, x: int, y: int)
    requires 1 <= o <= 8
    ensures var dw, dh := ShownWidth(w, h, o), ShownHeight(w, h, o);
            SourceOf(o, w, h, x, y) ==
              (FromSide(FirstColumnShows(o), dw, dh, x, y), FromSide(FirstRowShows(o), dw, dh, x, y))
  {
    var rows := [Top, Top, Bottom, Bottom, Left, Right, Right, Left];
    var columns := [Left, Right, Right, Left, Top, Top, Bottom, Bottom];
    assert FirstRowShows(o) == rows[o - 1] && FirstColumnShows(o) == columns[o - 1];
  }

  /** The picture shown: the source itself for a code that turns nothing, and otherwise a copy
      whose colours went through an eight-bit buffer. */
  function Shown(img: Picture, o: int): Picture {
    if !Turns(o) then img
    else Picture(0, 0, ShownWidth(img.w, img.h, o), ShownHeight(img.w, img.h, o), (x, y) =>
                   var s := SourceOf(o, img.w, img.h, x, y);
                   Loaded(Stored(img.at(img.minX + s.0, img.minY + s.1))))
  }

  /** Every code from 1 to 8 shows each stored pixel at the sides the standard names, the sides swapped
      where its rows stand for the left or the right; any other code shows the picture as it is. */
  lemma ShownIsTiff(img: Picture, o: int, x: int, y: int)
    ensures o < 1 || o > 8 ==> Shown(img, o) == img
    ensures 1 <= o <= 8 ==>
              var s, rows, columns := Shown(img, o), FirstRowShows(o), FirstColumnShows(o);
              && (if rows == Top || rows == Bottom then s.w == img.w && s.h == img.h else s.w == img.h && s.h == img.w)
              && Stored(s.at(s.minX + x, s.minY + y))
                 == Stored(img.at(img.minX + FromSide(columns, s.w, s.h, x, y),
                                  img.minY + FromSide(rows, s.w, s.h, x, y)))
  {
    hide Stored, Loaded;
    if 1 <= o <= 8 {
      OrientationIsTiff(o, img.w, img.h, x, y);
      var p := FromSide(FirstColumnShows(o), Shown(img, o).w, Shown(img, o).h, x, y);
      var q := FromSide(FirstRowShows(o), Shown(img, o).w, Shown(img, o).h, x, y);
      StoredAgain(Stored(img.at(img.minX + p, img.minY + q)));
    }
  }

  /** None where the picture is given back as it is. */
  method Orient(img: Picture, o: int) returns (dst: Option<array2<Bytes>>)
    ensures dst.None? <==> o <= 1 || o > 8
    ensures dst.None? ==> Shown(img, o) == img
    ensures dst.Some? ==> dst.value.Length0 == Shown(img, o).h && dst.value.Length1 == Shown(img, o).w
    ensures dst.Some? ==> forall x, y :: 0 <= x < dst.value.Length1 && 0 <= y < dst.value.Length0 ==>
                            Loaded(dst.value[y, x]) == Shown(img, o).at(x, y)
  {
    if o <= 1 || o > 8 {
      return None;
    }
    var w, h := img.w, img.h;
    var dw, dh := w, h;
    if o >= 5 {
      dw, dh := h, w;
    }
    var pix := new Bytes[dh, dw];
    for y := 0 to dh
      invariant forall x, y' :: 0 <= x < dw && 0 <= y' < y ==> Loaded(pix[y', x]) == Shown(img, o).at(x, y')
    {
      for x := 0 to dw
        invariant forall x', y' :: 0 <= x' < dw && 0 <= y' < y ==> Loaded(pix[y', x']) == Shown(img, o).at(x', y')
        invariant forall x' :: 0 <= x' < x ==> Loaded(pix[y, x']) == Shown(img, o).at(x', y)
      {
        var s := SourceOf(o, w, h, x, y);
        pix[y, x] := Stored(img.at(img.minX + s.0, img.minY + s.1));
      }
    }
    dst := Some(pix);
  }

  lemma StoredAgain(q: Bytes)
    ensures Stored(Loaded(q)) == q
  {}

  /** Turning a picture and turning it back by the inverse code gives every pixel again, as the
      eight-bit buffer keeps it, and its size. */
  lemma TurnedBack(img: Picture, o: int)
    requires Turns(o)
    ensures var back := Shown(Shown(img, o), Inverse(o));
            && back.w == img.w && back.h == img.h
            && forall x, y :: Inside(img.w, img.h, (x, y)) ==>
                 back.at(x, y) == Loaded(Stored(img.at(img.minX + x, img.minY + y)))
  {
    hide SourceOf, Stored, Loaded, Level;
    var once := Shown(img, o);
    forall x, y | Inside(img.w, img.h, (x, y))
      ensures Shown(once, Inverse(o)).at(x, y) == Loaded(Stored(img.at(img.minX + x, img.minY + y)))
    {
      TurnedBackAt(img, o, x, y);
    }
  }

  lemma TurnedBackAt(img: Picture, o: int, x: int, y: int)
    requires Turns(o) && Inside(img.w, img.h, (x, y))
    ensures Shown(Shown(img, o), Inverse(o)).at(x, y) == Loaded(Stored(img.at(img.minX + x, img.minY + y)))
  {
    hide SourceOf, Stored, Loaded;
    var once := Shown(img, o);
    TurnedPoint(Inverse(o), once.w, once.h, x, y);
    StoredAgain(Stored(img.at(img.minX + x, img.minY + y)));
  }

  // ---------------------------------------------------------------------------
  // The size a picture ends at
  // ---------------------------------------------------------------------------

  /** s scaled by m over l. */
  function Scale(m: real, l: real, s: real): real
    requires l != 0.0
  {
    s * (m / l)
  }

  function Shrunk(n: nat, long: nat, maxDim: nat): real
    requires 0 < long
  {
    Scale(maxDim as real, long as real, n as real)
  }

  function Scaled(n: nat, long: nat, maxDim: nat): nat
    requires 0 < long
  {
    Max((Shrunk(n, long, maxDim) + 0.5).Floor, 1)
  }

  function FitDimensions(w: nat, h: nat, maxDim: nat): (nat, nat) {
    var long := Max(w, h);
    if w == 0 || h == 0 then (1, 1)
    else if long <= maxDim then (w, h)
    else (Scaled(w, long, maxDim), Scaled(h, long, maxDim))
  }

  lemma ScaledFits(n: nat, long: nat, maxDim: nat)
    requires 0 < n <= long && 0 < maxDim < long
    ensures 1 <= Scaled(n, long, maxDim) <= Min(n, maxDim)
    ensures n == long ==> Scaled(n, long, maxDim) == maxDim
  {
    hide Shrunk;
    ShrunkFits(n, long, maxDim);
    Rounds(Shrunk(n, long, maxDim), n);
    Rounds(Shrunk(n, long, maxDim), maxDim);
  }

  lemma ShrunkFits(n: nat, long: nat, maxDim: nat)
    requires 0 < n <= long && 0 < maxDim < long
    ensures 0.0 <= Shrunk(n, long, maxDim) <= n as real && Shrunk(n, long, maxDim) <= maxDim as real
    ensures n == long ==> Shrunk(n, long, maxDim) == maxDim as real
  {
    hide Scale;
    ScaleShrinks(maxDim as real, long as real, n as real);
  }

  lemma ScaleShrinks(m: real, l: real, s: real)
    requires 0.0 < m < l && 0.0 < s <= l
    ensures 0.0 <= Scale(m, l, s) <= s && Scale(m, l, s) <= m
    ensures s == l ==> Scale(m, l, s) == m
  {
    var q := m / l;
    assert q * l == m;
    ScaleBounds(q, m, l, s);
  }

  lemma ScaleBounds(q: real, m: real, l: real, s: real)
    requires q * l == m && 0.0 < m < l && 0.0 < s <= l
    ensures 0.0 <= s * q <= s && s * q <= m
    ensures s == l ==> s * q == m
  {
    assert 0.0 * l == 0.0 && 1.0 * l == l && 1.0 * s == s && 0.0 * q == 0.0;
    assert l * q == q * l && s * q == q * s;
    RealOrders(0.0, q, l);
    RealOrders(q, 1.0, l);
    RealGrows(s, l, q);
    RealGrows(q, 1.0, s);
    RealGrows(0.0, s, q);
  }

  lemma Rounds(p: real, n: nat)
    requires 0.0 <= p <= n as real
    ensures 0 <= (p + 0.5).Floor <= n
    ensures p == n as real ==> (p + 0.5).Floor == n
  {}

  lemma RealGrows(a: real, b: real, k: real)
    requires a <= b && k >= 0.0
    ensures a * k <= b * k
  {}

  lemma RealOrders(a: real, b: real, k: real)
    requires k > 0.0 && a * k < b * k
    ensures a < b
  {
    if b <= a {
      RealGrows(b, a, k);
    }
  }

  /** Each side is the whole number nearest its share of the box, and at least 1. */
  lemma ScaledIsNearest(n: nat, long: nat, maxDim: nat)
    requires 0 < n <= long && 0 < maxDim < long
    ensures Shrunk(n, long, maxDim) * long as real == n as real * maxDim as real
    ensures Shrunk(n, long, maxDim) - 0.5 < Scaled(n, long, maxDim) as real
    ensures Scaled(n, long, maxDim) == 1 || Scaled(n, long, maxDim) as real <= Shrunk(n, long, maxDim) + 0.5
  {
    ScaleIs(maxDim as real, long as real, n as real);
  }

  lemma ScaleIs(m: real, l: real, s: real)
    requires l > 0.0
    ensures Scale(m, l, s) * l == s * m
  {
    var q := m / l;
    assert q * l == m;
    assert (s * q) * l == s * (q * l);
  }

  /** Within the box the size stands; past it the longest side becomes the box, and neither side
      grows or vanishes. A picture with no pixels is one by one. */
  lemma DimensionsFit(w: nat, h: nat, maxDim: nat)
    requires maxDim > 0
    ensures w == 0 || h == 0 ==> FitDimensions(w, h, maxDim) == (1, 1)
    ensures w > 0 && h > 0 ==>
            var (fw, fh) := FitDimensions(w, h, maxDim);
            && 1 <= fw <= w && 1 <= fh <= h
            && (if Max(w, h) <= maxDim then fw == w && fh == h else Max(fw, fh) == maxDim)
  {
    hide Scaled;
    if w > 0 && h > 0 && Max(w, h) > maxDim {
      ScaledFits(w, Max(w, h), maxDim);
      ScaledFits(h, Max(w, h), maxDim);
    }
  }

  /** The size fit draws at, from the source's own. */
  function FittedSize(w: nat, h: nat, o: int, maxDim: nat): (nat, nat)
    requires maxDim > 0
  {
    var k := ReduceFactor(Max(w, h), maxDim);
    ReducedSide(w, h, maxDim);
    var w', h' := Blocks(w, k), Blocks(h, k);
    FitDimensions(ShownWidth(w', h', o), ShownHeight(w', h', o), maxDim)
  }

  /** Over the whole pipeline a picture within the box keeps its size, turned; a larger one ends
      with its longest side exactly the box, and neither grows nor vanishes along either side. */
  lemma FitsTheBox(w: nat, h: nat, o: int, maxDim: nat)
    requires maxDim > 0 && w > 0 && h > 0
    ensures var (fw, fh) := FittedSize(w, h, o, maxDim);
            && 1 <= fw <= ShownWidth(w, h, o) && 1 <= fh <= ShownHeight(w, h, o)
            && (if Max(w, h) <= maxDim then fw == ShownWidth(w, h, o) && fh == ShownHeight(w, h, o)
                else Max(fw, fh) == maxDim)
  {
    hide FitDimensions, Blocks, ReduceFactor;
    var k := ReduceFactor(Max(w, h), maxDim);
    ReducedSide(w, h, maxDim);
    BlocksShrink(w, k);
    BlocksShrink(h, k);
    var w', h' := Blocks(w, k), Blocks(h, k);
    DimensionsFit(ShownWidth(w', h', o), ShownHeight(w', h', o), maxDim);
  }

  lemma BlocksShrink(n: nat, k: nat)
    requires n > 0 && k > 0
    ensures 1 <= Blocks(n, k) <= n && (k == 1 ==> Blocks(n, k) == n)
  {
    BlocksReach(n, k);
    ProductGrows(1, k, n);
    ProductOrders(Blocks(n, k) - 1, n, k);
    if k == 1 {
      assert Blocks(n, 1) == n;
    }
  }
}

/**
 Copying or converting one captured frame into an NV12 buffer (src/pixels.cpp).
 A buffer of row length d is addressed by At(d, row, column); the chroma rows follow the luma rows.
 */
module Pixels {
  import opened Common
  import opened Colour

  datatype PixelFormat = Nv12 | Bgr24

  datatype Layout = Layout(width: nat, height: nat, stride: nat, sizeimage: nat, pixels: PixelFormat,
                           fullRange: bool, rgbLimited: bool)

  /** direct_layout: the hardware can read the capture buffer as it is. */
  predicate DirectLayout(l: Layout) {
    && !(l.pixels.Bgr24? && l.rgbLimited)
    && l.width != 0 && l.height != 0 && l.width % 64 == 0 && l.height % 16 == 0
    && l.stride == l.width * (if l.pixels.Bgr24? then 3 else 1)
    && l.sizeimage == l.width * l.height * (if l.pixels.Bgr24? then 6 else 3) / 2
  }

  // ----- addressing -----

  /** row * d + x, unfolded so that no product of variables is needed. */
  function At(d: nat, row: nat, x: nat): nat {
    if row == 0 then x else d + At(d, row - 1, x)
  }

  lemma {:induction false} AtIsProduct(d: nat, row: nat, x: nat)
    ensures At(d, row, x) == row * d + x
  {
    if row > 0 {
      AtIsProduct(d, row - 1, x);
    }
  }

  lemma {:induction false} AtOrder(d: nat, row: nat, x: nat, row': nat, x': nat)
    requires x < d && row < row'
    ensures At(d, row, x) < At(d, row', x')
    decreases row
  {
    if row > 0 {
      AtOrder(d, row - 1, x, row' - 1, x');
    }
  }

  lemma AtShift(d: nat, row: nat, x: nat)
    ensures At(d, row, x) == At(d, row, 0) + x
  {
    AtIsProduct(d, row, x);
    AtIsProduct(d, row, 0);
  }

  /** Two cells of the buffer never share an address. */
  lemma AtInjective(d: nat, row: nat, x: nat)
    requires x < d
    ensures forall row': nat, x': nat :: x' < d && At(d, row', x') == At(d, row, x) ==> row' == row && x' == x
  {
    forall row': nat, x': nat | x' < d && At(d, row', x') == At(d, row, x)
      ensures row' == row && x' == x
    {
      if row < row' {
        AtOrder(d, row, x, row', x');
      } else if row' < row {
        AtOrder(d, row', x', row, x);
      }
      AtShift(d, row, x);
      AtShift(d, row', x');
    }
  }

  lemma {:induction false} RowsMono(d: nat, n: nat, m: nat)
    requires n <= m
    ensures At(d, n, 0) <= At(d, m, 0)
    decreases m
  {
    if n < m {
      RowsMono(d, n, m - 1);
    }
  }

  /** Cells of rows before n are the addresses before At(d, n, 0). */
  lemma AtBelow(d: nat, n: nat)
    ensures forall row: nat, x: nat :: x < d ==> (row < n <==> At(d, row, x) < At(d, n, 0))
  {
    forall row: nat, x: nat | x < d
      ensures row < n <==> At(d, row, x) < At(d, n, 0)
    {
      if row < n {
        AtOrder(d, row, x, n, 0);
      } else {
        AtShift(d, row, x);
        RowsMono(d, n, row);
      }
    }
  }

  // ----- what the buffer must hold -----

  /** The bytes of source row `row` from column x. */
  function Sample(src: seq<Byte>, stride: nat, row: nat, x: nat): Byte {
    if At(stride, row, x) < |src| then src[At(stride, row, x)] else 0
  }

  datatype Pixel = Pixel(r: Byte, g: Byte, b: Byte)

  /** Pixel x of row y of a BGR source. */
  function PixelAt(l: Layout, src: seq<Byte>, y: nat, x: nat): Pixel {
    Pixel(Sample(src, l.stride, y, 3 * x + 2), Sample(src, l.stride, y, 3 * x + 1), Sample(src, l.stride, y, 3 * x))
  }

  function PixelLuma(l: Layout, p: Pixel): Byte {
    if l.rgbLimited then LimitedLuma(LimitedLevel(p.r), LimitedLevel(p.g), LimitedLevel(p.b))
    else FullLuma(p.r, p.g, p.b)
  }

  function Sum(a: Byte, b: Byte, c: Byte, d: Byte): Sum4 { a + b + c + d }

  function LevelSum(a: Byte, b: Byte, c: Byte, d: Byte): LevelSum4 {
    LimitedLevel(a) + LimitedLevel(b) + LimitedLevel(c) + LimitedLevel(d)
  }

  /** Cb and Cr of a 2x2 block of pixels. */
  function BlockChroma(l: Layout, p: Pixel, q: Pixel, s: Pixel, t: Pixel): (Byte, Byte) {
    if l.rgbLimited then
      var (rs, gs, bs) := (LevelSum(p.r, q.r, s.r, t.r), LevelSum(p.g, q.g, s.g, t.g), LevelSum(p.b, q.b, s.b, t.b));
      (LimitedCb(rs, gs, bs), LimitedCr(rs, gs, bs))
    else
      var (rs, gs, bs) := (Sum(p.r, q.r, s.r, t.r), Sum(p.g, q.g, s.g, t.g), Sum(p.b, q.b, s.b, t.b));
      (FullCb(rs, gs, bs), FullCr(rs, gs, bs))
  }

  /** The block whose top left pixel is (y, x). */
  function ChromaAt(l: Layout, src: seq<Byte>, y: nat, x: nat): (Byte, Byte) {
    BlockChroma(l, PixelAt(l, src, y, x), PixelAt(l, src, y, x + 1),
                PixelAt(l, src, y + 1, x), PixelAt(l, src, y + 1, x + 1))
  }

  function Luma(l: Layout, src: seq<Byte>, y: nat, x: nat): Byte {
    if l.pixels.Nv12? then Sample(src, l.stride, y, x) else PixelLuma(l, PixelAt(l, src, y, x))
  }

  /** Byte x of chroma row c. */
  function Chroma(l: Layout, src: seq<Byte>, c: nat, x: nat): Byte {
    if l.pixels.Nv12? then Sample(src, l.stride, l.height + c, x)
    else if x % 2 == 0 then ChromaAt(l, src, 2 * c, x).0
    else ChromaAt(l, src, 2 * c, x - 1).1
  }

  function LumaFill(l: Layout): Byte { if l.fullRange then 0 else 16 }

  /** Every byte of the destination: visible pixels by their formula, padding by its fill value. */
  function Cell(l: Layout, src: seq<Byte>, vs: nat, row: nat, x: nat): Byte {
    if row < vs then (if row < l.height && x < l.width then Luma(l, src, row, x) else LumaFill(l))
    else if row - vs < l.height / 2 && x < l.width then Chroma(l, src, row - vs, x)
    else 128
  }

  /** The bounds and stride checks of to_nv12. */
  predicate Accepts(l: Layout, n: nat, dn: nat, ds: nat, vs: nat) {
    && 0 < l.width && 0 < l.height && l.width % 2 == 0 && l.height % 2 == 0 && ds % 2 == 0 && vs % 2 == 0
    && l.width * (if l.pixels.Bgr24? then 3 else 1) <= l.stride
    && l.width <= ds && l.height <= vs
    && l.stride * l.height * (if l.pixels.Bgr24? then 2 else 3) / 2 <= n
    && ds * vs * 3 / 2 <= dn
    && !(l.pixels.Bgr24? && l.fullRange)
  }

  /** Rows of the source that hold samples: the luma rows, and half as many chroma rows for NV12. */
  function SourceRows(l: Layout): nat { if l.pixels.Nv12? then l.height + l.height / 2 else l.height }

  /** Accepted arguments keep every read inside the source and every write inside the destination. */
  lemma InBounds(l: Layout, n: nat, dn: nat, ds: nat, vs: nat)
    requires Accepts(l, n, dn, ds, vs)
    ensures At(ds, vs + vs / 2, 0) == ds * vs * 3 / 2 <= dn && At(ds, vs, 0) == ds * vs
    ensures forall row: nat, x: nat :: row < vs + vs / 2 && x < ds ==> At(ds, row, x) < dn
    ensures forall row: nat, x: nat :: row < SourceRows(l) && x < l.stride ==> At(l.stride, row, x) < n
  {
    AtIsProduct(ds, vs + vs / 2, 0);
    AtIsProduct(ds, vs, 0);
    ThreeHalves(ds, vs);
    AtBelow(ds, vs + vs / 2);
    AtIsProduct(l.stride, SourceRows(l), 0);
    ThreeHalves(l.stride, l.height);
    AtBelow(l.stride, SourceRows(l));
  }

  lemma ThreeHalves(d: nat, n: nat)
    requires n % 2 == 0
    ensures d * n * 3 / 2 == (n + n / 2) * d && d * n * 2 / 2 == n * d
  {
    var h := n / 2;
    assert d * n == 2 * (d * h);
    assert (n + h) * d == 3 * (d * h);
  }

  // ----- filling the buffer -----

  function Blank(l: Layout, vs: nat, row: nat): Byte { if row < vs then LumaFill(l) else 128 }

  /** Luma is converted above row y and, in the two rows from y, left of column x. */
  predicate LumaDone(y: nat, x: nat, row: nat, col: nat) { row < y || (row < y + 2 && col < x) }

  /** Chroma is converted above row c and, in row c, left of column x. */
  predicate ChromaDone(c: nat, x: nat, row: nat, col: nat) { row < c || (row == c && col < x) }

  predicate Done(vs: nat, y: nat, x: nat, c: nat, z: nat, row: nat, col: nat) {
    if row < vs then LumaDone(y, x, row, col) else ChromaDone(c, z, row - vs, col)
  }

  ghost predicate Roomy(size: nat, ds: nat, rows: nat) {
    forall row: nat, x: nat :: row < rows && x < ds ==> At(ds, row, x) < size
  }

  /** The buffer part of the way through: finished cells hold their value, the others are still blank. */
  ghost predicate Partly(dst: seq<Byte>, l: Layout, src: seq<Byte>, ds: nat, vs: nat, y: nat, x: nat, c: nat, z: nat)
    requires Roomy(|dst|, ds, vs + vs / 2)
  {
    forall row: nat, col: nat :: row < vs + vs / 2 && col < ds ==>
      dst[At(ds, row, col)] == if Done(vs, y, x, c, z, row, col) then Cell(l, src, vs, row, col) else Blank(l, vs, row)
  }

  /** memset(dst + from, v, to - from). */
  method Fill(dst: array<Byte>, from: nat, to: nat, v: Byte)
    requires from <= to <= dst.Length
    modifies dst
    ensures forall k :: 0 <= k < dst.Length ==> dst[k] == if from <= k < to then v else old(dst[k])
  {
    for i := from to to
      invariant forall k :: 0 <= k < dst.Length ==> dst[k] == if from <= k < i then v else old(dst[k])
    {
      dst[i] := v;
    }
  }

  ghost predicate TailKept(before: seq<Byte>, after: seq<Byte>, from: nat) {
    |before| == |after| && forall k :: from <= k < |after| ==> after[k] == before[k]
  }

  /** Row drow begins with the first n bytes of source row srow; every other cell stays. */
  ghost predicate RowCopied(before: seq<Byte>, after: seq<Byte>, ds: nat, drow: nat, src: seq<Byte>, stride: nat,
                            srow: nat, n: nat) {
    && |before| == |after|
    && (forall x: nat :: x < n && At(ds, drow, x) < |after| ==> after[At(ds, drow, x)] == Sample(src, stride, srow, x))
    && (forall row: nat, x: nat :: x < ds && At(ds, row, x) < |after| && (row != drow || n <= x) ==>
          after[At(ds, row, x)] == before[At(ds, row, x)])
  }

  /** memcpy of one row: n bytes from source row srow to destination row drow. */
  method CopyRow(dst: array<Byte>, ds: nat, drow: nat, src: seq<Byte>, stride: nat, srow: nat, n: nat)
    requires n <= ds && n <= stride
    requires forall x: nat :: x < n ==> At(ds, drow, x) < dst.Length && At(stride, srow, x) < |src|
    modifies dst
    ensures RowCopied(old(dst[..]), dst[..], ds, drow, src, stride, srow, n)
    ensures TailKept(old(dst[..]), dst[..], At(ds, drow + 1, 0))
  {
    for i := 0 to n
      invariant RowCopied(old(dst[..]), dst[..], ds, drow, src, stride, srow, i)
      invariant TailKept(old(dst[..]), dst[..], At(ds, drow + 1, 0))
    {
      AtInjective(ds, drow, i);
      AtOrder(ds, drow, i, drow + 1, 0);
      dst[At(ds, drow, i)] := src[At(stride, srow, i)];
    }
  }

  lemma LumaRowDone(before: seq<Byte>, after: seq<Byte>, l: Layout, src: seq<Byte>, ds: nat, vs: nat, y: nat)
    requires l.pixels.Nv12? && l.width <= ds && l.height <= vs && y < l.height && Roomy(|after|, ds, vs + vs / 2)
    requires RowCopied(before, after, ds, y, src, l.stride, y, l.width) && Partly(before, l, src, ds, vs, y, 0, 0, 0)
    ensures Partly(after, l, src, ds, vs, y + 1, 0, 0, 0)
  {
    hide Sample;
  }

  method CopyLumaRow(l: Layout, src: seq<Byte>, dst: array<Byte>, ds: nat, vs: nat, y: nat)
    requires l.pixels.Nv12? && l.width <= ds && l.width <= l.stride && l.height <= vs && y < l.height
    requires Roomy(dst.Length, ds, vs + vs / 2) && Roomy(|src|, l.stride, SourceRows(l))
    requires Partly(dst[..], l, src, ds, vs, y, 0, 0, 0)
    modifies dst
    ensures Partly(dst[..], l, src, ds, vs, y + 1, 0, 0, 0)
    ensures TailKept(old(dst[..]), dst[..], At(ds, vs + vs / 2, 0))
  {
    hide Partly, RowCopied;
    RowsMono(ds, y + 1, vs + vs / 2);
    CopyRow(dst, ds, y, src, l.stride, y, l.width);
    LumaRowDone(old(dst[..]), dst[..], l, src, ds, vs, y);
  }

  lemma ChromaRowDone(before: seq<Byte>, after: seq<Byte>, l: Layout, src: seq<Byte>, ds: nat, vs: nat, c: nat)
    requires l.pixels.Nv12? && l.width <= ds && l.height <= vs && c < l.height / 2 && Roomy(|after|, ds, vs + vs / 2)
    requires RowCopied(before, after, ds, vs + c, src, l.stride, l.height + c, l.width)
    requires Partly(before, l, src, ds, vs, l.height, 0, c, 0)
    ensures Partly(after, l, src, ds, vs, l.height, 0, c + 1, 0)
  {
    hide Sample;
  }

  method CopyChromaRow(l: Layout, src: seq<Byte>, dst: array<Byte>, ds: nat, vs: nat, c: nat)
    requires l.pixels.Nv12? && l.width <= ds && l.width <= l.stride && l.height <= vs && c < l.height / 2
    requires Roomy(dst.Length, ds, vs + vs / 2) && Roomy(|src|, l.stride, SourceRows(l))
    requires Partly(dst[..], l, src, ds, vs, l.height, 0, c, 0)
    modifies dst
    ensures Partly(dst[..], l, src, ds, vs, l.height, 0, c + 1, 0)
    ensures TailKept(old(dst[..]), dst[..], At(ds, vs + vs / 2, 0))
  {
    hide Partly, RowCopied;
    RowsMono(ds, vs + c + 1, vs + vs / 2);
    CopyRow(dst, ds, vs + c, src, l.stride, l.height + c, l.width);
    ChromaRowDone(old(dst[..]), dst[..], l, src, ds, vs, c);
  }

  /** The NV12 path: the visible luma rows, then the visible chroma rows. */
  method CopyNv12(l: Layout, src: seq<Byte>, dst: array<Byte>, ds: nat, vs: nat)
    requires l.pixels.Nv12? && l.width <= ds && l.width <= l.stride && l.height <= vs
    requires Roomy(dst.Length, ds, vs + vs / 2) && Roomy(|src|, l.stride, SourceRows(l))
    requires Partly(dst[..], l, src, ds, vs, 0, 0, 0, 0)
    modifies dst
    ensures Partly(dst[..], l, src, ds, vs, l.height, 0, l.height / 2, 0)
    ensures TailKept(old(dst[..]), dst[..], At(ds, vs + vs / 2, 0))
  {
    hide Partly;
    for y := 0 to l.height
      invariant Partly(dst[..], l, src, ds, vs, y, 0, 0, 0)
      invariant TailKept(old(dst[..]), dst[..], At(ds, vs + vs / 2, 0))
    {
      CopyLumaRow(l, src, dst, ds, vs, y);
    }
    for c := 0 to l.height / 2
      invariant Partly(dst[..], l, src, ds, vs, l.height, 0, c, 0)
      invariant TailKept(old(dst[..]), dst[..], At(ds, vs + vs / 2, 0))
    {
      CopyChromaRow(l, src, dst, ds, vs, c);
    }
  }

  /** Two neighbouring bytes hold v and w; every other cell stays. */
  ghost predicate Stored(before: seq<Byte>, after: seq<Byte>, ds: nat, rows: nat, row: nat, col: nat, v: Byte, w: Byte)
    requires Roomy(|after|, ds, rows)
  {
    && |before| == |after|
    && forall r: nat, c: nat :: r < rows && c < ds ==>
         after[At(ds, r, c)] ==
           if r == row && c == col then v else if r == row && c == col + 1 then w else before[At(ds, r, c)]
  }

  method StorePair(dst: array<Byte>, ds: nat, rows: nat, row: nat, col: nat, v: Byte, w: Byte)
    requires Roomy(dst.Length, ds, rows) && row < rows && col + 1 < ds
    modifies dst
    ensures Stored(old(dst[..]), dst[..], ds, rows, row, col, v, w)
    ensures TailKept(old(dst[..]), dst[..], At(ds, rows, 0))
  {
    AtInjective(ds, row, col);
    AtInjective(ds, row, col + 1);
    AtOrder(ds, row, col, rows, 0);
    AtOrder(ds, row, col + 1, rows, 0);
    dst[At(ds, row, col)] := v;
    dst[At(ds, row, col + 1)] := w;
  }

  function Read(l: Layout, src: seq<Byte>, y: nat, x: nat): (p: Pixel)
    requires l.pixels.Bgr24? && 3 * l.width <= l.stride && Roomy(|src|, l.stride, l.height)
    requires y < l.height && x < l.width
    ensures p == PixelAt(l, src, y, x)
  {
    Pixel(src[At(l.stride, y, 3 * x + 2)], src[At(l.stride, y, 3 * x + 1)], src[At(l.stride, y, 3 * x)])
  }

  /** The two pixels of a block that share a row: store their luma. */
  method ConvertPair(l: Layout, src: seq<Byte>, dst: array<Byte>, ds: nat, vs: nat, y: nat, x: nat)
    returns (p: Pixel, q: Pixel)
    requires l.pixels.Bgr24? && Accepts(l, |src|, dst.Length, ds, vs)
    requires Roomy(dst.Length, ds, vs + vs / 2) && Roomy(|src|, l.stride, SourceRows(l))
    requires y < l.height && x + 1 < l.width
    modifies dst
    ensures p == PixelAt(l, src, y, x) && q == PixelAt(l, src, y, x + 1)
    ensures Stored(old(dst[..]), dst[..], ds, vs + vs / 2, y, x, PixelLuma(l, p), PixelLuma(l, q))
    ensures TailKept(old(dst[..]), dst[..], At(ds, vs + vs / 2, 0))
  {
    p, q := Read(l, src, y, x), Read(l, src, y, x + 1);
    StorePair(dst, ds, vs + vs / 2, y, x, PixelLuma(l, p), PixelLuma(l, q));
  }

  predicate InBlock(vs: nat, y: nat, x: nat, row: nat, col: nat) {
    x <= col < x + 2 && (y <= row < y + 2 || row == vs + y / 2)
  }

  /** What a block writes at one of its six cells. */
  lemma BlockCells(l: Layout, src: seq<Byte>, vs: nat, y: nat, x: nat)
    requires l.pixels.Bgr24? && l.height <= vs && y % 2 == 0 && x % 2 == 0
    requires y + 1 < l.height && x + 1 < l.width
    ensures Cell(l, src, vs, y, x) == PixelLuma(l, PixelAt(l, src, y, x))
    ensures Cell(l, src, vs, y, x + 1) == PixelLuma(l, PixelAt(l, src, y, x + 1))
    ensures Cell(l, src, vs, y + 1, x) == PixelLuma(l, PixelAt(l, src, y + 1, x))
    ensures Cell(l, src, vs, y + 1, x + 1) == PixelLuma(l, PixelAt(l, src, y + 1, x + 1))
    ensures Cell(l, src, vs, vs + y / 2, x) == ChromaAt(l, src, y, x).0
    ensures Cell(l, src, vs, vs + y / 2, x + 1) == ChromaAt(l, src, y, x).1
  {
    hide PixelLuma, BlockChroma, PixelAt;
    assert 2 * (y / 2) == y;
  }

  /** The six cells of a block hold what they should; every other cell stays. */
  ghost predicate BlockStored(before: seq<Byte>, after: seq<Byte>, l: Layout, src: seq<Byte>, ds: nat, vs: nat,
                              y: nat, x: nat)
    requires Roomy(|after|, ds, vs + vs / 2)
  {
    && |before| == |after|
    && forall row: nat, col: nat :: row < vs + vs / 2 && col < ds ==>
         after[At(ds, row, col)] ==
           if InBlock(vs, y, x, row, col) then Cell(l, src, vs, row, col) else before[At(ds, row, col)]
  }

  lemma ThreePairs(a: seq<Byte>, b: seq<Byte>, c: seq<Byte>, d: seq<Byte>, l: Layout, src: seq<Byte>, ds: nat, vs: nat,
                   y: nat, x: nat)
    requires y + 1 < vs && y % 2 == 0 && |a| == |b| == |c| == |d| && Roomy(|d|, ds, vs + vs / 2)
    requires Stored(a, b, ds, vs + vs / 2, y, x, Cell(l, src, vs, y, x), Cell(l, src, vs, y, x + 1))
    requires Stored(b, c, ds, vs + vs / 2, y + 1, x, Cell(l, src, vs, y + 1, x), Cell(l, src, vs, y + 1, x + 1))
    requires Stored(c, d, ds, vs + vs / 2, vs + y / 2, x, Cell(l, src, vs, vs + y / 2, x),
                    Cell(l, src, vs, vs + y / 2, x + 1))
    ensures BlockStored(a, d, l, src, ds, vs, y, x)
  {
    hide Cell;
    forall row: nat, col: nat | row < vs + vs / 2 && col < ds
      ensures d[At(ds, row, col)] ==
                if InBlock(vs, y, x, row, col) then Cell(l, src, vs, row, col) else a[At(ds, row, col)]
    {
      assert row == y || row == y + 1 || row == vs + y / 2 || !InBlock(vs, y, x, row, col);
    }
  }

  /** One 2x2 block: four luma bytes, and one Cb and one Cr from the sums over the block. */
  method ConvertBlock(l: Layout, src: seq<Byte>, dst: array<Byte>, ds: nat, vs: nat, y: nat, x: nat)
    requires l.pixels.Bgr24? && Accepts(l, |src|, dst.Length, ds, vs)
    requires Roomy(dst.Length, ds, vs + vs / 2) && Roomy(|src|, l.stride, SourceRows(l))
    requires y % 2 == 0 && x % 2 == 0 && y < l.height && x < l.width
    modifies dst
    ensures BlockStored(old(dst[..]), dst[..], l, src, ds, vs, y, x)
    ensures TailKept(old(dst[..]), dst[..], At(ds, vs + vs / 2, 0))
  {
    hide PixelLuma, BlockChroma, PixelAt, Cell, Stored, BlockStored;
    BlockCells(l, src, vs, y, x);
    var p, q := ConvertPair(l, src, dst, ds, vs, y, x);
    ghost var first := dst[..];
    var s, t := ConvertPair(l, src, dst, ds, vs, y + 1, x);
    ghost var second := dst[..];
    assert ChromaAt(l, src, y, x) == BlockChroma(l, p, q, s, t);
    var (cb, cr) := BlockChroma(l, p, q, s, t);
    StorePair(dst, ds, vs + vs / 2, vs + y / 2, x, cb, cr);
    ThreePairs(old(dst[..]), first, second, dst[..], l, src, ds, vs, y, x);
  }

  lemma BlockDone(before: seq<Byte>, after: seq<Byte>, l: Layout, src: seq<Byte>, ds: nat, vs: nat, y: nat, x: nat)
    requires Roomy(|after|, ds, vs + vs / 2) && BlockStored(before, after, l, src, ds, vs, y, x)
    requires y < l.height <= vs && y % 2 == 0 && Partly(before, l, src, ds, vs, y, x, y / 2, x)
    ensures Partly(after, l, src, ds, vs, y, x + 2, y / 2, x + 2)
  {
    hide Cell;
  }

  method ConvertNextBlock(l: Layout, src: seq<Byte>, dst: array<Byte>, ds: nat, vs: nat, y: nat, x: nat)
    requires l.pixels.Bgr24? && Accepts(l, |src|, dst.Length, ds, vs)
    requires Roomy(dst.Length, ds, vs + vs / 2) && Roomy(|src|, l.stride, SourceRows(l))
    requires y < l.height && y % 2 == 0 && x < l.width && x % 2 == 0
    requires Partly(dst[..], l, src, ds, vs, y, x, y / 2, x)
    modifies dst
    ensures Partly(dst[..], l, src, ds, vs, y, x + 2, y / 2, x + 2)
    ensures TailKept(old(dst[..]), dst[..], At(ds, vs + vs / 2, 0))
  {
    hide BlockStored, Partly;
    ConvertBlock(l, src, dst, ds, vs, y, x);
    BlockDone(old(dst[..]), dst[..], l, src, ds, vs, y, x);
  }

  /** A finished row of blocks: beyond the width there is only padding. */
  lemma BlockRowDone(dst: seq<Byte>, l: Layout, src: seq<Byte>, ds: nat, vs: nat, y: nat, x: nat)
    requires Roomy(|dst|, ds, vs + vs / 2) && l.width <= x && y < l.height <= vs && l.height % 2 == 0 && y % 2 == 0
    requires Partly(dst, l, src, ds, vs, y, x, y / 2, x)
    ensures Partly(dst, l, src, ds, vs, y + 2, 0, y / 2 + 1, 0)
  {
    hide Luma, Chroma;
  }

  method ConvertBlockRow(l: Layout, src: seq<Byte>, dst: array<Byte>, ds: nat, vs: nat, y: nat)
    requires l.pixels.Bgr24? && Accepts(l, |src|, dst.Length, ds, vs)
    requires Roomy(dst.Length, ds, vs + vs / 2) && Roomy(|src|, l.stride, SourceRows(l))
    requires y < l.height && y % 2 == 0
    requires Partly(dst[..], l, src, ds, vs, y, 0, y / 2, 0)
    modifies dst
    ensures Partly(dst[..], l, src, ds, vs, y + 2, 0, y / 2 + 1, 0)
    ensures TailKept(old(dst[..]), dst[..], At(ds, vs + vs / 2, 0))
  {
    hide Partly, Roomy, At;
    var x: nat := 0;
    while x < l.width
      invariant x % 2 == 0
      invariant Partly(dst[..], l, src, ds, vs, y, x, y / 2, x)
      invariant TailKept(old(dst[..]), dst[..], At(ds, vs + vs / 2, 0))
    {
      ConvertNextBlock(l, src, dst, ds, vs, y, x);
      x := x + 2;
    }
    BlockRowDone(dst[..], l, src, ds, vs, y, x);
  }

  /** The BGR path: 2x2 blocks, row of blocks after row of blocks. */
  method ConvertBgr(l: Layout, src: seq<Byte>, dst: array<Byte>, ds: nat, vs: nat)
    requires l.pixels.Bgr24? && Accepts(l, |src|, dst.Length, ds, vs)
    requires Roomy(dst.Length, ds, vs + vs / 2) && Roomy(|src|, l.stride, SourceRows(l))
    requires Partly(dst[..], l, src, ds, vs, 0, 0, 0, 0)
    modifies dst
    ensures Partly(dst[..], l, src, ds, vs, l.height, 0, l.height / 2, 0)
    ensures TailKept(old(dst[..]), dst[..], At(ds, vs + vs / 2, 0))
  {
    hide Partly, Roomy, At;
    var y: nat := 0;
    while y < l.height
      invariant y <= l.height && y % 2 == 0
      invariant Partly(dst[..], l, src, ds, vs, y, 0, y / 2, 0)
      invariant TailKept(old(dst[..]), dst[..], At(ds, vs + vs / 2, 0))
    {
      ConvertBlockRow(l, src, dst, ds, vs, y);
      y := y + 2;
    }
  }

  /** The two memsets: every cell of the picture gets its padding value first. */
  method Blanken(l: Layout, src: seq<Byte>, dst: array<Byte>, ds: nat, vs: nat)
    requires Roomy(dst.Length, ds, vs + vs / 2) && At(ds, vs + vs / 2, 0) <= dst.Length
    modifies dst
    ensures Partly(dst[..], l, src, ds, vs, 0, 0, 0, 0)
    ensures TailKept(old(dst[..]), dst[..], At(ds, vs + vs / 2, 0))
  {
    hide Cell;
    AtBelow(ds, vs);
    AtBelow(ds, vs + vs / 2);
    RowsMono(ds, vs, vs + vs / 2);
    Fill(dst, 0, At(ds, vs, 0), LumaFill(l));
    Fill(dst, At(ds, vs, 0), At(ds, vs + vs / 2, 0), 128);
  }

  /** Every byte of the picture is what Cell says. */
  ghost predicate Rendered(dst: seq<Byte>, l: Layout, src: seq<Byte>, ds: nat, vs: nat)
    requires Roomy(|dst|, ds, vs + vs / 2)
  {
    forall row: nat, col: nat :: row < vs + vs / 2 && col < ds ==>
      dst[At(ds, row, col)] == Cell(l, src, vs, row, col)
  }

  /** Once all rows are through, every cell holds what it should: the rest is padding. */
  lemma PartlyAll(dst: seq<Byte>, l: Layout, src: seq<Byte>, ds: nat, vs: nat)
    requires Roomy(|dst|, ds, vs + vs / 2) && Partly(dst, l, src, ds, vs, l.height, 0, l.height / 2, 0)
    ensures Rendered(dst, l, src, ds, vs)
  {
    hide Luma, Chroma;
  }

  /** What to_nv12 does once its arguments are accepted. */
  method Render(l: Layout, src: seq<Byte>, dst: array<Byte>, ds: nat, vs: nat)
    requires Accepts(l, |src|, dst.Length, ds, vs)
    requires Roomy(dst.Length, ds, vs + vs / 2) && Roomy(|src|, l.stride, SourceRows(l))
    requires At(ds, vs + vs / 2, 0) <= dst.Length
    modifies dst
    ensures Partly(dst[..], l, src, ds, vs, l.height, 0, l.height / 2, 0)
    ensures TailKept(old(dst[..]), dst[..], At(ds, vs + vs / 2, 0))
  {
    hide Partly, Cell;
    Blanken(l, src, dst, ds, vs);
    if l.pixels.Nv12? {
      CopyNv12(l, src, dst, ds, vs);
    } else {
      ConvertBgr(l, src, dst, ds, vs);
    }
  }

  /**
   to_nv12: refuses bad bounds, strides and ranges and then touches nothing; otherwise every byte of
   the picture is as specified and every byte after it is unchanged.
   */
  method ToNv12(l: Layout, src: seq<Byte>, dst: array<Byte>, ds: nat, vs: nat) returns (ok: bool)
    modifies dst
    ensures ok == Accepts(l, |src|, dst.Length, ds, vs)
    ensures !ok ==> dst[..] == old(dst[..])
    ensures ok ==> Roomy(dst.Length, ds, vs + vs / 2) && Rendered(dst[..], l, src, ds, vs)
    ensures ok ==> TailKept(old(dst[..]), dst[..], At(ds, vs + vs / 2, 0))
  {
    hide Partly, Cell, Accepts;
    ok := Accepts(l, |src|, dst.Length, ds, vs);
    if ok {
      InBounds(l, |src|, dst.Length, ds, vs);
      Render(l, src, dst, ds, vs);
      PartlyAll(dst[..], l, src, ds, vs);
    }
  }

  // ----- what the picture means -----

  /** The normalized component a sample stands for; limited-range excursions are clipped. */
  function Normal(l: Layout, v: Byte): real {
    if l.rgbLimited then Limited(if v < 16 then 0 else if 235 < v then 219 else v - 16) else Full(v)
  }

  function ExactLumaOf(l: Layout, p: Pixel): real {
    ExactLuma(Normal(l, p.r), Normal(l, p.g), Normal(l, p.b))
  }

  function Mean(l: Layout, a: Byte, b: Byte, c: Byte, d: Byte): real {
    (Normal(l, a) + Normal(l, b) + Normal(l, c) + Normal(l, d)) / 4.0
  }

  /** Exact colour differences of the mean of a block. */
  function ExactChromaOf(l: Layout, p: Pixel, q: Pixel, s: Pixel, t: Pixel): (real, real) {
    var (r, g, b) := (Mean(l, p.r, q.r, s.r, t.r), Mean(l, p.g, q.g, s.g, t.g), Mean(l, p.b, q.b, s.b, t.b));
    (ExactCb(r, g, b), ExactCr(r, g, b))
  }

  lemma MeanIsSum(l: Layout, a: Byte, b: Byte, c: Byte, d: Byte)
    ensures Mean(l, a, b, c, d) ==
              if l.rgbLimited then LimitedMean(LevelSum(a, b, c, d)) else FullMean(Sum(a, b, c, d))
  {
  }

  lemma LumaClose(l: Layout, p: Pixel)
    ensures WithinOne(PixelLuma(l, p), ExactLumaOf(l, p))
  {
    hide WithinOne, ExactLuma, FullLuma, LimitedLuma;
    if l.rgbLimited {
      LimitedClose(LimitedLevel(p.r), LimitedLevel(p.g), LimitedLevel(p.b), 0, 0, 0);
    } else {
      FullLumaClose(p.r, p.g, p.b);
    }
  }

  lemma ChromaClose(l: Layout, p: Pixel, q: Pixel, s: Pixel, t: Pixel)
    ensures WithinOne(BlockChroma(l, p, q, s, t).0, ExactChromaOf(l, p, q, s, t).0)
    ensures WithinOne(BlockChroma(l, p, q, s, t).1, ExactChromaOf(l, p, q, s, t).1)
  {
    hide WithinOne, ExactCb, ExactCr, FullCb, FullCr, LimitedCb, LimitedCr, Mean, Sum, LevelSum;
    MeanIsSum(l, p.r, q.r, s.r, t.r);
    MeanIsSum(l, p.g, q.g, s.g, t.g);
    MeanIsSum(l, p.b, q.b, s.b, t.b);
    if l.rgbLimited {
      LimitedClose(0, 0, 0, LevelSum(p.r, q.r, s.r, t.r), LevelSum(p.g, q.g, s.g, t.g), LevelSum(p.b, q.b, s.b, t.b));
    } else {
      FullChromaClose(Sum(p.r, q.r, s.r, t.r), Sum(p.g, q.g, s.g, t.g), Sum(p.b, q.b, s.b, t.b));
    }
  }

  /** Where byte x of a row of d bytes is. */
  function Address(d: nat, row: nat, x: nat): nat { row * d + x }

  /** The octets of the pixel stored at address i: blue, green, red. */
  function Stored24(src: seq<Byte>, i: nat): Pixel {
    if i + 2 < |src| then Pixel(src[i + 2], src[i + 1], src[i]) else Pixel(0, 0, 0)
  }

  lemma PixelStored(l: Layout, src: seq<Byte>, y: nat, x: nat)
    requires Roomy(|src|, l.stride, l.height) && y < l.height && 3 * x + 2 < l.stride
    ensures PixelAt(l, src, y, x) == Stored24(src, Address(l.stride, y, 3 * x))
  {
    AtIsProduct(l.stride, y, 3 * x);
    AtIsProduct(l.stride, y, 3 * x + 1);
    AtIsProduct(l.stride, y, 3 * x + 2);
    assert At(l.stride, y, 3 * x + 2) < |src|;
  }

  /** Byte x of row `row` of the picture is v. */
  ghost predicate Holds(dst: seq<Byte>, ds: nat, row: nat, x: nat, v: Byte) {
    Address(ds, row, x) < |dst| && dst[Address(ds, row, x)] == v
  }

  /** Luma of pixel x of row y, against its three octets. */
  ghost predicate LumaFaithful(dst: seq<Byte>, l: Layout, src: seq<Byte>, ds: nat, y: nat, x: nat) {
    var i := Address(ds, y, x);
    i < |dst| && WithinOne(dst[i], ExactLumaOf(l, Stored24(src, Address(l.stride, y, 3 * x))))
  }

  /** Cb and Cr of the block whose top left pixel is x of row y, against its twelve octets. */
  ghost predicate ChromaFaithful(dst: seq<Byte>, l: Layout, src: seq<Byte>, ds: nat, vs: nat, y: nat, x: nat) {
    var i, j := Address(ds, vs + y / 2, x), Address(ds, vs + y / 2, x + 1);
    var exact := ExactChromaOf(
      l, Stored24(src, Address(l.stride, y, 3 * x)), Stored24(src, Address(l.stride, y, 3 * (x + 1))),
      Stored24(src, Address(l.stride, y + 1, 3 * x)), Stored24(src, Address(l.stride, y + 1, 3 * (x + 1))));
    i < |dst| && WithinOne(dst[i], exact.0) && j < |dst| && WithinOne(dst[j], exact.1)
  }

  lemma CellAddress(dst: seq<Byte>, l: Layout, src: seq<Byte>, ds: nat, vs: nat, row: nat, x: nat)
    requires Roomy(|dst|, ds, vs + vs / 2) && Rendered(dst, l, src, ds, vs) && row < vs + vs / 2 && x < ds
    ensures Holds(dst, ds, row, x, Cell(l, src, vs, row, x))
  {
    hide Cell;
    AtIsProduct(ds, row, x);
    assert dst[At(ds, row, x)] == Cell(l, src, vs, row, x);
  }

  lemma LumaIsFaithful(dst: seq<Byte>, l: Layout, src: seq<Byte>, ds: nat, vs: nat, y: nat, x: nat)
    requires l.pixels.Bgr24? && l.width * 3 <= l.stride && l.width <= ds && l.height <= vs
    requires Roomy(|dst|, ds, vs + vs / 2) && Rendered(dst, l, src, ds, vs) && Roomy(|src|, l.stride, l.height)
    requires y < l.height && x < l.width
    ensures LumaFaithful(dst, l, src, ds, y, x)
  {
    CellAddress(dst, l, src, ds, vs, y, x);
    PixelStored(l, src, y, x);
    hide Address, WithinOne, PixelAt, PixelLuma, ExactLumaOf, Stored24, Roomy, Rendered;
    LumaClose(l, PixelAt(l, src, y, x));
  }

  lemma ChromaIsFaithful(dst: seq<Byte>, l: Layout, src: seq<Byte>, ds: nat, vs: nat, y: nat, x: nat)
    requires l.pixels.Bgr24? && l.width * 3 <= l.stride && l.width <= ds && l.height <= vs
    requires l.width % 2 == 0 && l.height % 2 == 0
    requires Roomy(|dst|, ds, vs + vs / 2) && Rendered(dst, l, src, ds, vs) && Roomy(|src|, l.stride, l.height)
    requires y < l.height && x < l.width && y % 2 == 0 && x % 2 == 0
    ensures ChromaFaithful(dst, l, src, ds, vs, y, x)
  {
    hide Address, WithinOne, PixelAt, BlockChroma, ExactChromaOf, Stored24, Roomy, Rendered, Cell;
    var c := y / 2;
    assert y == 2 * c && y + 1 < l.height && x + 1 < l.width;
    CellAddress(dst, l, src, ds, vs, vs + c, x);
    CellAddress(dst, l, src, ds, vs, vs + c, x + 1);
    PixelStored(l, src, y, x);
    PixelStored(l, src, y, x + 1);
    PixelStored(l, src, y + 1, x);
    PixelStored(l, src, y + 1, x + 1);
    ChromaClose(l, PixelAt(l, src, y, x), PixelAt(l, src, y, x + 1), PixelAt(l, src, y + 1, x),
                PixelAt(l, src, y + 1, x + 1));
    BlockCells(l, src, vs, y, x);
  }

  /**
   Every visible byte of a picture converted from BGR, in either range, is within one code of the exact BT.709
   value of its pixel or, for colour difference, of the mean of its block.
   */
  lemma PictureIsBt709(dst: seq<Byte>, l: Layout, src: seq<Byte>, ds: nat, vs: nat)
    requires l.pixels.Bgr24? && Accepts(l, |src|, |dst|, ds, vs)
    requires Roomy(|dst|, ds, vs + vs / 2) && Rendered(dst, l, src, ds, vs)
    ensures forall y: nat, x: nat :: y < l.height && x < l.width ==> LumaFaithful(dst, l, src, ds, y, x)
    ensures forall y: nat, x: nat :: y < l.height && x < l.width && y % 2 == 0 && x % 2 == 0 ==>
              ChromaFaithful(dst, l, src, ds, vs, y, x)
  {
    RoomInSource(l, |src|, |dst|, ds, vs);
    hide LumaFaithful, ChromaFaithful, Rendered, Roomy, Accepts;
    forall y: nat, x: nat | y < l.height && x < l.width
      ensures LumaFaithful(dst, l, src, ds, y, x)
    {
      LumaIsFaithful(dst, l, src, ds, vs, y, x);
    }
    forall y: nat, x: nat | y < l.height && x < l.width && y % 2 == 0 && x % 2 == 0
      ensures ChromaFaithful(dst, l, src, ds, vs, y, x)
    {
      ChromaIsFaithful(dst, l, src, ds, vs, y, x);
    }
  }

  /** Byte x of row `row` of the picture is byte x of row `from` of the source. */
  ghost predicate Copied(dst: seq<Byte>, src: seq<Byte>, ds: nat, stride: nat, row: nat, from: nat, x: nat) {
    Address(stride, from, x) < |src| && Holds(dst, ds, row, x, src[Address(stride, from, x)])
  }

  /** The same for a chroma row of the picture; the source's follow its luma rows without any between. */
  ghost predicate ChromaCopied(dst: seq<Byte>, src: seq<Byte>, l: Layout, ds: nat, vs: nat, c: nat, x: nat) {
    Copied(dst, src, ds, l.stride, vs + c, l.height + c, x)
  }

  /** An NV12 picture keeps every visible byte of its source. */
  lemma PictureOfNv12(dst: seq<Byte>, l: Layout, src: seq<Byte>, ds: nat, vs: nat)
    requires l.pixels.Nv12? && Accepts(l, |src|, |dst|, ds, vs)
    requires Roomy(|dst|, ds, vs + vs / 2) && Rendered(dst, l, src, ds, vs)
    ensures forall y: nat, x: nat :: y < l.height && x < l.width ==> Copied(dst, src, ds, l.stride, y, y, x)
    ensures forall c: nat, x: nat :: c < l.height / 2 && x < l.width ==> ChromaCopied(dst, src, l, ds, vs, c, x)
  {
    RoomInSource(l, |src|, |dst|, ds, vs);
    hide Rendered, Holds, Address, Roomy, Accepts;
    forall y: nat, x: nat | y < l.height && x < l.width
      ensures Copied(dst, src, ds, l.stride, y, y, x)
    {
      CellAddress(dst, l, src, ds, vs, y, x);
      SampleAddress(l, src, y, x);
      assert Cell(l, src, vs, y, x) == Sample(src, l.stride, y, x);
    }
    forall c: nat, x: nat | c < l.height / 2 && x < l.width
      ensures ChromaCopied(dst, src, l, ds, vs, c, x)
    {
      CellAddress(dst, l, src, ds, vs, vs + c, x);
      SampleAddress(l, src, l.height + c, x);
      assert Cell(l, src, vs, vs + c, x) == Sample(src, l.stride, l.height + c, x);
    }
  }

  lemma RoomInSource(l: Layout, n: nat, dn: nat, ds: nat, vs: nat)
    requires Accepts(l, n, dn, ds, vs)
    ensures Roomy(n, l.stride, SourceRows(l))
    ensures l.width * (if l.pixels.Bgr24? then 3 else 1) <= l.stride && l.width <= ds && l.height <= vs
    ensures l.width % 2 == 0 && l.height % 2 == 0 && ds % 2 == 0 && vs % 2 == 0
  {
    InBounds(l, n, dn, ds, vs);
  }

  lemma SampleAddress(l: Layout, src: seq<Byte>, row: nat, x: nat)
    requires Roomy(|src|, l.stride, SourceRows(l)) && row < SourceRows(l) && x < l.stride
    ensures Address(l.stride, row, x) < |src| && Sample(src, l.stride, row, x) == src[Address(l.stride, row, x)]
  {
    AtIsProduct(l.stride, row, x);
    assert At(l.stride, row, x) < |src|;
  }

  /** The luma of black in the output range. */
  ghost predicate Black(dst: seq<Byte>, l: Layout, ds: nat, row: nat, x: nat) {
    Holds(dst, ds, row, x, if l.fullRange then 0 else 16)
  }

  /** Beyond the visible picture there is black: 0 or 16, by the range, and 128. */
  lemma PaddingIsBlack(dst: seq<Byte>, l: Layout, src: seq<Byte>, ds: nat, vs: nat)
    requires Accepts(l, |src|, |dst|, ds, vs)
    requires Roomy(|dst|, ds, vs + vs / 2) && Rendered(dst, l, src, ds, vs)
    ensures forall row: nat, x: nat :: row < vs && x < ds && (l.height <= row || l.width <= x) ==>
              Black(dst, l, ds, row, x)
    ensures forall row: nat, x: nat ::
              vs <= row < vs + vs / 2 && x < ds && (l.height / 2 <= row - vs || l.width <= x) ==>
                Holds(dst, ds, row, x, 128)
  {
    hide Rendered, Luma, Chroma, Holds;
    forall row: nat, x: nat | row < vs && x < ds && (l.height <= row || l.width <= x)
      ensures Black(dst, l, ds, row, x)
    {
      CellAddress(dst, l, src, ds, vs, row, x);
      assert Cell(l, src, vs, row, x) == if l.fullRange then 0 else 16;
    }
    forall row: nat, x: nat | vs <= row < vs + vs / 2 && x < ds && (l.height / 2 <= row - vs || l.width <= x)
      ensures Holds(dst, ds, row, x, 128)
    {
      CellAddress(dst, l, src, ds, vs, row, x);
      assert Cell(l, src, vs, row, x) == 128;
    }
  }

  /**
   For even dimensions and strides, and a BGR source of limited output range, the guard refuses exactly when the
   picture does not fit its rows, or some byte of a source or destination row lies outside its buffer.
   */
  lemma RefusedForCause(l: Layout, n: nat, dn: nat, ds: nat, vs: nat)
    requires 0 < l.width && 0 < l.height && l.width % 2 == 0 && l.height % 2 == 0 && ds % 2 == 0 && vs % 2 == 0
    requires l.pixels.Bgr24? ==> !l.fullRange
    ensures Accepts(l, n, dn, ds, vs) <==>
              && l.width * (if l.pixels.Bgr24? then 3 else 1) <= l.stride && l.width <= ds && l.height <= vs
              && (forall row: nat, x: nat :: row < SourceRows(l) && x < l.stride ==> At(l.stride, row, x) < n)
              && (forall row: nat, x: nat :: row < vs + vs / 2 && x < ds ==> At(ds, row, x) < dn)
  {
    if Accepts(l, n, dn, ds, vs) {
      InBounds(l, n, dn, ds, vs);
    }
    AcceptsByRows(l, n, dn, ds, vs);
    hide Accepts;
    if l.width <= ds && l.height <= vs {
      LastCell(ds, vs + vs / 2);
    }
    if l.width * (if l.pixels.Bgr24? then 3 else 1) <= l.stride {
      LastCell(l.stride, SourceRows(l));
    }
    hide At;
  }

  lemma LastCell(d: nat, rows: nat)
    requires 0 < d && 0 < rows
    ensures At(d, rows - 1, d - 1) + 1 == rows * d
  {
    AtIsProduct(d, rows - 1, d - 1);
    assert (rows - 1) * d + d == rows * d;
  }

  lemma AcceptsByRows(l: Layout, n: nat, dn: nat, ds: nat, vs: nat)
    requires 0 < l.width && 0 < l.height && l.width % 2 == 0 && l.height % 2 == 0 && ds % 2 == 0 && vs % 2 == 0
    requires l.pixels.Bgr24? ==> !l.fullRange
    ensures Accepts(l, n, dn, ds, vs) <==>
              && l.width * (if l.pixels.Bgr24? then 3 else 1) <= l.stride && l.width <= ds && l.height <= vs
              && SourceRows(l) * l.stride <= n && (vs + vs / 2) * ds <= dn
  {
    ThreeHalves(ds, vs);
    ThreeHalves(l.stride, l.height);
  }

  predicate Gray(p: Pixel) {
    p.r == p.g == p.b
  }

  /** Four gray pixels, of whatever four levels, have no colour difference. */
  lemma GrayBlockIsNeutral(l: Layout, p: Pixel, q: Pixel, s: Pixel, t: Pixel)
    requires Gray(p) && Gray(q) && Gray(s) && Gray(t)
    ensures BlockChroma(l, p, q, s, t) == (128, 128)
  {
    hide FullCb, FullCr, LimitedCb, LimitedCr, Sum, LevelSum;
    if l.rgbLimited {
      LimitedGrayIsExact(0, LevelSum(p.r, q.r, s.r, t.r));
    } else {
      GrayIsNeutral(Sum(p.r, q.r, s.r, t.r));
    }
  }

  // ----- direct layouts -----

  /** Every address below n rows is a cell of one of them. */
  lemma {:induction false} CellOf(d: nat, n: nat, k: nat) returns (row: nat, col: nat)
    requires k < At(d, n, 0)
    ensures row < n && col < d && At(d, row, col) == k
    decreases n
  {
    if k < d {
      row, col := 0, k;
    } else {
      row, col := CellOf(d, n - 1, k - d);
      row := row + 1;
    }
  }

  /** With the destination laid out like the source, every cell is the source's own byte. */
  lemma CellIsSample(l: Layout, src: seq<Byte>, row: nat, x: nat)
    requires l.pixels.Nv12? && l.height % 2 == 0 && row < l.height + l.height / 2 && x < l.width
    ensures Cell(l, src, l.height, row, x) == Sample(src, l.stride, row, x)
  {
  }

  /** n rounded up to a multiple of a. */
  function Aligned(n: nat, a: nat): nat
    requires 0 < a
  {
    (n + a - 1) / a * a
  }

  /**
   A layout may be read directly exactly when it needs no conversion and has no padding to add or skip: width and
   height are aligned as they are, and rows and image are as long as what they hold.
   */
  lemma DirectHasNoPadding(l: Layout)
    ensures DirectLayout(l) <==>
            && (l.pixels.Bgr24? ==> !l.rgbLimited) && 0 < l.width && 0 < l.height
            && Aligned(l.width, 64) == l.width && Aligned(l.height, 16) == l.height
            && var row := l.width * (if l.pixels.Bgr24? then 3 else 1);
               l.stride == row == Aligned(row, 64) &&
               l.sizeimage == (if l.pixels.Bgr24? then row * l.height else row * l.height * 3 / 2)
  {
    hide Aligned;
    AlignedExactly(l.width, 64);
    AlignedExactly(l.height, 16);
    if Aligned(l.width, 64) == l.width {
      ThriceAligned(l.width);
    }
    ThriceArea(l.width, l.height);
    if l.pixels.Bgr24? {
      assert l.width * 3 * l.height == l.width * l.height * 6 / 2;
    } else {
      assert l.width * 1 * l.height == l.width * l.height;
    }
  }

  lemma ThriceAligned(w: nat)
    requires Aligned(w, 64) == w
    ensures Aligned(3 * w, 64) == 3 * w
  {
    hide Aligned;
    AlignedExactly(w, 64);
    AlignedExactly(3 * w, 64);
    ThriceMultiple(w / 64);
  }

  lemma ThriceMultiple(k: nat)
    ensures 3 * (64 * k) % 64 == 0
  {
    assert 3 * (64 * k) == 64 * (3 * k);
  }

  lemma ThriceArea(w: nat, h: nat)
    ensures w * 3 * h == 3 * (w * h) == w * h * 6 / 2
  {
  }

  lemma AlignedExactly(n: nat, a: nat)
    requires a == 64 || a == 16
    ensures Aligned(n, a) == n <==> n % a == 0
  {
  }

  lemma DirectAccepted(l: Layout)
    requires DirectLayout(l) && l.pixels.Nv12?
    ensures Accepts(l, l.sizeimage, l.sizeimage, l.width, l.height)
    ensures l.stride == l.width && l.width * l.height * 3 / 2 == l.sizeimage && l.height % 2 == 0
  {
  }

  /**
   An NV12 layout the hardware may read directly is one that to_nv12 accepts and would copy unchanged,
   so skipping the copy changes nothing.
   */
  lemma DirectIsIdentity(l: Layout, src: seq<Byte>, dst: seq<Byte>)
    requires DirectLayout(l) && l.pixels.Nv12? && |src| == |dst| == l.sizeimage
    ensures Accepts(l, |src|, |dst|, l.width, l.height) && Roomy(|dst|, l.width, l.height + l.height / 2)
    ensures Rendered(dst, l, src, l.width, l.height) ==> dst == src
  {
    hide Accepts, Cell, DirectLayout, At;
    DirectAccepted(l);
    InBounds(l, |src|, |dst|, l.width, l.height);
    if Rendered(dst, l, src, l.width, l.height) {
      forall k | 0 <= k < |src|
        ensures dst[k] == src[k]
      {
        var row, col := CellOf(l.width, l.height + l.height / 2, k);
        CellIsSample(l, src, row, col);
      }
    }
  }
}

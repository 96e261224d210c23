/** Rasters: a picture `w` pixels wide as a flat run of pixels, row after row.
    Every offset graphic mode computes into a buffer is a multiple of four, so a
    buffer is kept here as its four-byte pixels rather than its bytes. */
module Rasters {
  import opened Bytes
  import opened Areas

  /** Four bytes: B, G, R, A in a page and A, Y, U, V on the wire. */
  type Pixel = px: seq<byte> | |px| == 4 witness [0, 0, 0, 0]

  const BLANK: Pixel := [0, 0, 0, 0]

  /** Where row `y` starts: after `y` rows of `w` pixels. */
  function RowAt(w: int, y: int): int
    decreases y
  {
    if y <= 0 then 0 else RowAt(w, y - 1) + w
  }

  /** A row starts at the stride times the row. */
  lemma {:induction false} RowAtIsStride(w: int, y: int)
    requires 0 <= y
    ensures RowAt(w, y) == y * w
    decreases y
  {
    if y > 0 {
      RowAtIsStride(w, y - 1);
    }
  }

  lemma {:induction false} RowsInOrder(w: int, y: int, z: int)
    requires 0 <= w && y <= z
    ensures 0 <= RowAt(w, y) <= RowAt(w, z)
    ensures 0 <= y < z ==> RowAt(w, y) + w <= RowAt(w, z)
    decreases z - y, z
  {
    if y < z {
      RowsInOrder(w, y, z - 1);
    } else if 0 < y {
      RowsInOrder(w, y - 1, z - 1);
    }
  }

  /** The pixel at column `x` of row `y`. */
  function Px(data: seq<Pixel>, w: int, x: int, y: int): Pixel {
    var at := RowAt(w, y) + x;
    if 0 <= at < |data| then data[at] else BLANK
  }

  lemma PxInside(w: int, h: int, x: int, y: int)
    requires 0 <= x < w && 0 <= y < h
    ensures 0 <= RowAt(w, y) + x < RowAt(w, h)
  {
    RowsInOrder(w, y, h);
  }

  /** Two rasters of one size with the same pixels are the same. */
  lemma {:induction false} SamePixelsSameRaster(a: seq<Pixel>, b: seq<Pixel>, w: int, h: int)
    requires 0 <= w && 0 <= h && |a| == |b| == RowAt(w, h)
    requires forall x, y :: 0 <= x < w && 0 <= y < h ==> Px(a, w, x, y) == Px(b, w, x, y)
    ensures a == b
    decreases h
  {
    if h > 0 {
      RowsInOrder(w, 0, h - 1);
      var n := RowAt(w, h - 1);
      forall x, y | 0 <= x < w && 0 <= y < h - 1 ensures Px(a[..n], w, x, y) == Px(b[..n], w, x, y) {
        PxInside(w, h - 1, x, y);
        assert Px(a, w, x, y) == Px(b, w, x, y);
      }
      SamePixelsSameRaster(a[..n], b[..n], w, h - 1);
      forall i | 0 <= i < |a| ensures a[i] == b[i] {
        if n <= i {
          assert Px(a, w, i - n, h - 1) == Px(b, w, i - n, h - 1);
        } else {
          assert a[..n][i] == b[..n][i];
        }
      }
    }
  }

  /** `rows` is the box at (`x0`, `y0`) of `data`. */
  ghost predicate Shows(rows: seq<Pixel>, w: int, n: int, data: seq<Pixel>, dw: int, x0: int, y0: int) {
    && |rows| == RowAt(w, n)
    && forall x, y :: 0 <= x < w && 0 <= y < n ==> Px(rows, w, x, y) == Px(data, dw, x0 + x, y0 + y)
  }

  /** One more row cut out. */
  lemma CutRow(rows: seq<Pixel>, w: int, n: int, data: seq<Pixel>, dw: int, x0: int, y0: int)
    requires 0 <= w && 0 <= n && Shows(rows, w, n, data, dw, x0, y0)
    requires 0 <= RowAt(dw, y0 + n) + x0 && RowAt(dw, y0 + n) + x0 + w <= |data|
    ensures var at := RowAt(dw, y0 + n) + x0;
      Shows(rows + data[at..at + w], w, n + 1, data, dw, x0, y0)
  {
    var at := RowAt(dw, y0 + n) + x0;
    var out := rows + data[at..at + w];
    forall x, y | 0 <= x < w && 0 <= y < n + 1 ensures Px(out, w, x, y) == Px(data, dw, x0 + x, y0 + y) {
      if y < n {
        PxInside(w, n, x, y);
        assert Px(out, w, x, y) == Px(rows, w, x, y);
      }
    }
  }

  // -- copying a box from one raster into another ------------------------------

  /** `m` with the pixels from `to` on replaced by `row`. */
  function Splice(m: seq<Pixel>, to: int, row: seq<Pixel>): (r: seq<Pixel>)
    requires 0 <= to && to + |row| <= |m|
    ensures |r| == |m|
  {
    m[..to] + row + m[to + |row|..]
  }

  /** A box that lies on a raster, and its counterpart at (`sx`, `sy`) of another. */
  predicate Fits(len: int, w: int, box: Area, slen: int, sw: int, sx: int, sy: int) {
    && 0 <= box.x && 0 <= box.y && 0 <= box.w && 0 <= box.h && box.x + box.w <= w
    && RowAt(w, box.y + box.h) <= len
    && 0 <= sx && 0 <= sy && sx + box.w <= sw
    && RowAt(sw, sy + box.h) <= slen
  }

  lemma FitsRow(len: int, w: int, box: Area, slen: int, sw: int, sx: int, sy: int, n: int)
    requires Fits(len, w, box, slen, sw, sx, sy) && 0 <= n < box.h
    ensures 0 <= RowAt(w, box.y + n) + box.x && RowAt(w, box.y + n) + box.x + box.w <= len
    ensures 0 <= RowAt(sw, sy + n) + sx && RowAt(sw, sy + n) + sx + box.w <= slen
  {
    RowsInOrder(w, box.y + n, box.y + box.h);
    RowsInOrder(sw, sy + n, sy + box.h);
  }

  /** `m` with the first `n` rows of `box` copied in from (`sx`, `sy`) of `src`. */
  function Blit(m: seq<Pixel>, w: int, box: Area, src: seq<Pixel>, sw: int, sx: int, sy: int, n: int): (r: seq<Pixel>)
    requires Fits(|m|, w, box, |src|, sw, sx, sy) && 0 <= n <= box.h
    ensures |r| == |m|
    decreases n
  {
    if n == 0 then m
    else
      FitsRow(|m|, w, box, |src|, sw, sx, sy, n - 1);
      var from := RowAt(sw, sy + n - 1) + sx;
      Splice(Blit(m, w, box, src, sw, sx, sy, n - 1), RowAt(w, box.y + n - 1) + box.x, src[from..from + box.w])
  }

  lemma SplicePixel(m: seq<Pixel>, w: int, h: int, x0: int, y0: int, row: seq<Pixel>, x: int, y: int)
    requires 0 <= x0 && x0 + |row| <= w && 0 <= y0 < h && RowAt(w, h) <= |m|
    requires 0 <= x < w && 0 <= y < h
    ensures 0 <= RowAt(w, y0) + x0 && RowAt(w, y0) + x0 + |row| <= |m|
    ensures Px(Splice(m, RowAt(w, y0) + x0, row), w, x, y)
         == if y == y0 && x0 <= x < x0 + |row| then row[x - x0] else Px(m, w, x, y)
  {
    RowsInOrder(w, y0, h);
    PxInside(w, h, x, y);
    if y < y0 {
      RowsInOrder(w, y, y0);
    } else if y0 < y {
      RowsInOrder(w, y0, y);
    }
  }

  lemma BlitStep(m: seq<Pixel>, w: int, box: Area, src: seq<Pixel>, sw: int, sx: int, sy: int, n: int)
    requires Fits(|m|, w, box, |src|, sw, sx, sy) && 0 <= n < box.h
    ensures var to, from := RowAt(w, box.y + n) + box.x, RowAt(sw, sy + n) + sx;
      && 0 <= to && to + box.w <= |m| && 0 <= from && from + box.w <= |src|
      && Blit(m, w, box, src, sw, sx, sy, n + 1)
      == Splice(Blit(m, w, box, src, sw, sx, sy, n), to, src[from..from + box.w])
  {
    FitsRow(|m|, w, box, |src|, sw, sx, sy, n);
  }

  lemma BlitRow(m: seq<Pixel>, w: int, h: int, box: Area, src: seq<Pixel>, sw: int, sx: int, sy: int,
                n: int, x: int, y: int)
    requires Fits(|m|, w, box, |src|, sw, sx, sy) && 0 <= n < box.h
    requires box.y + box.h <= h && RowAt(w, h) <= |m| && 0 <= x < w && 0 <= y < h
    ensures Px(Blit(m, w, box, src, sw, sx, sy, n + 1), w, x, y)
         == if y == box.y + n && box.x <= x < box.x + box.w then Px(src, sw, sx + x - box.x, sy + n)
            else Px(Blit(m, w, box, src, sw, sx, sy, n), w, x, y)
  {
    BlitStep(m, w, box, src, sw, sx, sy, n);
    var before := Blit(m, w, box, src, sw, sx, sy, n);
    var from := RowAt(sw, sy + n) + sx;
    var row := src[from..from + box.w];
    SplicePixel(before, w, h, box.x, box.y + n, row, x, y);
    if y == box.y + n && box.x <= x < box.x + box.w {
      assert row[x - box.x] == Px(src, sw, sx + x - box.x, sy + n);
    }
  }

  /** Copying a box changes the pixels of the box and no others. */
  lemma {:induction false} BlitPixel(m: seq<Pixel>, w: int, h: int, box: Area, src: seq<Pixel>, sw: int, sx: int, sy: int,
                                     n: int, x: int, y: int)
    requires Fits(|m|, w, box, |src|, sw, sx, sy) && 0 <= n <= box.h
    requires box.y + box.h <= h && RowAt(w, h) <= |m| && 0 <= x < w && 0 <= y < h
    ensures Px(Blit(m, w, box, src, sw, sx, sy, n), w, x, y)
         == if box.x <= x < box.x + box.w && box.y <= y < box.y + n
            then Px(src, sw, sx + x - box.x, sy + y - box.y) else Px(m, w, x, y)
    decreases n
  {
    if n > 0 {
      BlitPixel(m, w, h, box, src, sw, sx, sy, n - 1, x, y);
      BlitRow(m, w, h, box, src, sw, sx, sy, n - 1, x, y);
    }
  }

  /** Copy a box into `m`, in place, a row at a time. */
  method BlitInto(m: array<Pixel>, w: int, box: Area, src: seq<Pixel>, sw: int, sx: int, sy: int)
    requires Fits(m.Length, w, box, |src|, sw, sx, sy)
    modifies m
    ensures m[..] == Blit(old(m[..]), w, box, src, sw, sx, sy, box.h)
  {
    ghost var was := m[..];
    for n := 0 to box.h
      invariant m[..] == Blit(was, w, box, src, sw, sx, sy, n)
    {
      CopyLineIn(m, was, w, box, src, sw, sx, sy, n);
    }
  }

  /** Copy the next line of a box. */
  method CopyLineIn(m: array<Pixel>, ghost was: seq<Pixel>, w: int, box: Area, src: seq<Pixel>, sw: int, sx: int,
                    sy: int, n: int)
    requires |was| == m.Length && Fits(m.Length, w, box, |src|, sw, sx, sy) && 0 <= n < box.h
    requires m[..] == Blit(was, w, box, src, sw, sx, sy, n)
    modifies m
    ensures m[..] == Blit(was, w, box, src, sw, sx, sy, n + 1)
  {
    BlitStep(was, w, box, src, sw, sx, sy, n);
    var from := RowAt(sw, sy + n) + sx;
    CopyRowIn(m, RowAt(w, box.y + n) + box.x, src[from..from + box.w]);
  }

  /** Copy one row into `m`. */
  method CopyRowIn(m: array<Pixel>, to: int, row: seq<Pixel>)
    requires 0 <= to && to + |row| <= m.Length
    modifies m
    ensures m[..] == Splice(old(m[..]), to, row)
  {
    forall i | 0 <= i < |row| {
      m[to + i] := row[i];
    }
  }
}

/** From a page's pixels to a frame's: the least box around what shows, and its bytes
    in the mixer's colours. */
module Pixels {
  import opened Bytes
  import opened Areas
  import opened Rasters

  /** A box edge is a 32-bit signed integer, and this is the largest. */
  const I32_MAX := 0x7fff_ffff

  /** The byte of a pixel that holds its alpha: last in BGRA, first in AYUV. */
  const BGRA_ALPHA := 3
  const AYUV_ALPHA := 0

  /** What a transparent pixel looks like. */
  const CLEAR: Pixel := [0, 16, 128, 128]

  // -- copy_area ---------------------------------------------------------------

  /** Whether every row of `area` can be sliced out of a page of `len` pixels drawn
      `width` wide. When it cannot, the slice is out of range and the copy panics. */
  predicate Copies(len: int, width: int, area: Area) {
    area.h <= 0 || (0 <= area.x && 0 <= area.y && 0 <= area.w && 0 <= width
                    && RowAt(width, area.y + area.h - 1) + area.x + area.w <= len)
  }

  lemma CopiesRow(len: int, width: int, area: Area, y: int)
    requires Copies(len, width, area) && area.y <= y < area.y + area.h
    ensures 0 <= RowAt(width, y) + area.x <= RowAt(width, y) + area.x + area.w <= len
  {
    RowsInOrder(width, y, area.y + area.h - 1);
  }

  /** The first `n` rows of `area`. */
  function CopyRows(page: seq<Pixel>, width: int, area: Area, n: int): seq<Pixel>
    requires Copies(|page|, width, area) && 0 <= n <= Max(area.h, 0)
    decreases n
  {
    if n == 0 then []
    else
      CopiesRow(|page|, width, area, area.y + n - 1);
      var at := RowAt(width, area.y + n - 1) + area.x;
      CopyRows(page, width, area, n - 1) + page[at..at + area.w]
  }

  function CopyArea(page: seq<Pixel>, width: int, area: Area): seq<Pixel>
    requires Copies(|page|, width, area)
  {
    CopyRows(page, width, area, Max(area.h, 0))
  }

  /** What was copied is the area of the page, pixel for pixel. */
  lemma {:induction false} CopyShows(page: seq<Pixel>, width: int, area: Area, n: int)
    requires Copies(|page|, width, area) && 0 <= n <= Max(area.h, 0)
    ensures Shows(CopyRows(page, width, area, n), area.w, n, page, width, area.x, area.y)
    decreases n
  {
    if n > 0 {
      CopyShows(page, width, area, n - 1);
      CopiesRow(|page|, width, area, area.y + n - 1);
      CutRow(CopyRows(page, width, area, n - 1), area.w, n - 1, page, width, area.x, area.y);
    }
  }

  /** The loop over the rows of an area. */
  method CopyAreaOut(page: seq<Pixel>, width: int, area: Area) returns (into: seq<Pixel>)
    requires Copies(|page|, width, area)
    ensures into == CopyArea(page, width, area)
  {
    into := [];
    var y := area.y;
    while y < area.y + area.h
      invariant area.y <= y <= area.y + Max(area.h, 0)
      invariant into == CopyRows(page, width, area, y - area.y)
    {
      CopiesRow(|page|, width, area, y);
      RowAtIsStride(width, y);
      var at := y * width + area.x;
      into := into + page[at..at + area.w];
      y := y + 1;
    }
  }

  // -- content -----------------------------------------------------------------

  /** Which pixels of a region `w` wide have any alpha. */
  function AlphaSight(region: seq<Pixel>, w: int): Sight {
    (x: int, y: int) => Px(region, w, x, y)[BGRA_ALPHA] != 0
  }

  /** The first column from `x` on of row `y` that is seen, or `w`. */
  function First(see: Sight, w: int, y: int, x: int): (r: int)
    requires 0 <= x <= w
    ensures x <= r <= w
    ensures forall k :: x <= k < r ==> !see(k, y)
    ensures r < w ==> see(r, y)
    decreases w - x
  {
    if x == w || see(x, y) then x else First(see, w, y, x + 1)
  }

  /** The last column before `x` of row `y` that is seen, or -1. */
  function Last(see: Sight, y: int, x: int): (r: int)
    requires 0 <= x
    ensures -1 <= r < x
    ensures forall k :: r < k < x ==> !see(k, y)
    ensures 0 <= r ==> see(r, y)
    decreases x
  {
    if x == 0 || see(x - 1, y) then x - 1 else Last(see, y, x - 1)
  }

  /** The running bounds of `content`: columns [x0, x1) and rows [y0, y1). */
  datatype Bounds = Bounds(x0: int, y0: int, x1: int, y1: int)

  function Widen(b: Bounds, see: Sight, w: int, y: int): Bounds
    requires 0 < w
  {
    var first := First(see, w, y, 0);
    if first == w then b
    else Bounds(Min(b.x0, first), Min(b.y0, y), Max(b.x1, Last(see, y, w) + 1), y + 1)
  }

  /** The bounds of what is seen in the first `n` rows. */
  function BoundsOf(see: Sight, w: int, n: int): Bounds
    requires 0 < w && 0 <= n
    decreases n
  {
    if n == 0 then Bounds(I32_MAX, I32_MAX, -1, -1)
    else Widen(BoundsOf(see, w, n - 1), see, w, n - 1)
  }

  function LineWidth(area: Area): int { Max(area.w, 1) }

  /** How many whole runs of `row` pixels there are in `len`. */
  function Chunks(len: int, row: int): (n: int)
    requires 0 < row
    ensures 0 <= n
    decreases len
  {
    if len < row then 0 else 1 + Chunks(len - row, row)
  }

  lemma {:induction false} ChunksOfRows(w: int, h: int)
    requires 0 < w && 0 <= h
    ensures Chunks(RowAt(w, h), w) == h
    decreases h
  {
    if h > 0 {
      RowsInOrder(w, 0, h - 1);
      ChunksOfRows(w, h - 1);
    }
  }

  /** How many whole lines of the region are looked at. */
  function Lines(region: seq<Pixel>, area: Area): int {
    Min(Chunks(|region|, LineWidth(area)), Max(area.h, 0))
  }

  function Boxed(b: Bounds, area: Area): Area {
    if b.x1 < 0 then NOWHERE
    else Area(area.x + b.x0, area.y + b.y0, b.x1 - b.x0, b.y1 - b.y0)
  }

  function Content(region: seq<Pixel>, area: Area): Area {
    var w := LineWidth(area);
    Boxed(BoundsOf(AlphaSight(region, w), w, Lines(region, area)), area)
  }

  /** The scan, row by row, for what is not wholly transparent. */
  method ContentOf(region: seq<Pixel>, area: Area) returns (box: Area)
    ensures box == Content(region, area)
  {
    var w := LineWidth(area);
    var see, lines := AlphaSight(region, w), Lines(region, area);
    var x0, y0, x1, y1 := I32_MAX, I32_MAX, -1, -1;
    var y := 0;
    while y < lines
      invariant 0 <= y <= lines
      invariant Bounds(x0, y0, x1, y1) == BoundsOf(see, w, y)
    {
      assert BoundsOf(see, w, y + 1) == Widen(Bounds(x0, y0, x1, y1), see, w, y);
      var first := First(see, w, y, 0);
      if first != w {
        var last := Last(see, y, w);
        x0 := Min(x0, first);
        x1 := Max(x1, last + 1);
        y0 := Min(y0, y);
        y1 := y + 1;
      }
      y := y + 1;
    }
    if x1 < 0 {
      return NOWHERE;
    }
    box := Area(area.x + x0, area.y + y0, x1 - x0, y1 - y0);
  }

  /** Nothing seen so far, or a tight box around what was. */
  ghost predicate Found(b: Bounds, see: Sight, w: int, n: int) {
    && Tight(see, w, n, Boxed(b, NOWHERE))
    && (if b.x1 < 0 then b == Bounds(I32_MAX, I32_MAX, -1, -1) else EdgesSeen(see, w, n, Boxed(b, NOWHERE)))
  }

  lemma RowKeepsBounds(b: Bounds, see: Sight, w: int, n: int)
    requires 0 < w && 0 <= n && Found(b, see, w, n) && First(see, w, n, 0) == w
    ensures Found(b, see, w, n + 1)
  {
    if b.x1 >= 0 {
      var left :| 0 <= left < n && see(b.x0, left);
      var right :| 0 <= right < n && see(b.x1 - 1, right);
      assert ColumnSeen(see, n + 1, b.x0) && ColumnSeen(see, n + 1, b.x1 - 1);
    }
  }

  lemma RowStartsBounds(b: Bounds, see: Sight, w: int, n: int)
    requires 0 < w <= I32_MAX && 0 <= n < I32_MAX && Found(b, see, w, n) && b.x1 < 0 && First(see, w, n, 0) < w
    ensures Found(Widen(b, see, w, n), see, w, n + 1)
  {
    var first, last := First(see, w, n, 0), Last(see, n, w);
    assert see(first, n) && see(last, n);
    assert ColumnSeen(see, n + 1, first) && ColumnSeen(see, n + 1, last) && RowSeen(see, w, n);
    assert Widen(b, see, w, n) == Bounds(first, n, last + 1, n + 1);
  }

  lemma RowWidensBounds(b: Bounds, see: Sight, w: int, n: int)
    requires 0 < w && 0 <= n && Found(b, see, w, n) && b.x1 >= 0 && First(see, w, n, 0) < w
    ensures Found(Widen(b, see, w, n), see, w, n + 1)
  {
    var first, last := First(see, w, n, 0), Last(see, n, w);
    var left :| 0 <= left < n && see(b.x0, left);
    var right :| 0 <= right < n && see(b.x1 - 1, right);
    assert see(first, n) && see(last, n);
    var c := Widen(b, see, w, n);
    assert c == Bounds(Min(b.x0, first), b.y0, Max(b.x1, last + 1), n + 1);
    assert ColumnSeen(see, n + 1, c.x0) && ColumnSeen(see, n + 1, c.x1 - 1) && RowSeen(see, w, n);
  }

  lemma WidenKeepsFound(b: Bounds, see: Sight, w: int, n: int)
    requires 0 < w <= I32_MAX && 0 <= n < I32_MAX && Found(b, see, w, n)
    ensures Found(Widen(b, see, w, n), see, w, n + 1)
  {
    if First(see, w, n, 0) == w {
      RowKeepsBounds(b, see, w, n);
    } else if b.x1 < 0 {
      RowStartsBounds(b, see, w, n);
    } else {
      RowWidensBounds(b, see, w, n);
    }
  }

  lemma {:induction false} BoundsAreTight(see: Sight, w: int, n: int)
    requires 0 < w <= I32_MAX && 0 <= n <= I32_MAX
    ensures Found(BoundsOf(see, w, n), see, w, n)
    decreases n
  {
    if n == 0 {
      NothingYet(see, w);
    } else {
      BoundsAreTight(see, w, n - 1);
      WidenKeepsFound(BoundsOf(see, w, n - 1), see, w, n - 1);
    }
  }

  lemma NothingYet(see: Sight, w: int)
    ensures Found(Bounds(I32_MAX, I32_MAX, -1, -1), see, w, 0)
  {
  }

  /** A box of the page as a box of the region that covers `area`. */
  function Within(box: Area, area: Area): Area {
    if box == NOWHERE then NOWHERE else Area(box.x - area.x, box.y - area.y, box.w, box.h)
  }

  /** `content` finds the smallest box around the region's visible pixels, for a
      region that holds the whole of its area. */
  lemma ContentIsTight(region: seq<Pixel>, area: Area)
    requires 0 < area.w <= I32_MAX && 0 <= area.h <= I32_MAX && |region| == RowAt(area.w, area.h)
    ensures Tight(AlphaSight(region, area.w), area.w, area.h, Within(Content(region, area), area))
    ensures Content(region, area) == NOWHERE || !Content(region, area).IsEmpty()
  {
    ChunksOfRows(area.w, area.h);
    var see := AlphaSight(region, area.w);
    BoundsAreTight(see, area.w, area.h);
    var b := BoundsOf(see, area.w, area.h);
    assert Content(region, area) == Boxed(b, area);
    assert b.x1 >= 0 ==> Within(Boxed(b, area), area) == Boxed(b, NOWHERE);
  }

  // -- inside ------------------------------------------------------------------

  /** Strictly within: `a` keeps off all four edges of `b`. */
  predicate Inside(a: Area, b: Area) {
    !a.IsEmpty() && !b.IsEmpty() && a.x > b.x && a.y > b.y && a.x + a.w < b.x + b.w && a.y + a.h < b.y + b.h
  }

  // -- ayuv --------------------------------------------------------------------

  /** What a channel was before its alpha was multiplied in. */
  function Straight(c: byte, a: byte): byte
    requires a != 0
  {
    if a == 255 then c else Min(c * 255 / a, 255)
  }

  function Luma(r: int, g: int, b: int): int { 16 + (47 * r + 157 * g + 16 * b + 128) / 256 }

  function ChromaU(r: int, g: int, b: int): int { 128 + (-26 * r - 86 * g + 112 * b + 128) / 256 }

  function ChromaV(r: int, g: int, b: int): int { 128 + (112 * r - 102 * g - 10 * b + 128) / 256 }

  /** BT.709 in limited range, before rounding. */
  function ExactLuma(r: byte, g: byte, b: byte): real {
    16.0 + 219.0 * (0.2126 * r as real + 0.7152 * g as real + 0.0722 * b as real) / 255.0
  }

  /** How far a colour's blue, or its red, is from its luma, in the range of chroma. */
  function ExactChroma(colour: byte, weight: real, r: byte, g: byte, b: byte): real
    requires weight < 1.0
  {
    128.0 + 224.0 * (colour as real - (0.2126 * r as real + 0.7152 * g as real + 0.0722 * b as real))
            / (2.0 * (1.0 - weight)) / 255.0
  }

  predicate Near(v: int, exact: real, step: real) { -step < v as real - exact < step }

  /** The fixed-point conversion is BT.709's to within a step, a step and a quarter for
      blue chroma, and never leaves the limited range: the limits it is put through
      change nothing. */
  lemma ConversionIsBt709(r: byte, g: byte, b: byte)
    ensures Near(Luma(r, g, b), ExactLuma(r, g, b), 1.0)
    ensures Near(ChromaU(r, g, b), ExactChroma(b, 0.0722, r, g, b), 1.25)
    ensures Near(ChromaV(r, g, b), ExactChroma(r, 0.2126, r, g, b), 1.0)
    ensures 16 <= Luma(r, g, b) <= 235 && 16 <= ChromaU(r, g, b) <= 240 && 16 <= ChromaV(r, g, b) <= 240
  {
  }

  function Limit(v: int, lo: byte, hi: byte): byte
    requires lo <= hi
  {
    Max(lo, Min(v, hi))
  }

  /** A page's pixel in the mixer's colours, its alpha first. */
  function Ayuv(px: Pixel): (r: Pixel)
    ensures r[AYUV_ALPHA] == px[BGRA_ALPHA]
    ensures px[BGRA_ALPHA] == 0 ==> r == CLEAR
    ensures 16 <= r[1] <= 235 && 16 <= r[2] <= 240 && 16 <= r[3] <= 240
  {
    var a := px[BGRA_ALPHA];
    if a == 0 then CLEAR
    else
      var b, g, r := Straight(px[0], a), Straight(px[1], a), Straight(px[2], a);
      [a, Limit(Luma(r, g, b), 16, 235), Limit(ChromaU(r, g, b), 16, 240), Limit(ChromaV(r, g, b), 16, 240)]
  }

  /** A premultiplied channel is no more than its alpha, and comes back as what it was
      multiplied from, rounded down. */
  lemma StraightUndoes(c: byte, a: byte)
    requires c <= a && a != 0
    ensures Straight(c, a) * a <= c * 255 < Straight(c, a) * a + a
  {
    if a != 255 {
      assert c * 255 / a <= 255 by { AtMostWhole(c, a); }
    }
  }

  lemma AtMostWhole(c: nat, a: nat)
    requires c <= a && 0 < a
    ensures c * 255 / a <= 255
  {
    assert c * 255 <= a * 255;
    assert a * 255 / a == 255;
  }

  /** A pixel that cannot be seen is black, and one that can keeps its alpha. */
  lemma ClearIsBlack(px: Pixel)
    ensures px[3] == 0 ==> Ayuv(px) == [0, 16, 128, 128]
    ensures Ayuv(px)[0] == px[3]
    ensures ExactLuma(0, 0, 0) == 16.0 && ExactChroma(0, 0.0722, 0, 0, 0) == 128.0
  {
  }

  /** So a pixel's luma and chroma are BT.709's for its straight colour, in that order
      behind its alpha. */
  lemma AyuvIsBt709(px: Pixel)
    requires px[BGRA_ALPHA] != 0
    ensures var a := px[BGRA_ALPHA];
      var b, g, r := Straight(px[0], a), Straight(px[1], a), Straight(px[2], a);
      && Near(Ayuv(px)[1], ExactLuma(r, g, b), 1.0)
      && Near(Ayuv(px)[2], ExactChroma(b, 0.0722, r, g, b), 1.25)
      && Near(Ayuv(px)[3], ExactChroma(r, 0.2126, r, g, b), 1.0)
  {
    var a := px[BGRA_ALPHA];
    ConversionIsBt709(Straight(px[2], a), Straight(px[1], a), Straight(px[0], a));
  }

  // -- encode ------------------------------------------------------------------

  /** Pixels as the bytes they are, each put through `f`. */
  function Flat(f: Pixel -> Pixel, data: seq<Pixel>): (r: seq<byte>)
    ensures |r| == 4 * |data|
  {
    if |data| == 0 then [] else Flat(f, data[..|data| - 1]) + f(data[|data| - 1])
  }

  /** `tight` as a box of the region that covers `area`. */
  function Shifted(area: Area, tight: Area): Area { Area(tight.x - area.x, tight.y - area.y, tight.w, tight.h) }

  /** Whether `tight` can be sliced out of a region that covers `area`. */
  predicate Slices(region: seq<Pixel>, area: Area, tight: Area) { Copies(|region|, area.w, Shifted(area, tight)) }

  /** The box of the region that goes on the wire. */
  function Payload(region: seq<Pixel>, area: Area, tight: Area): seq<Pixel>
    requires Slices(region, area, tight)
  {
    CopyArea(region, area.w, Shifted(area, tight))
  }

  /** The 28 bytes in front of every frame. */
  function Header(magic: seq<byte>, page: (int, int), box: Area): (r: seq<byte>)
    requires |magic| == 4
    ensures |r| == 28
  {
    magic + Le32(page.0) + Le32(page.1) + Le32(box.x) + Le32(box.y) + Le32(Max(box.w, 0)) + Le32(Max(box.h, 0))
  }

  function Encode(magic: seq<byte>, region: seq<Pixel>, area: Area, tight: Area, page: (int, int)): seq<byte>
    requires |magic| == 4 && Slices(region, area, tight)
  {
    Header(magic, page, tight) + Flat(Ayuv, Payload(region, area, tight))
  }

  lemma {:induction false} FlatAppend(f: Pixel -> Pixel, a: seq<Pixel>, b: seq<Pixel>)
    ensures Flat(f, a + b) == Flat(f, a) + Flat(f, b)
    decreases |b|
  {
    if |b| == 0 {
      assert a + b == a;
    } else {
      var head := b[..|b| - 1];
      FlatAppend(f, a, head);
      assert (a + b)[..|a + b| - 1] == a + head;
      assert Flat(f, a) + Flat(f, head) + f(b[|b| - 1]) == Flat(f, a) + (Flat(f, head) + f(b[|b| - 1]));
    }
  }

  lemma FlatStep(f: Pixel -> Pixel, head: seq<byte>, line: seq<Pixel>, k: nat)
    requires k < |line|
    ensures head + Flat(f, line[..k + 1]) == head + Flat(f, line[..k]) + f(line[k])
  {
    assert line[..k + 1][..k] == line[..k];
    assert head + (Flat(f, line[..k]) + f(line[k])) == head + Flat(f, line[..k]) + f(line[k]);
  }

  /** Every pixel of one line of the box, converted, after what is there. */
  method EncodeLine(head: seq<byte>, line: seq<Pixel>) returns (out: seq<byte>)
    ensures out == head + Flat(Ayuv, line)
  {
    out := head;
    for k := 0 to |line|
      invariant out == head + Flat(Ayuv, line[..k])
    {
      FlatStep(Ayuv, head, line, k);
      out := out + Ayuv(line[k]);
    }
    assert line[..|line|] == line;
  }

  lemma BoxStep(f: Pixel -> Pixel, head: seq<byte>, region: seq<Pixel>, width: int, box: Area, n: int)
    requires Copies(|region|, width, box) && 0 <= n < box.h
    ensures var at := RowAt(width, box.y + n) + box.x;
      && 0 <= at <= at + box.w <= |region|
      && head + Flat(f, CopyRows(region, width, box, n + 1))
      == head + Flat(f, CopyRows(region, width, box, n)) + Flat(f, region[at..at + box.w])
  {
    CopiesRow(|region|, width, box, box.y + n);
    var at := RowAt(width, box.y + n) + box.x;
    FlatBehind(f, head, CopyRows(region, width, box, n), region[at..at + box.w]);
  }

  lemma FlatBehind(f: Pixel -> Pixel, head: seq<byte>, above: seq<Pixel>, line: seq<Pixel>)
    ensures head + Flat(f, above + line) == head + Flat(f, above) + Flat(f, line)
  {
    FlatAppend(f, above, line);
    assert head + (Flat(f, above) + Flat(f, line)) == head + Flat(f, above) + Flat(f, line);
  }

  /** Every row of the box after what is there. */
  method EncodeBox(head: seq<byte>, region: seq<Pixel>, area: Area, tight: Area) returns (out: seq<byte>)
    requires Slices(region, area, tight)
    ensures out == head + Flat(Ayuv, Payload(region, area, tight))
  {
    out := head;
    var box := Shifted(area, tight);
    assert CopyRows(region, area.w, box, 0) == [];
    for y := 0 to Max(tight.h, 0)
      invariant out == head + Flat(Ayuv, CopyRows(region, area.w, box, y))
    {
      out := EncodeRow(out, head, region, area.w, box, y);
    }
  }

  method EncodeRow(soFar: seq<byte>, ghost head: seq<byte>, region: seq<Pixel>, width: int, box: Area, y: int)
    returns (out: seq<byte>)
    requires Copies(|region|, width, box) && 0 <= y < box.h
    requires soFar == head + Flat(Ayuv, CopyRows(region, width, box, y))
    ensures out == head + Flat(Ayuv, CopyRows(region, width, box, y + 1))
  {
    BoxStep(Ayuv, head, region, width, box, y);
    var at := RowAt(width, box.y + y) + box.x;
    out := EncodeLine(soFar, region[at..at + box.w]);
  }

  /** The encoder's loops: a header, and behind it the box cut from the region. */
  method EncodeAs(magic: seq<byte>, region: seq<Pixel>, area: Area, tight: Area, page: (int, int))
    returns (out: seq<byte>)
    requires |magic| == 4 && Slices(region, area, tight)
    ensures out == Encode(magic, region, area, tight, page)
  {
    out := EncodeBox(Header(magic, page, tight), region, area, tight);
  }
}

/** The mixer's side of the pipe: reading the frames graphic mode writes, and
    keeping the picture they add up to. */
module Feed {
  import opened Bytes
  import opened Areas
  import opened Rasters
  import opened Pixels

  const MAGIC: seq<byte> := [71, 77, 88, 70] // GMXF
  const PATCH: seq<byte> := [71, 77, 88, 80] // GMXP
  const WHOLE: seq<byte> := [71, 77, 88, 73] // GMXI
  const HEADER := 28
  const MAX_SIDE := 8192
  const U32_MAX := 0xffff_ffff

  function Saturating(a: int, b: int): int { Min(a + b, U32_MAX) }

  function Word(h: seq<byte>, i: int): nat
    requires |h| == HEADER && 0 <= i < 6
  {
    FromLe32(h[4 + i * 4..8 + i * 4])
  }

  /** What the reader makes of a header: a page's sides and a box on it. */
  function Parse(h: seq<byte>): Option<((int, int), Area)>
    requires |h| == HEADER
  {
    if h[..4] != MAGIC && h[..4] != PATCH && h[..4] != WHOLE then None
    else
      var pw, ph, x, y, w, hh := Word(h, 0), Word(h, 1), Word(h, 2), Word(h, 3), Word(h, 4), Word(h, 5);
      if pw <= MAX_SIDE && ph <= MAX_SIDE && Saturating(x, w) <= pw && Saturating(y, hh) <= ph
      then Some(((pw, ph), Area(x, y, w, hh))) else None
  }

  /** A header the renderer writes for a box on its page is read back as it was,
      exactly when the page is no larger than the mixer allows. */
  lemma ParseHeader(magic: seq<byte>, page: (int, int), box: Area)
    requires magic == MAGIC || magic == PATCH || magic == WHOLE
    requires 0 <= page.0 <= I32_MAX && 0 <= page.1 <= I32_MAX && box.On(page.0, page.1)
    ensures Header(magic, page, box)[..4] == magic
    ensures Parse(Header(magic, page, box))
         == if page.0 <= MAX_SIDE && page.1 <= MAX_SIDE then Some((page, box)) else None
  {
    var h := Header(magic, page, box);
    SixWords(magic, Le32(page.0), Le32(page.1), Le32(box.x), Le32(box.y), Le32(box.w), Le32(box.h));
    WordReads(h, 0, page.0);
    WordReads(h, 1, page.1);
    WordReads(h, 2, box.x);
    WordReads(h, 3, box.y);
    WordReads(h, 4, box.w);
    WordReads(h, 5, box.h);
  }

  lemma WordReads(h: seq<byte>, i: int, v: int)
    requires |h| == HEADER && 0 <= i < 6 && h[4 + i * 4..8 + i * 4] == Le32(v) && 0 <= v <= U32_MAX
    ensures Word(h, i) == v
  {
    Le32RoundTrip(v);
  }

  lemma SixWords(m: seq<byte>, a: seq<byte>, b: seq<byte>, c: seq<byte>, d: seq<byte>, e: seq<byte>, f: seq<byte>)
    requires |m| == |a| == |b| == |c| == |d| == |e| == |f| == 4
    ensures var h := m + a + b + c + d + e + f;
      h[..4] == m && h[4..8] == a && h[8..12] == b && h[12..16] == c && h[16..20] == d && h[20..24] == e && h[24..28] == f
  {
  }

  // -- what the mixer keeps ----------------------------------------------------

  /** A box of AYUV placed on its page. */
  datatype Picture = Picture(within: Area, natural: (int, int), data: seq<Pixel>)

  /** A whole page of I420. */
  datatype Design = Design(data: seq<byte>, w: int, h: int)

  /** The reader's state: the box that patches go into, the pictures handed on so far,
      and whether something came that was no frame. */
  datatype Reader = Reader(held: Option<(Area, seq<Pixel>)>, layer: Option<Picture>,
                           design: Option<Design>, refused: bool)

  const NEW := Reader(None, None, None, false)

  /** What the picture shows at a pixel of the page: nothing outside its box. */
  function Look(layer: Option<Picture>, x: int, y: int): Pixel {
    if layer.Some? && layer.value.within.Has(x, y)
    then Px(layer.value.data, layer.value.within.w, x - layer.value.within.x, y - layer.value.within.y)
    else CLEAR
  }

  /** Bytes grouped into pixels. */
  function Grouped(b: seq<byte>): (r: seq<Pixel>)
    ensures 4 * |r| <= |b| < 4 * |r| + 4
  {
    if |b| < 4 then [] else [b[..4]] + Grouped(b[4..])
  }

  /** A box with no pixels shows nothing. */
  function PlacedPicture(data: seq<Pixel>, page: (int, int), area: Area): (r: Option<Picture>)
    ensures 0 <= area.w && 0 <= area.h ==> (r.None? <==> area.IsEmpty())
  {
    if area.w == 0 || area.h == 0 then None else Some(Picture(area, page, data))
  }

  /** The patched part sticks out of the held box nowhere. */
  predicate PatchFits(at: Area, part: Area) {
    part.x >= at.x && part.y >= at.y && part.x + part.w <= at.x + at.w && part.y + part.h <= at.y + at.h
  }

  /** One that has pixels fits exactly when the held box has them all. */
  lemma FitsExactly(at: Area, part: Area)
    requires !part.IsEmpty()
    ensures PatchFits(at, part) <==> forall x, y :: part.Has(x, y) ==> at.Has(x, y)
  {
    if forall x, y :: part.Has(x, y) ==> at.Has(x, y) {
      assert part.Has(part.x, part.y) && part.Has(part.x + part.w - 1, part.y + part.h - 1);
    }
  }

  /** The held box with the patch in its place, if it fits there. */
  function Patched(pixels: seq<Pixel>, at: Area, patch: seq<Pixel>, part: Area): Option<seq<Pixel>>
    requires 0 <= part.w && 0 <= part.h && |pixels| == RowAt(at.w, at.h) && |patch| == RowAt(part.w, part.h)
  {
    if !PatchFits(at, part) then None
    else
      PatchIsIn(pixels, at, patch, part);
      Some(Blit(pixels, at.w, Shifted(at, part), patch, part.w, 0, 0, part.h))
  }

  /** It has the patch's pixels where the patch is, and its own everywhere else. */
  lemma PatchShows(pixels: seq<Pixel>, at: Area, patch: seq<Pixel>, part: Area, x: int, y: int)
    requires 0 <= part.w && 0 <= part.h && |pixels| == RowAt(at.w, at.h) && |patch| == RowAt(part.w, part.h)
    requires PatchFits(at, part) && at.Has(x, y)
    ensures Patched(pixels, at, patch, part).Some?
    ensures Px(Patched(pixels, at, patch, part).value, at.w, x - at.x, y - at.y)
         == if part.Has(x, y) then Px(patch, part.w, x - part.x, y - part.y) else Px(pixels, at.w, x - at.x, y - at.y)
  {
    PatchIsIn(pixels, at, patch, part);
    BlitPixel(pixels, at.w, at.h, Shifted(at, part), patch, part.w, 0, 0, part.h, x - at.x, y - at.y);
  }

  lemma PatchIsIn(pixels: seq<Pixel>, at: Area, patch: seq<Pixel>, part: Area)
    requires 0 <= part.w && 0 <= part.h && |pixels| == RowAt(at.w, at.h) && |patch| == RowAt(part.w, part.h)
    requires PatchFits(at, part)
    ensures Fits(|pixels|, at.w, Shifted(at, part), |patch|, part.w, 0, 0)
  {
    RowsInOrder(at.w, part.y - at.y + part.h, at.h);
  }

  /** The patch in its place in the held box; nothing happens to one that sticks out. */
  method Apply(pixels: array<Pixel>, at: Area, patch: seq<Pixel>, part: Area) returns (fits: bool)
    requires 0 <= part.w && 0 <= part.h && pixels.Length == RowAt(at.w, at.h) && |patch| == RowAt(part.w, part.h)
    modifies pixels
    ensures match Patched(old(pixels[..]), at, patch, part)
            case None => !fits && pixels[..] == old(pixels[..])
            case Some(after) => fits && pixels[..] == after
  {
    fits := PatchFits(at, part);
    if fits {
      PatchIsIn(pixels[..], at, patch, part);
      BlitInto(pixels, at.w, Shifted(at, part), patch, part.w, 0, 0);
    }
  }

  // -- one frame ---------------------------------------------------------------

  function BodyLength(magic: seq<byte>, area: Area): (n: int)
    requires 0 <= area.w && 0 <= area.h
    ensures 0 <= n
  {
    RowsInOrder(area.w, 0, area.h);
    if magic == WHOLE then RowAt(area.w, area.h) * 3 / 2 else RowAt(area.w, area.h) * 4
  }

  ghost predicate Sound(r: Reader) {
    match r.held
    case None => true
    case Some((at, pixels)) => 0 <= at.w && 0 <= at.h && |pixels| == RowAt(at.w, at.h)
  }

  /** A whole frame has arrived. */
  function Accept(r: Reader, magic: seq<byte>, page: (int, int), area: Area, body: seq<byte>): (r': Reader)
    requires Sound(r) && 0 <= area.w && 0 <= area.h && |body| == BodyLength(magic, area)
    ensures Sound(r')
  {
    if magic == WHOLE then r.(design := Some(Design(body, area.w, area.h)))
    else
      var data := Grouped(body);
      if magic == PATCH then
        match r.held
        case None => r
        case Some((at, pixels)) =>
          match Patched(pixels, at, data, area)
          case None => r
          case Some(after) => r.(held := Some((at, after)), layer := PlacedPicture(after, page, at))
      else r.(held := Some((area, data)), layer := PlacedPicture(data, page, area))
  }

  /** Everything in `stream` that is whole, and what is left over. A frame that is
      not one ends the reading. */
  function Received(r: Reader, stream: seq<byte>): (result: (Reader, seq<byte>))
    requires Sound(r)
    ensures Sound(result.0)
    decreases |stream|
  {
    if r.refused || |stream| < HEADER then (r, stream)
    else
      match Parse(stream[..HEADER])
      case None => (r.(refused := true), stream[HEADER..])
      case Some((page, area)) =>
        var magic := stream[..4];
        var end := HEADER + BodyLength(magic, area);
        if |stream| < end then (r, stream)
        else Received(Accept(r, magic, page, area, stream[HEADER..end]), stream[end..])
  }

  /** How the pipe cuts the stream makes no difference: what is left over from the
      first part is read again in front of the next. */
  lemma {:induction false} AnyChunking(r: Reader, a: seq<byte>, b: seq<byte>)
    requires Sound(r)
    ensures var (first, rest) := Received(r, a);
      Received(r, a + b) == Received(first, rest + b)
    decreases |a|
  {
    if r.refused || |a| < HEADER {
    } else {
      var header := a[..HEADER];
      assert (a + b)[..HEADER] == header && (a + b)[..4] == a[..4];
      match Parse(header)
      case None =>
        assert (a + b)[HEADER..] == a[HEADER..] + b;
      case Some((page, area)) =>
        var end := HEADER + BodyLength(a[..4], area);
        if end <= |a| {
          assert (a + b)[HEADER..end] == a[HEADER..end] && (a + b)[end..] == a[end..] + b;
          AnyChunking(Accept(r, a[..4], page, area, a[HEADER..end]), a[end..], b);
        }
    }
  }

  /** Read frames from the pipe until what is left is not a whole one, patching the
      held box in place. */
  method Read(pipe: seq<byte>) returns (r: Reader, rest: seq<byte>)
    ensures (r, rest) == Received(NEW, pipe)
  {
    r, rest := NEW, pipe;
    while !r.refused && HEADER <= |rest|
      invariant Sound(r)
      invariant Received(r, rest) == Received(NEW, pipe)
      decreases !r.refused, |rest|
    {
      var parsed := Parse(rest[..HEADER]);
      if parsed.None? {
        r, rest := r.(refused := true), rest[HEADER..];
        return;
      }
      var (page, area) := parsed.value;
      var magic := rest[..4];
      var end := HEADER + BodyLength(magic, area);
      if |rest| < end {
        return;
      }
      var body := rest[HEADER..end];
      ghost var next := Accept(r, magic, page, area, body);
      if magic == WHOLE {
        r := r.(design := Some(Design(body, area.w, area.h)));
      } else if magic == PATCH {
        if r.held.Some? {
          var (at, held) := r.held.value;
          var pixels := new Pixel[|held|](i requires 0 <= i < |held| => held[i]);
          assert pixels[..] == held;
          var fits := Apply(pixels, at, Grouped(body), area);
          if fits {
            r := r.(held := Some((at, pixels[..])), layer := PlacedPicture(pixels[..], page, at));
          }
        }
      } else {
        var data := Grouped(body);
        r := r.(held := Some((area, data)), layer := PlacedPicture(data, page, area));
      }
      assert r == next;
      rest := rest[end..];
    }
  }

  // -- a frame of the renderer's -----------------------------------------------

  lemma {:induction false} GroupedFlat(f: Pixel -> Pixel, data: seq<Pixel>)
    ensures |Grouped(Flat(f, data))| == |data|
    ensures forall i :: 0 <= i < |data| ==> Grouped(Flat(f, data))[i] == f(data[i])
  {
    if |data| > 0 {
      GroupedFlat(f, data[1..]);
      FlatAppend(f, data[..1], data[1..]);
      assert data == data[..1] + data[1..];
      assert Flat(f, data[..1]) == f(data[0]);
      var b := Flat(f, data);
      assert b[..4] == f(data[0]) && b[4..] == Flat(f, data[1..]);
      assert Grouped(b) == [f(data[0])] + Grouped(Flat(f, data[1..]));
    }
  }

  /** A frame the mixer allows is received whole. */
  lemma FrameReceived(r: Reader, magic: seq<byte>, page: (int, int), box: Area, body: seq<byte>)
    requires Sound(r) && !r.refused
    requires magic == MAGIC || magic == PATCH || magic == WHOLE
    requires 0 <= page.0 <= MAX_SIDE && 0 <= page.1 <= MAX_SIDE && box.On(page.0, page.1)
    requires |body| == BodyLength(magic, box)
    ensures Received(r, Header(magic, page, box) + body) == (Accept(r, magic, page, box, body), [])
  {
    var header := Header(magic, page, box);
    ParseHeader(magic, page, box);
    var stream := header + body;
    assert stream[..HEADER] == header && stream[..4] == header[..4];
    assert stream[HEADER..|stream|] == body && stream[|stream|..] == [];
  }
}

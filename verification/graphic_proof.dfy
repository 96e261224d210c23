/** What every interleaving of the sender's steps keeps, seen from the mixer's end
    of the pipe. */
module GraphicProof {
  import opened Bytes
  import opened Areas
  import opened Rasters
  import opened Pixels
  import opened Graphic
  import opened Feed

  /** What the mixer has once it has read everything written so far. */
  function Mixer(s: State): (r: Reader)
    ensures Sound(r)
  {
    Received(NEW, s.wire).0
  }

  /** Which pixels of a held box can be seen. */
  function Visible(data: seq<Pixel>, w: int): Sight {
    (x: int, y: int) => Px(data, w, x, y)[AYUV_ALPHA] != 0
  }

  /** The mixer holds the box `shown` and shows it; the box is tight around what
      can be seen of it; and it lies on the page it was sent for. */
  ghost predicate Holds(r: Reader, shown: Area) {
    match r.held
    case None => shown == NOWHERE && r.layer == None
    case Some((at, data)) =>
      && at == shown
      && |data| == RowAt(at.w, at.h)
      && Tight(Visible(data, at.w), at.w, at.h, Whole(at.w, at.h))
      && if at == NOWHERE then r.layer == None
         else
           && r.layer.Some? && r.layer.value.within == at && r.layer.value.data == data
           && !at.IsEmpty() && at.On(r.layer.value.natural.0, r.layer.value.natural.1)
  }

  /** The picture shows the page at every pixel that is neither pending nor taken. */
  ghost predicate Agrees(r: Reader, s: State, taken: Area) {
    forall x, y :: 0 <= x < s.width && 0 <= y < s.height && !s.dirty.Has(x, y) && !taken.Has(x, y)
      ==> Look(r.layer, x, y) == Ayuv(Px(s.mirror, s.width, x, y))
  }

  /** Any picture is of a page this size, unless the whole page is yet to come. */
  ghost predicate SizeKnown(r: Reader, page: (int, int), coming: Area) {
    r.layer.None? || r.layer.value.natural == page || coming == Whole(page.0, page.1)
  }

  ghost predicate Clean(r: Reader) { Sound(r) && !r.refused }

  /** Nothing is taken and nothing is on its way: the mixer is at `r`. */
  ghost predicate Settled(r: Reader, s: State) {
    && Clean(r)
    && Holds(r, s.shown)
    && Agrees(r, s, NOWHERE)
    && SizeKnown(r, (s.width, s.height), s.dirty)
  }

  ghost predicate InvTaken(r: Reader, s: State)
    requires s.phase.Taken?
  {
    var Taken(taken, page) := s.phase;
    && Clean(r)
    && Holds(r, s.shown)
    && Agrees(r, s, taken)
    && !taken.IsEmpty() && taken.On(page.0, page.1)
    && 0 <= page.0 <= MAX_SIDE && 0 <= page.1 <= MAX_SIDE
    && (page == (s.width, s.height) || s.dirty == Whole(s.width, s.height))
    && SizeKnown(r, page, taken)
  }

  ghost predicate InvReady(r: Reader, s: State)
    requires s.phase.Ready?
  {
    var Ready(taken, frame) := s.phase;
    && Clean(r)
    && Agrees(r, s, taken)
    && Received(r, frame).1 == []
    && Settled(Received(r, frame).0, s)
  }

  /** What every reachable state of a transparent page keeps. */
  ghost predicate Inv(s: State) {
    && Shaped(s)
    && s.width <= MAX_SIDE && s.height <= MAX_SIDE
    && (s.dirty.IsEmpty() || s.dirty.On(s.width, s.height))
    && Received(NEW, s.wire).1 == []
    && match s.phase
       case Waiting => Settled(Mixer(s), s)
       case Taken(_, _) => InvTaken(Mixer(s), s)
       case Ready(_, _) => InvReady(Mixer(s), s)
       case Ended => true
       case Crashed => true
  }

  // -- paint -------------------------------------------------------------------

  /** What painting does to the pixels and to the dirty box: a pixel outside the
      dirty box afterwards was outside it before and is what it was. */
  ghost predicate PaintKept(s: State, s': State) {
    && s'.width == s.width && s'.height == s.height && |s'.mirror| == |s.mirror|
    && s' == s.(mirror := s'.mirror, dirty := s'.dirty)
    && (s.dirty.IsEmpty() || s.dirty.On(s.width, s.height) ==> s'.dirty.IsEmpty() || s'.dirty.On(s.width, s.height))
    && (s.dirty == Whole(s.width, s.height) ==> s'.dirty == Whole(s.width, s.height))
    && (forall x, y :: s.dirty.Has(x, y) ==> s'.dirty.Has(x, y))
    && (forall x, y :: 0 <= x < s.width && 0 <= y < s.height && !s'.dirty.Has(x, y)
          ==> Px(s'.mirror, s.width, x, y) == Px(s.mirror, s.width, x, y))
  }

  lemma PaintRectPixel(s: State, bgra: seq<Pixel>, rect: Area, x: int, y: int)
    requires Shaped(s) && |s.mirror| <= |bgra| && 0 <= x < s.width && 0 <= y < s.height
    ensures Px(PaintRect(s, bgra, rect).mirror, s.width, x, y)
         == if rect.Has(x, y) then Px(bgra, s.width, x, y) else Px(s.mirror, s.width, x, y)
  {
    var d := rect.Clamp(s.width, s.height);
    ClampKeepsThePage(rect, s.width, s.height);
    if !d.IsEmpty() {
      ClampedFits(d, s.width, s.height, |s.mirror|, |bgra|);
      BlitPixel(s.mirror, s.width, s.height, d, bgra, s.width, d.x, d.y, d.h, x, y);
    }
    assert d.Has(x, y) <==> rect.Has(x, y);
  }

  lemma PaintRectDirty(s: State, bgra: seq<Pixel>, rect: Area)
    requires Shaped(s) && |s.mirror| <= |bgra|
    ensures var d := PaintRect(s, bgra, rect).dirty;
      && (s.dirty.IsEmpty() || s.dirty.On(s.width, s.height) ==> d.IsEmpty() || d.On(s.width, s.height))
      && (s.dirty == Whole(s.width, s.height) ==> d == Whole(s.width, s.height))
      && (forall x, y :: s.dirty.Has(x, y) ==> d.Has(x, y))
      && (forall x, y :: 0 <= x < s.width && 0 <= y < s.height && rect.Has(x, y) ==> d.Has(x, y))
  {
    var d := rect.Clamp(s.width, s.height);
    ClampKeepsThePage(rect, s.width, s.height);
    if !d.IsEmpty() {
      UnionIsLeast(s.dirty, d, NOWHERE);
      if s.dirty.IsEmpty() || s.dirty.On(s.width, s.height) {
        UnionStaysOn(s.dirty, d, s.width, s.height);
      }
    }
  }

  lemma PaintRectKept(s: State, bgra: seq<Pixel>, rect: Area)
    requires Shaped(s) && |s.mirror| <= |bgra|
    ensures PaintKept(s, PaintRect(s, bgra, rect))
  {
    var s' := PaintRect(s, bgra, rect);
    PaintRectDirty(s, bgra, rect);
    forall x, y | 0 <= x < s.width && 0 <= y < s.height && !s'.dirty.Has(x, y)
      ensures Px(s'.mirror, s.width, x, y) == Px(s.mirror, s.width, x, y)
    {
      PaintRectPixel(s, bgra, rect, x, y);
    }
  }

  lemma {:induction false} PaintRectsKept(s: State, bgra: seq<Pixel>, rects: seq<Area>)
    requires Shaped(s) && |s.mirror| <= |bgra|
    ensures PaintKept(s, PaintRects(s, bgra, rects))
    decreases |rects|
  {
    if |rects| > 0 {
      PaintRectsKept(s, bgra, rects[..|rects| - 1]);
      PaintRectKept(PaintRects(s, bgra, rects[..|rects| - 1]), bgra, rects[|rects| - 1]);
    }
  }

  /** Painting shows through: the mirror has the painted pixels in every painted
      rectangle, and what it had everywhere else. */
  lemma {:induction false} PaintShows(s: State, bgra: seq<Pixel>, rects: seq<Area>, x: int, y: int)
    requires Shaped(s) && |s.mirror| <= |bgra| && 0 <= x < s.width && 0 <= y < s.height
    ensures Px(PaintRects(s, bgra, rects).mirror, s.width, x, y)
         == if exists d :: d in rects && d.Has(x, y) then Px(bgra, s.width, x, y) else Px(s.mirror, s.width, x, y)
    decreases |rects|
  {
    if |rects| > 0 {
      var rest, d := rects[..|rects| - 1], rects[|rects| - 1];
      PaintShows(s, bgra, rest, x, y);
      PaintRectsKept(s, bgra, rest);
      PaintRectPixel(PaintRects(s, bgra, rest), bgra, d, x, y);
      assert rects == rest + [d];
    }
  }

  /** A box with every pixel of the page that is pending or painted has the whole of
      the new dirty box. */
  lemma {:induction false} PaintRectsLeast(s: State, bgra: seq<Pixel>, rects: seq<Area>, box: Area)
    requires Shaped(s) && |s.mirror| <= |bgra|
    requires forall x, y :: s.dirty.Has(x, y) ==> box.Has(x, y)
    requires forall d, x, y :: d in rects && d.Has(x, y) && 0 <= x < s.width && 0 <= y < s.height ==> box.Has(x, y)
    ensures forall x, y :: PaintRects(s, bgra, rects).dirty.Has(x, y) ==> box.Has(x, y)
    decreases |rects|
  {
    if |rects| > 0 {
      var rest, last := rects[..|rects| - 1], rects[|rects| - 1];
      assert rects == rest + [last];
      PaintRectsLeast(s, bgra, rest, box);
      PaintRectsKept(s, bgra, rest);
      PaintRectLeast(PaintRects(s, bgra, rest), bgra, last, box);
    }
  }

  lemma PaintRectLeast(s: State, bgra: seq<Pixel>, rect: Area, box: Area)
    requires Shaped(s) && |s.mirror| <= |bgra|
    requires forall x, y :: s.dirty.Has(x, y) ==> box.Has(x, y)
    requires forall x, y :: rect.Has(x, y) && 0 <= x < s.width && 0 <= y < s.height ==> box.Has(x, y)
    ensures forall x, y :: PaintRect(s, bgra, rect).dirty.Has(x, y) ==> box.Has(x, y)
  {
    var d := rect.Clamp(s.width, s.height);
    ClampKeepsThePage(rect, s.width, s.height);
    if !d.IsEmpty() {
      forall x, y | d.Has(x, y) ensures box.Has(x, y) {
        assert rect.Has(x, y);
      }
      UnionIsLeast(s.dirty, d, box);
    }
  }

  /** What one hold of `paint` does, on a page of the size it has: every pixel of every
      painted rectangle is the one painted and is pending, every other is what it was,
      and nothing more is pending than a box around what was and what was painted. */
  lemma PaintIsTaken(s: State, bgra: seq<Pixel>, rects: seq<Area>)
    requires Shaped(s) && !s.phase.Crashed? && s.width * s.height <= |bgra|
    ensures var t := Next(s, Paint(bgra, s.width, s.height, rects));
      && t == s.(mirror := t.mirror, dirty := t.dirty) && |t.mirror| == |s.mirror|
      && (forall d, x, y :: d in rects && d.Has(x, y) && 0 <= x < s.width && 0 <= y < s.height ==>
            Px(t.mirror, s.width, x, y) == Px(bgra, s.width, x, y) && t.dirty.Has(x, y))
      && (forall x, y :: 0 <= x < s.width && 0 <= y < s.height && !(exists d :: d in rects && d.Has(x, y)) ==>
            Px(t.mirror, s.width, x, y) == Px(s.mirror, s.width, x, y))
      && (forall x, y :: s.dirty.Has(x, y) ==> t.dirty.Has(x, y))
      && (forall box: Area :: Covers(box, s, rects) ==> forall x, y :: t.dirty.Has(x, y) ==> box.Has(x, y))
  {
    RowAtIsStride(s.width, s.height);
    var t := PaintRects(s, bgra, rects);
    PaintRectsKept(s, bgra, rects);
    forall x, y | 0 <= x < s.width && 0 <= y < s.height
      ensures Px(t.mirror, s.width, x, y)
           == if exists d :: d in rects && d.Has(x, y) then Px(bgra, s.width, x, y) else Px(s.mirror, s.width, x, y)
    {
      PaintShows(s, bgra, rects, x, y);
    }
    forall d, x, y | d in rects && d.Has(x, y) && 0 <= x < s.width && 0 <= y < s.height ensures t.dirty.Has(x, y) {
      PaintIsPending(s, bgra, rects, d, x, y);
    }
    forall box: Area | Covers(box, s, rects) ensures forall x, y :: t.dirty.Has(x, y) ==> box.Has(x, y) {
      PaintRectsLeast(s, bgra, rects, box);
    }
  }

  /** It has what is pending and every pixel of the page in a painted rectangle. */
  ghost predicate Covers(box: Area, s: State, rects: seq<Area>) {
    && (forall x, y :: s.dirty.Has(x, y) ==> box.Has(x, y))
    && (forall d, x, y :: d in rects && d.Has(x, y) && 0 <= x < s.width && 0 <= y < s.height ==> box.Has(x, y))
  }

  lemma {:induction false} PaintIsPending(s: State, bgra: seq<Pixel>, rects: seq<Area>, d: Area, x: int, y: int)
    requires Shaped(s) && |s.mirror| <= |bgra| && d in rects && d.Has(x, y) && 0 <= x < s.width && 0 <= y < s.height
    ensures PaintRects(s, bgra, rects).dirty.Has(x, y)
    decreases |rects|
  {
    var rest, last := rects[..|rects| - 1], rects[|rects| - 1];
    assert rects == rest + [last];
    PaintRectsKept(s, bgra, rest);
    PaintRectDirty(PaintRects(s, bgra, rest), bgra, last);
    if d != last {
      PaintIsPending(s, bgra, rest, d, x, y);
    }
  }

  /** And on a page of another size: all of it is blank and pending. Too few pixels for
      the size they are said to have, this one or another, change nothing. */
  lemma ResizeIsTaken(s: State, bgra: seq<Pixel>, width: Length, height: Length, rects: seq<Area>)
    requires Shaped(s) && !s.phase.Crashed?
    ensures var t := Next(s, Paint(bgra, width, height, rects));
      if |bgra| < width * height then t == s
      else (width, height) != (s.width, s.height) ==>
        && t == s.(mirror := t.mirror, width := width, height := height, dirty := Area(0, 0, width, height))
        && |t.mirror| == width * height
        && forall x, y :: 0 <= x < width && 0 <= y < height ==> Px(t.mirror, width, x, y) == [0, 0, 0, 0]
  {
    RowAtIsStride(width, height);
    RowsInOrder(width, 0, height);
    if |bgra| >= width * height {
      forall x, y | 0 <= x < width && 0 <= y < height
        ensures Px(Resized(s, width, height).mirror, width, x, y) == [0, 0, 0, 0]
      {
        PxInside(width, height, x, y);
      }
    }
  }

  /** Whatever is painted, what was agreed on stays agreed on, and a page of a new
      size is pending whole. */
  lemma PaintedKeeps(s: State, e: Event, r: Reader, taken: Area)
    requires Shaped(s) && e.Paint?
    requires s.dirty.IsEmpty() || s.dirty.On(s.width, s.height)
    ensures var s' := Painted(s, e.bgra, e.width, e.height, e.rects);
      && s' == s.(mirror := s'.mirror, width := s'.width, height := s'.height, dirty := s'.dirty)
      && (s'.dirty.IsEmpty() || s'.dirty.On(s'.width, s'.height))
      && ((s'.width, s'.height) == (s.width, s.height)
          || ((s'.width, s'.height) == (e.width, e.height) && s'.dirty == Whole(s'.width, s'.height)))
      && (s.dirty == Whole(s.width, s.height) ==> s'.dirty == Whole(s'.width, s'.height))
      && (Agrees(r, s, taken) ==> Agrees(r, s', taken))
  {
    if RowAt(e.width, e.height) <= |e.bgra| && e.width == s.width && e.height == s.height {
      PaintRectsKept(s, e.bgra, e.rects);
    }
  }

  lemma PaintKeepsInv(s: State, e: Event)
    requires Inv(s) && e.Paint? && e.width <= MAX_SIDE && e.height <= MAX_SIDE
    ensures Inv(Painted(s, e.bgra, e.width, e.height, e.rects))
  {
    PaintedKeeps(s, e, Mixer(s), NOWHERE);
    match s.phase
    case Waiting =>
    case Taken(taken, page) =>
      PaintedKeeps(s, e, Mixer(s), taken);
    case Ready(taken, frame) =>
      PaintedKeeps(s, e, Mixer(s), taken);
      PaintedKeeps(s, e, Received(Mixer(s), frame).0, NOWHERE);
    case Ended =>
    case Crashed =>
  }

  // -- take and write ----------------------------------------------------------

  lemma TakeKeepsInv(s: State)
    requires Inv(s) && s.phase.Waiting?
    ensures Inv(TakeDirty(s))
  {
    ClampKeepsThePage(s.dirty, s.width, s.height);
  }

  lemma WriteKeepsInv(s: State, ok: bool)
    requires Inv(s) && s.phase.Ready?
    ensures Inv(WriteOut(s, ok))
  {
    AnyChunking(NEW, s.wire, s.phase.frame);
    assert [] + s.phase.frame == s.phase.frame;
  }

  // -- copy --------------------------------------------------------------------

  /** `data` is the box of the mirror, converted pixel by pixel. */
  ghost predicate Converted(data: seq<Pixel>, box: Area, mirror: seq<Pixel>, width: int) {
    && |data| == RowAt(box.w, box.h)
    && forall x, y :: 0 <= x < box.w && 0 <= y < box.h ==>
         Px(data, box.w, x, y) == Ayuv(Px(mirror, width, box.x + x, box.y + y))
  }

  lemma ConvertedAt(data: seq<Pixel>, box: Area, mirror: seq<Pixel>, width: int, x: int, y: int)
    requires Converted(data, box, mirror, width) && box.Has(x, y)
    ensures Px(data, box.w, x - box.x, y - box.y) == Ayuv(Px(mirror, width, x, y))
  {
    var i, j := x - box.x, y - box.y;
    assert Px(data, box.w, i, j) == Ayuv(Px(mirror, width, box.x + i, box.y + j));
  }

  /** Whether `box`, if it has any rows, lies in `area`. */
  ghost predicate Inner(box: Area, area: Area) {
    box.h == 0 || (&& area.x <= box.x && box.x + box.w <= area.x + area.w
                   && area.y <= box.y && box.y + box.h <= area.y + area.h)
  }

  lemma PayloadPixel(mirror: seq<Pixel>, width: int, area: Area, box: Area, x: int, y: int)
    requires Copies(|mirror|, width, area) && 0 <= area.h && 0 <= box.h && Inner(box, area)
    requires Slices(CopyArea(mirror, width, area), area, box)
    requires 0 <= x < box.w && 0 <= y < box.h
    ensures |Payload(CopyArea(mirror, width, area), area, box)| == RowAt(box.w, box.h)
    ensures Px(Payload(CopyArea(mirror, width, area), area, box), box.w, x, y) == Px(mirror, width, box.x + x, box.y + y)
  {
    var region := CopyArea(mirror, width, area);
    CopyShows(mirror, width, area, area.h);
    CopyShows(region, area.w, Shifted(area, box), box.h);
    CutTwice(mirror, width, region, area, Payload(region, area, box), box, x, y);
  }

  /** A box cut from a region cut from the page shows the page. */
  lemma CutTwice(page: seq<Pixel>, width: int, region: seq<Pixel>, area: Area, cut: seq<Pixel>, box: Area, x: int, y: int)
    requires Shows(region, area.w, area.h, page, width, area.x, area.y)
    requires Shows(cut, box.w, box.h, region, area.w, box.x - area.x, box.y - area.y)
    requires Inner(box, area) && 0 <= x < box.w && 0 <= y < box.h
    ensures Px(cut, box.w, x, y) == Px(page, width, box.x + x, box.y + y)
  {
    var (i, j) := (box.x - area.x + x, box.y - area.y + y);
    assert Px(cut, box.w, x, y) == Px(region, area.w, i, j);
    assert Px(region, area.w, i, j) == Px(page, width, area.x + i, area.y + j);
  }

  /** The pixels of a frame are the mirror's, converted, at their own place. */
  lemma FramePixels(mirror: seq<Pixel>, width: int, area: Area, box: Area)
    requires Copies(|mirror|, width, area) && 0 <= area.h && 0 <= box.h && Inner(box, area)
    requires Slices(CopyArea(mirror, width, area), area, box)
    ensures Converted(Grouped(Flat(Ayuv, Payload(CopyArea(mirror, width, area), area, box))), box, mirror, width)
  {
    var payload := Payload(CopyArea(mirror, width, area), area, box);
    var data := Grouped(Flat(Ayuv, payload));
    CopyShows(CopyArea(mirror, width, area), area.w, Shifted(area, box), box.h);
    GroupedFlat(Ayuv, payload);
    forall x, y | 0 <= x < box.w && 0 <= y < box.h
      ensures Px(data, box.w, x, y) == Ayuv(Px(mirror, width, box.x + x, box.y + y))
    {
      PxInside(box.w, box.h, x, y);
      PayloadPixel(mirror, width, area, box, x, y);
    }
  }

  /** A box tight in the region is tight in the frame cut from it. */
  lemma TightMoves(see: Sight, w: int, h: int, box: Area, cut: Sight)
    requires EdgesSeen(see, w, h, box) && Tight(see, w, h, box)
    requires forall x, y :: 0 <= x < box.w && 0 <= y < box.h ==> cut(x, y) == see(box.x + x, box.y + y)
    ensures Tight(cut, box.w, box.h, Whole(box.w, box.h))
  {
    ColumnMoves(see, w, h, box, cut, 0);
    ColumnMoves(see, w, h, box, cut, box.w - 1);
    RowMoves(see, w, h, box, cut, 0);
    RowMoves(see, w, h, box, cut, box.h - 1);
  }

  lemma ColumnMoves(see: Sight, w: int, h: int, box: Area, cut: Sight, x: int)
    requires box.On(w, h) && Tight(see, w, h, box) && 0 <= x < box.w && ColumnSeen(see, h, box.x + x)
    requires forall y :: 0 <= y < box.h ==> cut(x, y) == see(box.x + x, box.y + y)
    ensures ColumnSeen(cut, box.h, x)
  {
    var y :| 0 <= y < h && see(box.x + x, y);
    assert cut(x, y - box.y);
  }

  lemma RowMoves(see: Sight, w: int, h: int, box: Area, cut: Sight, y: int)
    requires box.On(w, h) && Tight(see, w, h, box) && 0 <= y < box.h && RowSeen(see, w, box.y + y)
    requires forall x :: 0 <= x < box.w ==> cut(x, y) == see(box.x + x, box.y + y)
    ensures RowSeen(cut, box.w, y)
  {
    var x :| 0 <= x < w && see(x, box.y + y);
    assert cut(x - box.x, y);
  }

  /** The box copied for a whole frame covers what was taken and what was shown. */
  lemma CopiedArea(shown: Area, taken: Area, page: (int, int))
    requires Side(page.0) && Side(page.1)
    requires !taken.IsEmpty() && taken.On(page.0, page.1)
    ensures var area := shown.Union(taken).Clamp(page.0, page.1);
      && area.On(page.0, page.1) && !area.IsEmpty()
      && (forall x, y :: taken.Has(x, y) ==> area.Has(x, y))
      && (forall x, y :: shown.Has(x, y) && 0 <= x < page.0 && 0 <= y < page.1 ==> area.Has(x, y))
  {
    var u := shown.Union(taken);
    UnionIsLeast(shown, taken, NOWHERE);
    ClampKeepsThePage(u, page.0, page.1);
    assert taken.Has(taken.x, taken.y);
    assert u.Clamp(page.0, page.1).Has(taken.x, taken.y);
  }

  /** What a whole frame holds: the tight box of the area, and its pixels. */
  ghost predicate FrameOf(data: seq<Pixel>, box: Area, area: Area, mirror: seq<Pixel>, width: int) {
    && (box == NOWHERE || (!box.IsEmpty() && area.x <= box.x && box.x + box.w <= area.x + area.w
                           && area.y <= box.y && box.y + box.h <= area.y + area.h))
    && Converted(data, box, mirror, width)
    && Tight(Visible(data, box.w), box.w, box.h, Whole(box.w, box.h))
    && (forall x, y :: area.Has(x, y) && !box.Has(x, y) ==> Ayuv(Px(mirror, width, x, y)) == CLEAR)
  }

  /** What is in the area but not in its tight box is transparent. */
  lemma OutsideIsClear(mirror: seq<Pixel>, width: int, area: Area, x: int, y: int)
    requires Copies(|mirror|, width, area) && 0 < area.w <= I32_MAX && 0 < area.h <= I32_MAX
    requires area.Has(x, y) && !Content(CopyArea(mirror, width, area), area).Has(x, y)
    ensures Ayuv(Px(mirror, width, x, y)) == CLEAR
  {
    var region := CopyArea(mirror, width, area);
    CopyShows(mirror, width, area, area.h);
    ContentIsTight(region, area);
    assert Px(region, area.w, x - area.x, y - area.y) == Px(mirror, width, area.x + (x - area.x), area.y + (y - area.y));
    assert !AlphaSight(region, area.w)(x - area.x, y - area.y);
  }

  /** The frame shows alpha where the area does. */
  lemma SameAlpha(mirror: seq<Pixel>, width: int, area: Area, box: Area, data: seq<Pixel>, x: int, y: int)
    requires Copies(|mirror|, width, area) && 0 <= x < box.w && 0 <= y < box.h
    requires area.x <= box.x && box.x + box.w <= area.x + area.w && area.y <= box.y && box.y + box.h <= area.y + area.h
    requires Px(data, box.w, x, y) == Ayuv(Px(mirror, width, box.x + x, box.y + y))
    ensures Visible(data, box.w)(x, y)
         == AlphaSight(CopyArea(mirror, width, area), area.w)(box.x - area.x + x, box.y - area.y + y)
  {
    CopyShows(mirror, width, area, area.h);
    assert Px(CopyArea(mirror, width, area), area.w, box.x - area.x + x, box.y - area.y + y)
        == Px(mirror, width, area.x + (box.x - area.x + x), area.y + (box.y - area.y + y));
  }

  /** A box tight around what can be seen of the region that covers `area`. */
  ghost predicate BoxOf(region: seq<Pixel>, area: Area, box: Area) {
    box == NOWHERE
    || (&& area.x <= box.x && box.x + box.w <= area.x + area.w && area.y <= box.y && box.y + box.h <= area.y + area.h
        && !box.IsEmpty()
        && Tight(AlphaSight(region, area.w), area.w, area.h, Shifted(area, box))
        && EdgesSeen(AlphaSight(region, area.w), area.w, area.h, Shifted(area, box)))
  }

  lemma ContentBox(mirror: seq<Pixel>, width: int, area: Area)
    requires Copies(|mirror|, width, area) && 0 < area.w <= I32_MAX && 0 < area.h <= I32_MAX
    ensures var region := CopyArea(mirror, width, area);
      Slices(region, area, Content(region, area)) && BoxOf(region, area, Content(region, area))
  {
    CopyShows(mirror, width, area, area.h);
    ContentSlices(mirror, width, area);
    ContentIsTight(CopyArea(mirror, width, area), area);
  }

  lemma FrameIsTight(mirror: seq<Pixel>, width: int, area: Area, box: Area, data: seq<Pixel>)
    requires Copies(|mirror|, width, area) && BoxOf(CopyArea(mirror, width, area), area, box)
    requires Converted(data, box, mirror, width)
    ensures Tight(Visible(data, box.w), box.w, box.h, Whole(box.w, box.h))
  {
    if box != NOWHERE {
      var see := AlphaSight(CopyArea(mirror, width, area), area.w);
      SameAlphas(mirror, width, area, box, data, see, Visible(data, box.w));
      MovedTight(see, area, box, Visible(data, box.w));
    }
  }

  lemma MovedTight(see: Sight, area: Area, box: Area, cut: Sight)
    requires Tight(see, area.w, area.h, Shifted(area, box)) && EdgesSeen(see, area.w, area.h, Shifted(area, box))
    requires forall x, y :: 0 <= x < box.w && 0 <= y < box.h ==>
      cut(x, y) == see(Shifted(area, box).x + x, Shifted(area, box).y + y)
    ensures Tight(cut, box.w, box.h, Whole(box.w, box.h))
  {
    TightMoves(see, area.w, area.h, Shifted(area, box), cut);
  }

  lemma SameAlphas(mirror: seq<Pixel>, width: int, area: Area, box: Area, data: seq<Pixel>, see: Sight, cut: Sight)
    requires Copies(|mirror|, width, area)
    requires area.x <= box.x && box.x + box.w <= area.x + area.w && area.y <= box.y && box.y + box.h <= area.y + area.h
    requires see == AlphaSight(CopyArea(mirror, width, area), area.w) && cut == Visible(data, box.w)
    requires Converted(data, box, mirror, width)
    ensures forall x, y :: 0 <= x < box.w && 0 <= y < box.h ==>
      cut(x, y) == see(Shifted(area, box).x + x, Shifted(area, box).y + y)
  {
    forall x, y | 0 <= x < box.w && 0 <= y < box.h
      ensures cut(x, y) == see(Shifted(area, box).x + x, Shifted(area, box).y + y)
    {
      SameAlpha(mirror, width, area, box, data, x, y);
      assert Shifted(area, box).x + x == box.x - area.x + x && Shifted(area, box).y + y == box.y - area.y + y;
    }
  }

  lemma FrameIsTheArea(mirror: seq<Pixel>, width: int, area: Area)
    requires Copies(|mirror|, width, area) && 0 < area.w <= I32_MAX && 0 < area.h <= I32_MAX
    ensures var region := CopyArea(mirror, width, area);
      var box := Content(region, area);
      && Slices(region, area, box)
      && FrameOf(Grouped(Flat(Ayuv, Payload(region, area, box))), box, area, mirror, width)
  {
    ContentBox(mirror, width, area);
    forall x, y | area.Has(x, y) && !Content(CopyArea(mirror, width, area), area).Has(x, y)
      ensures Ayuv(Px(mirror, width, x, y)) == CLEAR
    {
      OutsideIsClear(mirror, width, area, x, y);
    }
    FrameAdds(mirror, width, area, Content(CopyArea(mirror, width, area), area));
  }

  lemma FrameAdds(mirror: seq<Pixel>, width: int, area: Area, box: Area)
    requires Copies(|mirror|, width, area) && 0 <= area.h && Slices(CopyArea(mirror, width, area), area, box)
    requires BoxOf(CopyArea(mirror, width, area), area, box)
    requires forall x, y :: area.Has(x, y) && !box.Has(x, y) ==> Ayuv(Px(mirror, width, x, y)) == CLEAR
    ensures FrameOf(Grouped(Flat(Ayuv, Payload(CopyArea(mirror, width, area), area, box))), box, area, mirror, width)
  {
    FramePixels(mirror, width, area, box);
    FrameIsTight(mirror, width, area, box, Grouped(Flat(Ayuv, Payload(CopyArea(mirror, width, area), area, box))));
  }

  /** The mixer once a whole frame of `box` has arrived. */
  function AfterWhole(r: Reader, page: (int, int), box: Area, data: seq<Pixel>): Reader {
    r.(held := Some((box, data)), layer := PlacedPicture(data, page, box))
  }

  lemma WholeReceived(r: Reader, page: (int, int), region: seq<Pixel>, area: Area, box: Area)
    requires Clean(r) && 0 <= page.0 <= MAX_SIDE && 0 <= page.1 <= MAX_SIDE && box.On(page.0, page.1)
    requires Slices(region, area, box)
    ensures Received(r, Encode(MAGIC, region, area, box, page))
         == (AfterWhole(r, page, box, Grouped(Flat(Ayuv, Payload(region, area, box)))), [])
  {
    CopyShows(region, area.w, Shifted(area, box), Max(box.h, 0));
    FrameReceived(r, MAGIC, page, box, Flat(Ayuv, Payload(region, area, box)));
  }

  /** A pixel neither shown, taken nor pending is transparent on the page. */
  lemma EmptyElsewhere(r: Reader, s: State, taken: Area, x: int, y: int)
    requires Holds(r, s.shown) && Agrees(r, s, taken)
    requires 0 <= x < s.width && 0 <= y < s.height && !s.dirty.Has(x, y)
    requires !taken.Has(x, y) && !s.shown.Has(x, y)
    ensures Ayuv(Px(s.mirror, s.width, x, y)) == CLEAR
  {
    assert Look(r.layer, x, y) == CLEAR;
  }

  lemma WholeLook(r: Reader, page: (int, int), box: Area, data: seq<Pixel>, x: int, y: int)
    requires box == NOWHERE || !box.IsEmpty()
    ensures Look(AfterWhole(r, page, box, data).layer, x, y)
         == if box.Has(x, y) then Px(data, box.w, x - box.x, y - box.y) else CLEAR
  {
  }

  lemma WholePixel(r: Reader, s: State, area: Area, box: Area, data: seq<Pixel>, x: int, y: int)
    requires s.phase.Taken? && InvTaken(r, s) && Side(s.phase.page.0) && Side(s.phase.page.1)
    requires area == s.shown.Union(s.phase.taken).Clamp(s.phase.page.0, s.phase.page.1)
    requires FrameOf(data, box, area, s.mirror, s.width)
    requires 0 <= x < s.width && 0 <= y < s.height && !s.dirty.Has(x, y)
    ensures Look(AfterWhole(r, s.phase.page, box, data).layer, x, y) == Ayuv(Px(s.mirror, s.width, x, y))
  {
    var Taken(taken, page) := s.phase;
    WholeLook(r, page, box, data, x, y);
    if box.Has(x, y) {
      ConvertedAt(data, box, s.mirror, s.width, x, y);
    } else if !area.Has(x, y) {
      CopiedArea(s.shown, taken, page);
      EmptyElsewhere(r, s, taken, x, y);
    }
  }

  /** After a whole frame the picture shows the page wherever nothing is pending. */
  lemma WholeAgrees(r: Reader, s: State, area: Area, box: Area, data: seq<Pixel>)
    requires s.phase.Taken? && InvTaken(r, s) && Side(s.phase.page.0) && Side(s.phase.page.1)
    requires area == s.shown.Union(s.phase.taken).Clamp(s.phase.page.0, s.phase.page.1)
    requires FrameOf(data, box, area, s.mirror, s.width)
    ensures Agrees(AfterWhole(r, s.phase.page, box, data), s, NOWHERE)
  {
    forall x, y | 0 <= x < s.width && 0 <= y < s.height && !s.dirty.Has(x, y)
      ensures Look(AfterWhole(r, s.phase.page, box, data).layer, x, y) == Ayuv(Px(s.mirror, s.width, x, y))
    {
      WholePixel(r, s, area, box, data, x, y);
    }
  }

  lemma WholeKeepsInv(s: State)
    requires Inv(s) && s.phase.Taken? && !s.design && !Inside(s.phase.taken, s.shown)
    requires Copies(|s.mirror|, s.width, ToCopy(s.shown, s.phase.taken, s.phase.page))
    ensures Inv(Sent(s))
  {
    var Taken(taken, page) := s.phase;
    var area := ToCopy(s.shown, taken, page);
    CopiedArea(s.shown, taken, page);
    FrameIsTheArea(s.mirror, s.width, area);
    var region := CopyArea(s.mirror, s.width, area);
    var box := Content(region, area);
    WholeReceived(Mixer(s), page, region, area, box);
    var data := Grouped(Flat(Ayuv, Payload(region, area, box)));
    WholeAgrees(Mixer(s), s, area, box, data);
    WholeSettles(s, area, box, data);
  }

  lemma WholeSettles(s: State, area: Area, box: Area, data: seq<Pixel>)
    requires Inv(s) && s.phase.Taken? && area.On(s.phase.page.0, s.phase.page.1)
    requires FrameOf(data, box, area, s.mirror, s.width)
    requires Agrees(AfterWhole(Mixer(s), s.phase.page, box, data), s, NOWHERE)
    ensures Settled(AfterWhole(Mixer(s), s.phase.page, box, data), s.(shown := box))
  {
  }

  // -- patches -----------------------------------------------------------------

  /** A change that keeps off all four edges leaves a tight box tight. */
  lemma PatchKeepsTight(see: Sight, after: Sight, box: Area, inner: Area)
    requires Inside(inner, box) && Tight(see, box.w, box.h, Whole(box.w, box.h))
    requires forall x, y :: 0 <= x < box.w && 0 <= y < box.h && !Shifted(box, inner).Has(x, y) ==> after(x, y) == see(x, y)
    ensures Tight(after, box.w, box.h, Whole(box.w, box.h))
  {
    var w, h := box.w, box.h;
    var left :| 0 <= left < h && see(0, left);
    var right :| 0 <= right < h && see(w - 1, right);
    var top :| 0 <= top < w && see(top, 0);
    var low :| 0 <= low < w && see(low, h - 1);
    assert after(0, left) && after(w - 1, right) && after(top, 0) && after(low, h - 1);
    assert ColumnSeen(after, h, 0) && ColumnSeen(after, h, w - 1) && RowSeen(after, w, 0) && RowSeen(after, w, h - 1);
  }

  /** The held box once a patch of `part` has been copied into it. */
  function AfterPatch(held: seq<Pixel>, at: Area, part: Area, data: seq<Pixel>): seq<Pixel>
    requires Inside(part, at) && |held| == RowAt(at.w, at.h) && |data| == RowAt(part.w, part.h)
  {
    PatchIsIn(held, at, data, part);
    Blit(held, at.w, Shifted(at, part), data, part.w, 0, 0, part.h)
  }

  lemma PatchPixel(held: seq<Pixel>, at: Area, part: Area, data: seq<Pixel>, x: int, y: int)
    requires Inside(part, at) && |held| == RowAt(at.w, at.h) && |data| == RowAt(part.w, part.h)
    requires at.Has(x, y)
    ensures Px(AfterPatch(held, at, part, data), at.w, x - at.x, y - at.y)
         == if part.Has(x, y) then Px(data, part.w, x - part.x, y - part.y) else Px(held, at.w, x - at.x, y - at.y)
  {
    PatchIsIn(held, at, data, part);
    BlitPixel(held, at.w, at.h, Shifted(at, part), data, part.w, 0, 0, part.h, x - at.x, y - at.y);
  }

  lemma PatchTight(held: seq<Pixel>, at: Area, part: Area, data: seq<Pixel>)
    requires Inside(part, at) && |held| == RowAt(at.w, at.h) && |data| == RowAt(part.w, part.h)
    requires Tight(Visible(held, at.w), at.w, at.h, Whole(at.w, at.h))
    ensures Tight(Visible(AfterPatch(held, at, part, data), at.w), at.w, at.h, Whole(at.w, at.h))
  {
    var before, after := Visible(held, at.w), Visible(AfterPatch(held, at, part, data), at.w);
    forall x, y | 0 <= x < at.w && 0 <= y < at.h && !Shifted(at, part).Has(x, y)
      ensures after(x, y) == before(x, y)
    {
      PatchPixel(held, at, part, data, at.x + x, at.y + y);
    }
    PatchKeepsTight(before, after, at, part);
  }

  /** The mixer once a patch of `part` has arrived. */
  function AfterPart(r: Reader, page: (int, int), part: Area, data: seq<Pixel>): Reader
    requires r.held.Some? && Inside(part, r.held.value.0) && |data| == RowAt(part.w, part.h)
    requires |r.held.value.1| == RowAt(r.held.value.0.w, r.held.value.0.h)
  {
    var (at, held) := r.held.value;
    AfterWhole(r, page, at, AfterPatch(held, at, part, data))
  }

  lemma PartReceived(r: Reader, page: (int, int), region: seq<Pixel>, part: Area)
    requires Clean(r) && 0 <= page.0 <= MAX_SIDE && 0 <= page.1 <= MAX_SIDE && part.On(page.0, page.1)
    requires r.held.Some? && Inside(part, r.held.value.0) && |region| == RowAt(part.w, part.h)
    ensures Slices(region, part, part)
    ensures |Grouped(Flat(Ayuv, Payload(region, part, part)))| == RowAt(part.w, part.h)
    ensures Received(r, Encode(PATCH, region, part, part, page))
         == (AfterPart(r, page, part, Grouped(Flat(Ayuv, Payload(region, part, part)))), [])
  {
    CopyShows(region, part.w, Shifted(part, part), part.h);
    var payload := Payload(region, part, part);
    GroupedFlat(Ayuv, payload);
    FrameReceived(r, PATCH, page, part, Flat(Ayuv, payload));
  }

  lemma PartLook(r: Reader, page: (int, int), part: Area, data: seq<Pixel>, x: int, y: int)
    requires r.held.Some? && Inside(part, r.held.value.0) && |data| == RowAt(part.w, part.h)
    requires Holds(r, r.held.value.0)
    ensures Look(AfterPart(r, page, part, data).layer, x, y)
         == if part.Has(x, y) then Px(data, part.w, x - part.x, y - part.y) else Look(r.layer, x, y)
  {
    var (at, held) := r.held.value;
    WholeLook(r, page, at, AfterPatch(held, at, part, data), x, y);
    if at.Has(x, y) {
      PatchPixel(held, at, part, data, x, y);
    }
  }

  lemma PartPixel(r: Reader, s: State, data: seq<Pixel>, x: int, y: int)
    requires s.phase.Taken? && InvTaken(r, s) && Inside(s.phase.taken, s.shown)
    requires Converted(data, s.phase.taken, s.mirror, s.width)
    requires 0 <= x < s.width && 0 <= y < s.height && !s.dirty.Has(x, y)
    ensures r.held.Some? && r.held.value.0 == s.shown && |r.held.value.1| == RowAt(s.shown.w, s.shown.h)
    ensures Look(AfterPart(r, s.phase.page, s.phase.taken, data).layer, x, y) == Ayuv(Px(s.mirror, s.width, x, y))
  {
    var taken := s.phase.taken;
    PartLook(r, s.phase.page, taken, data, x, y);
    if taken.Has(x, y) {
      ConvertedAt(data, taken, s.mirror, s.width, x, y);
    }
  }

  lemma PartSettles(r: Reader, s: State, data: seq<Pixel>)
    requires s.phase.Taken? && InvTaken(r, s) && Inside(s.phase.taken, s.shown)
    requires Converted(data, s.phase.taken, s.mirror, s.width)
    ensures r.held.Some? && r.held.value.0 == s.shown && |r.held.value.1| == RowAt(s.shown.w, s.shown.h)
    ensures Settled(AfterPart(r, s.phase.page, s.phase.taken, data), s)
  {
    var Taken(taken, page) := s.phase;
    var r' := AfterPart(r, page, taken, data);
    PatchTight(r.held.value.1, s.shown, taken, data);
    forall x, y | 0 <= x < s.width && 0 <= y < s.height && !s.dirty.Has(x, y)
      ensures Look(r'.layer, x, y) == Ayuv(Px(s.mirror, s.width, x, y))
    {
      PartPixel(r, s, data, x, y);
    }
    assert r.layer.value.natural == page;
  }

  lemma PartArrives(s: State)
    requires Inv(s) && s.phase.Taken? && Inside(s.phase.taken, s.shown) && Copies(|s.mirror|, s.width, s.phase.taken)
    ensures var region := CopyArea(s.mirror, s.width, s.phase.taken);
      && Slices(region, s.phase.taken, s.phase.taken)
      && var (r, rest) := Received(Mixer(s), Encode(PATCH, region, s.phase.taken, s.phase.taken, s.phase.page));
         rest == [] && Settled(r, s)
  {
    var Taken(taken, page) := s.phase;
    var region := CopyArea(s.mirror, s.width, taken);
    CopyShows(s.mirror, s.width, taken, taken.h);
    PartReceived(Mixer(s), page, region, taken);
    FramePixels(s.mirror, s.width, taken, taken);
    PartSettles(Mixer(s), s, Grouped(Flat(Ayuv, Payload(region, taken, taken))));
  }

  lemma PartKeepsInv(s: State)
    requires Inv(s) && s.phase.Taken? && !s.design && Inside(s.phase.taken, s.shown)
    requires Copies(|s.mirror|, s.width, ToCopy(s.shown, s.phase.taken, s.phase.page))
    ensures Inv(Sent(s))
  {
    PartArrives(s);
    var s' := Sent(s);
    assert s' == s.(phase := s'.phase);
  }

  // -- every run ---------------------------------------------------------------

  /** What the mixer accepts: no page larger than it was ever going to ask for. */
  predicate Asked(e: Event) { e.Paint? ==> e.width <= MAX_SIDE && e.height <= MAX_SIDE }

  lemma StepKeepsInv(s: State, e: Event)
    requires Inv(s) && !s.design && Asked(e)
    ensures Inv(Next(s, e))
  {
    match e
    case Paint(bgra, width, height, rects) =>
      PaintKeepsInv(s, e);
    case Stop =>
    case Take =>
      if s.phase.Waiting? { TakeKeepsInv(s); }
    case Copy =>
      if s.phase.Taken? && Copies(|s.mirror|, s.width, ToCopy(s.shown, s.phase.taken, s.phase.page)) {
        if Inside(s.phase.taken, s.shown) { PartKeepsInv(s); } else { WholeKeepsInv(s); }
      }
    case Write(ok) =>
      if s.phase.Ready? { WriteKeepsInv(s, ok); }
  }

  lemma StartInv(width: int, height: int)
    requires 0 <= width <= MAX_SIDE && 0 <= height <= MAX_SIDE
    ensures Inv(Start(width, height, false))
  {
    var s := Start(width, height, false);
    forall x, y | 0 <= x < width && 0 <= y < height
      ensures Look(Mixer(s).layer, x, y) == Ayuv(Px(s.mirror, width, x, y))
    {
      PxInside(width, height, x, y);
    }
  }
}

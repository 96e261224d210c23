/** The main results about graphic mode: whole runs, from either end of the pipe. */
module GraphicRuns {
  import opened Bytes
  import opened Areas
  import opened Rasters
  import opened Pixels
  import opened Graphic
  import opened Feed
  import opened GraphicProof

  /** Every interleaving of paints, resizes, stops and writer steps keeps the
      invariant. */
  lemma {:induction false} EveryRun(width: int, height: int, events: seq<Event>)
    requires 0 <= width <= MAX_SIDE && 0 <= height <= MAX_SIDE
    requires forall e :: e in events ==> Asked(e)
    ensures Inv(Run(Start(width, height, false), events))
    ensures !Run(Start(width, height, false), events).design
    decreases |events|
  {
    var s := Start(width, height, false);
    if |events| == 0 {
      StartInv(width, height);
    } else {
      EveryRun(width, height, events[..|events| - 1]);
      StepKeepsInv(Run(s, events[..|events| - 1]), events[|events| - 1]);
    }
  }

  // -- the same picture as sending the whole page every time --------------------

  /** What the mixer would show had the whole page been sent, as it is now. */
  function WholePagePicture(s: State): Option<Picture>
    requires Shaped(s)
  {
    var all := Whole(s.width, s.height);
    WholePageCopies(s);
    ContentSlices(s.mirror, s.width, all);
    var region := CopyArea(s.mirror, s.width, all);
    Received(NEW, Encode(MAGIC, region, all, Content(region, all), (s.width, s.height))).0.layer
  }

  lemma WholePageCopies(s: State)
    requires Shaped(s)
    ensures Copies(|s.mirror|, s.width, Whole(s.width, s.height))
  {
  }

  /** The whole page's picture: its tight box and the page's pixels there. */
  lemma WholePageShows(s: State)
    requires Shaped(s) && 0 < s.width <= MAX_SIDE && 0 < s.height <= MAX_SIDE
    ensures match WholePagePicture(s)
      case None => forall x, y :: 0 <= x < s.width && 0 <= y < s.height ==> Ayuv(Px(s.mirror, s.width, x, y)) == CLEAR
      case Some(p) =>
        && p.natural == (s.width, s.height)
        && !p.within.IsEmpty() && p.within != NOWHERE
        && FrameOf(p.data, p.within, Whole(s.width, s.height), s.mirror, s.width)
  {
    var all := Whole(s.width, s.height);
    WholePageCopies(s);
    FrameIsTheArea(s.mirror, s.width, all);
    var region := CopyArea(s.mirror, s.width, all);
    var box := Content(region, all);
    var data := Grouped(Flat(Ayuv, Payload(region, all, box)));
    WholeReceived(NEW, (s.width, s.height), region, all, box);
    assert WholePagePicture(s) == PlacedPicture(data, (s.width, s.height), box);
    if box == NOWHERE {
      forall x, y | 0 <= x < s.width && 0 <= y < s.height ensures Ayuv(Px(s.mirror, s.width, x, y)) == CLEAR {
        assert all.Has(x, y) && !box.Has(x, y);
      }
    }
  }

  /** A picture of a page of the given size, no larger than what can be seen of it. */
  ghost predicate Proper(layer: Option<Picture>, w: int, h: int) {
    layer.Some? ==>
      var p := layer.value;
      && p.natural == (w, h) && p.within.On(w, h) && !p.within.IsEmpty()
      && |p.data| == RowAt(p.within.w, p.within.h)
      && Tight(Visible(p.data, p.within.w), p.within.w, p.within.h, Whole(p.within.w, p.within.h))
  }

  function BoxOn(layer: Option<Picture>): Area { if layer.None? then NOWHERE else layer.value.within }

  /** What is seen of the page is what is seen of the box, at its place. */
  ghost predicate Placed(see: Sight, cut: Sight, at: Area, w: int, h: int) {
    && (forall x, y :: 0 <= x < at.w && 0 <= y < at.h && cut(x, y) ==> see(at.x + x, at.y + y))
    && (forall x, y :: 0 <= x < w && 0 <= y < h && see(x, y) ==> at.Has(x, y))
  }

  /** A tight box is tight on the page it is placed on, when nothing else is seen. */
  lemma TightPlaced(see: Sight, cut: Sight, at: Area, w: int, h: int)
    requires at.On(w, h) && !at.IsEmpty() && Tight(cut, at.w, at.h, Whole(at.w, at.h)) && Placed(see, cut, at, w, h)
    ensures Tight(see, w, h, at)
  {
    ColumnPlaced(see, cut, at, w, h, 0);
    ColumnPlaced(see, cut, at, w, h, at.w - 1);
    RowPlaced(see, cut, at, w, h, 0);
    RowPlaced(see, cut, at, w, h, at.h - 1);
  }

  lemma ColumnPlaced(see: Sight, cut: Sight, at: Area, w: int, h: int, x: int)
    requires at.On(w, h) && 0 <= x < at.w && ColumnSeen(cut, at.h, x) && Placed(see, cut, at, w, h)
    ensures ColumnSeen(see, h, at.x + x)
  {
    var y :| 0 <= y < at.h && cut(x, y);
    assert see(at.x + x, at.y + y);
  }

  lemma RowPlaced(see: Sight, cut: Sight, at: Area, w: int, h: int, y: int)
    requires at.On(w, h) && 0 <= y < at.h && RowSeen(cut, at.w, y) && Placed(see, cut, at, w, h)
    ensures RowSeen(see, w, at.y + y)
  {
    var x :| 0 <= x < at.w && cut(x, y);
    assert see(at.x + x, at.y + y);
  }

  lemma LayerPlaced(p: Picture, w: int, h: int, see: Sight, cut: Sight)
    requires p.within.On(w, h) && cut == Visible(p.data, p.within.w)
    requires forall x, y :: 0 <= x < w && 0 <= y < h ==> see(x, y) == (Look(Some(p), x, y)[AYUV_ALPHA] != 0)
    ensures Placed(see, cut, p.within, w, h)
  {
    var at := p.within;
    forall x, y | 0 <= x < at.w && 0 <= y < at.h && cut(x, y) ensures see(at.x + x, at.y + y) {
      assert Look(Some(p), at.x + x, at.y + y) == Px(p.data, at.w, x, y);
    }
  }

  lemma LayerIsTight(layer: Option<Picture>, w: int, h: int, see: Sight)
    requires Proper(layer, w, h)
    requires forall x, y :: 0 <= x < w && 0 <= y < h ==> see(x, y) == (Look(layer, x, y)[AYUV_ALPHA] != 0)
    ensures Tight(see, w, h, BoxOn(layer))
  {
    if layer.Some? {
      var p := layer.value;
      LayerPlaced(p, w, h, see, Visible(p.data, p.within.w));
      TightPlaced(see, Visible(p.data, p.within.w), p.within, w, h);
    }
  }

  /** Pictures that look the same at every pixel are the same picture, byte for
      byte: each is no larger than what can be seen. */
  lemma SameLookSamePicture(a: Option<Picture>, b: Option<Picture>, w: int, h: int)
    requires Proper(a, w, h) && Proper(b, w, h)
    requires forall x, y :: 0 <= x < w && 0 <= y < h ==> Look(a, x, y) == Look(b, x, y)
    ensures a == b
  {
    var see: Sight := (x, y) => Look(a, x, y)[AYUV_ALPHA] != 0;
    LayerIsTight(a, w, h, see);
    LayerIsTight(b, w, h, see);
    TightIsUnique(see, w, h, BoxOn(a), BoxOn(b));
    if a.Some? && b.Some? {
      SameLookSameData(a, b, w, h);
    }
  }

  lemma SameLookSameData(a: Option<Picture>, b: Option<Picture>, w: int, h: int)
    requires a.Some? && b.Some? && Proper(a, w, h) && Proper(b, w, h) && a.value.within == b.value.within
    requires forall x, y :: 0 <= x < w && 0 <= y < h ==> Look(a, x, y) == Look(b, x, y)
    ensures a.value.data == b.value.data
  {
    var at := a.value.within;
    forall x, y | 0 <= x < at.w && 0 <= y < at.h
      ensures Px(a.value.data, at.w, x, y) == Px(b.value.data, at.w, x, y)
    {
      assert Look(a, at.x + x, at.y + y) == Look(b, at.x + x, at.y + y);
    }
    SamePixelsSameRaster(a.value.data, b.value.data, at.w, at.h);
  }

  lemma WholePageLook(s: State, x: int, y: int)
    requires Shaped(s) && 0 <= x < s.width <= MAX_SIDE && 0 <= y < s.height <= MAX_SIDE
    ensures Look(WholePagePicture(s), x, y) == Ayuv(Px(s.mirror, s.width, x, y))
  {
    WholePageShows(s);
    if WholePagePicture(s).Some? {
      var p := WholePagePicture(s).value;
      if p.within.Has(x, y) {
        ConvertedAt(p.data, p.within, s.mirror, s.width, x, y);
      } else {
        assert Whole(s.width, s.height).Has(x, y);
      }
    }
  }

  /** When nothing is pending and nothing is on its way, the mixer's picture is the
      one it would have had were the whole page sent every time: the same box, the
      same page and the same bytes. */
  lemma RefinesWholePage(s: State)
    requires Inv(s) && s.phase.Waiting? && s.dirty.IsEmpty() && 0 < s.width && 0 < s.height
    ensures Mixer(s).layer == WholePagePicture(s)
  {
    WholePageShows(s);
    LooksLikeThePage(s);
    SameLookSamePicture(Mixer(s).layer, WholePagePicture(s), s.width, s.height);
  }

  lemma LooksLikeThePage(s: State)
    requires Inv(s) && s.phase.Waiting? && s.dirty.IsEmpty() && 0 < s.width && 0 < s.height
    ensures forall x, y :: 0 <= x < s.width && 0 <= y < s.height ==>
      Look(Mixer(s).layer, x, y) == Look(WholePagePicture(s), x, y)
  {
    forall x, y | 0 <= x < s.width && 0 <= y < s.height
      ensures Look(Mixer(s).layer, x, y) == Look(WholePagePicture(s), x, y)
    {
      WholePageLook(s, x, y);
    }
  }

  /** An empty page has no pixel to be dirty, so it is never sent: the mixer then
      has the right picture only if it was showing nothing. */
  lemma EmptyPageKeepsThePicture(s: State)
    requires Inv(s) && s.phase.Waiting? && s.dirty.IsEmpty()
    ensures Mixer(s).layer == WholePagePicture(s) <==> (0 < s.width && 0 < s.height) || Mixer(s).layer.None?
  {
    if 0 < s.width && 0 < s.height {
      RefinesWholePage(s);
    } else {
      EmptyPagePicture(s);
    }
  }

  /** A page that shrinks to nothing while the writer waits leaves the writer
      waiting and nothing written. */
  lemma ShrinkIsNotTaken(s: State)
    requires Shaped(s) && s.phase.Waiting? && !s.stop && 0 < s.width
    ensures TakeDirty(Painted(s, [], 0, 0, [])) == Resized(s, 0, 0)
  {
    assert TakeDirty(Resized(s, 0, 0)) == Resized(s, 0, 0);
  }

  /** So the last picture stays up, where the empty page shows none. */
  lemma EmptyPageIsNotSent(s: State)
    requires Inv(s) && s.phase.Waiting? && Mixer(s).layer.Some?
    ensures Mixer(Resized(s, 0, 0)).layer == Mixer(s).layer != WholePagePicture(Resized(s, 0, 0))
  {
    EmptyPagePicture(Resized(s, 0, 0));
  }

  lemma EmptyPagePicture(s: State)
    requires Shaped(s) && s.width <= MAX_SIDE && s.height <= MAX_SIDE && (s.width == 0 || s.height == 0)
    ensures WholePagePicture(s).None?
  {
    var all := Whole(s.width, s.height);
    WholePageCopies(s);
    ContentSlices(s.mirror, s.width, all);
    var region := CopyArea(s.mirror, s.width, all);
    var box := Content(region, all);
    if s.width == 0 {
      NothingWide(s.width, s.height);
    }
    assert Lines(region, all) == 0;
    assert box == NOWHERE;
    WholeReceived(NEW, (s.width, s.height), region, all, box);
  }

  /** A page taken whole, as it is after a resize, is never sent as a patch: no box
      lies around it. */
  lemma WholeIsNoPatch(s: State)
    requires Inv(s) && s.phase.Taken? && !s.design && s.phase.taken == Whole(s.phase.page.0, s.phase.page.1)
    ensures !Inside(s.phase.taken, s.shown)
    ensures Next(s, Copy).phase.Crashed? || [71, 77, 88, 70] <= Next(s, Copy).phase.frame
  {
    ShownIsOnAPage(s);
    CopyOrPanic(s);
    if !Next(s, Copy).phase.Crashed? {
      SentWhole(s);
    }
  }

  /** What is shown begins on a page. */
  lemma ShownIsOnAPage(s: State)
    requires Inv(s) && s.phase.Taken?
    ensures s.shown == NOWHERE || (0 <= s.shown.x && 0 <= s.shown.y)
  {
    var r := Mixer(s);
    assert r.held.None? || s.shown == NOWHERE || s.shown.On(r.layer.value.natural.0, r.layer.value.natural.1);
  }

  lemma SentWhole(s: State)
    requires Shaped(s) && s.phase.Taken? && !Inside(s.phase.taken, s.shown) && !s.design
    requires Copies(|s.mirror|, s.width, ToCopy(s.shown, s.phase.taken, s.phase.page))
    ensures Sent(s).phase.Ready? && [71, 77, 88, 70] <= Sent(s).phase.frame
  {
  }

  /** A whole page stays pending over any run in which the writer takes nothing. */
  lemma {:induction false} ResizeStaysWhole(s: State, events: seq<Event>)
    requires Inv(s) && !s.design && s.dirty == Whole(s.width, s.height)
    requires forall i :: 0 <= i < |events| ==> !events[i].Take? && Asked(events[i])
    ensures var t := Run(s, events); Inv(t) && !t.design && t.dirty == Whole(t.width, t.height)
    decreases |events|
  {
    if |events| > 0 {
      var before, e := events[..|events| - 1], events[|events| - 1];
      ResizeStaysWhole(s, before);
      StepKeepsInv(Run(s, before), e);
      WholeStaysPending(Run(s, before), e);
    }
  }

  lemma WholeStaysPending(s: State, e: Event)
    requires Inv(s) && s.dirty == Whole(s.width, s.height) && !e.Take?
    ensures var t := Next(s, e); t.dirty == Whole(t.width, t.height) && t.design == s.design
  {
    if e.Paint? {
      PaintedKeeps(s, e, Mixer(s), NOWHERE);
    }
  }

  /** What is taken stays taken over any run up to the copy. */
  lemma {:induction false} TakenStays(s: State, events: seq<Event>)
    requires Inv(s) && !s.design && s.phase.Taken?
    requires forall i :: 0 <= i < |events| ==> !events[i].Copy? && Asked(events[i])
    ensures var t := Run(s, events); Inv(t) && !t.design && t.phase == s.phase && t.shown == s.shown
    decreases |events|
  {
    if |events| > 0 {
      var before, e := events[..|events| - 1], events[|events| - 1];
      TakenStays(s, before);
      StepKeepsInv(Run(s, before), e);
      TakenAndShownStay(Run(s, before), e);
    }
  }

  lemma TakenAndShownStay(s: State, e: Event)
    requires Inv(s) && s.phase.Taken? && !e.Copy?
    ensures Next(s, e).phase == s.phase && Next(s, e).shown == s.shown && Next(s, e).design == s.design
  {
    if e.Paint? {
      PaintedKeeps(s, e, Mixer(s), NOWHERE);
    }
  }

  /** So from a resize on, whatever is painted before the take and whatever between the
      take and the copy, the next frame is a GMXF, or the copy panics. */
  lemma ResizeIsSentWhole(s: State, waiting: seq<Event>, taken: seq<Event>)
    requires Inv(s) && !s.design && s.dirty == Whole(s.width, s.height)
    requires forall i :: 0 <= i < |waiting| ==> !waiting[i].Take? && Asked(waiting[i])
    requires forall i :: 0 <= i < |taken| ==> !taken[i].Copy? && Asked(taken[i])
    requires var t := Run(s, waiting); t.phase.Waiting? && !t.stop && 0 < t.width && 0 < t.height
    ensures var t := Next(Run(Next(Run(s, waiting), Take), taken), Copy);
      t.phase.Crashed? || (t.phase.Ready? && [71, 77, 88, 70] <= t.phase.frame)
  {
    ResizeStaysWhole(s, waiting);
    var t := Run(s, waiting);
    StepKeepsInv(t, Take);
    var u := Next(t, Take);
    assert u.phase == Taken(Whole(t.width, t.height), (t.width, t.height)) by { ClampKeepsThePage(t.dirty, t.width, t.height); }
    TakenStays(u, taken);
    var v := Run(u, taken);
    WholeIsNoPatch(v);
    CopyOrPanic(v);
    if !Next(v, Copy).phase.Crashed? {
      CopyTurn(v);
    }
  }

  /** Between messages the box the sender remembers is the smallest one around what
      can be seen at the other end, whether frames or patches brought it there. */
  lemma ShownIsTheTightBox(s: State, w: int, h: int, see: Sight)
    requires Inv(s) && (s.phase.Waiting? || s.phase.Taken?)
    requires Mixer(s).layer.Some? ==> Mixer(s).layer.value.natural == (w, h)
    requires forall x, y :: 0 <= x < w && 0 <= y < h ==> see(x, y) == (Look(Mixer(s).layer, x, y)[AYUV_ALPHA] != 0)
    ensures Tight(see, w, h, s.shown)
  {
    assert Holds(Mixer(s), s.shown);
    LayerIsTight(Mixer(s).layer, w, h, see);
  }

  // -- the end ----------------------------------------------------------------------

  /** Once it is to stop, the writer writes nothing but what it has in hand, whatever is
      painted: its next look for something to send ends it, for good. */
  lemma {:induction false} StoppedForGood(s: State, events: seq<Event>)
    requires Shaped(s) && s.stop && (s.phase.Waiting? || s.phase.Ended?)
    ensures var t := Run(s, events);
      && t.stop && t.wire == s.wire && (t.phase == s.phase || t.phase.Ended?)
      && (s.phase.Ended? || Take in events ==> t.phase.Ended?)
    decreases |events|
  {
    if |events| > 0 {
      var before, e := events[..|events| - 1], events[|events| - 1];
      StoppedForGood(s, before);
      assert events == before + [e];
      if e.Paint? {
        PaintLeaves(Run(s, before), e);
      }
    }
  }

  lemma PaintLeaves(s: State, e: Event)
    requires Shaped(s) && e.Paint?
    ensures var t := Next(s, e); t.stop == s.stop && t.wire == s.wire && t.phase == s.phase && t.shown == s.shown
  {
    RowAtIsStride(e.width, e.height);
    if RowAt(e.width, e.height) <= |e.bgra| && e.width == s.width && e.height == s.height {
      PaintRectsKept(s, e.bgra, e.rects);
    }
  }

  /** So does a write that fails, and asking to stop is all a stop does. */
  lemma StopOrFailedWrite(s: State)
    requires Shaped(s) && !s.phase.Crashed?
    ensures Next(s, Stop) == s.(stop := true)
    ensures s.phase.Ready? ==> Next(s, Write(false)) == s.(phase := Ended)
    ensures s.phase.Ended? ==> forall e: Event :: e.Take? || e.Copy? || e.Write? ==> Next(s, e) == s
  {
  }

  // -- the writer always catches up ---------------------------------------------

  /** Whether what is taken, if anything, can still be copied. */
  predicate Copyable(s: State)
    requires Shaped(s)
  {
    s.phase.Taken? ==> !EndsBefore(s.width, s.height, ToCopy(s.shown, s.phase.taken, s.phase.page))
  }

  /** A page that reaches as far as when the dirty box was taken always can. */
  lemma ReachingIsCopyable(s: State)
    requires Inv(s) && s.phase.Taken? && s.phase.page.0 <= s.width && s.phase.page.1 <= s.height
    ensures Copyable(s)
  {
    var Taken(taken, page) := s.phase;
    CopiedArea(s.shown, taken, page);
    var area := ToCopy(s.shown, taken, page);
    RowsInOrder(s.width, area.y + area.h - 1, s.height);
    PastTheEnd(s.width, s.height, area);
  }

  /** The same page, with the same part of it pending. */
  predicate SamePage(s: State, t: State) {
    && t.mirror == s.mirror && t.width == s.width && t.height == s.height
    && t.dirty == s.dirty && t.stop == s.stop && t.design == s.design
  }

  lemma CopyTurn(s: State)
    requires Shaped(s) && s.phase.Taken? && !s.design
    requires Copies(|s.mirror|, s.width, ToCopy(s.shown, s.phase.taken, s.phase.page))
    ensures Next(s, Copy).phase.Ready? && SamePage(s, Next(s, Copy))
  {
  }

  predicate Live(s: State) { !s.design && !s.stop && (s.phase.Taken? || s.phase.Ready? || s.phase.Waiting?) }

  /** What is taken is copied and written. */
  function Turn(s: State): (s': State)
    requires Shaped(s)
    ensures Shaped(s')
  {
    Next(Next(s, Copy), Write(true))
  }

  lemma TurnKeepsInv(s: State)
    requires Inv(s) && !s.design
    ensures Inv(Turn(s)) && !Turn(s).design
  {
    StepKeepsInv(s, Copy);
    StepKeepsInv(Next(s, Copy), Write(true));
  }

  lemma FinishTurn(s: State)
    requires Inv(s) && Live(s) && Copyable(s)
    ensures Turn(s).phase.Waiting? && SamePage(s, Turn(s))
  {
    if s.phase.Taken? {
      CopyableCopies(s);
      CopyTurn(s);
    }
  }

  lemma CopyableCopies(s: State)
    requires Inv(s) && s.phase.Taken? && !s.design && Copyable(s)
    ensures Copies(|s.mirror|, s.width, ToCopy(s.shown, s.phase.taken, s.phase.page))
  {
    PanicsExactly(s);
    CopyOrPanic(s);
  }

  /** The writer writes what it has taken, if anything, and takes what is pending. */
  function Onward(s: State): (s': State)
    requires Shaped(s)
    ensures Shaped(s')
  {
    Next(Turn(s), Take)
  }

  lemma OnwardIsClear(s: State)
    requires Inv(s) && Live(s) && Copyable(s)
    ensures var t := Onward(s);
      Inv(t) && Live(t) && Copyable(t) && t.dirty.IsEmpty() && SamePage(s.(dirty := t.dirty), t)
  {
    TurnKeepsInv(s);
    FinishTurn(s);
    TakeTurn(Turn(s));
  }

  /** From any state in which the writer is alive, once nothing more is painted the
      mixer ends up, within the writer's next five steps, with the picture of the
      page as it is, exactly when what the writer holds can still be copied. */
  lemma CatchesUp(s: State)
    requires Inv(s) && Live(s) && 0 < s.width && 0 < s.height
    ensures var t := Turn(Onward(s));
      Copyable(s) <==> t.phase.Waiting? && t.dirty.IsEmpty() && Mixer(t).layer == WholePagePicture(s)
  {
    if Copyable(s) {
      OnwardIsClear(s);
      CatchUpTurn(s, Onward(s));
    } else {
      PanicsExactly(s);
    }
  }

  lemma CatchUpTurn(s: State, t: State)
    requires Shaped(s) && Inv(t) && Live(t) && Copyable(t) && t.dirty.IsEmpty() && 0 < t.width && 0 < t.height
    requires s.mirror == t.mirror && s.width == t.width && s.height == t.height
    ensures Turn(t).phase.Waiting? && Turn(t).dirty.IsEmpty() && Mixer(Turn(t)).layer == WholePagePicture(s)
  {
    TurnKeepsInv(t);
    FinishTurn(t);
    Emptied(s, Turn(t));
  }

  lemma TakeTurn(s: State)
    requires Inv(s) && Live(s) && s.phase.Waiting?
    ensures var t := Next(s, Take);
      && Inv(t) && Live(t) && Copyable(t) && t.dirty.IsEmpty()
      && (t.phase.Waiting? ==> t == s) && SamePage(s.(dirty := t.dirty), t)
  {
    TakeKeepsInv(s);
    if Next(s, Take).phase.Taken? {
      ReachingIsCopyable(Next(s, Take));
    }
  }

  lemma Emptied(s: State, t: State)
    requires Shaped(s) && Inv(t) && t.phase.Waiting? && t.dirty.IsEmpty() && 0 < t.width && 0 < t.height
    requires s.mirror == t.mirror && s.width == t.width && s.height == t.height
    ensures Mixer(t).layer == WholePagePicture(s)
  {
    RefinesWholePage(t);
    SamePagePicture(s, t);
  }

  lemma SamePagePicture(s: State, t: State)
    requires Shaped(s) && Shaped(t) && s.mirror == t.mirror && s.width == t.width && s.height == t.height
    ensures WholePagePicture(s) == WholePagePicture(t)
  {
  }

  // -- when the copy panics ------------------------------------------------------

  /** Whether a page ends before the last row of `area` does. */
  predicate EndsBefore(w: int, h: int, area: Area) { h * w < (area.y + area.h - 1) * w + area.x + area.w }

  lemma PastTheEnd(w: int, h: int, area: Area)
    requires 0 <= w && 0 <= h && area.On(I32_MAX, I32_MAX) && 0 < area.h
    ensures Copies(RowAt(w, h), w, area) <==> !EndsBefore(w, h, area)
  {
    RowAtIsStride(w, h);
    RowAtIsStride(w, area.y + area.h - 1);
  }

  /** The copy panics exactly when its last row would end past the last pixel of
      the page as it is now. */
  lemma PanicsExactly(s: State)
    requires Inv(s) && s.phase.Taken? && !s.design
    ensures Next(s, Copy).phase.Crashed?
       <==> EndsBefore(s.width, s.height, ToCopy(s.shown, s.phase.taken, s.phase.page))
  {
    CopiedArea(s.shown, s.phase.taken, s.phase.page);
    PastTheEnd(s.width, s.height, ToCopy(s.shown, s.phase.taken, s.phase.page));
    CopyOrPanic(s);
  }

  lemma CopyOrPanic(s: State)
    requires Shaped(s) && s.phase.Taken? && !s.design
    ensures Next(s, Copy).phase.Crashed?
       <==> !Copies(|s.mirror|, s.width, ToCopy(s.shown, s.phase.taken, s.phase.page))
  {
  }

  /** A resize that lands between the take and the copy panics the copy exactly when
      the new page ends before the last row that was taken does. */
  lemma ResizePanicsExactly(s: State, e: Event, t: State)
    requires Inv(s) && s.phase.Taken? && !s.design && e.Paint? && Asked(e)
    requires (e.width, e.height) != (s.width, s.height) && RowAt(e.width, e.height) <= |e.bgra|
    requires t == Painted(s, e.bgra, e.width, e.height, e.rects)
    ensures Next(t, Copy).phase.Crashed?
       <==> EndsBefore(e.width, e.height, ToCopy(s.shown, s.phase.taken, s.phase.page))
  {
    PaintKeepsInv(s, e);
    ResizeKeepsTaken(s, e);
    PanicsExactly(t);
  }

  lemma ResizeKeepsTaken(s: State, e: Event)
    requires Inv(s) && e.Paint?
    requires (e.width, e.height) != (s.width, s.height) && RowAt(e.width, e.height) <= |e.bgra|
    ensures var t := Painted(s, e.bgra, e.width, e.height, e.rects);
      t.width == e.width && t.height == e.height && t.phase == s.phase && t.shown == s.shown
  {
  }

  lemma OnlyCopyPanics(s: State, e: Event)
    requires Shaped(s) && Next(s, e).phase.Crashed? && !s.phase.Crashed?
    ensures s.phase.Taken? && !Copies(|s.mirror|, s.width, ToCopy(s.shown, s.phase.taken, s.phase.page))
  {
  }

  /** A copy of a box that the page now ends before. */
  predicate CutOff(s: State, e: Event)
    requires Shaped(s)
  {
    e.Copy? && s.phase.Taken? && EndsBefore(s.width, s.height, ToCopy(s.shown, s.phase.taken, s.phase.page))
  }

  predicate CutOffIn(start: State, events: seq<Event>)
    requires Shaped(start)
    decreases |events|
  {
    |events| > 0 &&
    (var (before, e) := (events[..|events| - 1], events[|events| - 1]);
     CutOffIn(start, before) || CutOff(Run(start, before), e))
  }

  /** Event `i` of a run is such a copy. */
  predicate CutOffAt(start: State, events: seq<Event>, i: nat)
    requires Shaped(start) && i < |events|
  {
    CutOff(Run(start, events[..i]), events[i])
  }

  lemma {:induction false} CutOffCounts(start: State, events: seq<Event>, i: nat)
    requires Shaped(start) && i < |events| && CutOffAt(start, events, i)
    ensures CutOffIn(start, events)
    decreases |events|
  {
    if i < |events| - 1 {
      var before := events[..|events| - 1];
      assert before[..i] == events[..i];
      CutOffCounts(start, before, i);
    }
  }

  lemma {:induction false} CutOffFound(start: State, events: seq<Event>) returns (i: nat)
    requires Shaped(start) && CutOffIn(start, events)
    ensures i < |events| && CutOffAt(start, events, i)
    decreases |events|
  {
    var before := events[..|events| - 1];
    if CutOffIn(start, before) {
      i := CutOffFound(start, before);
      assert before[..i] == events[..i];
    } else {
      i := |events| - 1;
    }
  }

  lemma {:induction false} CrashesIfCutOff(width: int, height: int, events: seq<Event>)
    requires 0 <= width <= MAX_SIDE && 0 <= height <= MAX_SIDE
    requires forall e :: e in events ==> Asked(e)
    ensures Run(Start(width, height, false), events).phase.Crashed? <==> CutOffIn(Start(width, height, false), events)
    decreases |events|
  {
    if |events| > 0 {
      var before := events[..|events| - 1];
      CrashesIfCutOff(width, height, before);
      EveryRun(width, height, before);
      LastStep(Run(Start(width, height, false), before), events[|events| - 1]);
    }
  }

  /** A run ends in a panic exactly when one of its copies is of a box that the page,
      as it then is, ends before. */
  lemma CrashesExactly(width: int, height: int, events: seq<Event>)
    requires 0 <= width <= MAX_SIDE && 0 <= height <= MAX_SIDE
    requires forall e :: e in events ==> Asked(e)
    ensures var start := Start(width, height, false);
      Run(start, events).phase.Crashed?
      <==> exists i :: 0 <= i < |events| && CutOffAt(start, events, i)
  {
    var start := Start(width, height, false);
    CrashesIfCutOff(width, height, events);
    if CutOffIn(start, events) {
      var i := CutOffFound(start, events);
      assert CutOffAt(start, events, i);
    }
    forall i | 0 <= i < |events| && CutOffAt(start, events, i) ensures CutOffIn(start, events) {
      CutOffCounts(start, events, i);
    }
  }

  lemma LastStep(s: State, e: Event)
    requires Inv(s) && !s.design
    ensures Next(s, e).phase.Crashed? <==> s.phase.Crashed? || CutOff(s, e)
  {
    if s.phase.Taken? {
      PanicsExactly(s);
    }
    if Next(s, e).phase.Crashed? && !s.phase.Crashed? {
      OnlyCopyPanics(s, e);
      CopyOrPanic(s);
    }
  }

  /** One such run on a page of any size: a pixel of its last row is painted and taken,
      and the page loses that row before the copy. */
  lemma ShrinkCrashes(w: Length, h: Length, page: seq<Pixel>)
    requires 1 <= w && 2 <= h && RowAt(w, h) <= |page|
    ensures Run(Start(w, h, false), [Paint(page, w, h, [LastRow(h)]), Take, Paint(page, w, h - 1, []), Copy]).phase.Crashed?
  {
    var paint, shrink := Paint(page, w, h, [LastRow(h)]), Paint(page, w, h - 1, []);
    var start := Start(w, h, false);
    FourSteps(start, paint, Take, shrink, Copy);
    TookLastRow(start, w, h, page);
    RowLost(Next(Next(start, paint), Take), w, h, page);
    LostRow(Next(Next(Next(start, paint), Take), shrink), w, h);
  }

  lemma TookLastRow(s: State, w: Length, h: Length, page: seq<Pixel>)
    requires 1 <= w && 2 <= h && RowAt(w, h) <= |page| && s == Start(w, h, false)
    ensures var t := Next(Next(s, Paint(page, w, h, [LastRow(h)])), Take);
      t.phase == Taken(LastRow(h), (w, h)) && t.shown == NOWHERE && !t.design && t.width == w && t.height == h
  {
    PaintedLastRow(s, w, h, page);
  }

  lemma RowLost(s: State, w: Length, h: Length, page: seq<Pixel>)
    requires Shaped(s) && 1 <= w && 2 <= h && RowAt(w, h) <= |page| && s.phase.Taken? && s.width == w && s.height == h
    ensures var t := Next(s, Paint(page, w, h - 1, []));
      t.phase == s.phase && t.shown == s.shown && t.design == s.design && t.width == w && t.height == h - 1
  {
    RowsInOrder(w, h - 1, h);
  }

  lemma LostRow(s: State, w: Length, h: Length)
    requires 1 <= w && 2 <= h && Shaped(s) && !s.design && s.width == w && s.height == h - 1
    requires s.phase == Taken(LastRow(h), (w, h)) && s.shown == NOWHERE
    ensures Next(s, Copy).phase.Crashed?
  {
    assert ToCopy(NOWHERE, LastRow(h), (w, h)) == LastRow(h);
    PastTheEnd(w, h - 1, LastRow(h));
    CopyOrPanic(s);
  }

  function LastRow(h: int): Area { Area(0, h - 1, 1, 1) }

  lemma FourSteps(s: State, a: Event, b: Event, c: Event, d: Event)
    requires Shaped(s)
    ensures Run(s, [a, b, c, d]) == Next(Next(Next(Next(s, a), b), c), d)
  {
    assert [a, b, c, d][..3] == [a, b, c] && [a, b, c][..2] == [a, b] && [a, b][..1] == [a] && [a][..0] == [];
    assert Run(s, [a]) == Next(s, a);
    assert Run(s, [a, b]) == Next(Run(s, [a]), b);
    assert Run(s, [a, b, c]) == Next(Run(s, [a, b]), c);
  }

  lemma PaintedLastRow(s: State, w: Length, h: Length, page: seq<Pixel>)
    requires 1 <= w && 2 <= h && RowAt(w, h) <= |page| && s == Start(w, h, false)
    ensures var t := Next(s, Paint(page, w, h, [LastRow(h)]));
      t == s.(mirror := t.mirror, dirty := LastRow(h))
  {
    var rects := [LastRow(h)];
    assert rects[..0] == [];
    assert PaintRects(s, page, []) == s;
    assert PaintRects(s, page, rects) == PaintRect(s, page, LastRow(h));
  }
}

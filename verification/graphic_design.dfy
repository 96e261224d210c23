/** A design that covers the picture: the whole page as I420 at every frame. */
module GraphicDesign {
  import opened Bytes
  import opened Areas
  import opened Rasters
  import opened Graphic
  import opened Feed
  import opened GraphicProof
  import opened I420

  /** The design of the page as it is. */
  function DesignOf(s: State): Design {
    var w, h := Even(s.width), Even(s.height);
    Design(Sampled(s.mirror, w, w, h), w, h)
  }

  /** Nothing is pending, and there is a page to show. */
  predicate Quiet(s: State) { s.dirty.IsEmpty() && 0 < s.width && 0 < s.height }

  ghost predicate InvDesign(s: State) {
    && Shaped(s) && s.design
    && s.width <= MAX_SIDE && s.height <= MAX_SIDE
    && Received(NEW, s.wire).1 == []
    && Clean(Mixer(s))
    && match s.phase
       case Waiting => Quiet(s) && s.wire != [] ==> Mixer(s).design == Some(DesignOf(s))
       case Ready(_, frame) =>
         var (r, rest) := Received(Mixer(s), frame);
         rest == [] && Clean(r) && (Quiet(s) ==> r.design == Some(DesignOf(s)))
       case Taken(_, _) => true
       case Ended => true
       case Crashed => true
  }

  lemma DesignReceived(r: Reader, mirror: seq<Pixel>, width: int, height: int)
    requires Clean(r) && 0 <= width <= MAX_SIDE && 0 <= height <= MAX_SIDE
    ensures var (w, h) := (Even(width), Even(height));
      Received(r, EncodeI420(mirror, width, height))
      == (r.(design := Some(Design(Sampled(mirror, w, w, h), w, h))), [])
  {
    var w, h := Even(width), Even(height);
    PlanesSize(LumaAt(mirror, w), UAt(mirror, w), VAt(mirror, w), w, h);
    FrameReceived(r, WHOLE, (w, h), Whole(w, h), Sampled(mirror, w, w, h));
  }

  /** A paint that leaves nothing pending has painted nothing. */
  lemma {:induction false} NothingPainted(s: State, bgra: seq<Pixel>, rects: seq<Area>)
    requires Shaped(s) && |s.mirror| <= |bgra| && PaintRects(s, bgra, rects).dirty.IsEmpty()
    ensures PaintRects(s, bgra, rects) == s
    decreases |rects|
  {
    if |rects| > 0 {
      var t := PaintRects(s, bgra, rects[..|rects| - 1]);
      PaintRectIsEmpty(t, bgra, rects[|rects| - 1]);
      NothingPainted(s, bgra, rects[..|rects| - 1]);
    }
  }

  lemma PaintRectIsEmpty(s: State, bgra: seq<Pixel>, rect: Area)
    requires Shaped(s) && |s.mirror| <= |bgra| && PaintRect(s, bgra, rect).dirty.IsEmpty()
    ensures PaintRect(s, bgra, rect) == s
  {
    var d := rect.Clamp(s.width, s.height);
    assert !d.IsEmpty() ==> !s.dirty.Union(d).IsEmpty();
  }

  lemma PaintKeepsDesign(s: State, e: Event)
    requires InvDesign(s) && e.Paint? && Asked(e)
    ensures InvDesign(Painted(s, e.bgra, e.width, e.height, e.rects))
  {
    var s' := Painted(s, e.bgra, e.width, e.height, e.rects);
    if RowAt(e.width, e.height) <= |e.bgra| && e.width == s.width && e.height == s.height {
      PaintRectsKept(s, e.bgra, e.rects);
      if s'.dirty.IsEmpty() {
        NothingPainted(s, e.bgra, e.rects);
      }
    }
  }

  lemma CopyKeepsDesign(s: State)
    requires InvDesign(s) && s.phase.Taken?
    ensures InvDesign(CopyOut(s)) && CopyOut(s).phase.Ready?
  {
    DesignReceived(Mixer(s), s.mirror, s.width, s.height);
  }

  lemma WriteKeepsDesign(s: State, ok: bool)
    requires InvDesign(s) && s.phase.Ready?
    ensures InvDesign(WriteOut(s, ok))
  {
    AnyChunking(NEW, s.wire, s.phase.frame);
    assert [] + s.phase.frame == s.phase.frame;
  }

  lemma TakeKeepsDesign(s: State)
    requires InvDesign(s) && s.phase.Waiting?
    ensures InvDesign(TakeDirty(s))
  {
  }

  lemma StepKeepsDesign(s: State, e: Event)
    requires InvDesign(s) && !s.phase.Crashed? && Asked(e)
    ensures InvDesign(Next(s, e)) && !Next(s, e).phase.Crashed?
  {
    match e
    case Paint(bgra, width, height, rects) => PaintKeepsDesign(s, e);
    case Stop =>
    case Take => if s.phase.Waiting? { TakeKeepsDesign(s); }
    case Copy => if s.phase.Taken? { CopyKeepsDesign(s); }
    case Write(ok) => if s.phase.Ready? { WriteKeepsDesign(s, ok); }
  }

  /** In every run the writer never panics, a resize wherever it lands included,
      and when nothing is pending the mixer has the design of the page as it is. */
  lemma {:induction false} EveryDesignRun(width: int, height: int, events: seq<Event>)
    requires 0 <= width <= MAX_SIDE && 0 <= height <= MAX_SIDE
    requires forall e :: e in events ==> Asked(e)
    ensures var s := Run(Start(width, height, true), events);
      && InvDesign(s)
      && !s.phase.Crashed?
      && (s.phase.Waiting? && Quiet(s) && s.wire != [] ==> Mixer(s).design == Some(DesignOf(s)))
    decreases |events|
  {
    if |events| > 0 {
      EveryDesignRun(width, height, events[..|events| - 1]);
      StepKeepsDesign(Run(Start(width, height, true), events[..|events| - 1]), events[|events| - 1]);
    }
  }
}

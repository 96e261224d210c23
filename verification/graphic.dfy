/** Graphic mode's sender as a machine of atomic steps: the browser paints into a
    mirror under a lock, and a writer thread takes the dirty box in one step,
    copies pixels in a later one and writes the frame in a third. Any paint, and
    any resize, may land between any two of them. */
module Graphic {
  import opened Bytes
  import opened Areas
  import opened Rasters
  import opened Pixels
  import I420

  const GMXF: seq<byte> := [71, 77, 88, 70]
  const GMXP: seq<byte> := [71, 77, 88, 80]

  /** Where the writer thread stands. `Ended` after a stop or a failed write;
      `Crashed` after it panicked holding the lock, which poisons it, so every
      later paint panics too. */
  datatype Phase =
    | Waiting
    | Taken(taken: Area, page: (int, int))
    | Ready(taken: Area, frame: seq<byte>)
    | Ended
    | Crashed

  datatype State = State(
    design: bool,
    mirror: seq<Pixel>, width: int, height: int, dirty: Area, stop: bool,
    shown: Area, phase: Phase,
    wire: seq<byte>
  )

  /** The length of a side, as a 32-bit signed integer that is not negative. */
  type Length = n: int | 0 <= n <= I32_MAX

  datatype Event =
    | Paint(bgra: seq<Pixel>, width: Length, height: Length, rects: seq<Area>)
    | Stop
    | Take
    | Copy
    | Write(ok: bool)

  predicate Side(n: int) { 0 <= n <= I32_MAX }

  /** What holds of every state: the mirror is the size of the page. */
  predicate Shaped(s: State) {
    && Side(s.width) && Side(s.height)
    && |s.mirror| == RowAt(s.width, s.height)
    && (s.phase.Taken? ==> Side(s.phase.page.0) && Side(s.phase.page.1))
  }

  function BlankPage(width: int, height: int): (r: seq<Pixel>)
    requires 0 <= width
    ensures |r| == RowAt(width, height)
  {
    RowsInOrder(width, 0, Max(height, 0));
    seq(RowAt(width, height), _ => BLANK)
  }

  function Start(width: int, height: int, design: bool): (s: State)
    requires Side(width) && Side(height)
    ensures Shaped(s)
  {
    State(design, BlankPage(width, height), width, height, NOWHERE, false, NOWHERE, Waiting, [])
  }

  // -- paint -------------------------------------------------------------------

  lemma ClampedFits(d: Area, width: int, height: int, len: int, slen: int)
    requires Side(width) && Side(height) && RowAt(width, height) <= len && RowAt(width, height) <= slen
    requires d.On(width, height)
    ensures Fits(len, width, d, slen, width, d.x, d.y)
  {
    RowsInOrder(width, d.y + d.h, height);
  }

  /** One painted rectangle, kept to the page. */
  function PaintRect(s: State, bgra: seq<Pixel>, rect: Area): (s': State)
    requires Shaped(s) && |s.mirror| <= |bgra|
    ensures Shaped(s') && s'.design == s.design && s'.phase == s.phase && |s'.mirror| == |s.mirror|
  {
    var d := rect.Clamp(s.width, s.height);
    if d.IsEmpty() then s
    else
      ClampKeepsThePage(rect, s.width, s.height);
      ClampedFits(d, s.width, s.height, |s.mirror|, |bgra|);
      s.(mirror := Blit(s.mirror, s.width, d, bgra, s.width, d.x, d.y, d.h), dirty := s.dirty.Union(d))
  }

  function PaintRects(s: State, bgra: seq<Pixel>, rects: seq<Area>): (s': State)
    requires Shaped(s) && |s.mirror| <= |bgra|
    ensures Shaped(s') && s'.design == s.design && s'.phase == s.phase && |s'.mirror| == |s.mirror|
    decreases |rects|
  {
    if |rects| == 0 then s
    else PaintRect(PaintRects(s, bgra, rects[..|rects| - 1]), bgra, rects[|rects| - 1])
  }

  /** A page of another size is blank and all of it pending. The lock is let go, and the
      page is painted again, all of it, in a hold of its own. */
  function Resized(s: State, width: int, height: int): (s': State)
    requires Shaped(s) && Side(width) && Side(height)
    ensures Shaped(s') && s'.design == s.design && s'.phase == s.phase
  {
    s.(width := width, height := height, mirror := BlankPage(width, height), dirty := Whole(width, height))
  }

  /** One hold of the lock in `paint`. After one that took another size the browser
      paints [Whole(width, height)] of the same pixels. */
  function Painted(s: State, bgra: seq<Pixel>, width: int, height: int, rects: seq<Area>): (s': State)
    requires Shaped(s) && Side(width) && Side(height)
    ensures Shaped(s') && s'.design == s.design && s'.phase == s.phase
  {
    if |bgra| < RowAt(width, height) then s
    else if width != s.width || height != s.height then Resized(s, width, height)
    else PaintRects(s, bgra, rects)
  }

  // -- the writer --------------------------------------------------------------

  /** One look at what is pending: it is taken, or there is none yet, or the end has come. */
  function TakeDirty(s: State): (s': State)
    requires Shaped(s) && s.phase.Waiting?
    ensures Shaped(s') && s'.design == s.design
  {
    if s.stop then s.(phase := Ended)
    else if s.dirty.IsEmpty() then s
    else s.(phase := Taken(s.dirty.Clamp(s.width, s.height), (s.width, s.height)), dirty := NOWHERE)
  }

  /** What is copied: what was taken, by itself where that makes a patch, and else
      together with what is shown. */
  function ToCopy(shown: Area, taken: Area, page: (int, int)): Area
    requires Side(page.0) && Side(page.1)
  {
    if Inside(taken, shown) then taken else shown.Union(taken).Clamp(page.0, page.1)
  }

  lemma ContentSlices(page: seq<Pixel>, width: int, area: Area)
    requires Copies(|page|, width, area) && area.w <= I32_MAX && area.h <= I32_MAX
    ensures var region := CopyArea(page, width, area);
      && |region| == RowAt(area.w, area.h)
      && Slices(region, area, Content(region, area))
  {
    CopyShows(page, width, area, Max(area.h, 0));
    var region := CopyArea(page, width, area);
    if area.h <= 0 {
      assert Lines(region, area) == 0;
    } else if area.w <= 0 {
      NothingWide(area.w, area.h);
      assert Lines(region, area) == 0;
    } else {
      ContentIsTight(region, area);
      var box := Content(region, area);
      if box != NOWHERE {
        RowsInOrder(area.w, box.y - area.y + box.h - 1, area.h);
      }
    }
  }

  lemma {:induction false} NothingWide(w: int, h: int)
    requires w <= 0
    ensures RowAt(w, h) <= 0
    decreases h
  {
    if h > 0 {
      NothingWide(w, h - 1);
    }
  }

  function Sent(s: State): (s': State)
    requires Shaped(s) && s.phase.Taken? && !s.design
    requires Copies(|s.mirror|, s.width, ToCopy(s.shown, s.phase.taken, s.phase.page))
    ensures Shaped(s') && s'.design == s.design
  {
    var Taken(taken, page) := s.phase;
    var area := ToCopy(s.shown, taken, page);
    var region := CopyArea(s.mirror, s.width, area);
    if Inside(taken, s.shown) then
      CopyShows(s.mirror, s.width, area, Max(area.h, 0));
      s.(phase := Ready(taken, Encode(GMXP, region, taken, taken, page)))
    else
      ContentSlices(s.mirror, s.width, area);
      var box := Content(region, area);
      s.(shown := box, phase := Ready(taken, Encode(GMXF, region, area, box, page)))
  }

  /** Copy the pixels as they are now and make the frame of them. The box was kept
      to the page as it was when the dirty box was taken: when the page no longer
      reaches that far, the copy panics. */
  function CopyOut(s: State): (s': State)
    requires Shaped(s) && s.phase.Taken?
    ensures Shaped(s') && s'.design == s.design
  {
    if s.design then s.(phase := Ready(s.phase.taken, I420.EncodeI420(s.mirror, s.width, s.height)))
    else if !Copies(|s.mirror|, s.width, ToCopy(s.shown, s.phase.taken, s.phase.page)) then s.(phase := Crashed)
    else Sent(s)
  }

  function WriteOut(s: State, ok: bool): (s': State)
    requires Shaped(s) && s.phase.Ready?
    ensures Shaped(s') && s'.design == s.design
  {
    if ok then s.(phase := Waiting, wire := s.wire + s.phase.frame) else s.(phase := Ended)
  }

  // -- runs --------------------------------------------------------------------

  /** One atomic step. A step the writer is not at, or that a poisoned lock rules
      out, changes nothing. */
  function Next(s: State, e: Event): (s': State)
    requires Shaped(s)
    ensures Shaped(s') && s'.design == s.design
  {
    if s.phase.Crashed? then s
    else
      match e
      case Paint(bgra, width, height, rects) => Painted(s, bgra, width, height, rects)
      case Stop => s.(stop := true)
      case Take => if s.phase.Waiting? then TakeDirty(s) else s
      case Copy => if s.phase.Taken? then CopyOut(s) else s
      case Write(ok) => if s.phase.Ready? then WriteOut(s, ok) else s
  }

  /** Every interleaving is some sequence of events. */
  function Run(s: State, events: seq<Event>): (s': State)
    requires Shaped(s)
    ensures Shaped(s') && s'.design == s.design
    decreases |events|
  {
    if |events| == 0 then s else Next(Run(s, events[..|events| - 1]), events[|events| - 1])
  }
}

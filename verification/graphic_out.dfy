/** The sender as the object the browser and the writer thread share. */
module GraphicOut {
  import opened Bytes
  import opened Areas
  import opened Rasters
  import opened Pixels
  import opened Graphic
  import I420

  /** What the lock guards, what the writer thread keeps between its steps, and
      what has gone down the pipe. A method is one hold of the lock, or one piece
      of the writer's work outside it. */
  class Out {
    const design: bool
    var mirror: array<Pixel>
    var width: Length
    var height: Length
    var dirty: Area
    var stop: bool
    var shown: Area
    var phase: Phase
    var wire: seq<byte>

    ghost function Abs(): State
      reads this, mirror
    {
      State(design, mirror[..], width, height, dirty, stop, shown, phase, wire)
    }

    ghost predicate Valid()
      reads this, mirror
    {
      Shaped(Abs())
    }

    constructor (width: Length, height: Length, design: bool)
      ensures Valid() && fresh(mirror)
      ensures Abs() == Start(width, height, design)
    {
      var blank := BlankPage(width, height);
      this.design := design;
      this.mirror := new Pixel[|blank|](i requires 0 <= i < |blank| => blank[i]);
      this.width, this.height := width, height;
      this.dirty, this.stop := NOWHERE, false;
      this.shown, this.phase, this.wire := NOWHERE, Waiting, [];
      new;
      assert mirror[..] == blank;
    }

    /** The browser painted `rects` of a page. With a page of another size it is to
        paint again, all of it, once the lock has been let go. */
    method Paint(bgra: seq<Pixel>, width: Length, height: Length, rects: seq<Area>) returns (again: bool)
      requires Valid() && !phase.Crashed?
      modifies this, mirror
      ensures Valid() && (mirror == old(mirror) || fresh(mirror))
      ensures again <==> RowAt(width, height) <= |bgra| && (width != old(this.width) || height != old(this.height))
      ensures Abs() == Next(old(Abs()), Event.Paint(bgra, width, height, rects))
    {
      RowAtIsStride(width, height);
      if |bgra| < height * width {
        return false;
      }
      if width != this.width || height != this.height {
        this.width, this.height := width, height;
        var blank := BlankPage(width, height);
        mirror := new Pixel[|blank|](i requires 0 <= i < |blank| => blank[i]);
        assert mirror[..] == blank;
        dirty := Whole(width, height);
        return true;
      }
      PaintAll(bgra, rects);
      again := false;
    }

    method PaintAll(bgra: seq<Pixel>, rects: seq<Area>)
      requires Valid() && mirror.Length <= |bgra|
      modifies `dirty, mirror
      ensures Valid() && Abs() == PaintRects(old(Abs()), bgra, rects)
    {
      ghost var was := Abs();
      assert rects[..0] == [];
      for i := 0 to |rects|
        invariant Valid() && Abs() == PaintRects(was, bgra, rects[..i])
      {
        assert rects[..i + 1][..i] == rects[..i];
        PaintOne(bgra, rects[i]);
      }
      assert rects[..|rects|] == rects;
    }

    method PaintOne(bgra: seq<Pixel>, rect: Area)
      requires Valid() && mirror.Length <= |bgra|
      modifies `dirty, mirror
      ensures Valid() && Abs() == PaintRect(old(Abs()), bgra, rect)
    {
      var d := rect.Clamp(width, height);
      if d.IsEmpty() {
        return;
      }
      ClampKeepsThePage(rect, width, height);
      ClampedFits(d, width, height, mirror.Length, |bgra|);
      BlitInto(mirror, width, d, bgra, width, d.x, d.y);
      dirty := dirty.Union(d);
    }

    method Stop()
      requires Valid() && !phase.Crashed?
      modifies `stop
      ensures Valid() && Abs() == Next(old(Abs()), Event.Stop)
    {
      stop := true;
    }

    /** One look at whether there is a paint to take; with none, the writer goes
        back to waiting. */
    method NextDirty()
      requires Valid() && phase.Waiting?
      modifies `dirty, `phase
      ensures Valid() && Abs() == Next(old(Abs()), Event.Take)
    {
      if stop {
        phase := Ended;
      } else if !dirty.IsEmpty() {
        phase := Taken(dirty.Clamp(width, height), (width, height));
        dirty := NOWHERE;
      }
    }

    /** Copy what was taken, under the lock, and make the frame of it. */
    method CopyFrame()
      requires Valid() && phase.Taken?
      modifies `shown, `phase
      ensures Valid() && Abs() == Next(old(Abs()), Event.Copy)
    {
      if design {
        var frame := I420.EncodeI420Out(mirror[..], width, height);
        phase := Ready(phase.taken, frame);
      } else if !Copies(mirror.Length, width, ToCopy(shown, phase.taken, phase.page)) {
        phase := Crashed;
      } else {
        MakeFrame();
      }
    }

    method MakeFrame()
      requires Valid() && phase.Taken? && !design
      requires Copies(mirror.Length, width, ToCopy(shown, phase.taken, phase.page))
      modifies `shown, `phase
      ensures Valid() && Abs() == Sent(old(Abs()))
    {
      var Taken(taken, page) := phase;
      var area := ToCopy(shown, taken, page);
      var region := CopyAreaOut(mirror[..], width, area);
      if Inside(taken, shown) {
        CopyShows(mirror[..], width, area, Max(area.h, 0));
        var frame := EncodeAs(GMXP, region, taken, taken, page);
        phase := Ready(taken, frame);
      } else {
        ContentSlices(mirror[..], width, area);
        var box := ContentOf(region, area);
        var frame := EncodeAs(GMXF, region, area, box, page);
        shown := box;
        phase := Ready(taken, frame);
      }
    }

    /** Write the frame out. `ok` is false when the pipe has gone. */
    method WriteFrame(ok: bool)
      requires Valid() && phase.Ready?
      modifies `wire, `phase
      ensures Valid() && Abs() == Next(old(Abs()), Event.Write(ok))
    {
      if ok {
        wire := wire + phase.frame;
        phase := Waiting;
      } else {
        phase := Ended;
      }
    }
  }
}

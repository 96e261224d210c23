/** The box algebra graphic mode rests on. */
module Areas {
  import opened Bytes

  /** A box of pixels by its corner and its sides. */
  datatype Area = Area(x: int, y: int, w: int, h: int) {
    predicate IsEmpty() { w <= 0 || h <= 0 }

    /** Whether the pixel at column `px`, row `py` lies in the box. */
    predicate Has(px: int, py: int) { x <= px < x + w && y <= py < y + h }

    /** Whether the whole box lies on a page of the given size. */
    predicate On(pw: int, ph: int) { 0 <= x && 0 <= y && 0 <= w && 0 <= h && x + w <= pw && y + h <= ph }

    function Union(o: Area): Area {
      if IsEmpty() then o
      else if o.IsEmpty() then this
      else
        var x0, y0 := Min(x, o.x), Min(y, o.y);
        var x1, y1 := Max(x + w, o.x + o.w), Max(y + h, o.y + o.h);
        Area(x0, y0, x1 - x0, y1 - y0)
    }

    /** Pinning to a range is undefined, and panics, when the range is upside down. */
    function Clamp(pw: int, ph: int): Area
      requires 0 <= pw && 0 <= ph
    {
      var x0, y0 := Pin(x, pw), Pin(y, ph);
      var x1, y1 := Pin(x + w, pw), Pin(y + h, ph);
      Area(x0, y0, x1 - x0, y1 - y0)
    }
  }

  const NOWHERE := Area(0, 0, 0, 0)

  function Whole(pw: int, ph: int): Area { Area(0, 0, pw, ph) }

  function Pin(v: int, hi: int): int
    requires 0 <= hi
  {
    Max(0, Min(v, hi))
  }

  /** The union is the least box around both: it has every pixel of either, and
      lies within any other box that does. */
  lemma UnionIsLeast(a: Area, b: Area, c: Area)
    ensures forall x, y :: a.Has(x, y) || b.Has(x, y) ==> a.Union(b).Has(x, y)
    ensures (forall x, y :: a.Has(x, y) || b.Has(x, y) ==> c.Has(x, y))
            ==> forall x, y :: a.Union(b).Has(x, y) ==> c.Has(x, y)
  {
    if forall x, y :: a.Has(x, y) || b.Has(x, y) ==> c.Has(x, y) {
      var boxes := [a, b];
      forall i | 0 <= i < 2 && !boxes[i].IsEmpty()
        ensures c.x <= boxes[i].x && boxes[i].x + boxes[i].w <= c.x + c.w
        ensures c.y <= boxes[i].y && boxes[i].y + boxes[i].h <= c.y + c.h
      {
        var box := boxes[i];
        assert box.Has(box.x, box.y) && box.Has(box.x + box.w - 1, box.y + box.h - 1);
      }
      assert boxes[0] == a && boxes[1] == b;
    }
  }

  /** Clamping keeps exactly the pixels that are on the page. */
  lemma ClampKeepsThePage(a: Area, pw: int, ph: int)
    requires 0 <= pw && 0 <= ph
    ensures forall x, y :: a.Clamp(pw, ph).Has(x, y) <==> a.Has(x, y) && 0 <= x < pw && 0 <= y < ph
    ensures !a.Clamp(pw, ph).IsEmpty() ==> a.Clamp(pw, ph).On(pw, ph)
    ensures a.On(pw, ph) ==> a.Clamp(pw, ph) == a
  {
  }

  /** Two boxes on one page have their union there. */
  lemma UnionStaysOn(a: Area, b: Area, pw: int, ph: int)
    requires a.IsEmpty() || a.On(pw, ph)
    requires b.IsEmpty() || b.On(pw, ph)
    ensures a.Union(b).IsEmpty() || a.Union(b).On(pw, ph)
    ensures a.Union(b).IsEmpty() <==> a.IsEmpty() && b.IsEmpty()
    ensures a == Whole(pw, ph) && !a.IsEmpty() ==> a.Union(b) == a
  {
  }

  // -- the smallest box around what can be seen -------------------------------

  /** Which pixels can be seen. */
  type Sight = (int, int) -> bool

  ghost predicate ColumnSeen(see: Sight, h: int, x: int) {
    exists y :: 0 <= y < h && see(x, y)
  }

  ghost predicate RowSeen(see: Sight, w: int, y: int) {
    exists x :: 0 <= x < w && see(x, y)
  }

  ghost predicate EdgesSeen(see: Sight, w: int, h: int, box: Area) {
    && box.On(w, h)
    && !box.IsEmpty()
    && ColumnSeen(see, h, box.x)
    && ColumnSeen(see, h, box.x + box.w - 1)
    && RowSeen(see, w, box.y)
    && RowSeen(see, w, box.y + box.h - 1)
  }

  /** `box` has every pixel that can be seen, and either there is none and the box
      is the empty one, or each of its four edges has one. */
  ghost predicate Tight(see: Sight, w: int, h: int, box: Area) {
    && (forall x, y :: 0 <= x < w && 0 <= y < h && see(x, y) ==> box.Has(x, y))
    && (box == NOWHERE || EdgesSeen(see, w, h, box))
  }

  /** A tight box lies within every box that has all the visible pixels. */
  lemma TightIsLeast(see: Sight, w: int, h: int, box: Area, other: Area)
    requires Tight(see, w, h, box)
    requires forall x, y :: 0 <= x < w && 0 <= y < h && see(x, y) ==> other.Has(x, y)
    ensures box == NOWHERE || (other.x <= box.x && box.x + box.w <= other.x + other.w
                               && other.y <= box.y && box.y + box.h <= other.y + other.h)
  {
  }

  /** So there is only one. */
  lemma TightIsUnique(see: Sight, w: int, h: int, a: Area, b: Area)
    requires Tight(see, w, h, a) && Tight(see, w, h, b)
    ensures a == b
  {
    TightIsLeast(see, w, h, a, b);
    TightIsLeast(see, w, h, b, a);
  }
}

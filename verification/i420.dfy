/** A whole page as I420, for a design that covers the picture. */
module I420 {
  import opened Bytes
  import opened Areas
  import opened Rasters
  import opened Pixels

  const DESIGN: seq<byte> := [71, 77, 88, 73] // GMXI

  /** `n & !1`, of a side that is not negative. */
  function Even(n: int): (even: nat)
    ensures even % 2 == 0
  {
    Max(n, 0) / 2 * 2
  }

  function LumaOf(px: Pixel): byte { Luma(px[2], px[1], px[0]) }

  /** The mean of two by two pixels, rounded down, channel `c`. */
  function Mean(a: Pixel, b: Pixel, c: Pixel, d: Pixel, i: int): byte
    requires 0 <= i < 4
  {
    ((a[i] as int) + (b[i] as int) + (c[i] as int) + (d[i] as int)) / 4
  }

  function UOf(a: Pixel, b: Pixel, c: Pixel, d: Pixel): byte {
    Limit(ChromaU(Mean(a, b, c, d, 2), Mean(a, b, c, d, 1), Mean(a, b, c, d, 0)), 16, 240)
  }

  function VOf(a: Pixel, b: Pixel, c: Pixel, d: Pixel): byte {
    Limit(ChromaV(Mean(a, b, c, d, 2), Mean(a, b, c, d, 1), Mean(a, b, c, d, 0)), 16, 240)
  }

  type Sampler = (int, int) -> byte

  function LumaAt(page: seq<Pixel>, stride: int): Sampler {
    (x: int, y: int) => LumaOf(Px(page, stride, x, y))
  }

  function UAt(page: seq<Pixel>, stride: int): Sampler {
    (x: int, y: int) => UOf(Px(page, stride, 2 * x, 2 * y), Px(page, stride, 2 * x + 1, 2 * y),
                            Px(page, stride, 2 * x, 2 * y + 1), Px(page, stride, 2 * x + 1, 2 * y + 1))
  }

  function VAt(page: seq<Pixel>, stride: int): Sampler {
    (x: int, y: int) => VOf(Px(page, stride, 2 * x, 2 * y), Px(page, stride, 2 * x + 1, 2 * y),
                            Px(page, stride, 2 * x, 2 * y + 1), Px(page, stride, 2 * x + 1, 2 * y + 1))
  }

  function Span(f: Sampler, y: int, n: nat): (r: seq<byte>)
    ensures |r| == n
    ensures forall x :: 0 <= x < n ==> r[x] == f(x, y)
  {
    if n == 0 then [] else Span(f, y, n - 1) + [f(n - 1, y)]
  }

  /** `h` rows of `w` samples, row after row. */
  function Plane(f: Sampler, w: nat, h: nat): (r: seq<byte>)
    ensures |r| == RowAt(w, h)
  {
    if h == 0 then [] else Plane(f, w, h - 1) + Span(f, h - 1, w)
  }

  lemma {:induction false} PlaneSample(f: Sampler, w: nat, h: nat, x: int, y: int)
    requires 0 <= x < w && 0 <= y < h
    ensures 0 <= RowAt(w, y) + x < RowAt(w, h)
    ensures Plane(f, w, h)[RowAt(w, y) + x] == f(x, y)
    decreases h
  {
    PxInside(w, h, x, y);
    if y < h - 1 {
      PlaneSample(f, w, h - 1, x, y);
    }
  }

  lemma {:induction false} EmptyPlane(f: Sampler, w: nat, h: nat)
    requires w == 0 || h == 0
    ensures Plane(f, w, h) == []
    decreases h
  {
    if h > 0 {
      EmptyPlane(f, w, h - 1);
    }
  }

  /** Luma at full size, then the two chroma planes at half size each way. */
  function Planes(luma: Sampler, u: Sampler, v: Sampler, w: nat, h: nat): seq<byte> {
    Plane(luma, w, h) + Plane(u, w / 2, h / 2) + Plane(v, w / 2, h / 2)
  }

  lemma {:induction false} QuarterRows(w: nat, h: nat)
    ensures RowAt(2 * w, 2 * h) == 4 * RowAt(w, h)
    decreases h
  {
    if h > 0 {
      QuarterRows(w, h - 1);
      assert RowAt(2 * w, 2 * h - 1) == RowAt(2 * w, 2 * h - 2) + 2 * w;
    }
  }

  /** The three planes make up half as much again as the picture. */
  lemma PlanesSize(luma: Sampler, u: Sampler, v: Sampler, w: nat, h: nat)
    requires w % 2 == 0 && h % 2 == 0
    ensures |Planes(luma, u, v, w, h)| == RowAt(w, h) * 3 / 2
  {
    QuarterRows(w / 2, h / 2);
  }

  /** The planes of a `w` by `h` picture, its pixels found by `stride`. */
  function Sampled(page: seq<Pixel>, stride: int, w: nat, h: nat): seq<byte> {
    Planes(LumaAt(page, stride), UAt(page, stride), VAt(page, stride), w, h)
  }

  function DesignHeader(w: int, h: int): (r: seq<byte>)
    ensures |r| == 28
  {
    Header(DESIGN, (w, h), Whole(w, h))
  }

  /** The stride is the rounded-down width, not the page's. */
  function EncodeI420(page: seq<Pixel>, width: int, height: int): seq<byte> {
    DesignHeader(Even(width), Even(height)) + Sampled(page, Even(width), Even(width), Even(height))
  }

  /** Where the planes lie behind the header. */
  lemma PlanesAt(luma: Sampler, u: Sampler, v: Sampler, w: nat, h: nat, x: int, y: int)
    requires w % 2 == 0 && h % 2 == 0 && 0 <= x < w / 2 && 0 <= y < h / 2
    ensures var (all, at) := (Planes(luma, u, v, w, h), RowAt(w / 2, y) + x);
      && 0 <= RowAt(w, h) + at < RowAt(w, h) + RowAt(w / 2, h / 2) + at < |all|
      && all[RowAt(w, h) + at] == u(x, y)
      && all[RowAt(w, h) + RowAt(w / 2, h / 2) + at] == v(x, y)
  {
    PlaneSample(u, w / 2, h / 2, x, y);
    PlaneSample(v, w / 2, h / 2, x, y);
    RowsInOrder(w, 0, h);
    ThreeParts(Plane(luma, w, h), Plane(u, w / 2, h / 2), Plane(v, w / 2, h / 2), RowAt(w / 2, y) + x);
  }

  lemma ThreeParts(a: seq<byte>, b: seq<byte>, c: seq<byte>, i: int)
    requires 0 <= i < |b| && |b| == |c|
    ensures |a + b + c| == |a| + |b| + |c|
    ensures (a + b + c)[|a| + i] == b[i] && (a + b + c)[|a| + |b| + i] == c[i]
  {
  }

  /** Behind the header every luma byte is of its own pixel. */
  lemma LumaIsThere(page: seq<Pixel>, w: nat, h: nat, x: int, y: int)
    requires 0 <= x < w && 0 <= y < h
    ensures 0 <= RowAt(w, y) + x < |Sampled(page, w, w, h)|
    ensures Sampled(page, w, w, h)[RowAt(w, y) + x] == LumaOf(Px(page, w, x, y))
  {
    PlaneSample(LumaAt(page, w), w, h, x, y);
    FirstPlane(LumaAt(page, w), UAt(page, w), VAt(page, w), w, h, RowAt(w, y) + x);
  }

  /** And every byte of the two chroma planes, blue's first, is of its square of four. */
  lemma ChromaIsThere(page: seq<Pixel>, w: nat, h: nat, x: int, y: int)
    requires w % 2 == 0 && h % 2 == 0 && 0 <= x < w / 2 && 0 <= y < h / 2
    ensures var (out, at) := (Sampled(page, w, w, h), RowAt(w, h) + RowAt(w / 2, y) + x);
      && 0 <= at < at + RowAt(w / 2, h / 2) < |out|
      && var (a, b) := (Px(page, w, 2 * x, 2 * y), Px(page, w, 2 * x + 1, 2 * y));
         var (c, d) := (Px(page, w, 2 * x, 2 * y + 1), Px(page, w, 2 * x + 1, 2 * y + 1));
         out[at] == UOf(a, b, c, d) && out[at + RowAt(w / 2, h / 2)] == VOf(a, b, c, d)
  {
    ChromaAt(page, w, h, x, y);
    SquareOf(page, w, x, y);
  }

  lemma ChromaAt(page: seq<Pixel>, w: nat, h: nat, x: int, y: int)
    requires w % 2 == 0 && h % 2 == 0 && 0 <= x < w / 2 && 0 <= y < h / 2
    ensures var (out, at) := (Sampled(page, w, w, h), RowAt(w, h) + RowAt(w / 2, y) + x);
      && 0 <= at < at + RowAt(w / 2, h / 2) < |out|
      && out[at] == UAt(page, w)(x, y) && out[at + RowAt(w / 2, h / 2)] == VAt(page, w)(x, y)
  {
    PlanesAt(LumaAt(page, w), UAt(page, w), VAt(page, w), w, h, x, y);
    PxInside(w / 2, h / 2, x, y);
  }

  lemma SquareOf(page: seq<Pixel>, w: nat, x: int, y: int)
    ensures var (a, b) := (Px(page, w, 2 * x, 2 * y), Px(page, w, 2 * x + 1, 2 * y));
      var (c, d) := (Px(page, w, 2 * x, 2 * y + 1), Px(page, w, 2 * x + 1, 2 * y + 1));
      UAt(page, w)(x, y) == UOf(a, b, c, d) && VAt(page, w)(x, y) == VOf(a, b, c, d)
  {
  }

  /** The mean is of all four, rounded down. */
  lemma MeanIsOfFour(a: Pixel, b: Pixel, c: Pixel, d: Pixel, i: int)
    requires 0 <= i < 4
    ensures var (m, sum) := (Mean(a, b, c, d, i), (a[i] as int) + (b[i] as int) + (c[i] as int) + (d[i] as int));
      4 * m <= sum < 4 * m + 4
  {
  }

  /** What those bytes are: BT.709's luma of a pixel, and the two chromas of the mean of
      a square. */
  lemma SamplesAreBt709(p: Pixel, q: Pixel, s: Pixel, t: Pixel)
    ensures Near(LumaOf(p), ExactLuma(p[2], p[1], p[0]), 1.0)
    ensures var (r, g, b) := (Mean(p, q, s, t, 2), Mean(p, q, s, t, 1), Mean(p, q, s, t, 0));
      && Near(UOf(p, q, s, t), ExactChroma(b, 0.0722, r, g, b), 1.25)
      && Near(VOf(p, q, s, t), ExactChroma(r, 0.2126, r, g, b), 1.0)
  {
    ConversionIsBt709(p[2], p[1], p[0]);
    ConversionIsBt709(Mean(p, q, s, t, 2), Mean(p, q, s, t, 1), Mean(p, q, s, t, 0));
  }

  /** Every pixel the encoder reads is on the page. */
  lemma NeverOutOfRange(width: int, height: int, x: int, y: int)
    requires 0 <= width && 0 <= height && 0 <= x < Even(width) && 0 <= y < Even(height)
    ensures 0 <= RowAt(Even(width), y) + x < RowAt(width, height)
  {
    PxInside(Even(width), Even(height), x, y);
    NarrowerIsLess(Even(width), width, Even(height));
    RowsInOrder(width, Even(height), height);
  }

  lemma {:induction false} NarrowerIsLess(a: int, b: int, h: int)
    requires a <= b
    ensures RowAt(a, h) <= RowAt(b, h)
    decreases h
  {
    if h > 0 {
      NarrowerIsLess(a, b, h - 1);
    }
  }

  // -- which pages come out right ----------------------------------------------

  /** Whether the frame holds the page's own pixels, found by the page's width. */
  predicate OwnPixels(page: seq<Pixel>, width: nat, height: nat) {
    Sampled(page, Even(width), Even(width), Even(height)) == Sampled(page, width, Even(width), Even(height))
  }

  /** The page with one white pixel at the start of its second row. */
  function OneWhite(width: nat, height: nat): (page: seq<Pixel>)
    requires 2 <= height
    ensures |page| == RowAt(width, height)
  {
    RowsInOrder(width, 0, height);
    seq(RowAt(width, height), i => if i == width then [255, 255, 255, 255] else BLANK)
  }

  /** On an odd width the second row is read a pixel too early. */
  lemma OddWidthSkews(width: nat, height: nat)
    requires width % 2 == 1 && 3 <= width && 2 <= height
    ensures !OwnPixels(OneWhite(width, height), width, height)
  {
    OneWhiteSeen(width, height);
    EvenIs(width, height);
    StridesTell(OneWhite(width, height), width - 1, width, width - 1, Even(height));
  }

  lemma EvenIs(width: nat, height: nat)
    requires width % 2 == 1 && 2 <= height
    ensures Even(width) == width - 1 && 2 <= Even(height)
  {
  }

  lemma StridesTell(page: seq<Pixel>, a: int, b: int, w: nat, h: nat)
    requires 1 <= w && 2 <= h && LumaAt(page, a)(0, 1) != LumaAt(page, b)(0, 1)
    ensures Sampled(page, a, w, h) != Sampled(page, b, w, h)
  {
    DifferInLuma(LumaAt(page, a), UAt(page, a), VAt(page, a), LumaAt(page, b), UAt(page, b), VAt(page, b), w, h, 0, 1);
  }

  lemma OneWhiteSeen(width: nat, height: nat)
    requires 3 <= width && 2 <= height
    ensures LumaAt(OneWhite(width, height), width - 1)(0, 1) == 16
    ensures LumaAt(OneWhite(width, height), width)(0, 1) == 235
  {
    RowsInOrder(width, 2, height);
    assert RowAt(width - 1, 1) == width - 1 && RowAt(width, 1) == width && RowAt(width, 2) == 2 * width;
    assert Px(OneWhite(width, height), width - 1, 0, 1) == BLANK;
    assert Px(OneWhite(width, height), width, 0, 1) == [255, 255, 255, 255];
  }

  lemma DifferInLuma(a: Sampler, au: Sampler, av: Sampler, b: Sampler, bu: Sampler, bv: Sampler,
                     w: nat, h: nat, x: int, y: int)
    requires 0 <= x < w && 0 <= y < h && a(x, y) != b(x, y)
    ensures Planes(a, au, av, w, h) != Planes(b, bu, bv, w, h)
  {
    PlaneSample(a, w, h, x, y);
    PlaneSample(b, w, h, x, y);
    FirstPlane(a, au, av, w, h, RowAt(w, y) + x);
    FirstPlane(b, bu, bv, w, h, RowAt(w, y) + x);
  }

  lemma FirstPlane(luma: Sampler, u: Sampler, v: Sampler, w: nat, h: nat, i: int)
    requires 0 <= i < RowAt(w, h)
    ensures |Planes(luma, u, v, w, h)| >= RowAt(w, h)
    ensures Planes(luma, u, v, w, h)[i] == Plane(luma, w, h)[i]
  {
  }

  lemma NothingToSample(page: seq<Pixel>, a: int, b: int, w: nat, h: nat)
    requires w == 0 || h == 0
    ensures Sampled(page, a, w, h) == Sampled(page, b, w, h)
  {
    EmptyPlane(LumaAt(page, a), w, h);
    EmptyPlane(LumaAt(page, b), w, h);
    EmptyPlane(UAt(page, a), w / 2, h / 2);
    EmptyPlane(UAt(page, b), w / 2, h / 2);
    EmptyPlane(VAt(page, a), w / 2, h / 2);
    EmptyPlane(VAt(page, b), w / 2, h / 2);
  }

  /** A page's frame holds its own pixels, whatever is painted on it, exactly when
      its width is even, or it is too narrow or too low for two rows of samples. */
  lemma OwnPixelsExactly(width: nat, height: nat)
    ensures (forall page: seq<Pixel> | |page| == RowAt(width, height) :: OwnPixels(page, width, height))
        <==> width % 2 == 0 || width < 2 || height < 2
  {
    if width % 2 == 0 {
      assert Even(width) == width;
    } else if width < 2 || height < 2 {
      forall page: seq<Pixel> | |page| == RowAt(width, height) ensures OwnPixels(page, width, height) {
        NothingToSample(page, Even(width), width, Even(width), Even(height));
      }
    } else {
      OddWidthSkews(width, height);
    }
  }

  // -- the encoder itself ------------------------------------------------------

  method LumaPlane(page: seq<Pixel>, width: int, height: int) returns (out: seq<byte>)
    requires 0 <= width && 0 <= height && RowAt(width, height) <= |page|
    ensures out == Plane(LumaAt(page, Even(width)), Even(width), Even(height))
  {
    var w, h := Even(width), Even(height);
    out := [];
    for y := 0 to h
      invariant out == Plane(LumaAt(page, w), w, y)
    {
      var row := LumaRow(page, width, height, y);
      out := out + row;
    }
  }

  method LumaRow(page: seq<Pixel>, width: int, height: int, y: nat) returns (row: seq<byte>)
    requires 0 <= width && RowAt(width, height) <= |page| && y < Even(height)
    ensures row == Span(LumaAt(page, Even(width)), y, Even(width))
  {
    var w := Even(width);
    row := [];
    for x := 0 to w
      invariant row == Span(LumaAt(page, w), y, x)
    {
      NeverOutOfRange(width, height, x, y);
      var luma := LumaOf(page[RowAt(w, y) + x]);
      assert luma == LumaAt(page, w)(x, y);
      row := row + [luma];
    }
  }

  method ChromaPlanes(page: seq<Pixel>, width: int, height: int) returns (us: seq<byte>, vs: seq<byte>)
    requires 0 <= width && 0 <= height && RowAt(width, height) <= |page|
    ensures us == Plane(UAt(page, Even(width)), Even(width) / 2, Even(height) / 2)
    ensures vs == Plane(VAt(page, Even(width)), Even(width) / 2, Even(height) / 2)
  {
    var w, h := Even(width), Even(height);
    us, vs := [], [];
    for y := 0 to h / 2
      invariant us == Plane(UAt(page, w), w / 2, y)
      invariant vs == Plane(VAt(page, w), w / 2, y)
    {
      var u, v := ChromaRow(page, width, height, y);
      us, vs := us + u, vs + v;
    }
  }

  method ChromaRow(page: seq<Pixel>, width: int, height: int, y: int) returns (us: seq<byte>, vs: seq<byte>)
    requires 0 <= width && 0 <= height && RowAt(width, height) <= |page| && 0 <= y < Even(height) / 2
    ensures us == Span(UAt(page, Even(width)), y, Even(width) / 2)
    ensures vs == Span(VAt(page, Even(width)), y, Even(width) / 2)
  {
    var w := Even(width);
    us, vs := [], [];
    for x := 0 to w / 2
      invariant us == Span(UAt(page, w), y, x)
      invariant vs == Span(VAt(page, w), y, x)
    {
      var u, v := Chroma(page, width, height, x, y);
      us, vs := us + [u], vs + [v];
    }
  }

  method Chroma(page: seq<Pixel>, width: int, height: int, x: int, y: int) returns (u: byte, v: byte)
    requires 0 <= width && 0 <= height && RowAt(width, height) <= |page|
    requires 0 <= x < Even(width) / 2 && 0 <= y < Even(height) / 2
    ensures u == UAt(page, Even(width))(x, y) && v == VAt(page, Even(width))(x, y)
  {
    var a := Sample(page, width, height, 2 * x, 2 * y);
    var b := Sample(page, width, height, 2 * x + 1, 2 * y);
    var c := Sample(page, width, height, 2 * x, 2 * y + 1);
    var d := Sample(page, width, height, 2 * x + 1, 2 * y + 1);
    u, v := UOf(a, b, c, d), VOf(a, b, c, d);
  }

  method Sample(page: seq<Pixel>, width: int, height: int, x: int, y: int) returns (px: Pixel)
    requires 0 <= width && 0 <= height && RowAt(width, height) <= |page|
    requires 0 <= x < Even(width) && 0 <= y < Even(height)
    ensures px == Px(page, Even(width), x, y)
  {
    NeverOutOfRange(width, height, x, y);
    px := page[RowAt(Even(width), y) + x];
  }

  method EncodeI420Out(page: seq<Pixel>, width: int, height: int) returns (out: seq<byte>)
    requires 0 <= width && 0 <= height && RowAt(width, height) <= |page|
    ensures out == EncodeI420(page, width, height)
  {
    var luma := LumaPlane(page, width, height);
    var us, vs := ChromaPlanes(page, width, height);
    out := DesignHeader(Even(width), Even(height)) + (luma + us + vs);
  }
}

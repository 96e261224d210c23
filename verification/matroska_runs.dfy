/** Whole lives of a plugin: every frame of every run reads back, in order. */
module MatroskaRuns {
  import opened Bytes
  import opened Ebml
  import opened Matroska
  import opened MatroskaReader
  import opened MatroskaProof

  // -- what a life should leave on the pipe ----------------------------------------

  /** The frames of one run, at their milliseconds. */
  function RunFrames(c: Canvas, drawn: seq<seq<byte>>, n: nat): (r: seq<Frame>)
    requires 1 <= c.fps && n <= |drawn|
    ensures |r| == n
  {
    if n == 0 then [] else RunFrames(c, drawn, n - 1) + [Frame(1, Ms(c, n - 1), true, drawn[n - 1])]
  }

  /** The canvas in force after a list of starts: the last one named. */
  function InForce(ready: Canvas, starts: seq<Start>): Canvas {
    if |starts| == 0 then ready
    else
      var last := starts[|starts| - 1];
      if last.container && last.canvas.Some? then last.canvas.value else InForce(ready, starts[..|starts| - 1])
  }

  /** The last start of a list runs: it asks for a container and there is a canvas. */
  predicate Runs(ready: Canvas, starts: seq<Start>)
    requires |starts| > 0
  {
    starts[|starts| - 1].container && InForce(ready, starts).fps >= 1
  }

  /** The canvas of the first start that ran. */
  function First(ready: Canvas, starts: seq<Start>): Option<Canvas> {
    if |starts| == 0 then None
    else
      var (front, last) := (starts[..|starts| - 1], starts[|starts| - 1]);
      if First(ready, front).Some? then First(ready, front)
      else if Runs(ready, starts) then Some(InForce(ready, starts)) else None
  }

  /** Every run's frames, run after run. */
  function Recorded(ready: Canvas, starts: seq<Start>): seq<Frame> {
    if |starts| == 0 then []
    else
      var (front, last) := (starts[..|starts| - 1], starts[|starts| - 1]);
      var c := InForce(ready, starts);
      if Runs(ready, starts)
      then Recorded(ready, front) + RunFrames(c, last.drawn, Good(c, last.drawn))
      else Recorded(ready, front)
  }

  // -- one frame ---------------------------------------------------------------------

  /** The frame's place fits the 16 bits a block has for it. */
  predicate Fits(w: Writer, ms: nat) { w.open ==> w.base - ms <= 0x8000 }

  /** A reader that has had all of `out` after the opening has come to `st`. */
  ghost predicate Leads(out: seq<byte>, opening: seq<byte>, st: Scan) {
    exists rest: seq<byte> :: out == opening + rest && Reads(rest, NOTHING, st)
  }

  /** The reader stands where the writer does. */
  ghost predicate Agrees(w: Writer, opening: seq<byte>, st: Scan) {
    Leads(w.out, opening, st) && (w.open ==> st.inCluster && st.base == Some(w.base))
  }

  lemma LeadsOn(out: seq<byte>, more: seq<byte>, opening: seq<byte>, st: Scan, next: Scan)
    requires Leads(out, opening, st) && Reads(more, st, next)
    ensures Leads(out + more, opening, next)
  {
    var rest: seq<byte> :| out == opening + rest && Reads(rest, NOTHING, st);
    assert out + more == opening + (rest + more);
    ReadsBoth(rest, more, NOTHING, st, next);
  }

  lemma ClusterReads(ms: nat, st: Scan)
    requires ms < I64
    ensures Reads(ClusterStart(ms), st, st.(inCluster := true, base := Some(ms)))
  {
    var open := st.(inCluster := true, base := None);
    var based := st.(inCluster := true, base := Some(ms));
    TrackIds();
    ReadsClusterHead(st);
    UintReads(ms);
    ReadsElement(Element(ID_TIMECODE, Uint(ms)), open, based);
    ReadsBoth(ID_CLUSTER + UNKNOWN_SIZE, Elem(ID_TIMECODE, Uint(ms)), st, open, based);
  }

  lemma BlockReads(rel: int, base: nat, data: seq<byte>, st: Scan)
    requires Fitting(data) && -0x8000 <= rel < 0x8000 && st.base == Some(base)
    ensures Reads(Elem(ID_SIMPLE_BLOCK, Block(rel, data)), st,
                  st.(frames := st.frames + [Frame(1, base + rel, true, data)]))
  {
    TrackIds();
    BlockReadsExactly(rel, data, base);
    ReadsElement(Element(ID_SIMPLE_BLOCK, Block(rel, data)), st,
                 st.(frames := st.frames + [Frame(1, base + rel, true, data)]));
  }

  lemma ClusteredAgrees(w: Writer, ms: nat, opening: seq<byte>, st: Scan) returns (next: Scan)
    requires Agrees(w, opening, st) && ms < I64
    ensures Agrees(Clustered(w, ms), opening, next)
    ensures next.info == st.info && next.track == st.track && next.frames == st.frames
  {
    next := st;
    if !w.open || ms - w.base >= CLUSTER_MS {
      next := st.(inCluster := true, base := Some(ms));
      ClusterReads(ms, st);
      LeadsOn(w.out, ClusterStart(ms), opening, st, next);
    }
  }

  lemma BlockLeads(out: seq<byte>, rel: int, base: nat, data: seq<byte>, opening: seq<byte>, st: Scan, next: Scan)
    requires Leads(out, opening, st) && st.base == Some(base) && Fitting(data) && -0x8000 <= rel < 0x8000
    requires next == st.(frames := st.frames + [Frame(1, base + rel, true, data)])
    ensures Leads(out + Elem(ID_SIMPLE_BLOCK, Block(rel, data)), opening, next)
  {
    BlockReads(rel, base, data, st);
    LeadsOn(out, Elem(ID_SIMPLE_BLOCK, Block(rel, data)), opening, st, next);
  }

  /** A frame whose place fits is read at its own millisecond. */
  lemma FramedAgrees(w: Writer, ms: nat, data: seq<byte>, opening: seq<byte>, st: Scan) returns (next: Scan)
    requires Agrees(w, opening, st) && ms < I64 && Fitting(data) && Fits(w, ms)
    ensures Agrees(Framed(w, ms, data), opening, next)
    ensures next.info == st.info && next.track == st.track
    ensures next.frames == st.frames + [Frame(1, ms, true, data)]
  {
    var at := ClusteredAgrees(w, ms, opening, st);
    next := at.(frames := at.frames + [Frame(1, ms, true, data)]);
    var c := Clustered(w, ms);
    BlockLeads(c.out, ms - c.base, c.base, data, opening, at, next);
  }

  // -- one run -----------------------------------------------------------------------

  lemma MsGrows(c: Canvas, i: nat, n: nat)
    requires 1 <= c.fps && i <= n && n * NS_PER_S < I64
    ensures Ms(c, i) <= Ms(c, n) < I64
  {
    StepFits(c);
    var s := Step(c);
    assert i * s <= n * s by { assert n * s == i * s + (n - i) * s; }
    assert n * s <= n * NS_PER_S;
  }

  lemma NextFits(w: Writer, c: Canvas, drawn: seq<seq<byte>>, n: nat)
    requires 1 <= c.fps && n <= |drawn| && AllFitting(drawn) && |drawn| * NS_PER_S < I64
    requires Fits(w, 0)
    ensures Fits(Written(w, c, drawn, n), Ms(c, n)) && Ms(c, n) < I64
  {
    MsGrows(c, n, |drawn|);
    BaseStays(w, c, drawn, n);
  }

  /** A frame's millisecond is never later than its exact time at the canvas's rate, and
      earlier by less than a millisecond and a nanosecond for each frame before it. */
  lemma MsIsOnTime(c: Canvas, i: nat)
    requires 1 <= c.fps
    ensures Ms(c, i) * 1000000 * c.fps <= i * 1000000000
    ensures i > 0 ==> i * 1000000000 < (Ms(c, i) + 1) * 1000000 * c.fps + i * c.fps
  {
    var (s, f) := (Step(c), c.fps);
    assert s * f <= NS_PER_S < (s + 1) * f by { Whole(NS_PER_S, f); }
    var ns := Ms(c, i) * SCALE_NS;
    assert ns <= i * s < ns + SCALE_NS;
    Times(ns, i * s, f);
    Times(s * f, NS_PER_S, i);
    assert i * s * f == s * f * i;
    if i > 0 {
      assert NS_PER_S * i < (s + 1) * f * i by { TimesMore(NS_PER_S, (s + 1) * f, i); }
      assert (s + 1) * f * i == i * s * f + i * f;
      TimesMore(i * s, ns + SCALE_NS, f);
      assert (ns + SCALE_NS) * f == (Ms(c, i) + 1) * SCALE_NS * f;
    }
  }

  lemma Whole(n: nat, d: nat)
    requires d > 0
    ensures n / d * d <= n < (n / d + 1) * d
  {
  }

  lemma Times(a: nat, b: nat, f: nat)
    requires a <= b
    ensures a * f <= b * f
  {
    assert b * f == a * f + (b - a) * f;
  }

  lemma TimesMore(a: nat, b: nat, f: nat)
    requires a < b && f > 0
    ensures a * f < b * f
  {
    assert b * f == a * f + (b - a) * f && (b - a) * f >= f by { Times(1, b - a, f); }
  }

  /** The frames of a run are read at their own milliseconds, as long as the first
      of them fits the Cluster it finds open. */
  lemma {:induction false} RunReads(w: Writer, c: Canvas, drawn: seq<seq<byte>>, n: nat, opening: seq<byte>, st: Scan)
    returns (next: Scan)
    requires 1 <= c.fps && n <= |drawn| && AllFitting(drawn) && |drawn| * NS_PER_S < I64
    requires Agrees(w, opening, st) && Fits(w, 0)
    ensures Agrees(Written(w, c, drawn, n), opening, next)
    ensures next.info == st.info && next.track == st.track
    ensures next.frames == st.frames + RunFrames(c, drawn, n)
    decreases n
  {
    next := st;
    if n > 0 {
      var at := RunReads(w, c, drawn, n - 1, opening, st);
      NextFits(w, c, drawn, n - 1);
      next := OneMoreReads(Written(w, c, drawn, n - 1), Ms(c, n - 1), drawn[n - 1], opening,
                           st.frames, RunFrames(c, drawn, n - 1), at);
    }
  }

  lemma OneMoreReads(w: Writer, ms: nat, data: seq<byte>, opening: seq<byte>, before: seq<Frame>, run: seq<Frame>,
                     st: Scan) returns (next: Scan)
    requires Agrees(w, opening, st) && ms < I64 && Fitting(data) && Fits(w, ms) && st.frames == before + run
    ensures Agrees(Framed(w, ms, data), opening, next)
    ensures next.info == st.info && next.track == st.track
    ensures next.frames == before + (run + [Frame(1, ms, true, data)])
  {
    next := FramedAgrees(w, ms, data, opening, st);
    OneMoreFrame(before, run, Frame(1, ms, true, data));
  }

  lemma OneMoreFrame(a: seq<Frame>, b: seq<Frame>, f: Frame)
    ensures a + b + [f] == a + (b + [f])
  {
  }

  /** The open Cluster began no later than the next frame, or before the run did. */
  lemma {:induction false} BaseStays(w: Writer, c: Canvas, drawn: seq<seq<byte>>, n: nat)
    requires 1 <= c.fps && n <= |drawn| && AllFitting(drawn) && |drawn| * NS_PER_S < I64
    ensures var p := Written(w, c, drawn, n);
      p.open ==> p.base <= Ms(c, n) || (w.open && p.base == w.base)
    decreases n
  {
    if n > 0 {
      BaseStays(w, c, drawn, n - 1);
      ShortEnough(n, |drawn|);
      MsGrows(c, n - 1, n);
      BaseMoves(w, Written(w, c, drawn, n - 1), Ms(c, n - 1), Ms(c, n), drawn[n - 1]);
    }
  }

  lemma ShortEnough(n: nat, all: nat)
    requires n <= all && all * NS_PER_S < I64
    ensures n * NS_PER_S < I64
  {
  }

  /** A frame's Cluster is its own, or the one that was open. */
  lemma BaseMoves(w: Writer, p: Writer, ms: nat, next: nat, data: seq<byte>)
    requires Fitting(data) && ms <= next
    requires p.open ==> p.base <= ms || (w.open && p.base == w.base)
    ensures var q := Framed(p, ms, data); q.base <= next || (w.open && q.base == w.base)
  {
  }

  /** After a Cluster of its own, no frame is before its Cluster or two seconds past
      it, so the 16 bits never truncate. */
  lemma OffsetsFit(w: Writer, c: Canvas, drawn: seq<seq<byte>>, n: nat)
    requires 1 <= c.fps && n <= |drawn| && AllFitting(drawn) && |drawn| * NS_PER_S < I64
    requires !w.open
    ensures var at := Clustered(Written(w, c, drawn, n), Ms(c, n));
      0 <= Ms(c, n) - at.base < 2000
  {
    BaseStays(w, c, drawn, n);
  }

  // -- a whole life --------------------------------------------------------------------

  predicate Shows(st: Scan, c: Canvas, name: seq<byte>, frames: seq<Frame>)
    requires 1 <= c.fps
  {
    st.info == Some(Info(1000000, name, name)) && st.track == Some(TrackOf(c)) && st.frames == frames
  }

  lemma HeaderLeads(c: Canvas, name: seq<byte>, head: seq<byte>) returns (st: Scan)
    requires Usable(c, name) && |head| < NESTED
    ensures Shows(st, c, name, [])
    ensures Leads(Opening(head) + InfoElem(name) + TracksElem(c), Opening(head), st)
  {
    HeaderReads(c, name);
    st := Scan(Some(Info(1000000, name, name)), Some(TrackOf(c)), false, None, []);
    var rest := InfoElem(name) + TracksElem(c);
    assert Opening(head) + InfoElem(name) + TracksElem(c) == Opening(head) + rest;
  }

  /** The canvas of a life that has a header could have one. */
  lemma {:induction false} Sound(ready: Canvas, name: seq<byte>, starts: seq<Start>)
    requires Ready(ready, name) && forall i :: 0 <= i < |starts| ==> Startable(starts[i], name)
    ensures AllStarted(ready, name, starts).current == InForce(ready, starts)
    ensures First(ready, starts).Some? ==> Usable(First(ready, starts).value, name)
    decreases |starts|
  {
    if |starts| > 0 {
      Sound(ready, name, starts[..|starts| - 1]);
    }
  }

  /** Where a life has come to: nothing out at all, or a header and frames. */
  ghost predicate Lived(w: Writer, head: seq<byte>, first: Option<Canvas>, name: seq<byte>, frames: seq<Frame>, st: Scan)
    requires |head| < NESTED && (first.Some? ==> Usable(first.value, name))
  {
    && w.header == first.Some?
    && (first.None? ==> w.out == [] && frames == [])
    && (first.Some? ==> Leads(w.out, Opening(head), st) && Shows(st, first.value, name, frames))
  }

  /** One start that runs adds its frames, and the header if there was none. */
  lemma StartLives(w: Writer, c: Canvas, head: seq<byte>, first: Option<Canvas>, name: seq<byte>,
                   frames: seq<Frame>, drawn: seq<seq<byte>>, n: nat, st: Scan) returns (next: Scan)
    requires head == EbmlPayload() && Usable(c, name) && w.current == c
    requires first.Some? ==> Usable(first.value, name)
    requires Lived(w, head, first, name, frames, st)
    requires n <= |drawn| && AllFitting(drawn) && |drawn| * NS_PER_S < I64
    ensures Lived(Written(Headed(w, name).(open := false), c, drawn, n), head,
                  if first.Some? then first else Some(c), name, frames + RunFrames(c, drawn, n), next)
  {
    var h := Headed(w, name).(open := false);
    var at := st;
    if first.None? {
      assert [] + HeaderBytes(c, name) == HeaderBytes(c, name);
      at := HeaderLeads(c, name, head);
    }
    next := RunReads(h, c, drawn, n, Opening(head), at);
  }

  lemma {:induction false} LifeReads(ready: Canvas, name: seq<byte>, starts: seq<Start>) returns (st: Scan)
    requires Ready(ready, name) && forall i :: 0 <= i < |starts| ==> Startable(starts[i], name)
    ensures First(ready, starts).Some? ==> Usable(First(ready, starts).value, name)
    ensures Lived(AllStarted(ready, name, starts), EbmlPayload(), First(ready, starts), name, Recorded(ready, starts), st)
    decreases |starts|
  {
    Sound(ready, name, starts);
    st := NOTHING;
    if |starts| > 0 {
      var (front, last) := (starts[..|starts| - 1], starts[|starts| - 1]);
      Sound(ready, name, front);
      st := LifeReads(ready, name, front);
      var c := InForce(ready, starts);
      if Runs(ready, starts) {
        st := StartLives(AllStarted(ready, name, front).(current := c), c, EbmlPayload(), First(ready, front), name,
                         Recorded(ready, front), last.drawn, Good(c, last.drawn), st);
      }
    }
  }

  /** For any list of starts, what is on the pipe is nothing if none of them ran, and
      otherwise one header and every frame of every run, in order, at its own
      millisecond and with its own bytes. */
  lemma EveryStreamReads(ready: Canvas, name: seq<byte>, starts: seq<Start>)
    requires Ready(ready, name) && forall i :: 0 <= i < |starts| ==> Startable(starts[i], name)
    ensures var w := AllStarted(ready, name, starts);
      match First(ready, starts)
      case None => w.out == [] && Recorded(ready, starts) == []
      case Some(c) =>
        && Usable(c, name) && ReadStream(w.out).Some?
        && ReadStream(w.out).value.head == HEAD
        && Shows(ReadStream(w.out).value.scan, c, name, Recorded(ready, starts))
  {
    var st := LifeReads(ready, name, starts);
    if First(ready, starts).Some? {
      LedReads(AllStarted(ready, name, starts).out, EbmlPayload(), st);
    }
  }

  lemma LedReads(out: seq<byte>, head: seq<byte>, st: Scan)
    requires head == EbmlPayload() && Leads(out, Opening(head), st)
    ensures ReadStream(out) == Some(Movie(HEAD, st))
  {
    var rest: seq<byte> :| out == Opening(head) + rest && Reads(rest, NOTHING, st);
    ReadsAll(rest, NOTHING, st);
    HeadReads();
    OpeningReads(head, rest, st);
  }

  // -- the frames and the track they are said to be of ---------------------------------------

  predicate Sized(frames: seq<Frame>, n: nat) { forall i :: 0 <= i < |frames| ==> |frames[i].data| == n }

  /** No start that wrote a frame had a canvas of another size. */
  predicate SameSize(ready: Canvas, starts: seq<Start>, n: nat)
    decreases |starts|
  {
    |starts| == 0 ||
    (var (front, last) := (starts[..|starts| - 1], starts[|starts| - 1]);
     var c := InForce(ready, starts);
     && SameSize(ready, front, n)
     && (Runs(ready, starts) && Good(c, last.drawn) > 0 ==> Expected(c) == n))
  }

  lemma {:induction false} RunIsSized(c: Canvas, drawn: seq<seq<byte>>, k: nat, n: nat)
    requires 1 <= c.fps && k <= |drawn| && forall i :: 0 <= i < k ==> |drawn[i]| == Expected(c)
    ensures Sized(RunFrames(c, drawn, k), n) <==> (k > 0 ==> Expected(c) == n)
    decreases k
  {
    if k > 0 {
      RunIsSized(c, drawn, k - 1, n);
      var frames := RunFrames(c, drawn, k);
      assert frames[k - 1].data == drawn[k - 1];
      assert frames == RunFrames(c, drawn, k - 1) + [frames[k - 1]];
    }
  }

  lemma SizedBoth(a: seq<Frame>, b: seq<Frame>, n: nat)
    ensures Sized(a + b, n) <==> Sized(a, n) && Sized(b, n)
  {
    if Sized(a + b, n) {
      assert forall i :: 0 <= i < |a| ==> (a + b)[i] == a[i];
      assert forall i :: 0 <= i < |b| ==> (a + b)[|a| + i] == b[i];
    }
  }

  /** Every recorded frame is of `n` bytes exactly when no start that wrote one had a
      canvas whose frames are not. */
  lemma {:induction false} FramesFitExactly(ready: Canvas, starts: seq<Start>, n: nat)
    ensures Sized(Recorded(ready, starts), n) <==> SameSize(ready, starts, n)
    decreases |starts|
  {
    if |starts| > 0 {
      var front, last := starts[..|starts| - 1], starts[|starts| - 1];
      var c := InForce(ready, starts);
      FramesFitExactly(ready, front, n);
      if Runs(ready, starts) {
        RunIsSized(c, last.drawn, Good(c, last.drawn), n);
        SizedBoth(Recorded(ready, front), RunFrames(c, last.drawn, Good(c, last.drawn)), n);
      }
    }
  }

  /** The canvas each recorded frame was drawn for. */
  function DrawnFor(ready: Canvas, starts: seq<Start>): (r: seq<Canvas>)
    ensures |r| == |Recorded(ready, starts)| && forall i :: 0 <= i < |r| ==> r[i].fps >= 1
  {
    if |starts| == 0 then []
    else
      var (front, last) := (starts[..|starts| - 1], starts[|starts| - 1]);
      var c := InForce(ready, starts);
      if Runs(ready, starts)
      then DrawnFor(ready, front) + seq(Good(c, last.drawn), _ => c) else DrawnFor(ready, front)
  }

  /** Each frame was drawn for the sides and the rate that a track names. */
  predicate OfTrack(cs: seq<Canvas>, t: Track) { forall i :: 0 <= i < |cs| ==> cs[i].fps >= 1 && TrackOf(cs[i]) == t }

  /** No start that wrote a frame had other sides or another rate. */
  predicate SameTrack(ready: Canvas, starts: seq<Start>, t: Track)
    decreases |starts|
  {
    |starts| == 0 ||
    (var (front, last) := (starts[..|starts| - 1], starts[|starts| - 1]);
     var c := InForce(ready, starts);
     && SameTrack(ready, front, t)
     && (Runs(ready, starts) && Good(c, last.drawn) > 0 ==> TrackOf(c) == t))
  }

  /** Every recorded frame was drawn for the sides and the rate its track names exactly
      when no start that wrote one had others: the header is not written again. */
  lemma {:induction false} TrackFitsExactly(ready: Canvas, starts: seq<Start>, t: Track)
    ensures OfTrack(DrawnFor(ready, starts), t) <==> SameTrack(ready, starts, t)
    decreases |starts|
  {
    if |starts| > 0 {
      var front, last := starts[..|starts| - 1], starts[|starts| - 1];
      var c := InForce(ready, starts);
      TrackFitsExactly(ready, front, t);
      if Runs(ready, starts) {
        OfTrackBoth(DrawnFor(ready, front), seq(Good(c, last.drawn), _ => c), t);
        AllOne(c, Good(c, last.drawn), t);
      }
    }
  }

  lemma OfTrackBoth(a: seq<Canvas>, b: seq<Canvas>, t: Track)
    ensures OfTrack(a + b, t) <==> OfTrack(a, t) && OfTrack(b, t)
  {
    if OfTrack(a + b, t) {
      assert forall i :: 0 <= i < |a| ==> (a + b)[i] == a[i];
      assert forall i :: 0 <= i < |b| ==> (a + b)[|a| + i] == b[i];
    }
  }

  lemma AllOne(c: Canvas, n: nat, t: Track)
    requires c.fps >= 1
    ensures OfTrack(seq(n, _ => c), t) <==> (n > 0 ==> TrackOf(c) == t)
  {
    if n > 0 && OfTrack(seq(n, _ => c), t) {
      assert seq(n, _ => c)[0] == c;
    }
  }

  /** Two starts of one frame each, on any two canvases of different frame sizes: the
      second frame does not fit the first one's track. */
  lemma SecondCanvasMisfits(ready: Canvas, a: Canvas, b: Canvas, x: seq<byte>, y: seq<byte>)
    requires a.fps >= 1 && b.fps >= 1 && |x| == Expected(a) && |y| == Expected(b) && Expected(a) != Expected(b)
    ensures var starts := [Start(true, Some(a), [x]), Start(true, Some(b), [y])];
      First(ready, starts) == Some(a) && !Sized(Recorded(ready, starts), Expected(a))
      && !OfTrack(DrawnFor(ready, starts), TrackOf(a))
  {
    var one, two := Start(true, Some(a), [x]), Start(true, Some(b), [y]);
    var starts := [one, two];
    assert starts[..1] == [one] && [one][..0] == [];
    GoodOne(a, x);
    GoodOne(b, y);
    assert InForce(ready, [one]) == a && InForce(ready, starts) == b;
    assert First(ready, [one]) == Some(a);
    FramesFitExactly(ready, starts, Expected(a));
    TrackFitsExactly(ready, starts, TrackOf(a));
  }

  lemma GoodOne(c: Canvas, x: seq<byte>)
    requires |x| == Expected(c)
    ensures Good(c, [x]) == 1
  {
    assert [x][1..] == [];
  }
}

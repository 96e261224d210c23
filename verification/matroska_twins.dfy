/** The Node and Python templates: the same stream, but a restart goes on in the
    Cluster that was open, and a place that does not fit 16 bits is refused. */
module MatroskaTwins {
  import opened Bytes
  import opened Matroska
  import opened MatroskaReader
  import opened MatroskaRuns

  /** What a run has written, and how many of its frames. */
  datatype Sent = Sent(w: Writer, frames: nat)

  /** Frame `i` of a run, unless one before it was refused: writeInt16BE and
      struct.pack raise rather than truncate, and that ends the run. */
  function Send(s: Sent, i: nat, ms: nat, data: seq<byte>): Sent
    requires Fitting(data)
  {
    if s.frames < i || !Fits(s.w, ms) then s else Sent(Framed(s.w, ms, data), i + 1)
  }

  /** The first `n` frames of a run. */
  function Sending(w: Writer, c: Canvas, drawn: seq<seq<byte>>, n: nat): (s: Sent)
    requires 1 <= c.fps && n <= |drawn| && AllFitting(drawn)
    ensures s.frames <= n
  {
    if n == 0 then Sent(w, 0) else Send(Sending(w, c, drawn, n - 1), n - 1, Ms(c, n - 1), drawn[n - 1])
  }

  lemma SendFits(s: Sent, ms: nat, data: seq<byte>)
    requires Fitting(data) && Fits(s.w, ms)
    ensures Send(s, s.frames, ms, data) == Sent(Framed(s.w, ms, data), s.frames + 1)
  {
  }

  /** A restart sends every frame when the open Cluster began in the first 32768 ms
      of the run before. */
  lemma {:induction false} EarlyRestartSends(w: Writer, c: Canvas, drawn: seq<seq<byte>>, n: nat)
    requires 1 <= c.fps && n <= |drawn| && AllFitting(drawn) && |drawn| * NS_PER_S < I64
    requires Fits(w, 0)
    ensures Sending(w, c, drawn, n) == Sent(Written(w, c, drawn, n), n)
    decreases n
  {
    if n > 0 {
      EarlyRestartSends(w, c, drawn, n - 1);
      NextFits(w, c, drawn, n - 1);
      var p := Written(w, c, drawn, n - 1);
      var (ms, data) := (Ms(c, n - 1), drawn[n - 1]);
      assert Sending(w, c, drawn, n) == Sent(Framed(p, ms, data), n) by { SendFits(Sent(p, n - 1), ms, data); }
    }
  }

  /** And otherwise none of them. */
  lemma {:induction false} LateRestartSends(w: Writer, c: Canvas, drawn: seq<seq<byte>>, n: nat)
    requires 1 <= c.fps && n <= |drawn| && AllFitting(drawn)
    requires !Fits(w, 0)
    ensures Sending(w, c, drawn, n) == Sent(w, 0)
    decreases n
  {
    if n > 0 {
      LateRestartSends(w, c, drawn, n - 1);
      assert Ms(c, 0) == 0;
    }
  }

  /** So a run's frames all read back, at their own milliseconds, exactly when the
      Cluster it found open began no later than 32768 ms; the bytes that do go out
      never read back wrong. */
  lemma RestartReadsExactly(w: Writer, c: Canvas, drawn: seq<seq<byte>>, n: nat, opening: seq<byte>, st: Scan)
    returns (next: Scan)
    requires 1 <= c.fps && 0 < n <= |drawn| && AllFitting(drawn) && |drawn| * NS_PER_S < I64
    requires Agrees(w, opening, st)
    ensures var s := Sending(w, c, drawn, n);
      && Agrees(s.w, opening, next) && next.frames == st.frames + RunFrames(c, drawn, s.frames)
      && (s.frames == n <==> (w.open ==> w.base <= 0x8000))
  {
    next := st;
    if Fits(w, 0) {
      EarlyRestartSends(w, c, drawn, n);
      next := RunReads(w, c, drawn, n, opening, st);
    } else {
      LateRestartSends(w, c, drawn, n);
    }
  }

  /** At one frame a second a Cluster holds two. */
  lemma {:induction false} PairsOfFrames(w: Writer, c: Canvas, drawn: seq<seq<byte>>, n: nat)
    requires c.fps == 1 && n <= |drawn| && AllFitting(drawn) && !w.open
    ensures n == 0 ==> !Written(w, c, drawn, n).open
    ensures n > 0 ==> Written(w, c, drawn, n).open && Written(w, c, drawn, n).base == PairBase(n - 1)
    decreases n
  {
    if n > 0 {
      PairsOfFrames(w, c, drawn, n - 1);
      NextPair(n - 1);
      assert Ms(c, n - 1) == (n - 1) * 1000;
      FramedOpens(Written(w, c, drawn, n - 1), (n - 1) * 1000, drawn[n - 1]);
    }
  }

  lemma FramedOpens(w: Writer, ms: nat, data: seq<byte>)
    requires Fitting(data)
    ensures var f := Framed(w, ms, data);
      f.open && f.base == if w.open && ms - w.base < CLUSTER_MS then w.base else ms
  {
  }

  function PairBase(i: nat): nat { i / 2 * 2000 }

  lemma NextPair(i: nat)
    ensures PairBase(i) == if i > 0 && i * 1000 - PairBase(i - 1) < CLUSTER_MS then PairBase(i - 1) else i * 1000
  {
  }

  /** A later run: its canvas, and what draw() returned. */
  datatype Again = Again(canvas: Canvas, drawn: seq<seq<byte>>)

  predicate Drawable(a: Again) { 1 <= a.canvas.fps && AllFitting(a.drawn) }

  /** Run after run, and the frames they sent between them. */
  function SendingAll(w: Writer, runs: seq<Again>): (Writer, nat)
    requires forall i :: 0 <= i < |runs| ==> Drawable(runs[i])
  {
    if |runs| == 0 then (w, 0)
    else
      var (before, sent) := SendingAll(w, runs[..|runs| - 1]);
      var last := runs[|runs| - 1];
      assert Drawable(last);
      var s := Sending(before, last.canvas, last.drawn, |last.drawn|);
      (s.w, sent + s.frames)
  }

  /** Once a Cluster that began too late is open, no run of any canvas sends a frame or
      writes a byte. */
  lemma {:induction false} SilentForGood(w: Writer, runs: seq<Again>)
    requires !Fits(w, 0) && forall i :: 0 <= i < |runs| ==> Drawable(runs[i])
    ensures SendingAll(w, runs) == (w, 0)
    decreases |runs|
  {
    if |runs| > 0 {
      SilentForGood(w, runs[..|runs| - 1]);
      var last := runs[|runs| - 1];
      assert Drawable(last);
      LateRestartSends(w, last.canvas, last.drawn, |last.drawn|);
    }
  }

  /** So a plugin at one frame a second that is stopped after 36 frames never sends
      another, however often it is started again: its open Cluster began at 34000 ms. */
  lemma StoppedForGood(w: Writer, c: Canvas, drawn: seq<seq<byte>>, runs: seq<Again>)
    requires c.fps == 1 && |drawn| == 36 && AllFitting(drawn) && !w.open
    requires forall i :: 0 <= i < |runs| ==> Drawable(runs[i])
    ensures SendingAll(Written(w, c, drawn, 36), runs) == (Written(w, c, drawn, 36), 0)
  {
    PairsOfFrames(w, c, drawn, 36);
    SilentForGood(Written(w, c, drawn, 36), runs);
  }

  /** The frame size those templates ask draw() for. */
  function TwinExpected(c: Canvas): nat { c.width * c.height * 3 / 2 }

  /** It is the Go template's exactly when both sides are even. */
  lemma SizesAgreeExactly(c: Canvas)
    requires c.width >= 1 && c.height >= 1
    ensures TwinExpected(c) == Expected(c) <==> c.width % 2 == 0 && c.height % 2 == 0
  {
    var (cw, ch) := ((c.width + 1) / 2, (c.height + 1) / 2);
    var (ow, oh) := (2 * cw - c.width, 2 * ch - c.height);
    assert c.width == 2 * cw - ow && c.height == 2 * ch - oh;
    assert c.width * c.height == 4 * cw * ch - 2 * cw * oh - 2 * ow * ch + ow * oh;
    assert Expected(c) == c.width * c.height + 2 * cw * ch;
    if ow == 0 && oh == 0 {
      assert c.width * c.height * 3 == 12 * cw * ch;
    } else {
      Bigger(cw, ch, ow, oh);
    }
  }

  lemma Bigger(cw: nat, ch: nat, ow: nat, oh: nat)
    requires cw >= 1 && ch >= 1 && ow <= 1 && oh <= 1 && ow + oh >= 1
    ensures var area := 4 * cw * ch - 2 * cw * oh - 2 * ow * ch + ow * oh;
      area * 3 / 2 < area + 2 * cw * ch
  {
  }
}

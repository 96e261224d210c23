/** The streamable Matroska a source plugin writes down a pipe, and a reader of it
    built from section 10 of RFC 9559. */
module Matroska {
  import opened Bytes
  import opened Ebml

  const SCALE_NS := 1000000
  const CLUSTER_MS := 2000
  const NS_PER_S := 1000000000

  /** 2 to the power 63: a signed 64-bit integer stays below it. */
  const I64: nat := 0x8000_0000_0000_0000

  const ID_EBML: seq<byte> := [0x1a, 0x45, 0xdf, 0xa3]
  const ID_DOC_TYPE: seq<byte> := [0x42, 0x82]
  const ID_DOC_TYPE_VERSION: seq<byte> := [0x42, 0x87]
  const ID_DOC_TYPE_READ_VERSION: seq<byte> := [0x42, 0x85]
  const ID_SEGMENT: seq<byte> := [0x18, 0x53, 0x80, 0x67]
  const ID_INFO: seq<byte> := [0x15, 0x49, 0xa9, 0x66]
  const ID_TIMECODE_SCALE: seq<byte> := [0x2a, 0xd7, 0xb1]
  const ID_MUXING_APP: seq<byte> := [0x4d, 0x80]
  const ID_WRITING_APP: seq<byte> := [0x57, 0x41]
  const ID_TRACKS: seq<byte> := [0x16, 0x54, 0xae, 0x6b]
  const ID_TRACK_ENTRY: seq<byte> := [0xae]
  const ID_TRACK_NUMBER: seq<byte> := [0xd7]
  const ID_TRACK_UID: seq<byte> := [0x73, 0xc5]
  const ID_TRACK_TYPE: seq<byte> := [0x83]
  const ID_CODEC_ID: seq<byte> := [0x86]
  const ID_DEFAULT_DURATION: seq<byte> := [0x23, 0xe3, 0x83]
  const ID_VIDEO: seq<byte> := [0xe0]
  const ID_PIXEL_WIDTH: seq<byte> := [0xb0]
  const ID_PIXEL_HEIGHT: seq<byte> := [0xba]
  const ID_FLAG_INTERLACED: seq<byte> := [0x9a]
  const ID_COLOUR_SPACE: seq<byte> := [0x2e, 0xb5, 0x24]
  const ID_CLUSTER: seq<byte> := [0x1f, 0x43, 0xb6, 0x75]
  const ID_TIMECODE: seq<byte> := [0xe7]
  const ID_SIMPLE_BLOCK: seq<byte> := [0xa3]

  const MATROSKA: seq<byte> := [109, 97, 116, 114, 111, 115, 107, 97] // matroska
  const I420_FORMAT: seq<byte> := [73, 52, 50, 48] // I420
  const UNCOMPRESSED: seq<byte> := [86, 95, 85, 78, 67, 79, 77, 80, 82, 69, 83, 83, 69, 68] // V_UNCOMPRESSED

  /** The size and rate the core asked for. */
  datatype Canvas = Canvas(width: nat, height: nat, fps: nat)

  /** What one stream is made of: the plugin's name goes into its Info. */
  predicate Usable(c: Canvas, name: seq<byte>) {
    1 <= c.fps && 1 <= c.width < I64 && 1 <= c.height < I64 && |name| < 0x1_0000_0000 && 0 !in name
  }

  /** Text as an element holds it, ended by a zero. */
  function Zstr(text: seq<byte>): seq<byte> { text + [0] }

  // -- the header, as nested elements --------------------------------------------

  function EbmlChildren(): seq<Element> {
    [Element(ID_DOC_TYPE, Zstr(MATROSKA)),
     Element(ID_DOC_TYPE_VERSION, Uint(4)),
     Element(ID_DOC_TYPE_READ_VERSION, Uint(2))]
  }

  function InfoChildren(name: seq<byte>): seq<Element> {
    [Element(ID_TIMECODE_SCALE, Uint(SCALE_NS)),
     Element(ID_MUXING_APP, Zstr(name)),
     Element(ID_WRITING_APP, Zstr(name))]
  }

  function VideoChildren(c: Canvas): seq<Element> {
    [Element(ID_PIXEL_WIDTH, Uint(c.width)),
     Element(ID_PIXEL_HEIGHT, Uint(c.height)),
     Element(ID_FLAG_INTERLACED, Uint(2)),
     Element(ID_COLOUR_SPACE, I420_FORMAT)]
  }

  function Step(c: Canvas): nat
    requires 1 <= c.fps
  {
    NS_PER_S / c.fps
  }

  /** The most bytes `n` elements with payloads up to `limit` take. */
  function Total(n: nat, limit: nat): nat { if n == 0 then 0 else Total(n - 1, limit) + limit + 12 }

  predicate UpTo(es: seq<Element>, limit: nat) {
    limit < NO_SIZE && forall i :: 0 <= i < |es| ==> IsId(es[i].id) && |es[i].payload| <= limit
  }

  lemma {:induction false} JoinedIsSmall(es: seq<Element>, limit: nat)
    requires UpTo(es, limit)
    ensures AllWritable(es) && |Joined(es)| <= Total(|es|, limit)
    decreases |es|
  {
    if |es| > 0 {
      JoinedIsSmall(es[1..], limit);
    }
  }

  const TEXT: nat := 0x1_0000_0001
  const NESTED: nat := 0x8_0000_0000

  function EbmlPayload(): (r: seq<byte>)
    ensures |r| < NESTED
  {
    JoinedIsSmall(EbmlChildren(), TEXT);
    assert Total(3, TEXT) < NESTED;
    Joined(EbmlChildren())
  }

  function InfoPayload(name: seq<byte>): (r: seq<byte>)
    requires |name| < 0x1_0000_0000
    ensures |r| < NESTED
  {
    JoinedIsSmall(InfoChildren(name), TEXT);
    assert Total(3, TEXT) < NESTED;
    Joined(InfoChildren(name))
  }

  function VideoPayload(c: Canvas): (r: seq<byte>)
    ensures |r| < NESTED
  {
    JoinedIsSmall(VideoChildren(c), TEXT);
    assert Total(4, TEXT) < NESTED;
    Joined(VideoChildren(c))
  }

  function TrackChildren(c: Canvas): seq<Element>
    requires 1 <= c.fps
  {
    TrackFields(Uint(Step(c)), VideoPayload(c))
  }

  function TrackFields(duration: seq<byte>, video: seq<byte>): seq<Element> {
    [Element(ID_TRACK_NUMBER, Uint(1)),
     Element(ID_TRACK_UID, Uint(1)),
     Element(ID_TRACK_TYPE, Uint(1)),
     Element(ID_CODEC_ID, Zstr(UNCOMPRESSED)),
     Element(ID_DEFAULT_DURATION, duration),
     Element(ID_VIDEO, video)]
  }

  lemma TrackIsSmall(duration: seq<byte>, video: seq<byte>)
    requires |duration| <= 8 && |video| < NESTED
    ensures UpTo(TrackFields(duration, video), NESTED)
  {
  }

  function TrackPayload(c: Canvas): (r: seq<byte>)
    requires 1 <= c.fps
    ensures |r| < 6 * NESTED + 73
  {
    TrackIsSmall(Uint(Step(c)), VideoPayload(c));
    JoinedIsSmall(TrackChildren(c), NESTED);
    SixOf(NESTED);
    Joined(TrackChildren(c))
  }

  lemma SixOf(limit: nat)
    ensures Total(6, limit) == 6 * limit + 72
  {
    assert Total(1, limit) == limit + 12;
    assert Total(2, limit) == 2 * limit + 24;
    assert Total(3, limit) == 3 * limit + 36;
    assert Total(4, limit) == 4 * limit + 48;
    assert Total(5, limit) == 5 * limit + 60;
  }

  /** An EBML header, and the start of a Segment that never ends. */
  function Opening(head: seq<byte>): seq<byte>
    requires |head| < NESTED
  {
    Elem(ID_EBML, head) + ID_SEGMENT + UNKNOWN_SIZE
  }

  function InfoElem(name: seq<byte>): seq<byte>
    requires |name| < 0x1_0000_0000
  {
    Elem(ID_INFO, InfoPayload(name))
  }

  function TracksElem(c: Canvas): seq<byte>
    requires 1 <= c.fps
  {
    Elem(ID_TRACKS, Elem(ID_TRACK_ENTRY, TrackPayload(c)))
  }

  /** What `writeHeader` writes: the opening, Info, and one raw video track. */
  function HeaderBytes(c: Canvas, name: seq<byte>): seq<byte>
    requires Usable(c, name)
  {
    Opening(EbmlPayload()) + InfoElem(name) + TracksElem(c)
  }

  // -- blocks and clusters --------------------------------------------------------

  /** A 16-bit two's complement of `v`, truncated to it. */
  function Int16(v: int): (r: seq<byte>)
    ensures |r| == 2
  {
    BigEndian(v % 0x1_0000, 2)
  }

  /** Track 1, the frame's place inside the cluster, and the keyframe flag. */
  function Block(rel: int, data: seq<byte>): (r: seq<byte>)
    ensures |r| == 4 + |data|
  {
    [0x81] + Int16(rel) + [0x80] + data
  }

  function ClusterStart(ms: nat): seq<byte> { ID_CLUSTER + UNKNOWN_SIZE + Elem(ID_TIMECODE, Uint(ms)) }

  predicate Fitting(data: seq<byte>) { |data| + 4 < NO_SIZE }

  /** What the writer has put out and remembers. */
  datatype Writer = Writer(out: seq<byte>, header: bool, base: nat, open: bool, current: Canvas)

  /** A frame that no open Cluster has room for begins one. */
  function Clustered(w: Writer, ms: nat): Writer {
    if !w.open || ms - w.base >= CLUSTER_MS
    then w.(out := w.out + ClusterStart(ms), base := ms, open := true)
    else w
  }

  /** One SimpleBlock, its place counted from its Cluster's first. */
  function Framed(w: Writer, ms: nat, data: seq<byte>): Writer
    requires Fitting(data)
  {
    var c := Clustered(w, ms);
    c.(out := c.out + Elem(ID_SIMPLE_BLOCK, Block(ms - c.base, data)))
  }

  /** How many bytes an I420 frame of the canvas takes. */
  function Expected(c: Canvas): nat {
    c.width * c.height + 2 * ((c.width + 1) / 2) * ((c.height + 1) / 2)
  }

  /** The frames of a run that are written: up to the first of the wrong size. */
  function Good(c: Canvas, drawn: seq<seq<byte>>): (n: nat)
    ensures n <= |drawn|
    ensures forall i :: 0 <= i < n ==> |drawn[i]| == Expected(c)
    ensures n < |drawn| ==> |drawn[n]| != Expected(c)
  {
    if |drawn| == 0 || |drawn[0]| != Expected(c) then 0 else 1 + Good(c, drawn[1..])
  }

  predicate AllFitting(drawn: seq<seq<byte>>) { forall i :: 0 <= i < |drawn| ==> Fitting(drawn[i]) }

  /** The millisecond of a run's frame `i`, on its own clock starting at zero. */
  function Ms(c: Canvas, i: nat): nat
    requires 1 <= c.fps
  {
    i * Step(c) / SCALE_NS
  }

  /** The first `n` frames of a run. */
  function Written(w: Writer, c: Canvas, drawn: seq<seq<byte>>, n: nat): (w': Writer)
    requires 1 <= c.fps && n <= |drawn| && AllFitting(drawn)
    ensures w'.current == w.current && w'.header == w.header
  {
    if n == 0 then w else Framed(Written(w, c, drawn, n - 1), Ms(c, n - 1), drawn[n - 1])
  }

  /** One call to `start`: the transport asked for, the canvas it named, and what
      draw() returned until the run was stopped. */
  datatype Start = Start(container: bool, canvas: Option<Canvas>, drawn: seq<seq<byte>>)

  /** A run is short enough for its nanoseconds to be a signed 64-bit integer. */
  predicate Startable(s: Start, name: seq<byte>) {
    && AllFitting(s.drawn) && |s.drawn| * NS_PER_S < I64
    && (s.canvas.Some? ==> Usable(s.canvas.value, name))
  }

  /** The core's canvas, or none yet. */
  predicate Ready(c: Canvas, name: seq<byte>) { c.fps >= 1 ==> Usable(c, name) }

  /** The canvas in force once a start has been looked at. */
  function Taken(current: Canvas, s: Start): Canvas {
    if s.container && s.canvas.Some? then s.canvas.value else current
  }

  /** Whether a start runs at all. */
  predicate Accepted(current: Canvas, s: Start) { s.container && Taken(current, s).fps >= 1 }

  /** The header goes out once. */
  function Headed(w: Writer, name: seq<byte>): Writer
    requires Usable(w.current, name)
  {
    if w.header then w else w.(header := true, out := w.out + HeaderBytes(w.current, name))
  }

  /** What one start does: milliseconds begin at zero again, in a Cluster of its own. */
  function Started(w: Writer, name: seq<byte>, s: Start): (w': Writer)
    requires Startable(s, name) && Ready(w.current, name)
    ensures w'.current == Taken(w.current, s) && Ready(w'.current, name)
  {
    var c := Taken(w.current, s);
    if !Accepted(w.current, s) then w.(current := c)
    else Written(Headed(w.(current := c), name).(open := false), c, s.drawn, Good(c, s.drawn))
  }

  function Fresh(c: Canvas): Writer { Writer([], false, 0, false, c) }

  /** Everything a plugin writes in its life, from the canvas the core's answer to
      `initialize` carried. */
  function AllStarted(ready: Canvas, name: seq<byte>, starts: seq<Start>): (w: Writer)
    requires Ready(ready, name) && forall i :: 0 <= i < |starts| ==> Startable(starts[i], name)
    ensures Ready(w.current, name)
  {
    if |starts| == 0 then Fresh(ready)
    else Started(AllStarted(ready, name, starts[..|starts| - 1]), name, starts[|starts| - 1])
  }
}

/** A reader of streamable Matroska: an EBML header, a Segment and Clusters that
    may have no known size, and blocks timed from their Cluster. It knows nothing of any
    writer: its element IDs are those of sections 11.2 of RFC 8794 and 5.1 of RFC 9559. */
module MatroskaReader {
  import opened Bytes
  import opened Ebml

  const EBML_HEADER: seq<byte> := [0x1a, 0x45, 0xdf, 0xa3]
  const DOC_TYPE: seq<byte> := [0x42, 0x82]
  const DOC_TYPE_VERSION: seq<byte> := [0x42, 0x87]
  const DOC_TYPE_READ_VERSION: seq<byte> := [0x42, 0x85]
  const SEGMENT: seq<byte> := [0x18, 0x53, 0x80, 0x67]
  const INFO: seq<byte> := [0x15, 0x49, 0xa9, 0x66]
  const TIMESTAMP_SCALE: seq<byte> := [0x2a, 0xd7, 0xb1]
  const MUXING_APP: seq<byte> := [0x4d, 0x80]
  const WRITING_APP: seq<byte> := [0x57, 0x41]
  const TRACKS: seq<byte> := [0x16, 0x54, 0xae, 0x6b]
  const TRACK_ENTRY: seq<byte> := [0xae]
  const TRACK_NUMBER: seq<byte> := [0xd7]
  const TRACK_UID: seq<byte> := [0x73, 0xc5]
  const TRACK_TYPE: seq<byte> := [0x83]
  const CODEC_ID: seq<byte> := [0x86]
  const DEFAULT_DURATION: seq<byte> := [0x23, 0xe3, 0x83]
  const VIDEO: seq<byte> := [0xe0]
  const PIXEL_WIDTH: seq<byte> := [0xb0]
  const PIXEL_HEIGHT: seq<byte> := [0xba]
  const FLAG_INTERLACED: seq<byte> := [0x9a]
  const UNCOMPRESSED_FOURCC: seq<byte> := [0x2e, 0xb5, 0x24]
  const CLUSTER: seq<byte> := [0x1f, 0x43, 0xb6, 0x75]
  const TIMESTAMP: seq<byte> := [0xe7]
  const SIMPLE_BLOCK: seq<byte> := [0xa3]

  datatype Head = Head(docType: seq<byte>, version: nat, readVersion: nat)

  datatype Info = Info(scale: nat, muxer: seq<byte>, writer: seq<byte>)

  datatype Track = Track(number: nat, uid: nat, kind: nat, codec: seq<byte>, duration: nat,
                         width: nat, height: nat, interlaced: nat, colour: seq<byte>)

  /** A block: its time in units of the Segment's scale, and its bytes. */
  datatype Frame = Frame(track: nat, time: int, keyframe: bool, data: seq<byte>)

  /** Where a scan of a Segment stands. `base` is the timestamp of the Cluster it is
      in, once that has been read. */
  datatype Scan = Scan(info: Option<Info>, track: Option<Track>, inCluster: bool, base: Option<nat>, frames: seq<Frame>)

  const NOTHING := Scan(None, None, false, None, [])

  datatype Movie = Movie(head: Head, scan: Scan)

  /** The payload of the first child with an id. */
  function Find(es: seq<Element>, id: seq<byte>): Option<seq<byte>> {
    if |es| == 0 then None else if es[0].id == id then Some(es[0].payload) else Find(es[1..], id)
  }

  lemma {:induction false} FindAt(es: seq<Element>, i: nat)
    requires i < |es| && forall j :: 0 <= j < i ==> es[j].id != es[i].id
    ensures Find(es, es[i].id) == Some(es[i].payload)
    decreases i
  {
    if i > 0 {
      FindAt(es[1..], i - 1);
    }
  }

  /** A string, up to the zero byte that ends it. */
  function Text(b: seq<byte>): seq<byte> {
    if |b| == 0 || b[0] == 0 then [] else [b[0]] + Text(b[1..])
  }

  function ReadHead(es: seq<Element>): Option<Head> {
    match (Find(es, DOC_TYPE), Find(es, DOC_TYPE_VERSION), Find(es, DOC_TYPE_READ_VERSION))
    case (Some(t), Some(v), Some(r)) => Some(Head(Text(t), FromBig(v), FromBig(r)))
    case _ => None
  }

  function ReadInfo(es: seq<Element>): Option<Info> {
    match (Find(es, TIMESTAMP_SCALE), Find(es, MUXING_APP), Find(es, WRITING_APP))
    case (Some(s), Some(m), Some(w)) => Some(Info(FromBig(s), Text(m), Text(w)))
    case _ => None
  }

  function ReadVideo(es: seq<Element>): Option<(nat, nat, nat, seq<byte>)> {
    match (Find(es, PIXEL_WIDTH), Find(es, PIXEL_HEIGHT), Find(es, FLAG_INTERLACED), Find(es, UNCOMPRESSED_FOURCC))
    case (Some(w), Some(h), Some(i), Some(c)) => Some((FromBig(w), FromBig(h), FromBig(i), c))
    case _ => None
  }

  /** Children of a master element's payload. */
  function Inside(payload: Option<seq<byte>>): Option<seq<Element>> {
    if payload.None? then None else Children(payload.value)
  }

  function ReadTrack(es: seq<Element>): Option<Track> {
    match (Find(es, TRACK_NUMBER), Find(es, TRACK_UID), Find(es, TRACK_TYPE), Find(es, CODEC_ID),
           Find(es, DEFAULT_DURATION), Inside(Find(es, VIDEO)))
    case (Some(n), Some(u), Some(k), Some(c), Some(d), Some(video)) =>
      (match ReadVideo(video)
       case Some((w, h, i, colour)) =>
         Some(Track(FromBig(n), FromBig(u), FromBig(k), Text(c), FromBig(d), w, h, i, colour))
       case None => None)
    case _ => None
  }

  /** Section 10.2: the track as a size is read, then the frame's place inside the
      Cluster as a signed 16-bit integer, then the flags. */
  function ReadBlock(p: seq<byte>, base: nat): Option<Frame> {
    match ReadSize(p)
    case Some((Known(track), n)) =>
      if |p| < n + 3 then None
      else
        var raw := FromBig(p[n..n + 2]);
        var rel := if raw >= 0x8000 then raw - 0x1_0000 else raw;
        Some(Frame(track, base + rel, p[n + 2] >= 0x80, p[n + 3..]))
    case _ => None
  }

  /** One element of a known size inside the Segment. Anything at the Segment's own
      level ends a Cluster of unknown size; an element nobody knows is skipped. */
  function OnElement(st: Scan, e: Element): Option<Scan> {
    if e.id == INFO then
      match Children(e.payload)
      case None => None
      case Some(es) =>
        (match ReadInfo(es)
         case None => None
         case Some(info) => Some(st.(info := Some(info), inCluster := false, base := None)))
    else if e.id == TRACKS then
      match Children(e.payload)
      case None => None
      case Some(es) =>
        (match Inside(Find(es, TRACK_ENTRY))
         case None => None
         case Some(entry) =>
           (match ReadTrack(entry)
            case None => None
            case Some(track) => Some(st.(track := Some(track), inCluster := false, base := None))))
    else if e.id == TIMESTAMP then
      if st.inCluster then Some(st.(base := Some(FromBig(e.payload)))) else None
    else if e.id == SIMPLE_BLOCK then
      match st.base
      case None => None
      case Some(base) =>
        (match ReadBlock(e.payload, base)
         case None => None
         case Some(frame) => Some(st.(frames := st.frames + [frame])))
    else Some(st)
  }

  /** The rest of a Segment. A Cluster is entered whatever its size says, and ends
      the one before it. */
  function ReadBody(s: seq<byte>, st: Scan): Option<Scan>
    decreases |s|
  {
    if |s| == 0 then Some(st)
    else if ReadId(s) == Some(CLUSTER) then
      match ReadSize(s[4..])
      case None => None
      case Some((_, n)) => ReadBody(s[4 + n..], st.(inCluster := true, base := None))
    else
      match ReadElement(s)
      case None => None
      case Some((e, n)) =>
        (match OnElement(st, e)
         case None => None
         case Some(st') => ReadBody(s[n..], st'))
  }

  function ReadStream(s: seq<byte>): Option<Movie> {
    match ReadElement(s)
    case None => None
    case Some((e, n)) =>
      (match ReadEbml(e)
       case None => None
       case Some(head) =>
         (match ReadSegment(s[n..])
          case None => None
          case Some(scan) => Some(Movie(head, scan))))
  }

  function ReadEbml(e: Element): Option<Head> {
    if e.id != EBML_HEADER then None
    else
      match Children(e.payload)
      case None => None
      case Some(es) => ReadHead(es)
  }

  function ReadSegment(s: seq<byte>): Option<Scan> {
    if ReadId(s) != Some(SEGMENT) then None
    else
      match ReadSize(s[4..])
      case None => None
      case Some((_, k)) => ReadBody(s[4 + k..], NOTHING)
  }

  // -- reading, step by step -------------------------------------------------------

  /** Bytes that take a scan from one state to another, whatever follows them. */
  ghost predicate Reads(bytes: seq<byte>, st: Scan, next: Scan) {
    forall more: seq<byte> {:trigger ReadBody(bytes + more, st)} :: ReadBody(bytes + more, st) == ReadBody(more, next)
  }

  lemma ReadsBoth(a: seq<byte>, b: seq<byte>, st: Scan, mid: Scan, next: Scan)
    requires Reads(a, st, mid) && Reads(b, mid, next)
    ensures Reads(a + b, st, next)
  {
    forall more: seq<byte> ensures ReadBody(a + b + more, st) == ReadBody(more, next) {
      assert a + b + more == a + (b + more);
    }
  }

  lemma ReadsAll(bytes: seq<byte>, st: Scan, next: Scan)
    requires Reads(bytes, st, next)
    ensures ReadBody(bytes, st) == Some(next)
  {
    assert bytes + [] == bytes;
  }

  /** A written element is read as the step it stands for. */
  lemma ReadsElement(e: Element, st: Scan, next: Scan)
    requires Writable(e) && e.id != CLUSTER && OnElement(st, e) == Some(next)
    ensures Reads(Elem(e.id, e.payload), st, next)
  {
    var s := Elem(e.id, e.payload);
    forall more: seq<byte> ensures ReadBody(s + more, st) == ReadBody(more, next) {
      ElementFirst(e, more);
      ElementStep(s + more, e, |s|, st, next);
      assert (s + more)[|s|..] == more;
    }
  }

  lemma ElementFirst(e: Element, more: seq<byte>)
    requires Writable(e)
    ensures ReadElement(Elem(e.id, e.payload) + more) == Some((e, |Elem(e.id, e.payload)|))
    ensures ReadId(Elem(e.id, e.payload) + more) == Some(e.id)
  {
    ElementReads(e, more);
    var rest := Vint(|e.payload|) + e.payload + more;
    assert Elem(e.id, e.payload) + more == e.id + rest;
    IdReads(e.id, rest);
  }

  /** Any element but a Cluster is one step of a scan. */
  lemma ElementStep(s: seq<byte>, e: Element, n: nat, st: Scan, next: Scan)
    requires |s| > 0 && ReadId(s) != Some(CLUSTER)
    requires ReadElement(s) == Some((e, n)) && OnElement(st, e) == Some(next)
    ensures ReadBody(s, st) == ReadBody(s[n..], next)
  {
  }

  lemma ReadsClusterHead(st: Scan)
    ensures Reads(CLUSTER + UNKNOWN_SIZE, st, st.(inCluster := true, base := None))
  {
    forall more: seq<byte>
      ensures ReadBody(CLUSTER + UNKNOWN_SIZE + more, st) == ReadBody(more, st.(inCluster := true, base := None))
    {
      ClusterHead(more, st);
    }
  }

  lemma ClusterHead(more: seq<byte>, st: Scan)
    ensures ReadBody(CLUSTER + UNKNOWN_SIZE + more, st) == ReadBody(more, st.(inCluster := true, base := None))
  {
    var s := CLUSTER + UNKNOWN_SIZE + more;
    assert s == CLUSTER + (UNKNOWN_SIZE + more);
    IdReads(CLUSTER, UNKNOWN_SIZE + more);
    assert s[4..] == UNKNOWN_SIZE + more;
    UnknownReads(more);
    assert s[12..] == more;
  }
}

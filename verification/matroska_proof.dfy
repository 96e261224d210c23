/** Every stream the Go template writes reads back as what went into it. */
module MatroskaProof {
  import opened Bytes
  import opened Ebml
  import opened Matroska
  import opened MatroskaReader

  // -- the writer's constants and the standard's ----------------------------------------

  /** Every element the writer writes has the ID the standard gives it. */
  lemma HeaderIds()
    ensures ID_EBML == EBML_HEADER && ID_DOC_TYPE == DOC_TYPE && ID_DOC_TYPE_VERSION == DOC_TYPE_VERSION
    ensures ID_DOC_TYPE_READ_VERSION == DOC_TYPE_READ_VERSION && ID_SEGMENT == SEGMENT
    ensures ID_INFO == INFO && ID_TIMECODE_SCALE == TIMESTAMP_SCALE && ID_MUXING_APP == MUXING_APP
    ensures ID_WRITING_APP == WRITING_APP && ID_TRACKS == TRACKS && ID_TRACK_ENTRY == TRACK_ENTRY
  {
  }

  lemma TrackIds()
    ensures ID_TRACK_NUMBER == TRACK_NUMBER && ID_TRACK_UID == TRACK_UID && ID_TRACK_TYPE == TRACK_TYPE
    ensures ID_CODEC_ID == CODEC_ID && ID_DEFAULT_DURATION == DEFAULT_DURATION && ID_VIDEO == VIDEO
    ensures ID_PIXEL_WIDTH == PIXEL_WIDTH && ID_PIXEL_HEIGHT == PIXEL_HEIGHT
    ensures ID_FLAG_INTERLACED == FLAG_INTERLACED && ID_COLOUR_SPACE == UNCOMPRESSED_FOURCC
    ensures ID_CLUSTER == CLUSTER && ID_TIMECODE == TIMESTAMP && ID_SIMPLE_BLOCK == SIMPLE_BLOCK
  {
  }

  lemma {:induction false} TextReads(text: seq<byte>)
    requires 0 !in text
    ensures Text(Zstr(text)) == text
    ensures |Zstr(text)| == |text| + 1 && Zstr(text)[|text|] == 0
    decreases |text|
  {
    if |text| > 0 {
      TextReads(text[1..]);
      assert Zstr(text)[1..] == Zstr(text[1..]);
    }
  }

  // -- the header ------------------------------------------------------------------

  /** The doc type matroska, version 4, readable from version 2 on. */
  const HEAD := Head([109, 97, 116, 114, 111, 115, 107, 97], 4, 2)

  lemma OpeningReads(head: seq<byte>, rest: seq<byte>, scan: Scan)
    requires |head| < NESTED && ReadEbml(Element(ID_EBML, head)) == Some(HEAD)
    requires ReadBody(rest, NOTHING) == Some(scan)
    ensures ReadStream(Opening(head) + rest) == Some(Movie(HEAD, scan))
  {
    HeaderIds();
    SegmentReads(rest);
    Regroup(Elem(ID_EBML, head), ID_SEGMENT, UNKNOWN_SIZE, rest);
    EbmlThenSegment(Element(ID_EBML, head), ID_SEGMENT + (UNKNOWN_SIZE + rest), scan);
  }

  lemma EbmlThenSegment(e: Element, segment: seq<byte>, scan: Scan)
    requires Writable(e) && ReadEbml(e) == Some(HEAD) && ReadSegment(segment) == Some(scan)
    ensures ReadStream(Elem(e.id, e.payload) + segment) == Some(Movie(HEAD, scan))
  {
    ElementReads(e, segment);
    assert (Elem(e.id, e.payload) + segment)[|Elem(e.id, e.payload)|..] == segment;
  }

  lemma SegmentReads(rest: seq<byte>)
    ensures ReadSegment(ID_SEGMENT + (UNKNOWN_SIZE + rest)) == ReadBody(rest, NOTHING)
  {
    var s := ID_SEGMENT + (UNKNOWN_SIZE + rest);
    HeaderIds();
    IdReads(ID_SEGMENT, UNKNOWN_SIZE + rest);
    assert s[4..] == UNKNOWN_SIZE + rest;
    UnknownReads(rest);
    assert s[12..] == rest;
  }

  lemma HeadReads()
    ensures ReadEbml(Element(ID_EBML, EbmlPayload())) == Some(HEAD)
  {
    HeadChildrenRead();
    HeadFound();
    ByChildren(EbmlPayload(), EbmlChildren());
  }

  lemma ByChildren(payload: seq<byte>, es: seq<Element>)
    requires Children(payload) == Some(es)
    ensures ReadEbml(Element(ID_EBML, payload)) == ReadHead(es)
  {
    HeaderIds();
  }

  lemma HeadChildrenRead()
    ensures Children(EbmlPayload()) == Some(EbmlChildren())
  {
    JoinedIsSmall(EbmlChildren(), TEXT);
    ChildrenRead(EbmlChildren());
  }

  lemma HeadFound()
    ensures ReadHead(EbmlChildren()) == Some(HEAD)
  {
    HeaderIds();
    FindAt(EbmlChildren(), 0);
    FindAt(EbmlChildren(), 1);
    FindAt(EbmlChildren(), 2);
    TextReads(MATROSKA);
    UintReads(4);
    UintReads(2);
  }

  lemma InfoFound(name: seq<byte>)
    requires 0 !in name
    ensures ReadInfo(InfoChildren(name)) == Some(Info(1000000, name, name))
  {
    var es := InfoChildren(name);
    HeaderIds();
    FindAt(es, 0);
    FindAt(es, 1);
    FindAt(es, 2);
    TextReads(name);
    UintReads(SCALE_NS);
  }

  lemma InfoReads(name: seq<byte>, st: Scan)
    requires |name| < 0x1_0000_0000 && 0 !in name
    ensures OnElement(st, Element(ID_INFO, InfoPayload(name)))
         == Some(st.(info := Some(Info(1000000, name, name)), inCluster := false, base := None))
  {
    HeaderIds();
    InfoFound(name);
    JoinedIsSmall(InfoChildren(name), TEXT);
    ChildrenRead(InfoChildren(name));
  }

  lemma VideoReads(c: Canvas)
    requires c.width < I64 && c.height < I64
    ensures Children(VideoPayload(c)) == Some(VideoChildren(c))
    ensures ReadVideo(VideoChildren(c)) == Some((c.width, c.height, 2, I420_FORMAT))
  {
    var es := VideoChildren(c);
    TrackIds();
    JoinedIsSmall(es, TEXT);
    ChildrenRead(es);
    FindAt(es, 0);
    FindAt(es, 1);
    FindAt(es, 2);
    FindAt(es, 3);
    UintReads(c.width);
    UintReads(c.height);
    UintReads(2);
  }

  /** What the track says: raw I420 at the canvas's size and rate, a codec of
      V_UNCOMPRESSED, progressive. */
  function TrackOf(c: Canvas): Track
    requires 1 <= c.fps
  {
    Track(1, 1, 1, [86, 95, 85, 78, 67, 79, 77, 80, 82, 69, 83, 83, 69, 68], 1000000000 / c.fps,
          c.width, c.height, 2, [73, 52, 50, 48])
  }

  lemma StepFits(c: Canvas)
    requires 1 <= c.fps
    ensures Step(c) <= NS_PER_S
  {
  }

  lemma FieldsRead(duration: seq<byte>, video: seq<byte>)
    requires |duration| <= 8 && |video| < NESTED
    ensures var es := TrackFields(duration, video); AllWritable(es) && Children(Joined(es)) == Some(es)
  {
    var es := TrackFields(duration, video);
    TrackIsSmall(duration, video);
    JoinedIsSmall(es, NESTED);
    ChildrenRead(es);
  }

  lemma FieldsFound(duration: seq<byte>, video: seq<byte>)
    ensures var es := TrackFields(duration, video);
      && Find(es, TRACK_NUMBER) == Some(Uint(1)) && Find(es, TRACK_UID) == Some(Uint(1))
      && Find(es, TRACK_TYPE) == Some(Uint(1)) && Find(es, CODEC_ID) == Some(Zstr(UNCOMPRESSED))
      && Find(es, DEFAULT_DURATION) == Some(duration) && Find(es, VIDEO) == Some(video)
  {
    var es := TrackFields(duration, video);
    TrackIds();
    FindAt(es, 0);
    FindAt(es, 1);
    FindAt(es, 2);
    FindAt(es, 3);
    FindAt(es, 4);
    FindAt(es, 5);
  }

  lemma TrackReads(c: Canvas)
    requires 1 <= c.fps && c.width < I64 && c.height < I64
    ensures Children(TrackPayload(c)) == Some(TrackChildren(c))
    ensures ReadTrack(TrackChildren(c)) == Some(TrackOf(c))
  {
    StepFits(c);
    FieldsRead(Uint(Step(c)), VideoPayload(c));
    VideoReads(c);
    TrackComesBack(c, VideoPayload(c), VideoChildren(c));
  }

  lemma TrackComesBack(c: Canvas, video: seq<byte>, vs: seq<Element>)
    requires 1 <= c.fps && Step(c) < I64
    requires Children(video) == Some(vs) && ReadVideo(vs) == Some((c.width, c.height, 2, I420_FORMAT))
    ensures ReadTrack(TrackFields(Uint(Step(c)), video)) == Some(TrackOf(c))
  {
    FieldsFound(Uint(Step(c)), video);
    TrackIs(TrackFields(Uint(Step(c)), video), 1, UNCOMPRESSED, Step(c), video, vs, TrackOf(c));
  }

  /** A track whose fields and picture read back does. */
  lemma TrackIs(es: seq<Element>, one: nat, codec: seq<byte>, duration: nat,
                video: seq<byte>, vs: seq<Element>, track: Track)
    requires one < I64 && duration < I64 && 0 !in codec
    requires Find(es, TRACK_NUMBER) == Find(es, TRACK_UID) == Find(es, TRACK_TYPE) == Some(Uint(one))
    requires Find(es, CODEC_ID) == Some(Zstr(codec)) && Find(es, DEFAULT_DURATION) == Some(Uint(duration))
    requires Find(es, VIDEO) == Some(video) && Children(video) == Some(vs)
    requires ReadVideo(vs) == Some((track.width, track.height, track.interlaced, track.colour))
    requires track.number == track.uid == track.kind == one && track.codec == codec && track.duration == duration
    ensures ReadTrack(es) == Some(track)
  {
    TextReads(codec);
    UintReads(one);
    UintReads(duration);
  }

  lemma TracksRead(c: Canvas, st: Scan)
    requires 1 <= c.fps && c.width < I64 && c.height < I64
    ensures OnElement(st, Element(ID_TRACKS, Elem(ID_TRACK_ENTRY, TrackPayload(c))))
         == Some(st.(track := Some(TrackOf(c)), inCluster := false, base := None))
  {
    var entry := [Element(ID_TRACK_ENTRY, TrackPayload(c))];
    HeaderIds();
    ChildrenRead(entry);
    assert Joined(entry) == Elem(ID_TRACK_ENTRY, TrackPayload(c)) + [];
    assert Joined(entry) == Elem(ID_TRACK_ENTRY, TrackPayload(c));
    FindAt(entry, 0);
    TrackReads(c);
  }

  /** The header reads back: its names, its scale and its one track. */
  lemma HeaderReads(c: Canvas, name: seq<byte>)
    requires Usable(c, name)
    ensures Reads(InfoElem(name) + TracksElem(c), NOTHING,
                  Scan(Some(Info(1000000, name, name)), Some(TrackOf(c)), false, None, []))
  {
    HeaderIds();
    var afterInfo := NOTHING.(info := Some(Info(1000000, name, name)));
    var afterTracks := afterInfo.(track := Some(TrackOf(c)));
    InfoReads(name, NOTHING);
    ReadsElement(Element(ID_INFO, InfoPayload(name)), NOTHING, afterInfo);
    TracksRead(c, afterInfo);
    ReadsElement(Element(ID_TRACKS, Elem(ID_TRACK_ENTRY, TrackPayload(c))), afterInfo, afterTracks);
    ReadsBoth(InfoElem(name), TracksElem(c), NOTHING, afterInfo, afterTracks);
  }

  // -- blocks ------------------------------------------------------------------------

  lemma Int16Reads(v: int)
    ensures var raw := FromBig(Int16(v));
      (if raw >= 0x8000 then raw - 0x1_0000 else raw) == v <==> -0x8000 <= v < 0x8000
  {
    BigEndianReads(v % 0x1_0000, 2);
    assert Pow256(2) == 0x1_0000;
  }

  /** A block's time reads back exactly when its place inside the Cluster fits a
      signed 16-bit integer; its track, flag and bytes always do. */
  lemma BlockReadsExactly(rel: int, data: seq<byte>, base: nat)
    ensures ReadBlock(Block(rel, data), base).Some?
    ensures var f := ReadBlock(Block(rel, data), base).value;
      && f.track == 1 && f.keyframe && f.data == data
      && (f.time == base + rel <==> -0x8000 <= rel < 0x8000)
  {
    var p := Block(rel, data);
    assert p == [0x81] + (Int16(rel) + [0x80] + data);
    TrackNumberReads(Int16(rel) + [0x80] + data);
    assert p[1..3] == Int16(rel) && p[3] == 0x80 && p[4..] == data;
    Int16Reads(rel);
  }

  lemma TrackNumberReads(rest: seq<byte>)
    ensures ReadSize([0x81] + rest) == Some((Known(1), 1))
  {
    var s := [0x81] + rest;
    assert s[..1] == [0x81];
    assert FromBig([0x81]) == 0x81 && Room(1) == 128;
  }
}

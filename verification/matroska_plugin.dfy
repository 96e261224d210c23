/** The package variables of the Go template and the functions that change them. */
module MatroskaPlugin {
  import opened Bytes
  import opened Ebml
  import opened Matroska

  class Plugin {
    /** Everything that has gone down stdout. */
    var out: seq<byte>
    var header: bool
    var clusterBase: nat
    var haveCluster: bool
    var current: Canvas
    const name: seq<byte>

    function Abs(): Writer
      reads this
    {
      Writer(out, header, clusterBase, haveCluster, current)
    }

    constructor (ready: Canvas, name: seq<byte>)
      ensures Abs() == Fresh(ready) && this.name == name
    {
      out, header, clusterBase, haveCluster := [], false, 0, false;
      current, this.name := ready, name;
    }

    /** One element of the stream, put out part by part. */
    method Put(id: seq<byte>, payload: seq<byte>)
      requires |payload| < NO_SIZE
      modifies this`out
      ensures out == old(out) + Elem(id, payload)
    {
      var size := GoVint(|payload|);
      assert out + (id + size + payload) == out + id + size + payload;
      out := out + id + size + payload;
    }

    method WriteHeader()
      requires Usable(current, name)
      modifies this`out
      ensures out == old(out) + HeaderBytes(current, name)
    {
      ghost var was := out;
      Put(ID_EBML, EbmlPayload());
      out := out + ID_SEGMENT + UNKNOWN_SIZE;
      Opened(was, EbmlPayload());
      Put(ID_INFO, InfoPayload(name));
      Put(ID_TRACKS, Elem(ID_TRACK_ENTRY, TrackPayload(current)));
      Closed(was, Opening(EbmlPayload()), InfoElem(name), TracksElem(current));
    }

    method HeaderOnce()
      requires Usable(current, name)
      modifies this`out, this`header
      ensures Abs() == Headed(old(Abs()), name)
    {
      if !header {
        WriteHeader();
        header := true;
      }
    }

    method WriteFrame(ptsNS: nat, data: seq<byte>)
      requires Fitting(data)
      modifies this`out, this`clusterBase, this`haveCluster
      ensures Abs() == Framed(old(Abs()), ptsNS / SCALE_NS, data)
    {
      var ms := ptsNS / SCALE_NS;
      if !haveCluster || ms - clusterBase >= CLUSTER_MS {
        ghost var was := out;
        out := out + ID_CLUSTER + UNKNOWN_SIZE;
        var timecode := GoUint(ms);
        Put(ID_TIMECODE, timecode);
        Closed(was, ID_CLUSTER, UNKNOWN_SIZE, Elem(ID_TIMECODE, timecode));
        clusterBase := ms;
        haveCluster := true;
      }
      Put(ID_SIMPLE_BLOCK, Block(ms - clusterBase, data));
    }

    /** `drawn` is what draw() returns until the run is stopped. A frame of the wrong
        size ends it. */
    method Produce(c: Canvas, drawn: seq<seq<byte>>)
      requires 1 <= c.fps && AllFitting(drawn)
      modifies this`out, this`clusterBase, this`haveCluster
      ensures Abs() == Written(old(Abs()).(open := false), c, drawn, Good(c, drawn))
    {
      var step := NS_PER_S / c.fps;
      haveCluster := false;
      ghost var began := Abs();
      var index := 0;
      while index < |drawn| && |drawn[index]| == Expected(c)
        invariant 0 <= index <= |drawn|
        invariant forall i :: 0 <= i < index ==> |drawn[i]| == Expected(c)
        invariant Abs() == Written(began, c, drawn, index)
      {
        assert index * step / SCALE_NS == Ms(c, index);
        WriteFrame(index * step, drawn[index]);
        index := index + 1;
        WrittenNext(began, c, drawn, index);
      }
      GoodIs(c, drawn, index);
    }

    method OnStart(s: Start)
      requires Startable(s, name) && Ready(current, name)
      modifies this
      ensures Abs() == Started(old(Abs()), name, s)
    {
      if s.container {
        if s.canvas.Some? {
          current := s.canvas.value;
        }
        if current.fps >= 1 {
          HeaderOnce();
          Produce(current, s.drawn);
        }
      }
    }
  }

  lemma Opened(was: seq<byte>, head: seq<byte>)
    requires |head| < NESTED
    ensures was + Elem(ID_EBML, head) + ID_SEGMENT + UNKNOWN_SIZE == was + Opening(head)
  {
    Closed(was, Elem(ID_EBML, head), ID_SEGMENT, UNKNOWN_SIZE);
  }

  lemma Closed(was: seq<byte>, a: seq<byte>, b: seq<byte>, c: seq<byte>)
    ensures was + a + b + c == was + (a + b + c)
  {
  }

  lemma WrittenNext(w: Writer, c: Canvas, drawn: seq<seq<byte>>, n: nat)
    requires 1 <= c.fps && 0 < n <= |drawn| && AllFitting(drawn)
    ensures Written(w, c, drawn, n) == Framed(Written(w, c, drawn, n - 1), Ms(c, n - 1), drawn[n - 1])
  {
  }

  lemma GoodIs(c: Canvas, drawn: seq<seq<byte>>, n: nat)
    requires n <= |drawn| && forall i :: 0 <= i < n ==> |drawn[i]| == Expected(c)
    requires n < |drawn| ==> |drawn[n]| != Expected(c)
    ensures Good(c, drawn) == n
  {
    var g := Good(c, drawn);
  }
}

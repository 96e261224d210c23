/** WebSocket frames as the smoke script sends and reads them: sections 5.2 and 5.3 of
    RFC 6455. */
module WebSocket {
  import opened Bytes
  import opened Ebml

  // -- the mask ------------------------------------------------------------------------

  /** Exclusive or of the low `n` bits. */
  function Xor(n: nat, a: nat, b: nat): (r: nat)
    ensures r < Pow2(n)
  {
    if n == 0 then 0 else 2 * Xor(n - 1, a / 2, b / 2) + (if a % 2 != b % 2 then 1 else 0)
  }

  lemma {:induction false} XorBack(n: nat, a: nat, b: nat)
    requires a < Pow2(n)
    ensures Xor(n, Xor(n, a, b), b) == a
    decreases n
  {
    if n > 0 {
      XorBack(n - 1, a / 2, b / 2);
    }
  }

  function XorByte(a: byte, b: byte): byte {
    assert Pow2(8) == 256;
    Xor(8, a, b)
  }

  lemma {:induction false} XorBits(n: nat, a: nat, b: nat, i: nat)
    requires i < n
    ensures Bit(Xor(n, a, b), i) <==> Bit(a, i) != Bit(b, i)
    decreases i
  {
    if i > 0 {
      assert Xor(n, a, b) / 2 == Xor(n - 1, a / 2, b / 2);
      XorBits(n - 1, a / 2, b / 2, i - 1);
    }
  }

  function Masked(data: seq<byte>, mask: seq<byte>): (r: seq<byte>)
    requires |mask| == 4
    ensures |r| == |data|
  {
    seq(|data|, i requires 0 <= i < |data| => XorByte(data[i], mask[i % 4]))
  }

  /** Every bit of a byte is turned over where its byte of the mask, of four in turn, has a
      one. */
  lemma MaskedBits(data: seq<byte>, mask: seq<byte>, at: nat, i: nat)
    requires |mask| == 4 && at < |data| && i < 8
    ensures Bit(Masked(data, mask)[at], i) <==> Bit(data[at], i) != Bit(mask[at % 4], i)
  {
    XorBits(8, data[at], mask[at % 4], i);
  }

  /** Masking again takes the mask off. */
  lemma MaskedTwice(data: seq<byte>, mask: seq<byte>)
    requires |mask| == 4
    ensures Masked(Masked(data, mask), mask) == data
  {
    forall i | 0 <= i < |data| ensures Masked(Masked(data, mask), mask)[i] == data[i] {
      assert Pow2(8) == 256;
      XorBack(8, data[i], mask[i % 4]);
    }
  }

  // -- one frame -----------------------------------------------------------------------

  /** A length in its own byte, in two or in eight. */
  function LengthBytes(n: nat): seq<byte> {
    if n < 126 then [0x80 + n]
    else if n < 65536 then [0x80 + 126] + BigEndian(n, 2)
    else [0x80 + 127] + BigEndian(n, 8)
  }

  predicate Sendable(data: seq<byte>) { |data| < 0x1_0000_0000_0000_0000 }

  /** A text, masked. */
  function SendText(data: seq<byte>, mask: seq<byte>): seq<byte>
    requires |mask| == 4
  {
    [0x81] + LengthBytes(|data|) + mask + Masked(data, mask)
  }

  datatype Frame = Frame(opcode: nat, body: seq<byte>)

  /** The length at the front, and what follows it. */
  function LengthOf(first: byte, s: seq<byte>): Option<(nat, seq<byte>)> {
    var n := first % 128;
    if n == 126 then if |s| < 2 then None else Some((FromBig(s[..2]), s[2..]))
    else if n == 127 then if |s| < 8 then None else Some((FromBig(s[..8]), s[8..]))
    else Some((n, s))
  }

  /** What is read of a body, masked or not. */
  function Body(masked: bool, n: nat, s: seq<byte>): Option<(seq<byte>, seq<byte>)> {
    if !masked then if |s| < n then None else Some((s[..n], s[n..]))
    else if |s| < 4 + n then None
    else Some((Masked(s[4..4 + n], s[..4]), s[4 + n..]))
  }

  /** The frame at the front of a stream, and what is left. */
  function FrameOf(s: seq<byte>): Option<(Frame, seq<byte>)> {
    if |s| < 2 then None
    else
      match LengthOf(s[1], s[2..])
      case None => None
      case Some((n, rest)) =>
        match Body(s[1] >= 128, n, rest)
        case None => None
        case Some((body, left)) => Some((Frame(s[0] % 16, body), left))
  }

  lemma LengthReads(n: nat, rest: seq<byte>)
    requires n < 0x1_0000_0000_0000_0000
    ensures var b := LengthBytes(n); b[0] >= 128 && LengthOf(b[0], b[1..] + rest) == Some((n, rest))
    ensures |LengthBytes(n)| == if n <= 125 then 1 else if n <= 65535 then 3 else 9
  {
    var b := LengthBytes(n);
    if n < 126 {
      assert b[1..] + rest == rest;
    } else if n < 65536 {
      assert Pow256(2) == 65536;
      BigEndianReads(n, 2);
      assert b[1..] == BigEndian(n, 2);
      assert (b[1..] + rest)[..2] == b[1..] && (b[1..] + rest)[2..] == rest;
    } else {
      assert Pow256(8) == 0x1_0000_0000_0000_0000;
      BigEndianReads(n, 8);
      assert b[1..] == BigEndian(n, 8);
      assert (b[1..] + rest)[..8] == b[1..] && (b[1..] + rest)[8..] == rest;
    }
  }

  /** A text that was sent is read back, through all three lengths and the mask, from
      any continuation of the stream. */
  lemma TextReads(data: seq<byte>, mask: seq<byte>, rest: seq<byte>)
    requires |mask| == 4 && Sendable(data)
    ensures FrameOf(SendText(data, mask) + rest) == Some((Frame(1, data), rest))
    ensures SendText(data, mask)[0] == 0x81 && SendText(data, mask)[1] >= 0x80
  {
    var b := LengthBytes(|data|);
    var masked := mask + Masked(data, mask) + rest;
    var s := SendText(data, mask) + rest;
    assert s == [0x81] + (b + masked);
    assert s[1] == b[0] && s[2..] == b[1..] + masked;
    LengthReads(|data|, masked);
    assert masked[..4] == mask && masked[4..4 + |data|] == Masked(data, mask) && masked[4 + |data|..] == rest;
    MaskedTwice(data, mask);
  }

  /** What a server sends: a frame with no mask, its length in one, three or nine bytes. */
  function Plain(first: byte, data: seq<byte>): seq<byte> {
    [first] + (if |data| <= 125 then [|data|]
               else if |data| <= 65535 then [126] + BigEndian(|data|, 2) else [127] + BigEndian(|data|, 8)) + data
  }

  /** It is read back too, with its opcode, and what follows it left. */
  lemma PlainReads(first: byte, data: seq<byte>, rest: seq<byte>)
    requires Sendable(data)
    ensures FrameOf(Plain(first, data) + rest) == Some((Frame(first % 16, data), rest))
  {
    var s := Plain(first, data) + rest;
    var n := |data|;
    if n <= 125 {
      var short: byte := n;
      assert [short] + [] == [short];
      LengthThen(first, n, [], data, rest);
    } else if n <= 65535 {
      assert Pow256(2) == 65536;
      BigEndianReads(n, 2);
      assert [first] + ([126] + BigEndian(n, 2)) + data == [first] + ([126] + BigEndian(n, 2) + data);
      LengthThen(first, 126, BigEndian(n, 2), data, rest);
    } else {
      assert Pow256(8) == 0x1_0000_0000_0000_0000;
      BigEndianReads(n, 8);
      LengthThen(first, 127, BigEndian(n, 8), data, rest);
    }
  }

  /** The bytes of such a frame, one part after the other. */
  lemma LengthThen(first: byte, short: byte, long: seq<byte>, data: seq<byte>, rest: seq<byte>)
    ensures var s := [first] + ([short] + long) + data + rest;
      && s[0] == first && s[1] == short && s[2..] == long + (data + rest) && s[2..][..|long|] == long
      && s[2..][|long|..] == data + rest
    ensures (data + rest)[..|data|] == data && (data + rest)[|data|..] == rest
  {
    var behind := long + (data + rest);
    assert [first] + ([short] + long) + data + rest == [first, short] + behind;
    TwoParts([first, short], behind);
    TwoParts(long, data + rest);
    TwoParts(data, rest);
  }

  lemma TwoParts(a: seq<byte>, b: seq<byte>)
    ensures (a + b)[..|a|] == a && (a + b)[|a|..] == b
  {
  }

  // -- many frames ------------------------------------------------------------------------

  /** Texts sent one after another, each under a mask of its own. */
  function AllSent(texts: seq<seq<byte>>, masks: seq<seq<byte>>): seq<byte>
    requires |masks| == |texts| && forall i :: 0 <= i < |masks| ==> |masks[i]| == 4
  {
    if |texts| == 0 then [] else SendText(texts[0], masks[0]) + AllSent(texts[1..], masks[1..])
  }

  /** The first `n` frames of a stream. */
  function FramesOf(s: seq<byte>, n: nat): Option<(seq<Frame>, seq<byte>)> {
    if n == 0 then Some(([], s))
    else
      match FrameOf(s)
      case None => None
      case Some((frame, rest)) =>
        match FramesOf(rest, n - 1)
        case None => None
        case Some((more, left)) => Some(([frame] + more, left))
  }

  function TextFrames(texts: seq<seq<byte>>): seq<Frame> {
    if |texts| == 0 then [] else [Frame(1, texts[0])] + TextFrames(texts[1..])
  }

  /** Reading as many frames as texts were sent gives exactly the texts, in order. */
  lemma {:induction false} AllTextsRead(texts: seq<seq<byte>>, masks: seq<seq<byte>>, rest: seq<byte>)
    requires |masks| == |texts|
    requires forall i :: 0 <= i < |texts| ==> |masks[i]| == 4 && Sendable(texts[i])
    ensures FramesOf(AllSent(texts, masks) + rest, |texts|) == Some((TextFrames(texts), rest))
    decreases |texts|
  {
    if |texts| == 0 {
      assert [] + rest == rest;
    } else {
      var more := AllSent(texts[1..], masks[1..]);
      assert AllSent(texts, masks) + rest == SendText(texts[0], masks[0]) + (more + rest);
      TextReads(texts[0], masks[0], more + rest);
      AllTextsRead(texts[1..], masks[1..], rest);
    }
  }

  /** Frames in front of those still to come. */
  function Behind(read: seq<Frame>, more: Option<(seq<Frame>, seq<byte>)>): Option<(seq<Frame>, seq<byte>)> {
    if more.None? then None else Some((read + more.value.0, more.value.1))
  }

  lemma BehindNothing(more: Option<(seq<Frame>, seq<byte>)>)
    ensures Behind([], more) == more
  {
    if more.Some? {
      assert [] + more.value.0 == more.value.0;
    }
  }

  lemma BehindOne(read: seq<Frame>, frame: Frame, more: Option<(seq<Frame>, seq<byte>)>)
    ensures Behind(read, Behind([frame], more)) == Behind(read + [frame], more)
  {
    if more.Some? {
      assert read + ([frame] + more.value.0) == read + [frame] + more.value.0;
    }
  }

  // -- the reader over a socket --------------------------------------------------------------

  /** Up to an empty chunk, which is how a socket says it has closed. */
  function Concat(chunks: seq<seq<byte>>): seq<byte> {
    if |chunks| == 0 || |chunks[0]| == 0 then [] else chunks[0] + Concat(chunks[1..])
  }

  /** What a socket hands over, chunk by chunk, and what has been read and not used. */
  class Reader {
    var buf: seq<byte>
    var sock: seq<seq<byte>>

    constructor (sock: seq<seq<byte>>, buf: seq<byte>)
      ensures this.buf == buf && this.sock == sock
    {
      this.sock, this.buf := sock, buf;
    }

    /** All there is to read, however it is cut. */
    function Pending(): seq<byte>
      reads this
    {
      buf + Concat(sock)
    }

    /** `n` bytes, waiting for chunks; none when the socket closes first. */
    method Take(n: nat) returns (out: Option<seq<byte>>)
      modifies this
      ensures var all := old(Pending());
        if |all| < n then out == None else out == Some(all[..n]) && Pending() == all[n..]
    {
      ghost var all := Pending();
      while |buf| < n
        invariant Pending() == all
        decreases |sock|
      {
        if |sock| == 0 || |sock[0]| == 0 {
          assert Pending() == buf;
          return None;
        }
        assert buf + Concat(sock) == (buf + sock[0]) + Concat(sock[1..]);
        buf, sock := buf + sock[0], sock[1..];
      }
      out := Some(buf[..n]);
      assert all[..n] == buf[..n] && all[n..] == buf[n..] + Concat(sock);
      buf := buf[n..];
    }

    /** One frame, whatever the chunks. */
    method Next() returns (frame: Option<Frame>)
      modifies this
      ensures match FrameOf(old(Pending()))
              case None => frame == None
              case Some((f, rest)) => frame == Some(f) && Pending() == rest
    {
      ghost var all := Pending();
      var head := Take(2);
      if head.None? { return None; }
      var b0, b1 := head.value[0], head.value[1];
      assert b0 == all[0] && b1 == all[1];
      var length: nat := b1 % 128;
      ghost var rest := Pending();
      if length == 126 {
        var two := Take(2);
        if two.None? { return None; }
        length := FromBig(two.value);
      } else if length == 127 {
        var eight := Take(8);
        if eight.None? { return None; }
        length := FromBig(eight.value);
      }
      assert LengthOf(b1, rest) == Some((length, Pending()));
      var body := TakeBody(b1 >= 128, length);
      if body.None? { return None; }
      frame := Some(Frame(b0 % 16, body.value));
    }

    /** The next `n` frames. */
    method ReadFrames(n: nat) returns (frames: Option<seq<Frame>>)
      modifies this
      ensures match FramesOf(old(Pending()), n)
              case None => frames == None
              case Some((fs, rest)) => frames == Some(fs) && Pending() == rest
    {
      var read: seq<Frame> := [];
      BehindNothing(FramesOf(Pending(), n));
      for k := 0 to n
        invariant FramesOf(old(Pending()), n) == Behind(read, FramesOf(Pending(), n - k))
      {
        var frame := Next();
        if frame.None? {
          return None;
        }
        BehindOne(read, frame.value, FramesOf(Pending(), n - k - 1));
        read := read + [frame.value];
      }
      assert read + [] == read;
      frames := Some(read);
    }

    /** The texts that were sent, however the socket cuts them, and nothing of what
        follows. */
    method ReadTexts(texts: seq<seq<byte>>, ghost masks: seq<seq<byte>>, ghost rest: seq<byte>)
      returns (frames: Option<seq<Frame>>)
      requires |masks| == |texts|
      requires forall i :: 0 <= i < |texts| ==> |masks[i]| == 4 && Sendable(texts[i])
      requires Pending() == AllSent(texts, masks) + rest
      modifies this
      ensures frames == Some(TextFrames(texts)) && Pending() == rest
    {
      AllTextsRead(texts, masks, rest);
      frames := ReadFrames(|texts|);
    }

    method TakeBody(masked: bool, n: nat) returns (body: Option<seq<byte>>)
      modifies this
      ensures match Body(masked, n, old(Pending()))
              case None => body == None
              case Some((b, left)) => body == Some(b) && Pending() == left
    {
      ghost var all := Pending();
      if !masked {
        body := Take(n);
        return;
      }
      var mask := Take(4);
      if mask.None? { return None; }
      var data := Take(n);
      if data.None? { return None; }
      assert all[4..][..n] == all[4..4 + n] && all[4..][n..] == all[4 + n..];
      body := Some(Masked(data.value, mask.value));
    }
  }
}

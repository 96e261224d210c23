/** EBML: sizes, unsigned integers and elements, as the plugin templates write them
    and as RFC 8794 reads them. */
module Ebml {
  import opened Bytes

  // -- big-endian integers -----------------------------------------------------

  function Pow256(n: nat): nat { if n == 0 then 1 else 256 * Pow256(n - 1) }

  /** The low `n` bytes of `v`, most significant first. */
  function BigEndian(v: nat, n: nat): (r: seq<byte>)
    ensures |r| == n
  {
    if n == 0 then [] else BigEndian(v / 256, n - 1) + [v % 256]
  }

  function FromBig(b: seq<byte>): nat {
    if |b| == 0 then 0 else FromBig(b[..|b| - 1]) * 256 + b[|b| - 1]
  }

  lemma {:induction false} BigEndianReads(v: nat, n: nat)
    requires v < Pow256(n)
    ensures FromBig(BigEndian(v, n)) == v
    decreases n
  {
    if n > 0 {
      BigEndianReads(v / 256, n - 1);
      assert BigEndian(v, n)[..n - 1] == BigEndian(v / 256, n - 1);
    }
  }

  /** Fewer bytes are the tail of more. */
  lemma {:induction false} BigEndianTail(v: nat, n: nat, k: nat)
    ensures BigEndian(v, n + k)[k..] == BigEndian(v, n)
    decreases n
  {
    if n > 0 {
      BigEndianTail(v / 256, n - 1, k);
      assert BigEndian(v, n + k)[k..] == BigEndian(v / 256, n + k - 1)[k..] + [v % 256];
    }
  }

  /** A value that fits leaves the rest zero. */
  lemma {:induction false} LeadingZeros(v: nat, n: nat, k: nat)
    requires v < Pow256(n)
    ensures BigEndian(v, n + k)[..k] == seq(k, _ => 0)
    decreases n
  {
    if n > 0 {
      LeadingZeros(v / 256, n - 1, k);
      assert BigEndian(v, n + k)[..k] == BigEndian(v / 256, n + k - 1)[..k];
    } else {
      ZerosOnly(k);
    }
  }

  lemma {:induction false} ZerosOnly(k: nat)
    ensures BigEndian(0, k) == seq(k, _ => 0)
    decreases k
  {
    if k > 0 {
      ZerosOnly(k - 1);
    }
  }

  // -- data sizes, section 4 of RFC 8794 ----------------------------------------

  /** How many values the data bits of `n` bytes can take: 2 to the power 7n. */
  function Room(n: nat): nat { if n == 0 then 1 else 128 * Room(n - 1) }

  /** The marker bit, as a bit of the first of `n` bytes. */
  function Marker(n: nat): nat
    requires 1 <= n <= 8
  {
    [128, 64, 32, 16, 8, 4, 2, 1][n - 1]
  }

  /** Bitwise or. */
  function Or(a: nat, b: nat): nat
    decreases a + b
  {
    if a == 0 then b else if b == 0 then a
    else 2 * Or(a / 2, b / 2) + (if a % 2 == 1 || b % 2 == 1 then 1 else 0)
  }

  /** Bit `i`, from the lowest. */
  predicate Bit(x: nat, i: nat) { if i == 0 then x % 2 == 1 else Bit(x / 2, i - 1) }

  /** A bit of it is one exactly when it is one of either. */
  lemma {:induction false} OrBits(a: nat, b: nat, i: nat)
    ensures Bit(Or(a, b), i) <==> Bit(a, i) || Bit(b, i)
    decreases i
  {
    if a == 0 || b == 0 {
      NoBits(i);
    } else {
      OrHalves(a, b);
      if i > 0 {
        OrBits(a / 2, b / 2, i - 1);
      }
    }
  }

  lemma OrHalves(a: nat, b: nat)
    requires a > 0 && b > 0
    ensures Or(a, b) / 2 == Or(a / 2, b / 2) && (Or(a, b) % 2 == 1 <==> a % 2 == 1 || b % 2 == 1)
  {
  }

  lemma {:induction false} NoBits(i: nat)
    ensures !Bit(0, i)
    decreases i
  {
    if i > 0 {
      NoBits(i - 1);
    }
  }

  function Pow2(k: nat): nat { if k == 0 then 1 else 2 * Pow2(k - 1) }

  /** A bit above every bit of `v` is added by or-ing it in. */
  lemma {:induction false} OrAboveAdds(v: nat, k: nat)
    requires v < Pow2(k)
    ensures Or(v, Pow2(k)) == v + Pow2(k)
    decreases k
  {
    if k > 0 && v > 0 {
      OrAboveAdds(v / 2, k - 1);
    }
  }

  lemma {:induction false} RoomIsPow2(n: nat)
    ensures Room(n) == Pow2(7 * n)
    decreases n
  {
    if n > 0 {
      RoomIsPow2(n - 1);
      var k := 7 * (n - 1);
      assert Pow2(k + 1) == 2 * Pow2(k) && Pow2(k + 2) == 4 * Pow2(k) && Pow2(k + 3) == 8 * Pow2(k);
      assert Pow2(k + 4) == 16 * Pow2(k) && Pow2(k + 5) == 32 * Pow2(k) && Pow2(k + 6) == 64 * Pow2(k);
    }
  }

  /** The largest size, and one more, that no Matroska stream ever has. */
  const NO_SIZE: nat := 0xff_ffff_ffff_ffff

  lemma NoSizeIsAllOnes()
    ensures NO_SIZE == Room(8) - 1
  {
  }

  /** How many bytes the shortest form takes. */
  function Length(value: nat, from: nat): (n: nat)
    requires 1 <= from <= 8 && value < NO_SIZE
    ensures from <= n <= 8 && value < Room(n) - 1
    ensures forall k :: from <= k < n ==> Room(k) - 1 <= value
    decreases 8 - from
  {
    NoSizeIsAllOnes();
    if value < Room(from) - 1 || from == 8 then from else Length(value, from + 1)
  }

  /** A data size, marker and all. */
  function Vint(value: nat): (r: seq<byte>)
    requires value < NO_SIZE
    ensures 1 <= |r| <= 8
  {
    var n := Length(value, 1);
    BigEndian(value + Room(n), n)
  }

  /** The loop of the Go template: mark the value with a bitwise or and keep the last
      `length` of its eight bytes. */
  method GoVint(value: nat) returns (out: seq<byte>)
    requires value < NO_SIZE
    ensures out == Vint(value)
  {
    NoSizeIsAllOnes();
    var length, limit := 1, 128;
    while value >= limit - 1
      invariant 1 <= length <= 8 && limit == Room(length)
      invariant forall k :: 1 <= k < length ==> Room(k) - 1 <= value
      decreases 8 - length
    {
      length, limit := length + 1, limit * 128;
    }
    LengthIs(value, length);
    RoomIsPow2(length);
    OrAboveAdds(value, 7 * length);
    var marked := Or(value, limit);
    BigEndianTail(marked, length, 8 - length);
    out := BigEndian(marked, 8)[8 - length..];
  }

  lemma LengthIs(value: nat, n: nat)
    requires 1 <= n <= 8 && value < NO_SIZE && value < Room(n) - 1
    requires forall k :: 1 <= k < n ==> Room(k) - 1 <= value
    ensures Length(value, 1) == n
  {
    var m := Length(value, 1);
  }

  /** The loop of the Node template, which divides instead, because a bitwise
      operator there wraps at 32 bits, and or-s the marker into the first byte. */
  method NodeVint(value: nat) returns (out: seq<byte>)
    requires value < NO_SIZE
    ensures out == Vint(value)
  {
    NoSizeIsAllOnes();
    var length, limit := 1, 128;
    while value >= limit - 1
      invariant 1 <= length <= 8 && limit == Room(length)
      invariant forall k :: 1 <= k < length ==> Room(k) - 1 <= value
      decreases 8 - length
    {
      length, limit := length + 1, limit * 128;
    }
    LengthIs(value, length);
    out := Divided(value, length);
    MarkedFirst(value, length);
    out := [Or(out[0], Marker(length))] + out[1..];
  }

  /** Bytes taken off the low end by division, and put in front of one another. */
  method Divided(value: nat, length: nat) returns (out: seq<byte>)
    ensures out == BigEndian(value, length)
  {
    out := [];
    var rest, i := value, length;
    while i > 0
      invariant 0 <= i <= length
      invariant BigEndian(value, length) == BigEndian(rest, i) + out
    {
      assert BigEndian(rest, i) + out == BigEndian(rest / 256, i - 1) + ([rest % 256] + out);
      out := [rest % 256] + out;
      rest := rest / 256;
      i := i - 1;
    }
  }

  /** `m` in the first of `n` bytes. */
  function AtTop(m: nat, n: nat): nat
    requires 1 <= n
  {
    if n == 1 then m else 256 * AtTop(m, n - 1)
  }

  lemma MarkerIsRoom(n: nat)
    requires 1 <= n <= 8
    ensures AtTop(Marker(n), n) == Room(n) && Marker(n) == Pow2(8 - n)
  {
    match n
    case 1 => assert AtTop(128, 1) == Room(1) && Pow2(7) == 128;
    case 2 => assert AtTop(64, 2) == Room(2) && Pow2(6) == 64;
    case 3 => assert AtTop(32, 3) == Room(3) && Pow2(5) == 32;
    case 4 => assert AtTop(16, 4) == Room(4) && Pow2(4) == 16;
    case 5 => assert AtTop(8, 5) == Room(5) && Pow2(3) == 8;
    case 6 => assert AtTop(4, 6) == Room(6) && Pow2(2) == 4;
    case 7 => assert AtTop(2, 7) == Room(7) && Pow2(1) == 2;
    case _ => assert AtTop(1, 8) == Room(8) && Pow2(0) == 1;
  }

  /** The first byte counts in units of its place. */
  lemma {:induction false} TopByte(v: nat, n: nat, lo: nat, hi: nat)
    requires 1 <= n && AtTop(lo, n) <= v < AtTop(hi, n) && hi <= 256
    ensures lo <= BigEndian(v, n)[0] < hi
    decreases n
  {
    if n > 1 {
      TopByte(v / 256, n - 1, lo, hi);
    }
  }

  /** Adding to the first byte adds at its place. */
  lemma {:induction false} AddAtTop(v: nat, n: nat, m: nat, hi: nat)
    requires 1 <= n && v < AtTop(hi, n) && hi + m <= 256
    ensures BigEndian(v, n)[0] < hi
    ensures BigEndian(v + AtTop(m, n), n) == [BigEndian(v, n)[0] + m] + BigEndian(v, n)[1..]
    decreases n
  {
    if n > 1 {
      AddAtTop(v / 256, n - 1, m, hi);
      assert (v + AtTop(m, n)) / 256 == v / 256 + AtTop(m, n - 1);
      assert (v + AtTop(m, n)) % 256 == v % 256;
    }
  }

  lemma MarkedFirst(value: nat, n: nat)
    requires 1 <= n <= 8 && value < Room(n)
    ensures var plain := BigEndian(value, n);
      && Or(plain[0], Marker(n)) < 256
      && BigEndian(value + Room(n), n) == [Or(plain[0], Marker(n))] + plain[1..]
  {
    MarkerIsRoom(n);
    AddAtTop(value, n, Marker(n), Marker(n));
    OrAboveAdds(BigEndian(value, n)[0], 8 - n);
  }

  /** A size read from a stream: a number, or the one that says it never ends. */
  datatype Size = Known(n: nat) | Unknown

  /** Section 4: one more than the zero bits in front of the first one bit. */
  function Width(first: byte): nat {
    if first >= 128 then 1 else if first >= 64 then 2 else if first >= 32 then 3 else if first >= 16 then 4
    else if first >= 8 then 5 else if first >= 4 then 6 else if first >= 2 then 7 else if first >= 1 then 8 else 0
  }

  /** The size at the front of a stream and how many bytes it took. All data bits
      set is the reserved size that is unknown. */
  function ReadSize(s: seq<byte>): (r: Option<(Size, nat)>)
    ensures r.Some? ==> 1 <= r.value.1 <= |s|
  {
    if |s| == 0 || Width(s[0]) == 0 || |s| < Width(s[0]) then None
    else
      var n := Width(s[0]);
      var data := FromBig(s[..n]) - Room(n);
      if data == Room(n) - 1 then Some((Unknown, n))
      else if data < 0 then None
      else Some((Known(data), n))
  }

  lemma {:induction false} Room256(n: nat)
    ensures 2 * Room(n) <= Pow256(n) || n == 0
    decreases n
  {
    if n > 1 {
      Room256(n - 1);
    }
  }

  lemma MarkedWidth(v: nat, n: nat)
    requires 1 <= n <= 8 && Room(n) <= v < 2 * Room(n)
    ensures Width(BigEndian(v, n)[0]) == n
  {
    MarkerIsRoom(n);
    DoubleTop(Marker(n), n);
    TopByte(v, n, Marker(n), 2 * Marker(n));
  }

  lemma {:induction false} DoubleTop(m: nat, n: nat)
    requires 1 <= n
    ensures AtTop(2 * m, n) == 2 * AtTop(m, n)
    decreases n
  {
    if n > 1 {
      DoubleTop(m, n - 1);
    }
  }

  /** A size written at the front of any stream is read back, never as the reserved
      one, and no shorter form would hold it. */
  lemma VintReads(value: nat, rest: seq<byte>)
    requires value < NO_SIZE
    ensures ReadSize(Vint(value) + rest) == Some((Known(value), |Vint(value)|))
    ensures forall k :: 1 <= k < |Vint(value)| ==> Room(k) - 1 <= value
  {
    var n := Length(value, 1);
    var v := value + Room(n);
    Room256(n);
    BigEndianReads(v, n);
    MarkedWidth(v, n);
    var s := Vint(value) + rest;
    assert s[..n] == BigEndian(v, n);
  }

  /** A size that is not known, in eight bytes. */
  const UNKNOWN_SIZE: seq<byte> := [0x01, 0xff, 0xff, 0xff, 0xff, 0xff, 0xff, 0xff]

  lemma UnknownReads(rest: seq<byte>)
    ensures ReadSize(UNKNOWN_SIZE + rest) == Some((Unknown, 8))
  {
    var v := 2 * Room(8) - 1;
    assert UNKNOWN_SIZE == BigEndian(0x1ff_ffff_ffff_ffff, 8) by {
      assert BigEndian(0x1ff_ffff_ffff_ffff, 8) == [0x01, 0xff, 0xff, 0xff, 0xff, 0xff, 0xff, 0xff];
    }
    assert v == 0x1ff_ffff_ffff_ffff;
    Room256(8);
    BigEndianReads(v, 8);
    var s := UNKNOWN_SIZE + rest;
    assert s[..8] == UNKNOWN_SIZE;
  }

  // -- element ids, section 5 ----------------------------------------------------

  /** Up to four bytes, the first saying how many. */
  predicate IsId(id: seq<byte>) { 1 <= |id| <= 4 && Width(id[0]) == |id| }

  function ReadId(s: seq<byte>): (r: Option<seq<byte>>)
    ensures r.Some? ==> IsId(r.value) && |r.value| <= |s|
  {
    if |s| == 0 || !(1 <= Width(s[0]) <= 4) || |s| < Width(s[0]) then None else Some(s[..Width(s[0])])
  }

  lemma IdReads(id: seq<byte>, rest: seq<byte>)
    requires IsId(id)
    ensures ReadId(id + rest) == Some(id)
  {
    assert (id + rest)[..|id|] == id;
  }

  // -- elements, section 6 -------------------------------------------------------

  datatype Element = Element(id: seq<byte>, payload: seq<byte>)

  predicate Writable(e: Element) { IsId(e.id) && |e.payload| < NO_SIZE }

  /** An element as it is written. */
  function Elem(id: seq<byte>, payload: seq<byte>): (r: seq<byte>)
    requires |payload| < NO_SIZE
    ensures |r| >= |id| + 1 + |payload|
  {
    id + Vint(|payload|) + payload
  }

  /** The element at the front of a stream, and how many bytes it took. */
  function ReadElement(s: seq<byte>): (r: Option<(Element, nat)>)
    ensures r.Some? ==> 1 <= r.value.1 <= |s|
  {
    match ReadId(s)
    case None => None
    case Some(id) =>
      match ReadSize(s[|id|..])
      case None => None
      case Some((size, n)) =>
        if size.Unknown? || |s| < |id| + n + size.n then None
        else Some((Element(id, s[|id| + n..|id| + n + size.n]), |id| + n + size.n))
  }

  lemma ElementReads(e: Element, rest: seq<byte>)
    requires Writable(e)
    ensures ReadElement(Elem(e.id, e.payload) + rest) == Some((e, |Elem(e.id, e.payload)|))
  {
    var size := Vint(|e.payload|);
    Regroup(e.id, size, e.payload, rest);
    IdReads(e.id, size + (e.payload + rest));
    VintReads(|e.payload|, e.payload + rest);
    PartsRead(Elem(e.id, e.payload) + rest, e.id, |size|, |e.payload|);
  }

  lemma PartsRead(s: seq<byte>, id: seq<byte>, n: nat, size: nat)
    requires ReadId(s) == Some(id) && ReadSize(s[|id|..]) == Some((Known(size), n)) && |s| >= |id| + n + size
    ensures ReadElement(s) == Some((Element(id, s[|id| + n..|id| + n + size]), |id| + n + size))
  {
  }

  /** Three parts and what follows them. */
  lemma Regroup(a: seq<byte>, b: seq<byte>, c: seq<byte>, rest: seq<byte>)
    ensures var s := a + b + c + rest;
      && s == a + (b + (c + rest)) && s[|a|..] == b + (c + rest)
      && s[|a| + |b|..|a| + |b| + |c|] == c && s[|a| + |b| + |c|..] == rest
  {
  }

  predicate AllWritable(es: seq<Element>) { forall i :: 0 <= i < |es| ==> Writable(es[i]) }

  function Joined(es: seq<Element>): seq<byte>
    requires AllWritable(es)
  {
    if |es| == 0 then [] else Elem(es[0].id, es[0].payload) + Joined(es[1..])
  }

  /** The children of a master element, when its payload is nothing but whole ones. */
  function Children(s: seq<byte>): Option<seq<Element>>
    decreases |s|
  {
    if |s| == 0 then Some([])
    else
      match ReadElement(s)
      case None => None
      case Some((e, n)) =>
        match Children(s[n..])
        case None => None
        case Some(es) => Some([e] + es)
  }

  /** Nesting parses back uniquely: any list of elements, whatever their payloads,
      is recovered from its bytes. */
  lemma {:induction false} ChildrenRead(es: seq<Element>)
    requires AllWritable(es)
    ensures Children(Joined(es)) == Some(es)
    decreases |es|
  {
    if |es| > 0 {
      ChildrenRead(es[1..]);
      ElementReads(es[0], Joined(es[1..]));
      var first := Elem(es[0].id, es[0].payload);
      assert Joined(es)[|first|..] == Joined(es[1..]);
      assert es == [es[0]] + es[1..];
    }
  }

  /** So no two different lists of elements have the same bytes. */
  lemma ElementsAreUnique(a: seq<Element>, b: seq<Element>)
    requires AllWritable(a) && AllWritable(b)
    requires Joined(a) == Joined(b)
    ensures a == b
  {
    ChildrenRead(a);
    ChildrenRead(b);
  }

  // -- unsigned integers, section 7.2 ---------------------------------------------

  /** A 64-bit value with its leading zero bytes removed, one byte at the least. */
  function Uint(v: nat): (r: seq<byte>)
    ensures 1 <= |r| <= 8
  {
    BigEndian(v, 8)[Zeros(BigEndian(v, 8), 0)..]
  }

  /** The first byte from `start` on that is not zero, or the last. */
  function Zeros(b: seq<byte>, start: nat): (n: nat)
    requires start < |b|
    ensures start <= n < |b|
    ensures forall i :: start <= i < n ==> b[i] == 0
    ensures b[n] != 0 || n == |b| - 1
    decreases |b| - start
  {
    if start == |b| - 1 || b[start] != 0 then start else Zeros(b, start + 1)
  }

  lemma {:induction false} FromBigIgnoresZeros(b: seq<byte>, n: nat)
    requires n <= |b| && forall i :: 0 <= i < n ==> b[i] == 0
    ensures FromBig(b[n..]) == FromBig(b)
    decreases |b|
  {
    if n < |b| {
      FromBigIgnoresZeros(b[..|b| - 1], n);
      assert b[n..][..|b| - n - 1] == b[..|b| - 1][n..];
    } else {
      AllZeros(b);
    }
  }

  lemma {:induction false} AllZeros(b: seq<byte>)
    requires forall i :: 0 <= i < |b| ==> b[i] == 0
    ensures FromBig(b) == 0
    decreases |b|
  {
    if |b| > 0 {
      AllZeros(b[..|b| - 1]);
    }
  }

  /** An unsigned integer reads back, and takes no more bytes than it needs. */
  lemma UintReads(v: nat)
    requires v < 0x1_0000_0000_0000_0000
    ensures FromBig(Uint(v)) == v
    ensures Uint(v)[0] != 0 || |Uint(v)| == 1
  {
    assert Pow256(8) == 0x1_0000_0000_0000_0000;
    BigEndianReads(v, 8);
    FromBigIgnoresZeros(BigEndian(v, 8), Zeros(BigEndian(v, 8), 0));
  }

  /** The loop of the Go template. */
  method GoUint(v: nat) returns (out: seq<byte>)
    ensures out == Uint(v)
  {
    out := BigEndian(v, 8);
    var start := 0;
    while start < 7 && out[start] == 0
      invariant 0 <= start <= 7
      invariant Zeros(out, 0) == Zeros(out, start)
    {
      start := start + 1;
    }
    out := out[start..];
  }
}

/** A transparent stream's frames before they are sent: alpha is made straight, and where
    a video was keyed the key is removed and the coverage read from it. */
module Recover {
  import opened Bytes
  import Pixels

  const KEY_R: int := 255
  const KEY_B: int := 254
  const SPILL_MIN: int := 12
  const COVER_MIN: int := 10

  /** One pixel as it lies in memory: blue, green, red and alpha. */
  datatype Bgra = Bgra(b: byte, g: byte, r: byte, a: byte)

  function Clamp(x: int): byte { if x < 0 then 0 else if x > 255 then 255 else x }

  /** What the table should hold for a channel and its alpha. */
  function Restored(c: byte, a: byte): byte {
    if a == 0 then 0 else if c * 255 / a > 255 then 255 else c * 255 / a
  }

  /** Division of integers that rounds towards zero. */
  function Towards0(x: int, d: int): int
    requires d > 0
  {
    if x < 0 then -(-x / d) else x / d
  }

  function Spill(p: Bgra): int { (if p.b < p.r then p.b else p.r) - p.g }

  /** What a pixel becomes. */
  function Recovered(p: Bgra): Bgra {
    if Spill(p) > SPILL_MIN then Unkeyed(p, Spill(p))
    else Bgra(Restored(p.b, p.a), Restored(p.g, p.a), Restored(p.r, p.a), p.a)
  }

  /** A pixel with the key showing through. */
  function Unkeyed(p: Bgra, spill: int): Bgra
    requires SPILL_MIN < spill <= 255
  {
    var cover := 255 - spill;
    if cover <= COVER_MIN then p.(a := 0)
    else Bgra(Clamp(Towards0(p.b * 255 - spill * KEY_B, cover)),
              Clamp(p.g * 255 / cover),
              Clamp(Towards0(p.r * 255 - spill * KEY_R, cover)),
              AlphaOf(p.a, cover))
  }

  function AlphaOf(a: byte, cover: int): byte
    requires 0 <= cover <= 255
  {
    assert 0 <= a * cover <= 255 * 255 by {
      assert a * cover <= 255 * cover;
    }
    a * cover / 255
  }

  // -- the table and the pass over a frame -------------------------------------------

  /** The table answers for every alpha and channel at once. */
  predicate IsTable(lut: seq<byte>) {
    |lut| == 65536 && forall a: byte, c: byte :: lut[a * 256 + c] == Restored(c, a)
  }

  method UnpremultiplyTable() returns (lut: array<byte>)
    ensures fresh(lut) && IsTable(lut[..])
  {
    lut := new byte[65536](_ => 0);
    var a := 1;
    while a < 256
      invariant 1 <= a <= 256
      invariant forall x: byte, c: byte :: x < a ==> lut[x * 256 + c] == Restored(c, x)
    {
      var c := 0;
      while c < 256
        invariant 0 <= c <= 256
        invariant forall x: byte, d: byte :: x < a ==> lut[x * 256 + d] == Restored(d, x)
        invariant forall d: byte :: d < c ==> lut[a * 256 + d] == Restored(d, a)
      {
        lut[a * 256 + c] := if c * 255 / a > 255 then 255 else c * 255 / a;
        c := c + 1;
      }
      a := a + 1;
    }
  }

  /** The pixel in bytes `4 * i` to `4 * i + 4`. */
  function At(buf: seq<byte>, i: nat): Bgra
    requires 4 * i + 4 <= |buf|
  {
    Bgra(buf[4 * i], buf[4 * i + 1], buf[4 * i + 2], buf[4 * i + 3])
  }

  /** An opaque pixel is its own straight colour. */
  lemma OpaqueIsItself(c: byte)
    ensures Restored(c, 255) == c
  {
  }

  /** Every pixel of the frame is what the formula makes of it, and the skip of opaque
      pixels cannot be told from the three lookups. */
  method TransparentPass(buf: array<byte>, lut: seq<byte>)
    requires IsTable(lut)
    modifies buf
    ensures forall i :: 0 <= i < buf.Length / 4 ==> At(buf[..], i) == Recovered(At(old(buf[..]), i))
    ensures forall k :: buf.Length / 4 * 4 <= k < buf.Length ==> buf[k] == old(buf[k])
  {
    var i := 0;
    while i < buf.Length / 4
      invariant 0 <= i <= buf.Length / 4
      invariant forall j :: 0 <= j < i ==> At(buf[..], j) == Recovered(At(old(buf[..]), j))
      invariant forall k :: 4 * i <= k < buf.Length ==> buf[k] == old(buf[k])
    {
      ghost var before := buf[..];
      RecoverPixel(buf, lut, i);
      forall j | 0 <= j < i ensures At(buf[..], j) == At(before, j) {
        assert 4 * j + 4 <= 4 * i;
      }
      i := i + 1;
    }
  }

  method RecoverPixel(buf: array<byte>, lut: seq<byte>, i: nat)
    requires 4 * i + 4 <= buf.Length && IsTable(lut)
    modifies buf
    ensures At(buf[..], i) == Recovered(At(old(buf[..]), i))
    ensures forall k :: 0 <= k < buf.Length && !(4 * i <= k < 4 * i + 4) ==> buf[k] == old(buf[k])
  {
    var at := 4 * i;
    var b, g, r := buf[at], buf[at + 1], buf[at + 2];
    var spill := Spill(Bgra(b, g, r, buf[at + 3]));
    if spill > SPILL_MIN {
      TakeKeyOut(buf, at, spill);
      return;
    }
    var a := buf[at + 3];
    if a == 255 {
      OpaqueIsItself(b);
      OpaqueIsItself(g);
      OpaqueIsItself(r);
      return;
    }
    LookUp(buf, lut, at);
  }

  method LookUp(buf: array<byte>, lut: seq<byte>, at: nat)
    requires at + 4 <= buf.Length && IsTable(lut)
    modifies buf
    ensures forall k :: 0 <= k < buf.Length && !(at <= k < at + 4) ==> buf[k] == old(buf[k])
    ensures buf[at + 3] == old(buf[at + 3])
    ensures buf[at] == Restored(old(buf[at]), buf[at + 3]) && buf[at + 1] == Restored(old(buf[at + 1]), buf[at + 3])
    ensures buf[at + 2] == Restored(old(buf[at + 2]), buf[at + 3])
  {
    var b: int, g: int, r: int, a: int := buf[at], buf[at + 1], buf[at + 2], buf[at + 3];
    assert lut[a * 256 + b] == Restored(b, a) && lut[a * 256 + g] == Restored(g, a) && lut[a * 256 + r] == Restored(r, a);
    buf[at], buf[at + 1], buf[at + 2] := lut[a * 256 + b], lut[a * 256 + g], lut[a * 256 + r];
  }

  method TakeKeyOut(buf: array<byte>, at: nat, spill: int)
    requires at + 4 <= buf.Length && SPILL_MIN < spill <= 255
    modifies buf
    ensures forall k :: 0 <= k < buf.Length && !(at <= k < at + 4) ==> buf[k] == old(buf[k])
    ensures Bgra(buf[at], buf[at + 1], buf[at + 2], buf[at + 3])
         == Unkeyed(Bgra(old(buf[at]), old(buf[at + 1]), old(buf[at + 2]), old(buf[at + 3])), spill)
  {
    var cover := 255 - spill;
    if cover <= COVER_MIN {
      buf[at + 3] := 0;
    } else {
      buf[at] := Clamp(Towards0(buf[at] * 255 - spill * KEY_B, cover));
      buf[at + 1] := Clamp(buf[at + 1] * 255 / cover);
      buf[at + 2] := Clamp(Towards0(buf[at + 2] * 255 - spill * KEY_R, cover));
      buf[at + 3] := AlphaOf(buf[at + 3], cover);
    }
  }

  /** A pixel that can be seen gets the colour graphic mode would send for it, whether by
      the table or by the skip. */
  lemma RestoredIsStraight(c: byte, a: byte)
    requires a != 0
    ensures Restored(c, a) == Pixels.Straight(c, a)
  {
  }

  /** With no key showing, all three channels of a pixel are straight again and its alpha
      is what it was; one that cannot be seen has no colour. */
  lemma UnkeyedIsStraight(p: Bgra)
    requires p.b - p.g <= 12 || p.r - p.g <= 12
    ensures Recovered(p).a == p.a
    ensures p.a == 0 ==> Recovered(p) == Bgra(0, 0, 0, 0)
    ensures p.a != 0 ==>
      Recovered(p) == Bgra(Pixels.Straight(p.b, p.a), Pixels.Straight(p.g, p.a), Pixels.Straight(p.r, p.a), p.a)
  {
  }

  /** Where next to nothing but the key shows, only the alpha changes, to nothing. */
  lemma PureKeyIsClear(p: Bgra)
    requires p.b - p.g >= 245 && p.r - p.g >= 245
    ensures Recovered(p) == Bgra(p.b, p.g, p.r, 0)
  {
  }

  // -- what the key gives back --------------------------------------------------------

  /** What a browser paints where content of one grey is laid over the key at a
      coverage, each channel rounded down. */
  function Blended(grey: byte, cover: byte): Bgra {
    var own := grey * cover;
    BlendBounds(grey, cover);
    Bgra((own + (255 - cover) * 254) / 255, own / 255, (own + (255 - cover) * 255) / 255, 255)
  }

  lemma BlendBounds(grey: byte, cover: byte)
    ensures 0 <= grey * cover <= 255 * cover
  {
    assert (255 - grey) * cover >= 0;
  }

  lemma BlendSpill(own: nat, cover: byte)
    requires own <= 255 * cover
    ensures (own + (255 - cover) * KEY_R) / 255 - own / 255 == 255 - cover
    ensures 254 - cover <= (own + (255 - cover) * KEY_B) / 255 - own / 255 <= 255 - cover
  {
  }

  /** The coverage read back off the pixel is the one it was blended at, or one more;
      the rest follows from it. */
  lemma CoverageComesBack(grey: byte, cover: byte)
    ensures var p := Blended(grey, cover);
      && cover <= 255 - Spill(p) <= cover + 1
      && (Spill(p) > SPILL_MIN && 255 - Spill(p) > COVER_MIN ==> cover <= Recovered(p).a <= cover + 1)
      && (cover < COVER_MIN ==> Recovered(p).a == 0)
  {
    BlendBounds(grey, cover);
    BlendSpill(grey * cover, cover);
  }

  /** And the grey comes back no brighter than it was, and darker by no more than the
      roundings at that coverage make it, for any overlay solid enough to be told from
      the key and thin enough to be told from the page. */
  lemma GreyComesBack(grey: byte, cover: byte)
    requires var p := Blended(grey, cover); Spill(p) > SPILL_MIN && 255 - Spill(p) > COVER_MIN
    ensures var back := Recovered(Blended(grey, cover)).g;
      back <= grey && (grey - back) * cover <= cover + back + 255
  {
    BlendBounds(grey, cover);
    BlendSpill(grey * cover, cover);
    var seen := grey * cover / 255;
    var got := 255 - Spill(Blended(grey, cover));
    NoBrighter(grey, cover, seen, got);
    LittleDarker(grey, cover, seen, got);
  }

  /** Blue and red, which the key is made of, come back as the grey too, off by no more
      than the roundings make them. */
  lemma BlueAndRedComeBack(grey: byte, cover: byte)
    requires var p := Blended(grey, cover); Spill(p) > SPILL_MIN && 255 - Spill(p) > COVER_MIN
    ensures var (p, got) := (Recovered(Blended(grey, cover)), 255 - Spill(Blended(grey, cover)));
      && Off(p.b, grey) * got <= got + 510 && Off(p.r, grey) * got <= got + 510
  {
    BlendBounds(grey, cover);
    BlendSpill(grey * cover, cover);
    var p := Blended(grey, cover);
    var got := 255 - Spill(p);
    NearGrey(grey, cover, got, 254, p.b);
    NearGrey(grey, cover, got, 255, p.r);
  }

  function Off(a: int, b: int): nat { if a < b then b - a else a - b }

  lemma NearGrey(grey: byte, cover: byte, got: nat, key: nat, seen: byte)
    requires 0 < cover <= got <= cover + 1 && got <= 255 && 254 <= key <= 255 && 0 <= grey * cover <= 255 * cover
    requires seen == (grey * cover + (255 - cover) * key) / 255
    ensures Off(Clamp(Towards0(seen * 255 - (255 - got) * key, got)), grey) * got <= got + 510
  {
    var x := seen * 255 - (255 - got) * key;
    var e := (grey * cover + (255 - cover) * key) - seen * 255;
    assert 0 <= e < 255;
    assert x == grey * cover + (got - cover) * key - e;
    assert grey * got == grey * cover + grey * (got - cover);
    assert -510 <= x - grey * got <= 255;
    TowardsIsNear(x, got);
    ClampIsNearer(Towards0(x, got), grey, got);
    OffTimes(Towards0(x, got), grey, got);
  }

  lemma TowardsIsNear(x: int, d: int)
    requires d > 0
    ensures -d < Towards0(x, d) * d - x < d
  {
  }

  lemma ClampIsNearer(q: int, grey: byte, times: nat)
    ensures Off(Clamp(q), grey) <= Off(q, grey) && Off(Clamp(q), grey) * times <= Off(q, grey) * times
  {
    assert (Off(q, grey) - Off(Clamp(q), grey)) * times >= 0;
  }

  lemma OffTimes(a: int, b: int, times: nat)
    ensures Off(a, b) * times == Off(a * times, b * times)
  {
    if a < b {
      assert (b - a) * times == b * times - a * times && (b - a) * times >= 0;
    } else {
      assert (a - b) * times == a * times - b * times && (a - b) * times >= 0;
    }
  }

  lemma NoBrighter(grey: nat, cover: nat, seen: nat, got: nat)
    requires seen * 255 <= grey * cover && 0 < cover <= got
    ensures seen * 255 / got <= grey
  {
    assert grey * cover <= grey * got by { assert grey * (got - cover) >= 0; }
    var q := seen * 255 / got;
    assert q * got <= seen * 255;
    if q > grey {
      OneMoreTimes(q, grey, got);
      assert false;
    }
  }

  lemma LittleDarker(grey: nat, cover: nat, seen: nat, got: nat)
    requires grey * cover < seen * 255 + 255 && 0 < cover <= got <= cover + 1
    ensures (grey - seen * 255 / got) * cover <= cover + seen * 255 / got + 255
  {
    var q := seen * 255 / got;
    assert seen * 255 < q * got + got;
    assert q * got <= q * cover + q by { assert q * got == q * cover + q * (got - cover); }
    assert (grey - q) * cover == grey * cover - q * cover;
  }

  lemma OneMoreTimes(q: nat, p: nat, times: nat)
    requires q > p
    ensures q * times >= p * times + times
  {
    assert (q - p - 1) * times >= 0;
    assert q * times == p * times + times + (q - p - 1) * times;
  }
}

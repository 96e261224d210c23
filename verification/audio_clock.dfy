/** The sample clock of a browser's audio: packets are stamped by counting samples
    from an anchor, and the anchor moves only when the browser's own time has left
    the count behind. */
module AudioClock {
  import opened Bytes

  const DAY_MS: int := 86400000
  const NS_PER_S: nat := 1000000000
  const NS_PER_MS: int := 1000000
  const TOLERANCE_NS: nat := 66000000

  /** A packet: its frames, Chromium's time for it in milliseconds or nothing above
      zero, the Unix time it came at, and how long the muxer had been running. */
  datatype Packet = Packet(frames: nat, pts: int, nowMs: int, elapsedNs: nat)

  datatype Setup = Setup(rate: nat, startUnixNs: int, offsetNs: int)

  /** The anchor, a time and the frames since, and what Chromium's timestamps are
      off by when they are not Unix time. */
  datatype Clock = Clock(anchor: Option<(nat, nat)>, epoch: Option<int>)

  function Abs(x: int): nat { if x < 0 then -x else x }

  predicate Running(c: Setup) { c.rate >= 1 }

  /** A timestamp on Unix time; 0 stands for none. */
  function ToUnixMs(epoch: Option<int>, pts: int, nowMs: int): (Option<int>, int) {
    if pts <= 0 then (epoch, 0)
    else if Abs(pts - nowMs) < DAY_MS then (epoch, pts)
    else
      var offset := if epoch.Some? then epoch.value else nowMs - pts;
      (Some(offset), pts + offset)
  }

  /** How long `frames` last, in whole nanoseconds. */
  function Lasts(c: Setup, frames: nat): nat
    requires Running(c)
  {
    frames * NS_PER_S / c.rate
  }

  /** Chromium's time for a packet on this muxer's clock. */
  function Theirs(c: Setup, unixMs: int, p: Packet): nat
    requires Running(c)
  {
    Max((if unixMs > 0 then unixMs * NS_PER_MS - c.startUnixNs else p.elapsedNs - Lasts(c, p.frames)) + c.offsetNs, 0)
  }

  /** The packet's stamp, and the anchor after it. */
  function Stamp(c: Setup, anchor: Option<(nat, nat)>, theirs: nat, frames: nat): (Option<(nat, nat)>, nat)
    requires Running(c)
  {
    match anchor
    case None => (Some((theirs, frames)), theirs)
    case Some((base, n)) =>
      var predicted := base + Lasts(c, n);
      if Abs(predicted - theirs) > TOLERANCE_NS then (Some((theirs, frames)), theirs)
      else (Some((base, n + frames)), predicted)
  }

  function Deliver(c: Setup, k: Clock, p: Packet): (Clock, nat)
    requires Running(c)
  {
    var (epoch, unixMs) := ToUnixMs(k.epoch, p.pts, p.nowMs);
    var (anchor, ns) := Stamp(c, k.anchor, Theirs(c, unixMs, p), p.frames);
    (Clock(anchor, epoch), ns)
  }

  /** The clock after some packets. */
  function After(c: Setup, k: Clock, ps: seq<Packet>): Clock
    requires Running(c)
  {
    if |ps| == 0 then k else Deliver(c, After(c, k, ps[..|ps| - 1]), ps[|ps| - 1]).0
  }

  /** What packet `i` is stamped. */
  function Stamped(c: Setup, k: Clock, ps: seq<Packet>, i: nat): nat
    requires Running(c) && i < |ps|
  {
    Deliver(c, After(c, k, ps[..i]), ps[i]).1
  }

  /** The frames of the first `n` packets. */
  function Count(ps: seq<Packet>, n: nat): nat
    requires n <= |ps|
  {
    if n == 0 then 0 else Count(ps, n - 1) + ps[n - 1].frames
  }

  // -- no gaps and no drift --------------------------------------------------------

  lemma Spread(a: int, b: int, r: int)
    ensures (a + b) * r == a * r + b * r
  {
  }

  lemma AtLeastOnce(d: nat, r: nat)
    requires d >= 1
    ensures d * r >= r
  {
    Spread(1, d - 1, r);
  }

  /** A quotient and a remainder are the only ones. */
  lemma OneQuotient(a: nat, m: nat, b: nat, n: nat, r: nat)
    requires m < r && n < r && a * r + m == b * r + n
    ensures a == b
  {
    if a < b {
      Spread(a, b - a, r);
      AtLeastOnce(b - a, r);
    } else if b < a {
      Spread(b, a - b, r);
      AtLeastOnce(a - b, r);
    }
  }

  lemma Divides(x: nat, r: nat)
    requires r >= 1
    ensures x == x / r * r + x % r && x % r < r
  {
  }

  lemma FloorAdds(x: nat, y: nat, r: nat)
    requires r >= 1
    ensures x / r + y / r <= (x + y) / r <= x / r + y / r + 1
  {
    var (q, m, p, n) := (x / r, x % r, y / r, y % r);
    Divides(x, r);
    Divides(y, r);
    Divides(x + y, r);
    Carry(q, m, p, n, (x + y) / r, (x + y) % r, r);
  }

  lemma Carry(q: nat, m: nat, p: nat, n: nat, t: nat, u: nat, r: nat)
    requires m < r && n < r && u < r && q * r + m + (p * r + n) == t * r + u
    ensures q + p <= t <= q + p + 1
  {
    Spread(q, p, r);
    if m + n < r {
      OneQuotient(q + p, m + n, t, u, r);
    } else {
      Spread(q + p, 1, r);
      OneQuotient(q + p + 1, m + n - r, t, u, r);
    }
  }

  lemma LastsAdds(c: Setup, a: nat, b: nat)
    requires Running(c)
    ensures Lasts(c, a) + Lasts(c, b) <= Lasts(c, a + b) <= Lasts(c, a) + Lasts(c, b) + 1
  {
    assert (a + b) * NS_PER_S == a * NS_PER_S + b * NS_PER_S;
    FloorAdds(a * NS_PER_S, b * NS_PER_S, c.rate);
  }

  /** Chromium's time for the packet is no more than 66 ms from the count. */
  predicate Counted(c: Setup, k: Clock, p: Packet)
    requires Running(c)
  {
    k.anchor.Some? &&
    Abs(k.anchor.value.0 + Lasts(c, k.anchor.value.1) - Theirs(c, ToUnixMs(k.epoch, p.pts, p.nowMs).1, p)) <= TOLERANCE_NS
  }

  /** Two packets that are counted meet to within a nanosecond: the second starts where
      the first ends, or one later. */
  lemma CountedPacketsMeet(c: Setup, k: Clock, p: Packet, q: Packet)
    requires Running(c) && Counted(c, k, p) && Counted(c, Deliver(c, k, p).0, q)
    ensures var (next, first) := Deliver(c, k, p);
      var second := Deliver(c, next, q).1;
      first + Lasts(c, p.frames) <= second <= first + Lasts(c, p.frames) + 1
  {
    LastsAdds(c, k.anchor.value.1, p.frames);
  }

  /** A timestamp within a day of now is Unix time as it is; one that is not is shifted by
      what the first of them was off; and there is none at zero or below. */
  lemma TimeIsRead(epoch: Option<int>, pts: int, nowMs: int)
    ensures pts <= 0 ==> ToUnixMs(epoch, pts, nowMs) == (epoch, 0)
    ensures pts > 0 && -86400000 < pts - nowMs < 86400000 ==> ToUnixMs(epoch, pts, nowMs) == (epoch, pts)
    ensures pts > 0 && !(-86400000 < pts - nowMs < 86400000) ==>
      ToUnixMs(epoch, pts, nowMs)
      == if epoch.None? then (Some(nowMs - pts), nowMs) else (epoch, pts + epoch.value)
  {
  }

  /** Without a timestamp a packet is put where it came, less what it lasts: it ends now. */
  lemma Untimed(c: Setup, p: Packet)
    requires Running(c) && p.pts <= 0 && p.elapsedNs + c.offsetNs >= Lasts(c, p.frames)
    ensures Theirs(c, ToUnixMs(None, p.pts, p.nowMs).1, p) + Lasts(c, p.frames) == p.elapsedNs + c.offsetNs
  {
  }

  // -- timestamps of a clock that is not Unix time -----------------------------------

  /** They are all on a clock more than a day from now, which is mapped to Unix time
      after 1970. */
  predicate Foreign(ps: seq<Packet>) {
    forall i :: 0 <= i < |ps| ==>
      && ps[i].pts > 0 && Abs(ps[i].pts - ps[i].nowMs) >= DAY_MS
      && ps[i].pts + (ps[0].nowMs - ps[0].pts) > 0
  }

  /** Where the first packet lands on this muxer's clock, before zero or after. */
  function Landing(c: Setup, ps: seq<Packet>): int
    requires |ps| > 0
  {
    ps[0].nowMs * NS_PER_MS - c.startUnixNs + c.offsetNs
  }

  /** The first anchor: nothing is stamped before zero. */
  function First(c: Setup, ps: seq<Packet>): nat
    requires |ps| > 0
  {
    Max(Landing(c, ps), 0)
  }

  /** Where Chromium's own time puts packet `i`. */
  function Put(c: Setup, ps: seq<Packet>, i: nat): nat
    requires i < |ps|
  {
    Max(Landing(c, ps) + (ps[i].pts - ps[0].pts) * NS_PER_MS, 0)
  }

  /** Where counting samples from the first anchor puts it. */
  function Predicted(c: Setup, ps: seq<Packet>, i: nat): nat
    requires Running(c) && i < |ps|
  {
    First(c, ps) + Lasts(c, Count(ps, i))
  }

  predicate Near(c: Setup, ps: seq<Packet>, i: nat)
    requires Running(c) && i < |ps|
  {
    Abs(Predicted(c, ps, i) - Put(c, ps, i)) <= TOLERANCE_NS
  }

  /** Chromium's time for the first `n` packets is never more than 66 ms from the count. */
  predicate Steady(c: Setup, ps: seq<Packet>, n: nat)
    requires Running(c) && n <= |ps|
  {
    forall i :: 0 <= i < n ==> Near(c, ps, i)
  }

  /** The clock after the first `n` packets. */
  function ClockAt(c: Setup, ps: seq<Packet>, n: nat): Clock
    requires Running(c) && n <= |ps|
  {
    After(c, Clock(None, None), ps[..n])
  }

  /** The anchor is still the first packet's. */
  predicate Anchored(c: Setup, ps: seq<Packet>, n: nat)
    requires Running(c) && 0 < n <= |ps|
  {
    ClockAt(c, ps, n) == Clock(Some((First(c, ps), Count(ps, n))), Some(ps[0].nowMs - ps[0].pts))
  }

  lemma FirstPacket(c: Setup, ps: seq<Packet>)
    requires Running(c) && |ps| > 0 && Foreign(ps)
    ensures Anchored(c, ps, 1) && Near(c, ps, 0)
    ensures Stamped(c, Clock(None, None), ps, 0) == Predicted(c, ps, 0)
  {
    assert ps[..1][..0] == [] && ps[..0] == [] && ps[..1][0] == ps[0];
    assert Count(ps, 1) == ps[0].frames && Count(ps, 0) == 0;
    var start := Clock(None, None);
    assert ToUnixMs(None, ps[0].pts, ps[0].nowMs) == (Some(ps[0].nowMs - ps[0].pts), ps[0].nowMs);
    TheirsIsPut(c, ps, 0, ps[0].nowMs);
    NothingLasts(c);
    assert After(c, start, ps[..1]) == Deliver(c, start, ps[0]).0;
  }

  /** A packet behind the first keeps the anchor exactly when it is near the count; else
      it becomes the anchor itself, where Chromium puts it. */
  lemma NextPacket(c: Setup, ps: seq<Packet>, i: nat)
    requires Running(c) && 0 < i < |ps| && Foreign(ps) && Anchored(c, ps, i)
    ensures Anchored(c, ps, i + 1) <==> Near(c, ps, i)
    ensures Stamped(c, Clock(None, None), ps, i) == if Near(c, ps, i) then Predicted(c, ps, i) else Put(c, ps, i)
    ensures !Near(c, ps, i) ==> ClockAt(c, ps, i + 1).anchor == Some((Put(c, ps, i), ps[i].frames))
  {
    assert ps[..i + 1][..i] == ps[..i];
    var k := ClockAt(c, ps, i);
    var offset := ps[0].nowMs - ps[0].pts;
    assert ToUnixMs(k.epoch, ps[i].pts, ps[i].nowMs) == (Some(offset), ps[i].pts + offset);
    TheirsIsPut(c, ps, i, ps[i].pts + offset);
    if Count(ps, i) == 0 {
      NothingLasts(c);
    }
  }

  lemma TheirsIsPut(c: Setup, ps: seq<Packet>, i: nat, unixMs: int)
    requires Running(c) && i < |ps| && unixMs > 0 && unixMs == ps[i].pts + (ps[0].nowMs - ps[0].pts)
    ensures Theirs(c, unixMs, ps[i]) == Put(c, ps, i)
  {
  }

  lemma NothingLasts(c: Setup)
    requires Running(c)
    ensures Lasts(c, 0) == 0
  {
  }

  /** However long the run and wherever it lands: the first packet's anchor is kept
      throughout exactly when Chromium's times stay by the count, and then every packet is
      stamped by the samples before it alone. */
  lemma {:induction false} SteadyClock(c: Setup, ps: seq<Packet>, n: nat)
    requires Running(c) && 0 < n <= |ps| && Foreign(ps)
    ensures (forall m :: 0 < m <= n ==> Anchored(c, ps, m)) <==> Steady(c, ps, n)
    ensures Steady(c, ps, n) ==>
      forall i :: 0 <= i < n ==> Stamped(c, Clock(None, None), ps, i) == Predicted(c, ps, i)
    decreases n
  {
    if n == 1 {
      FirstPacket(c, ps);
    } else {
      SteadyClock(c, ps, n - 1);
      if Steady(c, ps, n - 1) {
        assert Anchored(c, ps, n - 1);
        NextPacket(c, ps, n - 1);
      }
    }
  }

  /** Packet `i` is stamped no more than 65 ms from where counting samples from the
      first puts it. */
  predicate OnTime(c: Setup, ps: seq<Packet>, i: nat)
    requires Running(c) && i < |ps|
  {
    Abs((ps[i].pts - ps[0].pts) * NS_PER_MS - Lasts(c, Count(ps, i))) <= 65 * NS_PER_MS
  }

  /** A stream on time that lands at zero or later is steady. */
  lemma OnTimeIsSteady(c: Setup, ps: seq<Packet>)
    requires Running(c) && |ps| > 0 && Landing(c, ps) >= 0
    requires forall i :: 0 <= i < |ps| ==> OnTime(c, ps, i)
    ensures Steady(c, ps, |ps|)
  {
    forall i | 0 <= i < |ps| ensures Near(c, ps, i) {
      assert OnTime(c, ps, i);
    }
  }

  /** One that lands more than 131 ms before zero is not, once it has gone on for more
      than 66 ms, however well it is on time: a negative audio offset does that. */
  lemma EarlyIsNotSteady(c: Setup, ps: seq<Packet>, i: nat)
    requires Running(c) && i < |ps| && Landing(c, ps) < -131 * NS_PER_MS
    requires OnTime(c, ps, i) && Lasts(c, Count(ps, i)) > TOLERANCE_NS
    ensures !Steady(c, ps, |ps|)
  {
    assert !Near(c, ps, i);
  }

  /** Such a run: two packets of 200 ms, the second exactly on time, on a muxer whose
      offset puts the first 200 ms before zero. Both are stamped 0. */
  lemma BothAtZero(now: int)
    requires now > DAY_MS
    ensures var c := Setup(48000, now * NS_PER_MS, -200 * NS_PER_MS);
      var ps := [Packet(9600, 1, now, 0), Packet(9600, 201, now + 200, 0)];
      && Foreign(ps) && OnTime(c, ps, 0) && OnTime(c, ps, 1) && !Steady(c, ps, 2)
      && Stamped(c, Clock(None, None), ps, 0) == 0 && Stamped(c, Clock(None, None), ps, 1) == 0
  {
    var c := Setup(48000, now * NS_PER_MS, -200 * NS_PER_MS);
    var ps := [Packet(9600, 1, now, 0), Packet(9600, 201, now + 200, 0)];
    assert Count(ps, 0) == 0 && Count(ps, 1) == 9600;
    assert Lasts(c, 9600) == 200 * NS_PER_MS && Lasts(c, 0) == 0;
    assert Landing(c, ps) == -200 * NS_PER_MS;
    FirstPacket(c, ps);
    NextPacket(c, ps, 1);
  }

  lemma RoundedDown(c: Setup, n: nat)
    requires Running(c)
    ensures Lasts(c, n) * c.rate <= n * NS_PER_S < (Lasts(c, n) + 1) * c.rate
  {
    Divides(n * NS_PER_S, c.rate);
    Spread(Lasts(c, n), 1, c.rate);
  }

  /** Consecutive packets of such a run meet, and none drifts: its stamp is the exact
      time of its first sample, rounded down to a nanosecond. */
  lemma SteadyPacketsMeet(c: Setup, ps: seq<Packet>, i: nat)
    requires Running(c) && i + 1 < |ps| && Foreign(ps) && Steady(c, ps, |ps|)
    ensures var (a, b) := (Stamped(c, Clock(None, None), ps, i), Stamped(c, Clock(None, None), ps, i + 1));
      a + Lasts(c, ps[i].frames) <= b <= a + Lasts(c, ps[i].frames) + 1
    ensures var exact := Count(ps, i) * NS_PER_S;
      var since := Stamped(c, Clock(None, None), ps, i) - First(c, ps);
      since * c.rate <= exact < (since + 1) * c.rate
  {
    SteadyClock(c, ps, |ps|);
    LastsAdds(c, Count(ps, i), ps[i].frames);
    RoundedDown(c, Count(ps, i));
  }

  /** What the two locks guard. */
  class Muxer {
    const setup: Setup
    var audioClock: Option<(nat, nat)>
    var ptsEpoch: Option<int>

    function State(): Clock
      reads this
    {
      Clock(audioClock, ptsEpoch)
    }

    constructor (rate: int, startUnixNs: int, offsetNs: int)
      ensures Running(setup) && State() == Clock(None, None)
      ensures setup == Setup(Max(rate, 1), startUnixNs, offsetNs)
    {
      setup := Setup(Max(rate, 1), startUnixNs, offsetNs);
      audioClock, ptsEpoch := None, None;
    }

    /** The anchor is forgotten, and what Chromium is off by is not. */
    method AudioStreamStarted()
      modifies this`audioClock
      ensures State() == old(State()).(anchor := None)
    {
      audioClock := None;
    }

    method UnixMs(pts: int, nowMs: int) returns (ms: int)
      modifies this`ptsEpoch
      ensures (ptsEpoch, ms) == ToUnixMs(old(ptsEpoch), pts, nowMs)
    {
      if pts <= 0 {
        return 0;
      }
      if Abs(pts - nowMs) < DAY_MS {
        return pts;
      }
      if ptsEpoch.None? {
        ptsEpoch := Some(nowMs - pts);
      }
      ms := pts + ptsEpoch.value;
    }

    method AudioPacket(p: Packet) returns (ns: nat, lasts: nat)
      requires Running(setup)
      modifies this`audioClock, this`ptsEpoch
      ensures (State(), ns) == Deliver(setup, old(State()), p) && lasts == Lasts(setup, p.frames)
    {
      lasts := Lasts(setup, p.frames);
      var ms := UnixMs(p.pts, p.nowMs);
      var theirs := if ms > 0 then ms * NS_PER_MS - setup.startUnixNs else p.elapsedNs - lasts;
      ns := StampPacket(Max(theirs + setup.offsetNs, 0), p.frames);
    }

    method StampPacket(theirs: nat, frames: nat) returns (ns: nat)
      requires Running(setup)
      modifies this`audioClock
      ensures (audioClock, ns) == Stamp(setup, old(audioClock), theirs, frames)
    {
      if audioClock.None? {
        audioClock := Some((theirs, frames));
        return theirs;
      }
      var (base, n) := audioClock.value;
      var predicted := base + Lasts(setup, n);
      if Abs(predicted - theirs) > TOLERANCE_NS {
        audioClock, ns := Some((theirs, frames)), theirs;
      } else {
        audioClock, ns := Some((base, n + frames)), predicted;
      }
    }
  }
}

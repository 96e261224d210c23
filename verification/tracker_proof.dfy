/** Replaying the deltas of the sources takes the baseline to the final status, and no
    source goes twice running to the same state. */
module TrackerProof {
  import opened Bytes
  import opened Grader
  import opened Tracker

  type States = map<string, Option<string>>

  function AsMap(b: Book): States { if |b| == 0 then map[] else AsMap(b[1..])[b[0].0 := b[0].1] }

  /** What a status says of its sources. */
  function Listed(ss: seq<Source>): States {
    if |ss| == 0 then map[] else Listed(ss[..|ss| - 1])[ss[|ss| - 1].id := ss[|ss| - 1].state]
  }

  /** The states after some deltas, by the deltas alone. */
  function Replay(m: States, ds: seq<Delta>): States {
    if |ds| == 0 then m
    else
      var before := Replay(m, ds[..|ds| - 1]);
      var d := ds[|ds| - 1];
      if d.what != "source" then before
      else if d.to == REMOVED then before - {d.id} else before[d.id := d.to]
  }

  /** No source is said to go to the state it is in by then, and none goes that is not
      there. */
  predicate NoRepeats(m: States, ds: seq<Delta>) {
    |ds| == 0 ||
    (var (before, d) := (ds[..|ds| - 1], ds[|ds| - 1]);
     && NoRepeats(m, before)
     && (d.what == "source" ==>
           if d.to == REMOVED then d.id in Replay(m, before)
           else d.id !in Replay(m, before) || Replay(m, before)[d.id] != d.to))
  }

  // -- dictionaries ------------------------------------------------------------------

  lemma {:induction false} AsMapHas(b: Book, id: string)
    ensures id in AsMap(b) <==> Holds(b, id)
    ensures Get(b, id) == if id in AsMap(b) then AsMap(b)[id] else None
    decreases |b|
  {
    if |b| > 0 {
      AsMapHas(b[1..], id);
    }
  }

  lemma {:induction false} PutIs(b: Book, id: string, to: Option<string>)
    requires Keyed(b)
    ensures Keyed(Put(b, id, to)) && AsMap(Put(b, id, to)) == AsMap(b)[id := to]
    ensures forall p :: Holds(Put(b, id, to), p) <==> p == id || Holds(b, p)
    decreases |b|
  {
    var after := Put(b, id, to);
    if |b| == 0 {
      assert after[1..] == [];
    } else if b[0].0 == id {
      assert after[1..] == b[1..];
    } else {
      PutIs(b[1..], id, to);
      assert after[1..] == Put(b[1..], id, to);
    }
  }

  lemma {:induction false} WithoutIs(b: Book, id: string)
    requires Keyed(b)
    ensures Keyed(Without(b, id)) && AsMap(Without(b, id)) == AsMap(b) - {id}
    ensures forall p :: Holds(Without(b, id), p) <==> p != id && Holds(b, p)
    decreases |b|
  {
    if |b| > 0 {
      WithoutIs(b[1..], id);
      AsMapHas(b[1..], id);
      var rest := Without(b[1..], id);
      if b[0].0 == id {
        assert Without(b, id) == rest;
      } else {
        assert ([b[0]] + rest)[1..] == rest;
      }
    }
  }

  // -- a tracker and the deltas it has given -----------------------------------------

  /** The deltas so far, replayed on `m`, are the tracker's sources, and none repeats. */
  ghost predicate Tracks(m: States, ds: seq<Delta>, b: Book) {
    Keyed(b) && AsMap(b) == Replay(m, ds) && NoRepeats(m, ds)
  }

  /** One more delta. */
  lemma TracksOne(m: States, ds: seq<Delta>, d: Delta, b: Book, b': Book)
    requires Tracks(m, ds, b) && Keyed(b')
    requires d.what != "source" ==> b' == b
    requires d.what == "source" && d.to == REMOVED ==> AsMap(b') == AsMap(b) - {d.id} && Holds(b, d.id)
    requires d.what == "source" && d.to != REMOVED ==> AsMap(b') == AsMap(b)[d.id := d.to] && Get(b, d.id) != d.to
    ensures Tracks(m, ds + [d], b')
  {
    assert (ds + [d])[..|ds|] == ds;
    AsMapHas(b, d.id);
  }

  /** Deltas of anything else change nothing. */
  lemma {:induction false} TracksOthers(m: States, ds: seq<Delta>, x: seq<Delta>, b: Book)
    requires Tracks(m, ds, b) && forall i :: 0 <= i < |x| ==> x[i].what != "source"
    ensures Tracks(m, ds + x, b)
    decreases |x|
  {
    if |x| == 0 {
      assert ds + x == ds;
    } else {
      TracksOthers(m, ds, x[..|x| - 1], b);
      TracksOne(m, ds + x[..|x| - 1], x[|x| - 1], b, b);
      assert ds + x == ds + x[..|x| - 1] + [x[|x| - 1]];
    }
  }

  /** No source says it is removed. */
  predicate Proper(e: Event) {
    match e
    case SourceState(_, state) => state != REMOVED
    case Status(sources, _, _) => forall i :: 0 <= i < |sources| ==> sources[i].state != REMOVED
    case _ => true
  }

  lemma TracksSource(m: States, ds: seq<Delta>, t: State, id: string, state: Option<string>)
    requires Tracks(m, ds, t.sources) && state != REMOVED
    ensures var (t', x) := OnSource(t, id, state); Tracks(m, ds + x, t'.sources)
  {
    if id == "" || Get(t.sources, id) == state {
      assert ds + [] == ds;
    } else {
      PutIs(t.sources, id, state);
      TracksOne(m, ds, Delta("source", id, state), t.sources, Put(t.sources, id, state));
    }
  }

  lemma TracksOneSource(m: States, ds: seq<Delta>, t: State, s: Source)
    requires Tracks(m, ds, t.sources) && s.state != REMOVED
    ensures var (t', x) := OneSource(t, s); Tracks(m, ds + x, t'.sources)
  {
    var (a, x) := OnSource(t, s.id, s.state);
    var (b, y) := OnAudio(a, s);
    TracksSource(m, ds, t, s.id, s.state);
    TracksOthers(m, ds + x, y, b.sources);
    InTurn(ds, x, y);
  }

  lemma InTurn(ds: seq<Delta>, x: seq<Delta>, y: seq<Delta>)
    ensures ds + (x + y) == ds + x + y
  {
  }

  lemma LastSource(m: States, ds: seq<Delta>, t: State, ss: seq<Source>)
    requires |ss| > 0 && ss[|ss| - 1].state != REMOVED
    requires var (a, x) := EachSource(t, ss[..|ss| - 1]); Tracks(m, ds + x, a.sources)
    ensures var (b, x) := EachSource(t, ss); Tracks(m, ds + x, b.sources)
  {
    var (a, x) := EachSource(t, ss[..|ss| - 1]);
    TracksOneSource(m, ds + x, a, ss[|ss| - 1]);
    InTurn(ds, x, OneSource(a, ss[|ss| - 1]).1);
  }

  lemma {:induction false} TracksEachSource(m: States, ds: seq<Delta>, t: State, ss: seq<Source>)
    requires Tracks(m, ds, t.sources) && forall i :: 0 <= i < |ss| ==> ss[i].state != REMOVED
    ensures var (t', x) := EachSource(t, ss); Tracks(m, ds + x, t'.sources)
    decreases |ss|
  {
    if |ss| == 0 {
      assert ds + [] == ds;
    } else {
      TracksEachSource(m, ds, t, ss[..|ss| - 1]);
      LastSource(m, ds, t, ss);
    }
  }

  /** Each of some keys once, and all of them held. */
  predicate HeldOnce(b: Book, ids: seq<string>) {
    && (forall i :: 0 <= i < |ids| ==> Holds(b, ids[i]))
    && (forall i, j :: 0 <= i < j < |ids| ==> ids[i] != ids[j])
  }

  lemma {:induction false} GoneIsHeld(b: Book, ss: seq<Source>)
    requires Keyed(b)
    ensures HeldOnce(b, Gone(b, ss))
    ensures forall id :: id in Gone(b, ss) <==> Holds(b, id) && !Seen(ss, id)
    decreases |b|
  {
    if |b| > 0 {
      GoneIsHeld(b[1..], ss);
      var rest := Gone(b[1..], ss);
      forall i | 0 <= i < |rest| ensures rest[i] != b[0].0 {
        assert Holds(b[1..], rest[i]);
      }
    }
  }

  lemma {:induction false} GoneAreGone(t: State, ids: seq<string>)
    requires Keyed(t.sources)
    ensures var b := EachGone(t, ids).0.sources;
      && Keyed(b)
      && (forall p :: p in AsMap(b) ==> p in AsMap(t.sources) && p !in ids && AsMap(b)[p] == AsMap(t.sources)[p])
      && (forall p :: p in AsMap(t.sources) && p !in ids ==> p in AsMap(b))
    decreases |ids|
  {
    if |ids| > 0 {
      var front, id := ids[..|ids| - 1], ids[|ids| - 1];
      assert ids == front + [id];
      GoneAreGone(t, front);
      WithoutIs(EachGone(t, front).0.sources, id);
    }
  }

  lemma {:induction false} TracksEachGone(m: States, ds: seq<Delta>, t: State, ids: seq<string>)
    requires Tracks(m, ds, t.sources) && HeldOnce(t.sources, ids)
    ensures var (t', x) := EachGone(t, ids); Tracks(m, ds + x, t'.sources)
    decreases |ids|
  {
    if |ids| == 0 {
      assert ds + [] == ds;
    } else {
      var front, id := ids[..|ids| - 1], ids[|ids| - 1];
      TracksEachGone(m, ds, t, front);
      GoneAreGone(t, front);
      var (a, x) := EachGone(t, front);
      AsMapHas(t.sources, id);
      AsMapHas(a.sources, id);
      WithoutIs(a.sources, id);
      TracksOne(m, ds + x, Delta("source", id, REMOVED), a.sources, Without(a.sources, id));
      InTurn(ds, x, [Delta("source", id, REMOVED)]);
    }
  }

  lemma {:induction false} OutputsOnly(t: State, outputs: Book)
    ensures var (t', x) := EachOutput(t, outputs);
      t'.sources == t.sources && forall i :: 0 <= i < |x| ==> x[i].what != "source"
    decreases |outputs|
  {
    if |outputs| > 0 {
      OutputsOnly(t, outputs[..|outputs| - 1]);
    }
  }

  lemma TracksSources(m: States, ds: seq<Delta>, t: State, ss: seq<Source>)
    requires Tracks(m, ds, t.sources) && forall i :: 0 <= i < |ss| ==> ss[i].state != REMOVED
    ensures var (a, w) := EachSource(t, ss);
      var (b, x) := EachGone(a, Gone(a.sources, ss));
      Tracks(m, ds + w + x, b.sources)
  {
    var (a, w) := EachSource(t, ss);
    TracksEachSource(m, ds, t, ss);
    GoneIsHeld(a.sources, ss);
    TracksEachGone(m, ds + w, a, Gone(a.sources, ss));
  }

  lemma TracksRest(m: States, ds: seq<Delta>, t: State, outputs: Book, ad: Ad)
    requires Tracks(m, ds, t.sources)
    ensures var (a, y) := EachOutput(t, outputs);
      var (b, z) := OnAd(a, ad);
      Tracks(m, ds + y + z, b.sources)
  {
    var (a, y) := EachOutput(t, outputs);
    OutputsOnly(t, outputs);
    TracksOthers(m, ds, y, a.sources);
    TracksOthers(m, ds + y, OnAd(a, ad).1, a.sources);
  }

  lemma TracksStatus(m: States, ds: seq<Delta>, t: State, e: Event)
    requires Tracks(m, ds, t.sources) && e.Status? && Proper(e)
    ensures var (t', x) := OnEvent(t, e); Tracks(m, ds + x, t'.sources)
  {
    TracksSources(m, ds, t, e.sources);
    var (a, w) := EachSource(t, e.sources);
    var (b, x) := EachGone(a, Gone(a.sources, e.sources));
    TracksRest(m, ds + w + x, b, e.outputs, e.ad);
    var (c, y) := EachOutput(b, e.outputs);
    InTurnToo(ds, w, x, y, OnAd(c, e.ad).1);
  }

  lemma InTurnToo(ds: seq<Delta>, w: seq<Delta>, x: seq<Delta>, y: seq<Delta>, z: seq<Delta>)
    ensures ds + (w + x + y + z) == ds + w + x + y + z
  {
  }

  lemma TracksEvent(m: States, ds: seq<Delta>, t: State, e: Event)
    requires Tracks(m, ds, t.sources) && Proper(e)
    ensures var (t', x) := OnEvent(t, e); Tracks(m, ds + x, t'.sources)
  {
    match e
    case SourceState(id, state) => TracksSource(m, ds, t, id, state);
    case Status(_, _, _) => TracksStatus(m, ds, t, e);
    case _ => TracksOthers(m, ds, OnEvent(t, e).1, t.sources);
  }

  predicate ProperRecord(r: Record) { r.Happened? ==> Proper(r.event) }

  lemma {:induction false} ParamsOnly(method_: string, shown: seq<(string, string)>)
    ensures forall i :: 0 <= i < |Params(method_, shown)| ==> Params(method_, shown)[i].what == "param"
    decreases |shown|
  {
    if |shown| > 0 {
      ParamsOnly(method_, shown[..|shown| - 1]);
    }
  }

  lemma TracksCommand(m: States, ds: seq<Delta>, t: State, method_: string, shown: seq<(string, string)>)
    requires Tracks(m, ds, t.sources)
    ensures Tracks(m, ds + Params(method_, shown), t.sources)
  {
    ParamsOnly(method_, shown);
    TracksOthers(m, ds, Params(method_, shown), t.sources);
  }

  lemma TracksRecord(m: States, ds: seq<Delta>, t: State, r: Record)
    requires Tracks(m, ds, t.sources) && ProperRecord(r)
    ensures var (t', x) := Absorb(t, r); Tracks(m, ds + x, t'.sources)
  {
    match r
    case Command(method_, shown) => TracksCommand(m, ds, t, method_, shown);
    case Happened(e) => TracksEvent(m, ds, t, e);
    case OtherRecord => assert ds + [] == ds;
  }

  lemma TracksMore(m: States, ds: seq<Delta>, x: seq<Delta>, t: State, r: Record)
    requires Tracks(m, ds + x, t.sources) && ProperRecord(r)
    ensures var (t', y) := Absorb(t, r); Tracks(m, ds + (x + y), t'.sources)
  {
    TracksRecord(m, ds + x, t, r);
    InTurn(ds, x, Absorb(t, r).1);
  }

  lemma {:induction false} TracksAll(m: States, ds: seq<Delta>, t: State, rs: seq<Record>)
    requires Tracks(m, ds, t.sources) && forall i :: 0 <= i < |rs| ==> ProperRecord(rs[i])
    ensures var (t', x) := AbsorbAll(t, rs); Tracks(m, ds + x, t'.sources)
    decreases |rs|
  {
    if |rs| == 0 {
      assert ds + [] == ds;
    } else {
      TracksAll(m, ds, t, rs[..|rs| - 1]);
      var (a, x) := AbsorbAll(t, rs[..|rs| - 1]);
      TracksMore(m, ds, x, a, rs[|rs| - 1]);
    }
  }

  // -- a status sets the sources straight ------------------------------------------------

  /** Every source it lists has a name and a state. */
  predicate Named(e: Event) {
    e.Status? && Proper(e) && forall i :: 0 <= i < |e.sources| ==> e.sources[i].id != "" && e.sources[i].state.Some?
  }

  lemma SourceSet(t: State, s: Source)
    requires Keyed(t.sources) && s.id != "" && s.state.Some?
    ensures Keyed(OneSource(t, s).0.sources)
    ensures AsMap(OneSource(t, s).0.sources) == AsMap(t.sources)[s.id := s.state]
  {
    AsMapHas(t.sources, s.id);
    PutIs(t.sources, s.id, s.state);
  }

  lemma OneMoreKey(m: States, l: States, id: string, state: Option<string>)
    ensures (m + l)[id := state] == m + l[id := state]
  {
  }

  lemma {:induction false} EachSourceSet(t: State, ss: seq<Source>)
    requires Keyed(t.sources) && forall i :: 0 <= i < |ss| ==> ss[i].id != "" && ss[i].state.Some?
    ensures var b := EachSource(t, ss).0.sources; Keyed(b) && AsMap(b) == AsMap(t.sources) + Listed(ss)
    decreases |ss|
  {
    if |ss| > 0 {
      var s := ss[|ss| - 1];
      EachSourceSet(t, ss[..|ss| - 1]);
      SourceSet(EachSource(t, ss[..|ss| - 1]).0, s);
      OneMoreKey(AsMap(t.sources), Listed(ss[..|ss| - 1]), s.id, s.state);
    }
  }

  lemma {:induction false} ListedIsSeen(ss: seq<Source>, id: string)
    ensures id in Listed(ss) <==> Seen(ss, id)
    decreases |ss|
  {
    if |ss| > 0 {
      ListedIsSeen(ss[..|ss| - 1], id);
      assert ss[|ss| - 1].id == id ==> Seen(ss, id);
      if Seen(ss[..|ss| - 1], id) {
        var i :| 0 <= i < |ss| - 1 && ss[..|ss| - 1][i].id == id;
        assert ss[i].id == id;
      }
      if Seen(ss, id) && ss[|ss| - 1].id != id {
        var i :| 0 <= i < |ss| && ss[i].id == id;
        assert ss[..|ss| - 1][i].id == id;
      }
    }
  }

  lemma Narrowed(m: States, l: States, b: States)
    requires forall id :: id in b <==> id in l
    requires forall id :: id in b ==> id in m + l && b[id] == (m + l)[id]
    ensures b == l
  {
  }

  lemma StatusSets(t: State, e: Event)
    requires Keyed(t.sources) && Named(e)
    ensures AsMap(OnEvent(t, e).0.sources) == Listed(e.sources)
  {
    var a := EachSource(t, e.sources).0;
    var b := EachGone(a, Gone(a.sources, e.sources)).0;
    EachSourceSet(t, e.sources);
    OutputsOnly(b, e.outputs);
    GoneUnlisted(a, e.sources);
    Narrowed(AsMap(t.sources), Listed(e.sources), AsMap(b.sources));
  }

  /** What is left of a book that has every source listed is what is listed. */
  lemma GoneUnlisted(a: State, ss: seq<Source>)
    requires Keyed(a.sources) && forall id :: id in Listed(ss) ==> id in AsMap(a.sources)
    ensures var b := AsMap(EachGone(a, Gone(a.sources, ss)).0.sources);
      && (forall id :: id in b <==> id in Listed(ss))
      && (forall id :: id in b ==> id in AsMap(a.sources) && b[id] == AsMap(a.sources)[id])
  {
    GoneIsHeld(a.sources, ss);
    GoneAreGone(a, Gone(a.sources, ss));
    var b := EachGone(a, Gone(a.sources, ss)).0;
    forall id ensures id in AsMap(b.sources) <==> id in Listed(ss) {
      AsMapHas(a.sources, id);
      ListedIsSeen(ss, id);
    }
  }

  /** Whatever the log holds: the deltas of the sources, replayed on the baseline's
      states, are the final status's, and no source goes to the state it is in. */
  lemma DeltasReplay(records: seq<Record>, after: nat, baseline: Event, final: Event)
    requires after <= |records| && Named(baseline) && Named(final)
    requires forall i :: 0 <= i < |records| ==> ProperRecord(records[i])
    ensures var ds := DeltasOf(records, after, baseline, final);
      Replay(Listed(baseline.sources), ds) == Listed(final.sources) && NoRepeats(Listed(baseline.sources), ds)
  {
    var m := Listed(baseline.sources);
    var early := AbsorbAll(EMPTY, records[..after]).0;
    assert Tracks(map[], [], EMPTY.sources);
    TracksAll(map[], [], EMPTY, records[..after]);
    StatusSets(early, baseline);
    TracksStatus(map[], [] + AbsorbAll(EMPTY, records[..after]).1, early, baseline);
    var t := AtMark(records, after, baseline);
    assert Tracks(m, [], t.sources);
    TracksAll(m, [], t, records[after..]);
    var (u, x) := AbsorbAll(t, records[after..]);
    assert [] + x == x;
    TracksStatus(m, x, u, final);
    StatusSets(u, final);
  }
}

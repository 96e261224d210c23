/** What the evaluation suite says of outputs, gains, mutes and breaks leads from the
    state at the mark to the state at the end, change by change. */
module TrackerTraces {
  import opened Bytes
  import opened Grader
  import opened Tracker

  /** The four kinds that a status or an event carries the state of, besides sources. */
  predicate Carried(key: Subject) {
    key.0 in {"output", "gain", "mute"} || key == ("adbreak", "")
  }

  /** Of these two the first sight is no change. */
  predicate Quietly(key: Subject) { key.0 in {"gain", "mute"} }

  /** The state of a subject, as a delta would give it. */
  function Now(t: State, key: Subject): Option<string> {
    if key.0 == "output" then Get(t.outputs, key.1)
    else if key.0 == "gain" then
      var gain := Get(t.gains, key.1);
      if gain.None? then None else Some(gain.value + " dB")
    else if key.0 == "mute" then Get(t.mutes, key.1)
    else if t.ad.None? then Some("ended") else t.ad
  }

  /** States that lead from one to another, each a change: none when nothing changed, or
      when something was seen for the first time that is seen quietly. */
  predicate Leads(quietly: bool, from: Option<string>, states: seq<Option<string>>, to: Option<string>) {
    && (|states| == 0 ==> to == from || (quietly && from.None?))
    && (|states| > 0 ==> states[|states| - 1] == to && (from.Some? || !quietly ==> states[0] != from))
    && (forall i :: 0 < i < |states| ==> states[i - 1] != states[i])
    && (quietly ==> forall i :: 0 <= i < |states| ==> states[i].Some?)
  }

  lemma LeadsOn(quietly: bool, a: Option<string>, x: seq<Option<string>>, b: Option<string>,
                y: seq<Option<string>>, c: Option<string>)
    requires Leads(quietly, a, x, b) && Leads(quietly, b, y, c)
    ensures Leads(quietly, a, x + y, c)
  {
    if |x| > 0 && |y| > 0 {
      assert (x + y)[|x| - 1] == b && (x + y)[|x|] == y[0];
    }
  }

  /** The deltas of every such subject lead from one state of the tracker to the next. */
  ghost predicate Traced(t: State, ds: seq<Delta>, t': State) {
    forall key: Subject :: Carried(key) ==> Leads(Quietly(key), Now(t, key), To(ds, key), Now(t', key))
  }

  lemma TracedOn(a: State, x: seq<Delta>, b: State, y: seq<Delta>, c: State)
    requires Traced(a, x, b) && Traced(b, y, c)
    ensures Traced(a, x + y, c)
  {
    forall key: Subject | Carried(key) ensures Leads(Quietly(key), Now(a, key), To(x + y, key), Now(c, key)) {
      ToAdds(x, y, key);
      LeadsOn(Quietly(key), Now(a, key), To(x, key), Now(b, key), To(y, key), Now(c, key));
    }
  }

  lemma {:induction false} PutGets(b: Book, id: string, to: Option<string>, other: string)
    ensures Get(Put(b, id, to), other) == if other == id then to else Get(b, other)
    decreases |b|
  {
    if |b| > 0 && b[0].0 != id {
      PutGets(b[1..], id, to, other);
    }
  }

  lemma OfOne(d: Delta, key: Subject)
    ensures To([d], key) == if key == (d.what, d.id) then [d.to] else []
  {
    assert [d][..0] == [];
  }

  /** Deltas of other kinds, and a tracker that has not changed. */
  lemma {:induction false} Untold(ds: seq<Delta>, key: Subject)
    requires Carried(key) && forall i :: 0 <= i < |ds| ==> !(ds[i].what in {"output", "gain", "mute", "adbreak"})
    ensures To(ds, key) == []
    decreases |ds|
  {
    if |ds| > 0 {
      Untold(ds[..|ds| - 1], key);
    }
  }

  lemma OthersTraced(t: State, ds: seq<Delta>, t': State)
    requires forall i :: 0 <= i < |ds| ==> !(ds[i].what in {"output", "gain", "mute", "adbreak"})
    requires t'.outputs == t.outputs && t'.gains == t.gains && t'.mutes == t.mutes && t'.ad == t.ad
    ensures Traced(t, ds, t')
  {
    forall key: Subject | Carried(key) ensures Leads(Quietly(key), Now(t, key), To(ds, key), Now(t', key)) {
      Untold(ds, key);
    }
  }

  lemma OutputTraced(t: State, id: string, state: Option<string>)
    ensures var (t', ds) := OnOutput(t, id, state); Traced(t, ds, t')
  {
    var (t', ds) := OnOutput(t, id, state);
    forall key: Subject | Carried(key) ensures Leads(Quietly(key), Now(t, key), To(ds, key), Now(t', key)) {
      OfOne(Delta("output", id, state), key);
      PutGets(t.outputs, id, state, key.1);
    }
  }

  lemma AdTraced(t: State, ad: Ad)
    requires Orderly(t)
    ensures var (t', ds) := OnAd(t, ad); Traced(t, ds, t') && Orderly(t')
  {
    var (t', ds) := OnAd(t, ad);
    forall key: Subject | Carried(key) ensures Leads(Quietly(key), Now(t, key), To(ds, key), Now(t', key)) {
      if |ds| > 0 {
        OfOne(ds[0], key);
        assert ds == [ds[0]];
      }
    }
  }

  /** A break is on air or armed, and what is held of a source's sound is some state. */
  predicate Orderly(t: State) {
    && t.ad in {None, Some("on air"), Some("armed")}
    && AllKnown(t.gains) && AllKnown(t.mutes)
  }

  predicate AllKnown(b: Book) { forall i :: 0 <= i < |b| ==> b[i].1.Some? }

  lemma {:induction false} HeldIsKnown(b: Book, id: string)
    requires AllKnown(b)
    ensures Holds(b, id) <==> Get(b, id).Some?
    decreases |b|
  {
    if |b| > 0 && b[0].0 != id {
      assert forall i :: 0 <= i < |b| - 1 ==> b[1..][i] == b[i + 1];
      HeldIsKnown(b[1..], id);
    }
  }

  lemma {:induction false} PutIsKnown(b: Book, id: string, to: Option<string>)
    requires AllKnown(b) && to.Some?
    ensures AllKnown(Put(b, id, to))
    decreases |b|
  {
    if |b| > 0 && b[0].0 != id {
      assert forall i :: 0 <= i < |b| - 1 ==> b[1..][i] == b[i + 1];
      PutIsKnown(b[1..], id, to);
    }
  }

  lemma Decibels(a: string, b: string)
    ensures a + " dB" == b + " dB" ==> a == b
  {
    assert a == (a + " dB")[..|a + " dB"| - 3] && b == (b + " dB")[..|b + " dB"| - 3];
  }

  lemma GainTraced(t: State, id: string, gain: Option<string>)
    requires Orderly(t)
    ensures var (t', ds) := OnGain(t, id, gain); Traced(t, ds, t') && Orderly(t')
  {
    var (t', ds) := OnGain(t, id, gain);
    HeldIsKnown(t.gains, id);
    if gain.Some? {
      PutIsKnown(t.gains, id, gain);
      forall key: Subject | Carried(key) ensures Leads(Quietly(key), Now(t, key), To(ds, key), Now(t', key)) {
        GainLeads(t, id, gain.value, ds, t', key);
      }
    } else {
      OthersTraced(t, [], t);
    }
  }

  lemma GainLeads(t: State, id: string, gain: string, ds: seq<Delta>, t': State, key: Subject)
    requires Carried(key) && t' == t.(gains := t'.gains)
    requires Get(t.gains, id) == Some(gain) ==> t' == t && ds == []
    requires Get(t.gains, id) != Some(gain) ==> t'.gains == Put(t.gains, id, Some(gain))
    requires Get(t.gains, id) != Some(gain) ==>
      ds == if Get(t.gains, id).Some? then [Delta("gain", id, Some(gain + " dB"))] else []
    ensures Leads(Quietly(key), Now(t, key), To(ds, key), Now(t', key))
  {
    OfOne(Delta("gain", id, Some(gain + " dB")), key);
    PutGets(t.gains, id, Some(gain), key.1);
    if Get(t.gains, key.1).Some? {
      Decibels(gain, Get(t.gains, key.1).value);
    }
  }

  lemma MuteTraced(t: State, id: string, muted: bool)
    requires Orderly(t)
    ensures var (t', ds) := OnMute(t, id, muted); Traced(t, ds, t') && Orderly(t')
  {
    var (t', ds) := OnMute(t, id, muted);
    var to := Some(if muted then "muted" else "unmuted");
    HeldIsKnown(t.mutes, id);
    PutIsKnown(t.mutes, id, to);
    forall key: Subject | Carried(key) ensures Leads(Quietly(key), Now(t, key), To(ds, key), Now(t', key)) {
      MuteLeads(t, id, to, ds, t', key);
    }
  }

  lemma MuteLeads(t: State, id: string, to: Option<string>, ds: seq<Delta>, t': State, key: Subject)
    requires Carried(key) && to.Some? && t' == t.(mutes := t'.mutes)
    requires Get(t.mutes, id) == to ==> t' == t && ds == []
    requires Get(t.mutes, id) != to ==> t'.mutes == Put(t.mutes, id, to)
    requires Get(t.mutes, id) != to ==> ds == if Get(t.mutes, id).Some? then [Delta("mute", id, to)] else []
    ensures Leads(Quietly(key), Now(t, key), To(ds, key), Now(t', key))
  {
    OfOne(Delta("mute", id, to), key);
    PutGets(t.mutes, id, to, key.1);
  }

  lemma OneSourceTraced(t: State, s: Source)
    requires Orderly(t)
    ensures var (t', ds) := OneSource(t, s); Traced(t, ds, t') && Orderly(t')
  {
    var (a, x) := OnSource(t, s.id, s.state);
    var (b, y) := OnGain(a, s.id, s.gain);
    var (c, z) := OnMute(b, s.id, s.muted);
    OthersTraced(t, x, a);
    GainTraced(a, s.id, s.gain);
    MuteTraced(b, s.id, s.muted);
    TracedOn(a, y, b, z, c);
    TracedOn(t, x, a, y + z, c);
  }

  lemma {:induction false} EachSourceTraced(t: State, ss: seq<Source>)
    requires Orderly(t)
    ensures var (t', ds) := EachSource(t, ss); Traced(t, ds, t') && Orderly(t')
    decreases |ss|
  {
    if |ss| == 0 {
      OthersTraced(t, [], t);
    } else {
      EachSourceTraced(t, ss[..|ss| - 1]);
      var (a, x) := EachSource(t, ss[..|ss| - 1]);
      OneSourceTraced(a, ss[|ss| - 1]);
      var (b, y) := OneSource(a, ss[|ss| - 1]);
      TracedOn(t, x, a, y, b);
    }
  }

  lemma {:induction false} EachGoneTraced(t: State, ids: seq<string>)
    requires Orderly(t)
    ensures var (t', ds) := EachGone(t, ids); Traced(t, ds, t') && Orderly(t')
    decreases |ids|
  {
    if |ids| == 0 {
      OthersTraced(t, [], t);
    } else {
      EachGoneTraced(t, ids[..|ids| - 1]);
      var (a, x) := EachGone(t, ids[..|ids| - 1]);
      var d := Delta("source", ids[|ids| - 1], REMOVED);
      OthersTraced(a, [d], EachGone(t, ids).0);
      TracedOn(t, x, a, [d], EachGone(t, ids).0);
    }
  }

  lemma {:induction false} EachOutputTraced(t: State, outputs: Book)
    requires Orderly(t)
    ensures var (t', ds) := EachOutput(t, outputs); Traced(t, ds, t') && Orderly(t')
    decreases |outputs|
  {
    if |outputs| == 0 {
      OthersTraced(t, [], t);
    } else {
      var last := outputs[|outputs| - 1];
      EachOutputTraced(t, outputs[..|outputs| - 1]);
      var (a, x) := EachOutput(t, outputs[..|outputs| - 1]);
      OutputTraced(a, last.0, last.1);
      var (b, y) := OnOutput(a, last.0, last.1);
      TracedOn(t, x, a, y, b);
    }
  }

  lemma StatusTraced(t: State, e: Event)
    requires Orderly(t) && e.Status?
    ensures var (t', ds) := OnEvent(t, e); Traced(t, ds, t') && Orderly(t')
  {
    var (a, w) := EachSource(t, e.sources);
    var (b, x) := EachGone(a, Gone(a.sources, e.sources));
    var (c, y) := EachOutput(b, e.outputs);
    var (d, z) := OnAd(c, e.ad);
    EachSourceTraced(t, e.sources);
    EachGoneTraced(a, Gone(a.sources, e.sources));
    EachOutputTraced(b, e.outputs);
    AdTraced(c, e.ad);
    TracedOn(t, w, a, x, b);
    TracedOn(t, w + x, b, y, c);
    TracedOn(t, w + x + y, c, z, d);
  }

  lemma RecordTraced(t: State, r: Record)
    requires Orderly(t)
    ensures var (t', ds) := Absorb(t, r); Traced(t, ds, t') && Orderly(t')
  {
    match r
    case Command(method_, shown) =>
      ParamsAre(method_, shown);
      OthersTraced(t, Params(method_, shown), t);
    case OtherRecord => OthersTraced(t, [], t);
    case Happened(e) =>
      match e
      case Status(_, _, _) => StatusTraced(t, e);
      case OutputState(id, state) => OutputTraced(t, id, state);
      case AdBreak(ad) => AdTraced(t, ad);
      case _ => OthersTraced(t, OnEvent(t, e).1, OnEvent(t, e).0);
  }

  /** The parameters shown of a command, one by one. */
  lemma {:induction false} ParamsAre(method_: string, shown: seq<(string, string)>)
    ensures |Params(method_, shown)| == |shown|
    ensures forall i :: 0 <= i < |shown| ==>
      Params(method_, shown)[i] == Delta("param", method_ + "." + shown[i].0, Some(shown[i].1))
    decreases |shown|
  {
    if |shown| > 0 {
      ParamsAre(method_, shown[..|shown| - 1]);
    }
  }

  lemma {:induction false} LogTraced(t: State, rs: seq<Record>)
    requires Orderly(t)
    ensures var (t', ds) := AbsorbAll(t, rs); Traced(t, ds, t') && Orderly(t')
    decreases |rs|
  {
    if |rs| == 0 {
      OthersTraced(t, [], t);
    } else {
      LogTraced(t, rs[..|rs| - 1]);
      var (a, x) := AbsorbAll(t, rs[..|rs| - 1]);
      RecordTraced(a, rs[|rs| - 1]);
      var (b, y) := Absorb(a, rs[|rs| - 1]);
      TracedOn(t, x, a, y, b);
    }
  }

  /** Whatever the log holds, the deltas of every output, gain, mute and the break lead from
      its state at the mark to its state at the end, and each of them is a change. */
  lemma DeltasLead(records: seq<Record>, after: nat, baseline: Event, final: Event)
    requires after <= |records|
    ensures var (start, ds) := (AtMark(records, after, baseline), DeltasOf(records, after, baseline, final));
      var end := OnEvent(AbsorbAll(start, records[after..]).0, final).0;
      Traced(start, ds, end)
  {
    LogTraced(EMPTY, records[..after]);
    RecordTraced(AbsorbAll(EMPTY, records[..after]).0, Happened(baseline));
    var start := AtMark(records, after, baseline);
    LogTraced(start, records[after..]);
    var (t, x) := AbsorbAll(start, records[after..]);
    RecordTraced(t, Happened(final));
    TracedOn(start, x, t, OnEvent(t, final).1, OnEvent(t, final).0);
  }

  // -- and the tracker holds what it was last told ---------------------------------------------

  predicate LastSaid(ss: seq<Source>, i: nat)
    requires i < |ss|
  {
    forall j :: i < j < |ss| ==> ss[j].id != ss[i].id
  }

  predicate LastListed(outputs: Book, i: nat)
    requires i < |outputs|
  {
    forall j :: i < j < |outputs| ==> outputs[j].0 != outputs[i].0
  }

  /** What a status says of a source's sound, where it lists it for the last time. */
  lemma {:induction false} SoundIsHeld(t: State, ss: seq<Source>, i: nat)
    requires i < |ss| && LastSaid(ss, i)
    ensures var a := EachSource(t, ss).0;
      && (ss[i].gain.Some? ==> Get(a.gains, ss[i].id) == ss[i].gain)
      && Get(a.mutes, ss[i].id) == Some(if ss[i].muted then "muted" else "unmuted")
      && a.outputs == t.outputs && a.ad == t.ad
    decreases |ss|
  {
    var front, last := ss[..|ss| - 1], ss[|ss| - 1];
    var a := EachSource(t, front).0;
    OneIsHeld(a, last, ss[i].id);
    if i < |front| {
      SoundIsHeld(t, front, i);
    } else {
      OutputsAside(t, front);
    }
  }

  lemma OneIsHeld(t: State, s: Source, id: string)
    ensures var a := OneSource(t, s).0;
      && a.outputs == t.outputs && a.ad == t.ad
      && Get(a.gains, id) == (if id == s.id && s.gain.Some? then s.gain else Get(t.gains, id))
      && Get(a.mutes, id) == if id == s.id then Some(if s.muted then "muted" else "unmuted") else Get(t.mutes, id)
  {
    PutGets(t.gains, s.id, s.gain, id);
    PutGets(t.mutes, s.id, Some(if s.muted then "muted" else "unmuted"), id);
  }

  lemma {:induction false} OutputsAside(t: State, ss: seq<Source>)
    ensures EachSource(t, ss).0.outputs == t.outputs && EachSource(t, ss).0.ad == t.ad
    decreases |ss|
  {
    if |ss| > 0 {
      OutputsAside(t, ss[..|ss| - 1]);
      OneIsHeld(EachSource(t, ss[..|ss| - 1]).0, ss[|ss| - 1], "");
    }
  }

  lemma {:induction false} SoundAside(t: State, ids: seq<string>, outputs: Book)
    ensures var a := EachGone(t, ids).0;
      a.gains == t.gains && a.mutes == t.mutes && a.outputs == t.outputs && a.ad == t.ad
    ensures var b := EachOutput(t, outputs).0; b.gains == t.gains && b.mutes == t.mutes && b.ad == t.ad
    decreases |ids| + |outputs|
  {
    if |ids| > 0 {
      SoundAside(t, ids[..|ids| - 1], outputs);
    }
    if |outputs| > 0 {
      SoundAside(t, ids, outputs[..|outputs| - 1]);
    }
  }

  lemma {:induction false} OutputIsHeld(t: State, outputs: Book, i: nat)
    requires i < |outputs| && outputs[i].0 != "" && LastListed(outputs, i)
    ensures Get(EachOutput(t, outputs).0.outputs, outputs[i].0) == outputs[i].1
    decreases |outputs|
  {
    var front, last := outputs[..|outputs| - 1], outputs[|outputs| - 1];
    PutGets(EachOutput(t, front).0.outputs, last.0, last.1, outputs[i].0);
    if i < |front| {
      OutputIsHeld(t, front, i);
    }
  }

  /** After a status every source's sound, every output and the break are as it says. */
  lemma StatusIsHeld(t: State, e: Event)
    requires e.Status?
    ensures var a := OnEvent(t, e).0;
      && (forall i :: 0 <= i < |e.sources| && LastSaid(e.sources, i) ==>
            && (e.sources[i].gain.Some? ==> Get(a.gains, e.sources[i].id) == e.sources[i].gain)
            && Get(a.mutes, e.sources[i].id) == Some(if e.sources[i].muted then "muted" else "unmuted"))
      && (forall i :: 0 <= i < |e.outputs| && e.outputs[i].0 != "" && LastListed(e.outputs, i) ==>
            Get(a.outputs, e.outputs[i].0) == e.outputs[i].1)
      && a.ad == if e.ad.None? then None else Some(if e.ad.value then "on air" else "armed")
  {
    var a := EachSource(t, e.sources).0;
    var gone := Gone(a.sources, e.sources);
    var b := EachGone(a, gone).0;
    SoundAside(a, gone, []);
    SoundAside(b, [], e.outputs);
    forall i | 0 <= i < |e.sources| && LastSaid(e.sources, i)
      ensures e.sources[i].gain.Some? ==> Get(a.gains, e.sources[i].id) == e.sources[i].gain
      ensures Get(a.mutes, e.sources[i].id) == Some(if e.sources[i].muted then "muted" else "unmuted")
    {
      SoundIsHeld(t, e.sources, i);
    }
    forall i | 0 <= i < |e.outputs| && e.outputs[i].0 != "" && LastListed(e.outputs, i)
      ensures Get(EachOutput(b, e.outputs).0.outputs, e.outputs[i].0) == e.outputs[i].1
    {
      OutputIsHeld(b, e.outputs, i);
    }
  }

  /** After an event of a source, an output or the break it is as the event says, and of a
      source that is told exactly when it is news. */
  lemma EventIsHeld(t: State, id: string, state: Option<string>, ad: Ad)
    ensures id != "" ==> Get(OnEvent(t, SourceState(id, state)).0.sources, id) == state
    ensures OnEvent(t, SourceState(id, state)).1
         == if id != "" && Get(t.sources, id) != state then [Delta("source", id, state)] else []
    ensures id != "" ==> Get(OnEvent(t, OutputState(id, state)).0.outputs, id) == state
    ensures OnEvent(t, AdBreak(ad)).0.ad == if ad.None? then None else Some(if ad.value then "on air" else "armed")
  {
    PutGets(t.outputs, id, state, id);
    PutGets(t.sources, id, state, id);
  }

  // -- what is told as it happens -----------------------------------------------------------

  /** A take, a blocked hook and a command's parameters are told each time, and no other
      record tells of a program, a hook or a parameter. */
  lemma ToldAtOnce(t: State, r: Record, key: Subject)
    requires key.0 in {"program", "hook", "param"}
    ensures To(Absorb(t, r).1, key) ==
      if r.Command? then To(Params(r.method_, r.shown), key)
      else if r.Happened? && r.event.Took? && key == ("program", "") then
        [Some(if r.event.source == "" then "slate" else r.event.source)]
      else if r.Happened? && r.event.HookBlocked? && key == ("hook", r.event.hook) then [Some("blocked")]
      else []
  {
    if r.Happened? {
      if r.event.Took? || r.event.HookBlocked? {
        var d := OnEvent(t, r.event).1[0];
        assert OnEvent(t, r.event).1 == [d];
        OfOne(d, key);
      } else {
        NotTold(t, r.event, key);
      }
    }
  }

  predicate OfState(d: Delta) { d.what in {"source", "output", "gain", "mute", "adbreak"} }

  predicate AllOfState(ds: seq<Delta>) { forall i :: 0 <= i < |ds| ==> OfState(ds[i]) }

  lemma NotTold(t: State, e: Event, key: Subject)
    requires key.0 in {"program", "hook", "param"} && !e.Took? && !e.HookBlocked?
    ensures To(OnEvent(t, e).1, key) == []
  {
    if e.Status? {
      var (a, w) := EachSource(t, e.sources);
      var (b, x) := EachGone(a, Gone(a.sources, e.sources));
      EachSourceOfState(t, e.sources);
      EachGoneOfState(a, Gone(a.sources, e.sources));
      EachOutputOfState(b, e.outputs);
    }
    NoneOfThem(OnEvent(t, e).1, key);
  }

  lemma {:induction false} NoneOfThem(ds: seq<Delta>, key: Subject)
    requires AllOfState(ds) && key.0 in {"program", "hook", "param"}
    ensures To(ds, key) == []
    decreases |ds|
  {
    if |ds| > 0 {
      NoneOfThem(ds[..|ds| - 1], key);
    }
  }

  lemma {:induction false} EachSourceOfState(t: State, ss: seq<Source>)
    ensures AllOfState(EachSource(t, ss).1)
    decreases |ss|
  {
    if |ss| > 0 {
      EachSourceOfState(t, ss[..|ss| - 1]);
    }
  }

  lemma {:induction false} EachGoneOfState(t: State, ids: seq<string>)
    ensures AllOfState(EachGone(t, ids).1)
    decreases |ids|
  {
    if |ids| > 0 {
      EachGoneOfState(t, ids[..|ids| - 1]);
    }
  }

  lemma {:induction false} EachOutputOfState(t: State, outputs: Book)
    ensures AllOfState(EachOutput(t, outputs).1)
    decreases |outputs|
  {
    if |outputs| > 0 {
      EachOutputOfState(t, outputs[..|outputs| - 1]);
    }
  }
}

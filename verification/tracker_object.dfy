/** The tracker as the object whose dictionaries the records update. */
module TrackerObject {
  import opened Bytes
  import opened Grader
  import T = Tracker

  class Tracker {
    var sources: T.Book
    var outputs: T.Book
    var gains: T.Book
    var mutes: T.Book
    var ad: Option<string>

    function Abs(): T.State
      reads this
    {
      T.State(sources, outputs, gains, mutes, ad)
    }

    constructor ()
      ensures Abs() == T.EMPTY
    {
      sources, outputs, gains, mutes, ad := [], [], [], [], None;
    }

    method Source(id: string, state: Option<string>) returns (out: seq<Delta>)
      modifies this`sources
      ensures (Abs(), out) == T.OnSource(old(Abs()), id, state)
    {
      if id == "" || T.Get(sources, id) == state {
        return [];
      }
      sources := T.Put(sources, id, state);
      out := [Delta("source", id, state)];
    }

    method Output(id: string, state: Option<string>) returns (out: seq<Delta>)
      modifies this`outputs
      ensures (Abs(), out) == T.OnOutput(old(Abs()), id, state)
    {
      if id == "" || T.Get(outputs, id) == state {
        return [];
      }
      outputs := T.Put(outputs, id, state);
      out := [Delta("output", id, state)];
    }

    method Audio(s: T.Source) returns (out: seq<Delta>)
      modifies this`gains, this`mutes
      ensures (Abs(), out) == T.OnAudio(old(Abs()), s)
    {
      var gains', mutes': seq<Delta> := [], [];
      if s.gain.Some? && T.Get(gains, s.id) != s.gain {
        if T.Holds(gains, s.id) {
          gains' := [Delta("gain", s.id, Some(s.gain.value + " dB"))];
        }
        gains := T.Put(gains, s.id, s.gain);
      }
      var muted := Some(if s.muted then "muted" else "unmuted");
      if T.Get(mutes, s.id) != muted {
        if T.Holds(mutes, s.id) {
          mutes' := [Delta("mute", s.id, muted)];
        }
        mutes := T.Put(mutes, s.id, muted);
      }
      out := gains' + mutes';
    }

    method AdBreak(to: T.Ad) returns (out: seq<Delta>)
      modifies this`ad
      ensures (Abs(), out) == T.OnAd(old(Abs()), to)
    {
      var now := if to.None? then None else if to.value then Some("on air") else Some("armed");
      if now == ad {
        return [];
      }
      ad := now;
      out := [Delta("adbreak", "", if now.None? then Some("ended") else now)];
    }

    /** A status: its sources, those it no longer lists, its outputs and its ad. */
    method Status(e: T.Event) returns (out: seq<Delta>)
      requires e.Status?
      modifies this
      ensures (Abs(), out) == T.OnEvent(old(Abs()), e)
    {
      var w := Listed(e.sources);
      var x := Removed(T.Gone(sources, e.sources));
      var y := Outputs(e.outputs);
      var z := AdBreak(e.ad);
      out := w + x + y + z;
    }

    method Listed(ss: seq<T.Source>) returns (out: seq<Delta>)
      modifies this`sources, this`gains, this`mutes
      ensures (Abs(), out) == T.EachSource(old(Abs()), ss)
    {
      ghost var was := Abs();
      out := [];
      assert ss[..0] == [];
      for i := 0 to |ss|
        invariant (Abs(), out) == T.EachSource(was, ss[..i])
      {
        assert ss[..i + 1][..i] == ss[..i];
        var x := Source(ss[i].id, ss[i].state);
        var y := Audio(ss[i]);
        InOrder(out, x, y);
        out := out + x + y;
      }
      assert ss[..|ss|] == ss;
    }

    method Removed(ids: seq<string>) returns (out: seq<Delta>)
      modifies this`sources
      ensures (Abs(), out) == T.EachGone(old(Abs()), ids)
    {
      ghost var was := Abs();
      out := [];
      assert ids[..0] == [];
      for i := 0 to |ids|
        invariant (Abs(), out) == T.EachGone(was, ids[..i])
      {
        assert ids[..i + 1][..i] == ids[..i];
        sources := T.Without(sources, ids[i]);
        out := out + [Delta("source", ids[i], T.REMOVED)];
      }
      assert ids[..|ids|] == ids;
    }

    method Outputs(all: T.Book) returns (out: seq<Delta>)
      modifies this`outputs
      ensures (Abs(), out) == T.EachOutput(old(Abs()), all)
    {
      ghost var was := Abs();
      out := [];
      assert all[..0] == [];
      for i := 0 to |all|
        invariant (Abs(), out) == T.EachOutput(was, all[..i])
      {
        assert all[..i + 1][..i] == all[..i];
        var x := Output(all[i].0, all[i].1);
        out := out + x;
      }
      assert all[..|all|] == all;
    }

    method Event(e: T.Event) returns (out: seq<Delta>)
      modifies this
      ensures (Abs(), out) == T.OnEvent(old(Abs()), e)
    {
      match e
      case Took(source) => out := [Delta("program", "", Some(if source == "" then "slate" else source))];
      case SourceState(id, state) => out := Source(id, state);
      case OutputState(id, state) => out := Output(id, state);
      case AdBreak(to) => out := AdBreak(to);
      case HookBlocked(hook) => out := [Delta("hook", hook, Some("blocked"))];
      case Status(_, _, _) => out := Status(e);
      case OtherEvent => out := [];
    }

    method Absorb(r: T.Record) returns (out: seq<Delta>)
      modifies this
      ensures (Abs(), out) == T.Absorb(old(Abs()), r)
    {
      match r
      case Command(name, shown) => out := T.Params(name, shown);
      case Happened(e) => out := Event(e);
      case OtherRecord => out := [];
    }

    method AbsorbEach(rs: seq<T.Record>) returns (out: seq<Delta>)
      modifies this
      ensures (Abs(), out) == T.AbsorbAll(old(Abs()), rs)
    {
      ghost var was := Abs();
      out := [];
      assert rs[..0] == [];
      for i := 0 to |rs|
        invariant (Abs(), out) == T.AbsorbAll(was, rs[..i])
      {
        assert rs[..i + 1][..i] == rs[..i];
        var x := Absorb(rs[i]);
        out := out + x;
      }
      assert rs[..|rs|] == rs;
    }
  }

  lemma InOrder(out: seq<Delta>, x: seq<Delta>, y: seq<Delta>)
    ensures out + x + y == out + (x + y)
  {
  }

  method DeltasOf(records: seq<T.Record>, after: nat, baseline: T.Event, final: T.Event) returns (out: seq<Delta>)
    requires after <= |records|
    ensures out == T.DeltasOf(records, after, baseline, final)
  {
    var tracker := new Tracker();
    var before := tracker.AbsorbEach(records[..after]);
    var setStraight := tracker.Event(baseline);
    out := tracker.AbsorbEach(records[after..]);
    var last := tracker.Event(final);
    out := out + last;
  }
}

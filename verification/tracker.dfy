/** Session records in, deltas out: what the evaluation suite says happened. */
module Tracker {
  import opened Bytes
  import opened Grader

  /** A dictionary, in the order its keys were first set. */
  type Book = seq<(string, Option<string>)>

  predicate Holds(b: Book, id: string) { |b| > 0 && (b[0].0 == id || Holds(b[1..], id)) }

  /** The value, or nothing: for a missing key as for an empty value. */
  function Get(b: Book, id: string): Option<string> {
    if |b| == 0 then None else if b[0].0 == id then b[0].1 else Get(b[1..], id)
  }

  function Put(b: Book, id: string, to: Option<string>): Book {
    if |b| == 0 then [(id, to)]
    else if b[0].0 == id then [(id, to)] + b[1..] else [b[0]] + Put(b[1..], id, to)
  }

  function Without(b: Book, id: string): Book {
    if |b| == 0 then [] else (if b[0].0 == id then [] else [b[0]]) + Without(b[1..], id)
  }

  /** Each key once. */
  predicate Keyed(b: Book) { |b| == 0 || (!Holds(b[1..], b[0].0) && Keyed(b[1..])) }

  /** A source in a status document: its gain as decibels, if it has one. */
  datatype Source = Source(id: string, state: Option<string>, gain: Option<string>, muted: bool)

  /** An advertisement, on air or armed. */
  type Ad = Option<bool>

  datatype Event =
    | Took(source: string)
    | SourceState(id: string, state: Option<string>)
    | OutputState(id: string, state: Option<string>)
    | AdBreak(ad: Ad)
    | HookBlocked(hook: string)
    | Status(sources: seq<Source>, outputs: Book, ad: Ad)
    | OtherEvent

  /** A record of the log; a command comes with the parameters that are shown of it. */
  datatype Record = Command(method_: string, shown: seq<(string, string)>) | Happened(event: Event) | OtherRecord

  datatype State = State(sources: Book, outputs: Book, gains: Book, mutes: Book, ad: Option<string>)

  const EMPTY := State([], [], [], [], None)

  const REMOVED: Option<string> := Some("removed")

  // -- one event -----------------------------------------------------------------------

  function OnSource(t: State, id: string, state: Option<string>): (State, seq<Delta>) {
    if id == "" || Get(t.sources, id) == state then (t, [])
    else (t.(sources := Put(t.sources, id, state)), [Delta("source", id, state)])
  }

  function OnOutput(t: State, id: string, state: Option<string>): (State, seq<Delta>) {
    if id == "" || Get(t.outputs, id) == state then (t, [])
    else (t.(outputs := Put(t.outputs, id, state)), [Delta("output", id, state)])
  }

  function OnAd(t: State, ad: Ad): (State, seq<Delta>) {
    var to := if ad.None? then None else if ad.value then Some("on air") else Some("armed");
    if to == t.ad then (t, []) else (t.(ad := to), [Delta("adbreak", "", if to.None? then Some("ended") else to)])
  }

  function OnGain(t: State, id: string, gain: Option<string>): (State, seq<Delta>) {
    if gain.None? || Get(t.gains, id) == gain then (t, [])
    else (t.(gains := Put(t.gains, id, gain)),
          if Holds(t.gains, id) then [Delta("gain", id, Some(gain.value + " dB"))] else [])
  }

  function OnMute(t: State, id: string, muted: bool): (State, seq<Delta>) {
    var to := Some(if muted then "muted" else "unmuted");
    if Get(t.mutes, id) == to then (t, [])
    else (t.(mutes := Put(t.mutes, id, to)), if Holds(t.mutes, id) then [Delta("mute", id, to)] else [])
  }

  function OnAudio(t: State, s: Source): (State, seq<Delta>) {
    var (a, y) := OnGain(t, s.id, s.gain);
    var (b, z) := OnMute(a, s.id, s.muted);
    (b, y + z)
  }

  function OneSource(t: State, s: Source): (State, seq<Delta>) {
    var (a, x) := OnSource(t, s.id, s.state);
    var (b, y) := OnAudio(a, s);
    (b, x + y)
  }

  function EachSource(t: State, ss: seq<Source>): (State, seq<Delta>) {
    if |ss| == 0 then (t, [])
    else
      var (a, x) := EachSource(t, ss[..|ss| - 1]);
      var (b, y) := OneSource(a, ss[|ss| - 1]);
      (b, x + y)
  }

  predicate Seen(ss: seq<Source>, id: string) { exists i :: 0 <= i < |ss| && ss[i].id == id }

  /** The sources that a status no longer lists. */
  function Gone(b: Book, ss: seq<Source>): seq<string> {
    if |b| == 0 then [] else (if Seen(ss, b[0].0) then [] else [b[0].0]) + Gone(b[1..], ss)
  }

  function EachGone(t: State, ids: seq<string>): (State, seq<Delta>) {
    if |ids| == 0 then (t, [])
    else
      var (a, x) := EachGone(t, ids[..|ids| - 1]);
      var id := ids[|ids| - 1];
      (a.(sources := Without(a.sources, id)), x + [Delta("source", id, REMOVED)])
  }

  function EachOutput(t: State, outputs: Book): (State, seq<Delta>) {
    if |outputs| == 0 then (t, [])
    else
      var (a, x) := EachOutput(t, outputs[..|outputs| - 1]);
      var (b, y) := OnOutput(a, outputs[|outputs| - 1].0, outputs[|outputs| - 1].1);
      (b, x + y)
  }

  function OnEvent(t: State, e: Event): (State, seq<Delta>) {
    match e
    case Took(source) => (t, [Delta("program", "", Some(if source == "" then "slate" else source))])
    case SourceState(id, state) => OnSource(t, id, state)
    case OutputState(id, state) => OnOutput(t, id, state)
    case AdBreak(ad) => OnAd(t, ad)
    case HookBlocked(hook) => (t, [Delta("hook", hook, Some("blocked"))])
    case Status(sources, outputs, ad) =>
      var (a, w) := EachSource(t, sources);
      var (b, x) := EachGone(a, Gone(a.sources, sources));
      var (c, y) := EachOutput(b, outputs);
      var (d, z) := OnAd(c, ad);
      (d, w + x + y + z)
    case OtherEvent => (t, [])
  }

  function Params(method_: string, shown: seq<(string, string)>): seq<Delta> {
    if |shown| == 0 then []
    else Params(method_, shown[..|shown| - 1])
         + [Delta("param", method_ + "." + shown[|shown| - 1].0, Some(shown[|shown| - 1].1))]
  }

  function Absorb(t: State, r: Record): (State, seq<Delta>) {
    match r
    case Command(method_, shown) => (t, Params(method_, shown))
    case Happened(e) => OnEvent(t, e)
    case OtherRecord => (t, [])
  }

  function AbsorbAll(t: State, rs: seq<Record>): (State, seq<Delta>) {
    if |rs| == 0 then (t, [])
    else
      var (a, x) := AbsorbAll(t, rs[..|rs| - 1]);
      var (b, y) := Absorb(a, rs[|rs| - 1]);
      (b, x + y)
  }

  /** The tracker as the world was at the mark: what the records before it leave, set
      straight by the status read then. */
  function AtMark(records: seq<Record>, after: nat, baseline: Event): State
    requires after <= |records|
  {
    OnEvent(AbsorbAll(EMPTY, records[..after]).0, baseline).0
  }

  /** The deltas from the mark to the status at the end. */
  function DeltasOf(records: seq<Record>, after: nat, baseline: Event, final: Event): seq<Delta>
    requires after <= |records|
  {
    var (t, x) := AbsorbAll(AtMark(records, after, baseline), records[after..]);
    x + OnEvent(t, final).1
  }
}

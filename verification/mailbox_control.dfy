/** The statics of the control channel, and what the reader thread and CEF's UI thread do
    to them: each function whole, with the other thread at work wherever it can be. */
module MailboxControl {
  import opened Bytes
  import opened Mailbox

  /** Some run leads from one state to another. */
  ghost predicate CanReach(s: State, t: State) { exists es :: After(s, es) == t }

  lemma ReachesItself(s: State)
    ensures CanReach(s, s)
  {
    assert After(s, []) == s;
  }

  lemma {:induction false} AfterOne(s: State, es: seq<Step>, e: Step)
    ensures After(s, es + [e]) == Next(After(s, es), e)
    decreases |es|
  {
    if |es| == 0 {
      assert es + [e] == [e] && [e][1..] == [];
    } else {
      AfterOne(Next(s, es[0]), es[1..], e);
      assert (es + [e])[1..] == es[1..] + [e];
    }
  }

  /** One more step, and the invariant with it. */
  lemma ReachesOn(s: State, t: State, e: Step)
    requires CanReach(s, t) && Inv(t)
    ensures CanReach(s, Next(t, e)) && Inv(Next(t, e))
  {
    var es :| After(s, es) == t;
    AfterOne(s, es, e);
    StepKeepsInv(t, e);
  }

  predicate OfReader(e: Step) { e.Line? || e.Post? }

  predicate OfUi(e: Step) { !OfReader(e) }

  /** The reader leaves what the UI thread is about alone. */
  lemma ReaderKeeps(s: State, e: Step)
    requires OfReader(e)
    ensures var t := Next(s, e);
      t.ui == s.ui && t.page == s.page && t.log == s.log && t.loaded == s.loaded && t.browser == s.browser
      && t.read == s.read && s.lines <= t.lines
  {
  }

  /** The UI thread leaves what the reader is about alone. */
  lemma UiKeeps(s: State, e: Step)
    requires OfUi(e)
    ensures Next(s, e).reader == s.reader && Next(s, e).lines == s.lines && Next(s, e).state == s.state
  {
  }

  /** The lines that are states, as they are kept. */
  function Objects(raws: seq<string>): seq<string> {
    if |raws| == 0 then []
    else Objects(raws[..|raws| - 1]) + if IsObject(Trim(raws[|raws| - 1])) then [Trim(raws[|raws| - 1])] else []
  }

  class Control {
    var state: Option<string>
    var loaded: bool
    var browser: bool
    var tasks: nat
    var reader: Reader
    var ui: Ui
    /** What the page in the main frame was last given. */
    var page: Option<Given>
    var lines: seq<string>
    var read: nat
    var log: seq<(nat, bool)>

    function Abs(): State
      reads this
    {
      State(state, loaded, browser, tasks, reader, ui, lines, read, page, log)
    }

    ghost predicate Valid()
      reads this
    {
      Inv(Abs())
    }

    constructor ()
      ensures Valid() && Abs() == Start()
    {
      state, loaded, browser, tasks, reader, ui, page := None, false, false, 0, Waiting, Idle, None;
      lines, read, log := [], 0, [];
    }

    /** A step of the other thread. */
    method Other(e: Step)
      modifies this
      ensures Abs() == Next(old(Abs()), e)
    {
      var t := Next(Abs(), e);
      state, loaded, browser, tasks, reader := t.state, t.loaded, t.browser, t.tasks, t.reader;
      ui, page, lines, read, log := t.ui, t.page, t.lines, t.read, t.log;
    }

    // -- the reader thread ---------------------------------------------------------------

    /** The loop of `listen`: of the lines read, those that are states are kept, in order
        and as they were but for the space around them, whatever the UI thread does
        between a store and its task. */
    method Listen(raws: seq<string>, meanwhile: seq<seq<Step>>)
      requires Valid() && reader.Waiting? && |meanwhile| == |raws|
      requires forall i, j :: 0 <= i < |meanwhile| && 0 <= j < |meanwhile[i]| ==> OfUi(meanwhile[i][j])
      modifies this
      ensures Valid() && CanReach(old(Abs()), Abs()) && reader.Waiting?
      ensures lines == old(lines) + Objects(raws)
      ensures state == Newest(lines, |lines|)
    {
      ghost var start := Abs();
      ReachesItself(start);
      assert raws[..0] == [] && lines + [] == lines;
      for n := 0 to |raws|
        invariant Valid() && CanReach(start, Abs()) && reader.Waiting?
        invariant lines == old(lines) + Objects(raws[..n])
      {
        assert raws[..n + 1][..n] == raws[..n];
        Hear(start, raws[n]);
        if reader.Stored? {
          WhileStored(start, meanwhile[n]);
          PostTask(start);
        }
      }
      assert raws[..|raws|] == raws;
    }

    /** One line: a state is stored, anything else ignored. */
    method Hear(ghost start: State, raw: string)
      requires CanReach(start, Abs()) && Valid() && reader.Waiting?
      modifies this`state, this`lines, this`reader
      ensures Valid() && CanReach(start, Abs())
      ensures if IsObject(Trim(raw))
        then state == Some(Trim(raw)) && lines == old(lines) + [Trim(raw)] && reader.Stored?
        else state == old(state) && lines == old(lines) && reader.Waiting?
    {
      ReachesOn(start, Abs(), Line(raw));
      var line := Trim(raw);
      if !(|line| > 0 && line[0] == '{' && line[|line| - 1] == '}') {
        return;
      }
      state := Some(line);
      lines := lines + [line];
      reader := Stored;
    }

    method WhileStored(ghost start: State, others: seq<Step>)
      requires CanReach(start, Abs()) && Valid() && forall i :: 0 <= i < |others| ==> OfUi(others[i])
      modifies this
      ensures Valid() && CanReach(start, Abs()) && lines == old(lines) && reader == old(reader)
    {
      for i := 0 to |others|
        invariant Valid() && CanReach(start, Abs()) && lines == old(lines) && reader == old(reader)
      {
        ReachesOn(start, Abs(), others[i]);
        UiKeeps(Abs(), others[i]);
        Other(others[i]);
      }
    }

    method PostTask(ghost start: State)
      requires CanReach(start, Abs()) && Valid() && reader.Stored?
      modifies this`tasks, this`reader
      ensures Valid() && CanReach(start, Abs()) && reader.Waiting? && tasks == old(tasks) + 1
    {
      ReachesOn(start, Abs(), Step.Post);
      tasks := tasks + 1;
      reader := Waiting;
    }

    // -- the UI thread -----------------------------------------------------------------

    /** The page was given the newest of the lines there were at some moment since. */
    ghost predicate Updated(before: seq<string>, log': seq<(nat, bool)>)
      reads this
    {
      exists k: nat :: |before| <= k <= |lines| && page == Some(Newest(lines, k)) && log == log' + [(k, true)]
    }

    method WhileGiving(ghost start: State, others: seq<Step>)
      requires CanReach(start, Abs()) && Valid() && forall i :: 0 <= i < |others| ==> OfReader(others[i])
      modifies this
      ensures Valid() && CanReach(start, Abs())
      ensures ui == old(ui) && page == old(page) && log == old(log) && loaded == old(loaded)
      ensures browser == old(browser) && read == old(read) && old(lines) <= lines
    {
      for i := 0 to |others|
        invariant Valid() && CanReach(start, Abs())
        invariant ui == old(ui) && page == old(page) && log == old(log) && loaded == old(loaded)
        invariant browser == old(browser) && read == old(read) && old(lines) <= lines
      {
        ReachesOn(start, Abs(), others[i]);
        ReaderKeeps(Abs(), others[i]);
        Other(others[i]);
      }
    }

    /** `on_load`, whole: the page has loaded and is given a state no older than the
        newest there was when it had. */
    method OnLoad(reading: seq<Step>, giving: seq<Step>)
      requires Valid() && ui.Idle? && browser
      requires forall i :: 0 <= i < |reading| ==> OfReader(reading[i])
      requires forall i :: 0 <= i < |giving| ==> OfReader(giving[i])
      modifies this
      ensures Valid() && CanReach(old(Abs()), Abs()) && ui.Idle? && loaded
      ensures old(lines) <= lines && Updated(old(lines), old(log))
    {
      ghost var start := Abs();
      ReachesItself(start);
      ReachesOn(start, Abs(), LoadEnd);
      loaded := true;
      ui := Reading;
      Give(start, reading, giving);
    }

    /** `Apply::execute`, whole: a page that has loaded is given a state no older than the
        newest when the task began, and any other page nothing at all. */
    method Execute(reading: seq<Step>, giving: seq<Step>)
      requires Valid() && ui.Idle? && tasks > 0
      requires forall i :: 0 <= i < |reading| ==> OfReader(reading[i])
      requires forall i :: 0 <= i < |giving| ==> OfReader(giving[i])
      modifies this
      ensures Valid() && CanReach(old(Abs()), Abs()) && ui.Idle? && loaded == old(loaded)
      ensures old(loaded) ==> old(lines) <= lines && Updated(old(lines), old(log))
      ensures !old(loaded) ==> page == old(page) && log == old(log)
    {
      ghost var start := Abs();
      ReachesItself(start);
      ReachesOn(start, Abs(), Step.Apply);
      tasks := tasks - 1;
      if !loaded {
        return;
      }
      ui := Reading;
      Give(start, reading, giving);
    }

    /** The script is built with the state as it is, and handed to the page. */
    method Give(ghost start: State, reading: seq<Step>, giving: seq<Step>)
      requires CanReach(start, Abs()) && Valid() && ui.Reading?
      requires forall i :: 0 <= i < |reading| ==> OfReader(reading[i])
      requires forall i :: 0 <= i < |giving| ==> OfReader(giving[i])
      modifies this
      ensures Valid() && CanReach(start, Abs()) && ui.Idle? && loaded == old(loaded)
      ensures old(lines) <= lines && Updated(old(lines), old(log))
    {
      WhileGiving(start, reading);
      Build(start);
      ghost var newest := read;
      WhileGiving(start, giving);
      HandOver(start);
      assert |old(lines)| <= newest <= |lines|;
    }

    /** `script`, with the lock on the state. */
    method Build(ghost start: State)
      requires CanReach(start, Abs()) && Valid() && ui.Reading?
      modifies this`ui, this`read
      ensures Valid() && CanReach(start, Abs()) && ui == Giving(state) && read == |lines|
    {
      ReachesOn(start, Abs(), Step.Read);
      ui := Giving(state);
      read := |lines|;
    }

    method HandOver(ghost start: State)
      requires CanReach(start, Abs()) && Valid() && ui.Giving?
      modifies this`ui, this`page, this`log
      ensures Valid() && CanReach(start, Abs()) && ui.Idle? && loaded
      ensures read <= |lines| && page == Some(Newest(lines, read)) && log == old(log) + [(read, true)]
    {
      ReachesOn(start, Abs(), Step.Give);
      page := Some(ui.line);
      log := log + [(read, loaded)];
      ui := Idle;
    }
  }
}

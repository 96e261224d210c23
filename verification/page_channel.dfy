/** The statics of the page's control, and what the reader thread and CEF's UI thread do
    to them: each function whole, with the other thread at work wherever it can be. */
module PageChannel {
  import opened Bytes
  import opened PageQueue
  import opened PageProof

  /** Some run leads from one state to another. */
  ghost predicate CanReach(s: State, t: State) { exists es :: After(s, es) == t }

  lemma ReachesItself(s: State)
    ensures CanReach(s, s)
  {
    assert After(s, []) == s;
  }

  lemma {:induction false} AfterOne(s: State, es: seq<Step>, e: Step)
    ensures After(s, es + [e]) == Next(After(s, es), e)
    decreases |es|
  {
    if |es| == 0 {
      assert es + [e] == [e] && [e][1..] == [];
    } else {
      AfterOne(Next(s, es[0]), es[1..], e);
      assert (es + [e])[1..] == es[1..] + [e];
    }
  }

  /** One more step, and the two invariants with it. */
  lemma ReachesOn(s: State, t: State, e: Step)
    requires CanReach(s, t) && Woken(t) && Accounted(t)
    ensures CanReach(s, Next(t, e)) && Woken(Next(t, e)) && Accounted(Next(t, e))
  {
    var es :| After(s, es) == t;
    AfterOne(s, es, e);
    WokenStays(t, e);
    AccountedStays(t, e);
  }

  predicate OfReader(e: Step) { e.Line? || e.Swap? || e.Post? }

  predicate ByReader(es: seq<Step>) { forall i :: 0 <= i < |es| ==> OfReader(es[i]) }

  predicate ByUi(es: seq<Step>) { forall i :: 0 <= i < |es| ==> !OfReader(es[i]) }

  /** The reader leaves what the UI thread is about alone. */
  lemma ReaderKeeps(s: State, e: Step)
    requires OfReader(e)
    ensures var t := Next(s, e);
      && t.ui == s.ui && t.browser == s.browser && t.hand == s.hand && t.calls == s.calls && t.view == s.view
      && t.done == s.done && t.lost == s.lost && s.input <= t.input
  {
  }

  /** The UI thread leaves the reader and the lines there have been alone. */
  lemma UiKeeps(s: State, e: Step)
    requires !OfReader(e)
    ensures var t := Next(s, e); t.reader == s.reader && t.lost + t.input == s.lost + s.input
  {
  }

  /** Of all lines, those up to some moment after the first of them have been run, thinned. */
  ghost predicate RunSince(first: seq<Cmd>, all: seq<Cmd>, run: seq<Cmd>) {
    exists k: nat :: |first| <= k <= |all| && first <= all[..k] && Thinned(all[..k], run)
  }

  lemma SinceEarlier(earlier: seq<Cmd>, first: seq<Cmd>, all: seq<Cmd>, run: seq<Cmd>)
    requires earlier <= first && RunSince(first, all, run)
    ensures RunSince(earlier, all, run)
  {
    var k: nat :| |first| <= k <= |all| && first <= all[..k] && Thinned(all[..k], run);
    assert earlier <= all[..k];
  }

  class Channel {
    var queue: seq<Cmd>
    var posted: bool
    var tasks: nat
    var reader: Reader
    var ui: Ui
    var browser: bool
    const view: View
    var hand: Hand
    /** Everything the browser host has been asked. */
    var calls: seq<Call>
    var input: seq<Cmd>
    var lost: seq<Cmd>
    var done: seq<Cmd>

    function Abs(): State
      reads this
    {
      State(queue, posted, tasks, reader, ui, browser, view, hand, calls, input, lost, done)
    }

    ghost predicate Valid()
      reads this
    {
      Woken(Abs()) && Accounted(Abs())
    }

    constructor (width: int, height: int)
      ensures Valid()
      ensures Abs() == Start(View(if width < 1 then 1 else width, if height < 1 then 1 else height))
    {
      view := View(if width < 1 then 1 else width, if height < 1 then 1 else height);
      queue, posted, tasks, reader, ui := [], false, 0, Reading, Idle;
      browser, hand, calls := false, RESTING, [];
      input, lost, done := [], [], [];
      new;
      Starts(view);
    }

    /** A step of the other thread. */
    method Other(e: Step)
      modifies this
      ensures Abs() == Next(old(Abs()), e)
    {
      Become(Next(Abs(), e));
    }

    method Become(t: State)
      requires t.view == view
      modifies this
      ensures Abs() == t
    {
      queue, posted, tasks, reader, ui, browser := t.queue, t.posted, t.tasks, t.reader, t.ui, t.browser;
      hand, calls, input, lost, done := t.hand, t.calls, t.input, t.lost, t.done;
    }

    // -- the reader thread ---------------------------------------------------------------

    /** `queue`, whole, with the UI thread at work between its three sections: when it is
        over the line is among those there have been, and if anything is queued one
        drain is on its way to it. */
    method Queue(cmd: Cmd, pushed: seq<Step>, posting: seq<Step>)
      requires Valid() && reader.Reading? && ByUi(pushed) && ByUi(posting)
      modifies this
      ensures Valid() && CanReach(old(Abs()), Abs()) && reader.Reading?
      ensures lost + input == old(lost + input) + [cmd]
      ensures |queue| > 0 ==> tasks + (if ui.Entered? then 1 else 0) == 1 || ui.Cleared?
    {
      ghost var start := Abs();
      ReachesItself(start);
      ReachesOn(start, Abs(), Line(cmd));
      Push(cmd);
      assert lost + input == old(lost + input) + [cmd];
      WhileQueueing(start, pushed);
      ReachesOn(start, Abs(), Swap);
      var was := SwapPosted();
      if !was {
        WhileQueueing(start, posting);
        ReachesOn(start, Abs(), Step.Post);
        PostTask();
      }
    }

    method WhileQueueing(ghost start: State, others: seq<Step>)
      requires CanReach(start, Abs()) && Valid() && ByUi(others)
      modifies this
      ensures Valid() && CanReach(start, Abs()) && reader == old(reader) && lost + input == old(lost + input)
    {
      for i := 0 to |others|
        invariant Valid() && CanReach(start, Abs()) && reader == old(reader) && lost + input == old(lost + input)
      {
        ReachesOn(start, Abs(), others[i]);
        UiKeeps(Abs(), others[i]);
        Other(others[i]);
      }
    }

    /** The section under the lock. */
    method Push(cmd: Cmd)
      requires reader.Reading?
      modifies this`queue, this`input, this`reader
      ensures Abs() == Next(old(Abs()), Line(cmd))
    {
      var bothMoves := cmd.Move? && |queue| > 0 && queue[|queue| - 1].Move?;
      if bothMoves {
        queue := queue[..|queue| - 1];
      }
      queue := queue + [cmd];
      input := input + [cmd];
      reader := Pushed;
    }

    method SwapPosted() returns (was: bool)
      requires reader.Pushed?
      modifies this`posted, this`reader
      ensures was == old(posted) && reader == (if was then Reading else Posting)
      ensures Abs() == Next(old(Abs()), Swap)
    {
      was, posted := posted, true;
      reader := if was then Reading else Posting;
    }

    method PostTask()
      requires reader.Posting?
      modifies this`tasks, this`reader
      ensures Abs() == Next(old(Abs()), Step.Post)
    {
      tasks := tasks + 1;
      reader := Reading;
    }

    // -- the UI thread -----------------------------------------------------------------

    /** `Drain::execute`, whole, with the reader at work anywhere in it. With a browser,
        every line there was when it began has been run by its end, but for moves that
        moves overtook, and no line is lost; without one, all of them are lost and the
        page is told nothing. */
    method Execute(entered: seq<Step>, cleared: seq<Step>, running: nat -> seq<Step>)
      requires Valid() && ui.Idle? && tasks > 0
      requires ByReader(entered) && ByReader(cleared) && forall n :: ByReader(running(n))
      modifies this
      ensures Valid() && CanReach(old(Abs()), Abs()) && ui.Idle? && browser == old(browser)
      ensures browser ==> lost == old(lost) && RunSince(old(input), input, done)
      ensures !browser ==> old(lost) + old(input) <= lost && input == [] && queue == []
      ensures !browser ==> done == old(done) && calls == old(calls) && hand == old(hand)
    {
      ghost var start := Abs();
      ReachesItself(start);
      Begin(start, entered, cleared);
      ghost var given := input;
      Take(start);
      if browser {
        RunAll(start, given, running);
        SinceEarlier(old(input), given, input, done);
      }
    }

    method WhileDraining(ghost start: State, others: seq<Step>)
      requires CanReach(start, Abs()) && Valid() && ByReader(others)
      modifies this
      ensures Valid() && CanReach(start, Abs()) && ui == old(ui) && browser == old(browser)
      ensures hand == old(hand) && calls == old(calls)
      ensures done == old(done) && lost == old(lost) && old(input) <= input
    {
      for i := 0 to |others|
        invariant Valid() && CanReach(start, Abs()) && ui == old(ui) && browser == old(browser)
        invariant hand == old(hand) && calls == old(calls)
        invariant done == old(done) && lost == old(lost) && old(input) <= input
      {
        ReachesOn(start, Abs(), others[i]);
        ReaderKeeps(Abs(), others[i]);
        Other(others[i]);
      }
    }

    /** Up to the lock on the queue: the flag is down by then. */
    method Begin(ghost start: State, entered: seq<Step>, cleared: seq<Step>)
      requires CanReach(start, Abs()) && Valid() && ui.Idle? && tasks > 0 && ByReader(entered) && ByReader(cleared)
      modifies this
      ensures Valid() && CanReach(start, Abs()) && ui.Cleared? && browser == old(browser)
      ensures hand == old(hand) && calls == old(calls)
      ensures done == old(done) && lost == old(lost) && old(input) <= input
    {
      EnterDrain(start);
      WhileDraining(start, entered);
      ClearPosted(start);
      WhileDraining(start, cleared);
    }

    method EnterDrain(ghost start: State)
      requires CanReach(start, Abs()) && Valid() && ui.Idle? && tasks > 0
      modifies this`tasks, this`ui
      ensures Valid() && CanReach(start, Abs()) && ui.Entered?
    {
      ReachesOn(start, Abs(), Enter);
      tasks := tasks - 1;
      ui := Entered;
    }

    method ClearPosted(ghost start: State)
      requires CanReach(start, Abs()) && Valid() && ui.Entered?
      modifies this`posted, this`ui
      ensures Valid() && CanReach(start, Abs()) && ui.Cleared?
    {
      ReachesOn(start, Abs(), Step.Clear);
      posted := false;
      ui := Cleared;
    }

    /** The queue is taken under the lock. Without a browser the commands go nowhere. */
    method Take(ghost start: State)
      requires CanReach(start, Abs()) && Valid() && ui.Cleared?
      modifies this`queue, this`ui, this`lost, this`input
      ensures Valid() && CanReach(start, Abs())
      ensures browser ==> ui.Running? && lost == old(lost) && input == old(input) && Thinned(input, done + ui.cmds)
      ensures !browser ==> ui.Idle? && lost == old(lost) + old(input) && input == [] && queue == []
    {
      ReachesOn(start, Abs(), Step.Take);
      assert done + Taken(Abs()) + queue == done + queue;
      Drain();
    }

    method Drain()
      requires ui.Cleared?
      modifies this`queue, this`ui, this`lost, this`input
      ensures Abs() == Next(old(Abs()), Step.Take)
      ensures if browser then ui == Running(old(queue)) && lost == old(lost) && input == old(input)
        else ui.Idle? && lost == old(lost) + old(input) && input == [] && queue == []
    {
      var cmds := queue;
      queue := [];
      if browser {
        ui := Running(cmds);
      } else {
        ui := Idle;
        lost, input := lost + input, [];
      }
    }

    /** The commands taken, one after another, while the reader queues others. */
    method RunAll(ghost start: State, ghost given: seq<Cmd>, running: nat -> seq<Step>)
      requires CanReach(start, Abs()) && Valid() && ui.Running? && browser && input == given
      requires Thinned(given, done + ui.cmds) && forall n :: ByReader(running(n))
      modifies this
      ensures Valid() && CanReach(start, Abs()) && ui.Idle? && browser
      ensures lost == old(lost) && RunSince(given, input, done)
    {
      var n: nat := 0;
      while |ui.cmds| > 0
        invariant Valid() && CanReach(start, Abs()) && ui.Running? && browser
        invariant lost == old(lost) && given <= input && Thinned(given, done + ui.cmds)
        decreases |ui.cmds|
      {
        RunOne(start);
        WhileDraining(start, running(n));
        n := n + 1;
      }
      assert done + ui.cmds == done && input[..|given|] == given;
      Rest(start);
      assert input[..|given|] == given && given <= input[..|given|];
    }

    method Rest(ghost start: State)
      requires CanReach(start, Abs()) && Valid() && ui.Running? && |ui.cmds| == 0
      modifies this`ui
      ensures Valid() && CanReach(start, Abs()) && ui.Idle?
    {
      ReachesOn(start, Abs(), Step.Run);
      ui := Idle;
    }

    method RunOne(ghost start: State)
      requires CanReach(start, Abs()) && Valid() && ui.Running? && |ui.cmds| > 0
      modifies this`ui, this`hand, this`calls, this`done
      ensures Valid() && CanReach(start, Abs())
      ensures ui == Running(old(ui).cmds[1..]) && done + ui.cmds == old(done) + old(ui).cmds
    {
      ReachesOn(start, Abs(), Step.Run);
      var cmd := ui.cmds[0];
      ui := Running(ui.cmds[1..]);
      RunCmd(cmd);
      done := done + [cmd];
    }

    method Remember()
      requires Valid() && ui.Idle?
      modifies this`browser
      ensures Valid() && CanReach(old(Abs()), Abs()) && browser
    {
      ReachesItself(Abs());
      ReachesOn(Abs(), Abs(), Create);
      browser := true;
    }

    /** The point an event carries, which becomes the last one. */
    method Mouse(x: Share, y: Share, mods: Mods) returns (at: Point, flags: set<Flag>)
      modifies this`hand
      ensures at == ToView(x, y, view) && flags == Flags(old(hand).held, mods)
      ensures hand == old(hand).(last := at)
    {
      at := ToView(x, y, view);
      hand := hand.(last := at);
      flags := Flags(hand.held, mods);
    }

    /** One command on the browser host. */
    method RunCmd(cmd: Cmd)
      modifies this`hand, this`calls
      ensures hand == HandAfter(old(hand), view, cmd)
      ensures calls == old(calls) + CallsOf(old(hand), view, cmd)
    {
      match cmd
      case Move(x, y, mods) =>
        var at, flags := Mouse(x, y, mods);
        calls := calls + [MouseMove(at, flags, false)];
      case Down(x, y, b, count, mods) =>
        var at, flags := Mouse(x, y, mods);
        hand := hand.(held := hand.held + {Held(b)});
        calls := calls + [Focus, MouseMove(at, flags, false), Click(at, flags, b, false, Max(count, 1))];
      case Up(x, y, b, count, mods) =>
        hand := hand.(held := hand.held - {Held(b)});
        var at, flags := Mouse(x, y, mods);
        calls := calls + [Click(at, flags, b, true, Max(count, 1))];
      case Wheel(x, y, dx, dy) =>
        var at, flags := Mouse(x, y, Mods(false, false, false, false));
        calls := calls + [Scroll(at, flags, dx, dy)];
      case Leave =>
        hand := hand.(held := {});
        calls := calls + [MouseMove(hand.last, {}, true)];
      case Key(code, key, mods) =>
        calls := calls + [Focus, Press(code, key, Flags(hand.held, mods))];
      case Text(text) =>
        calls := calls + [Focus, Type(text)];
      case _ =>
        calls := calls + [Navigate(cmd)];
    }
  }
}

/** The control lines of a page driven by hand: a queue a reader fills and CEF's UI
    thread drains, with a flag that says a drain is posted. */
module PageQueue {
  import opened Bytes

  datatype Button = Left | Middle | Right

  datatype Mods = Mods(shift: bool, ctrl: bool, alt: bool, meta: bool)

  /** A share of a side of the page; JSON has no other number, but the parser's
      range does. */
  datatype Share = Finite(share: real) | NotFinite

  datatype Cmd =
    | Move(x: Share, y: Share, mods: Mods)
    | Down(x: Share, y: Share, button: Button, count: nat, mods: Mods)
    | Up(x: Share, y: Share, button: Button, count: nat, mods: Mods)
    | Wheel(x: Share, y: Share, dx: Share, dy: Share)
    | Leave
    | Key(code: nat, key: Option<string>, mods: Mods)
    | Text(text: string)
    | Go(url: string)
    | Back
    | Forward
    | Reload

  // -- one command on the page ---------------------------------------------------

  /** CEF's event flags, one bit each. */
  datatype Flag = Shift | Ctrl | Alt | Meta | Held(button: Button)

  datatype Point = Point(x: int, y: int)

  /** What the browser host is asked to do. */
  datatype Call =
    | Focus
    | MouseMove(at: Point, flags: set<Flag>, leave: bool)
    | Click(at: Point, flags: set<Flag>, button: Button, up: bool, count: nat)
    | Scroll(at: Point, flags: set<Flag>, dx: Share, dy: Share)
    | Press(code: nat, key: Option<string>, flags: set<Flag>)
    | Type(text: string)
    | Navigate(to: Cmd)

  /** The layout size a share is a share of. */
  datatype View = View(width: int, height: int)

  /** The buttons held down, and the last point. */
  datatype Hand = Hand(held: set<Flag>, last: Point)

  const RESTING := Hand({}, Point(0, 0))

  /** A pixel of a side: the first for 0.0 and below, the last for 1.0 and above. */
  function ToPixel(share: Share, side: int): (px: int)
    ensures side >= 1 ==> 0 <= px < side
  {
    if side <= 1 || share.NotFinite? then 0
    else
      var pinned := if share.share < 0.0 then 0.0 else if share.share > 1.0 then 1.0 else share.share;
      var px := (pinned * side as real).Floor;
      ShareOfSide(pinned, side as real);
      if px > side - 1 then side - 1 else px
  }

  lemma ShareOfSide(share: real, side: real)
    requires 0.0 <= share <= 1.0 && 0.0 <= side
    ensures 0.0 <= share * side <= side
  {
    assert (1.0 - share) * side >= 0.0;
  }

  function ToView(x: Share, y: Share, view: View): Point { Point(ToPixel(x, view.width), ToPixel(y, view.height)) }

  function Flags(held: set<Flag>, m: Mods): set<Flag> {
    held + (if m.shift then {Shift} else {}) + (if m.ctrl then {Ctrl} else {})
      + (if m.alt then {Alt} else {}) + (if m.meta then {Meta} else {})
  }

  /** A press is reported before its button counts as held, a release after. */
  function HandAfter(h: Hand, view: View, c: Cmd): Hand {
    match c
    case Move(x, y, _) => h.(last := ToView(x, y, view))
    case Down(x, y, b, _, _) => Hand(h.held + {Held(b)}, ToView(x, y, view))
    case Up(x, y, b, _, _) => Hand(h.held - {Held(b)}, ToView(x, y, view))
    case Wheel(x, y, _, _) => h.(last := ToView(x, y, view))
    case Leave => h.(held := {})
    case _ => h
  }

  function CallsOf(h: Hand, view: View, c: Cmd): seq<Call> {
    match c
    case Move(x, y, m) => [MouseMove(ToView(x, y, view), Flags(h.held, m), false)]
    case Down(x, y, b, n, m) =>
      var (at, f) := (ToView(x, y, view), Flags(h.held, m));
      [Focus, MouseMove(at, f, false), Click(at, f, b, false, Max(n, 1))]
    case Up(x, y, b, n, m) => [Click(ToView(x, y, view), Flags(h.held - {Held(b)}, m), b, true, Max(n, 1))]
    case Wheel(x, y, dx, dy) => [Scroll(ToView(x, y, view), h.held, dx, dy)]
    case Leave => [MouseMove(h.last, {}, true)]
    case Key(code, key, m) => [Focus, Press(code, key, Flags(h.held, m))]
    case Text(t) => [Focus, Type(t)]
    case _ => [Navigate(c)]
  }

  // -- the queue, the flag and the two threads -------------------------------------

  /** The reader in `queue`: before it, after its push, and after a swap that found
      the flag down. */
  datatype Reader = Reading | Pushed | Posting

  /** The UI thread in `Drain::execute`: idle, entered, past the flag, and with the
      commands it took. */
  datatype Ui = Idle | Entered | Cleared | Running(cmds: seq<Cmd>)

  /** Everything the two threads share or hold, and what has happened: the lines
      since the last drain that found no browser, the lines lost before that, the
      commands run, and the calls made. */
  datatype State = State(
    queue: seq<Cmd>, posted: bool, tasks: nat, reader: Reader, ui: Ui, browser: bool, view: View,
    hand: Hand, calls: seq<Call>, input: seq<Cmd>, lost: seq<Cmd>, done: seq<Cmd>)

  function Start(view: View): State {
    State([], false, 0, Reading, Idle, false, view, RESTING, [], [], [], [])
  }

  /** What a push leaves: a move right behind a move takes its place. */
  function Coalesced(q: seq<Cmd>, c: Cmd): seq<Cmd> {
    if c.Move? && |q| > 0 && q[|q| - 1].Move? then q[..|q| - 1] + [c] else q + [c]
  }

  datatype Step = Line(cmd: Cmd) | Swap | Post | Enter | Clear | Take | Run | Create

  /** One step of either thread, or of nothing when that thread is elsewhere. */
  function Next(s: State, e: Step): State {
    match e
    case Line(c) =>
      if s.reader.Reading? then s.(queue := Coalesced(s.queue, c), input := s.input + [c], reader := Pushed) else s
    case Swap =>
      if s.reader.Pushed? then s.(posted := true, reader := if s.posted then Reading else Posting) else s
    case Post =>
      if s.reader.Posting? then s.(tasks := s.tasks + 1, reader := Reading) else s
    case Enter =>
      if s.ui.Idle? && s.tasks > 0 then s.(tasks := s.tasks - 1, ui := Entered) else s
    case Clear =>
      if s.ui.Entered? then s.(posted := false, ui := Cleared) else s
    case Take =>
      if !s.ui.Cleared? then s
      else if s.browser then s.(queue := [], ui := Running(s.queue))
      else s.(queue := [], ui := Idle, lost := s.lost + s.input, input := [])
    case Run =>
      if !s.ui.Running? then s
      else if |s.ui.cmds| == 0 then s.(ui := Idle)
      else
        var c := s.ui.cmds[0];
        s.(ui := Running(s.ui.cmds[1..]), hand := HandAfter(s.hand, s.view, c),
           calls := s.calls + CallsOf(s.hand, s.view, c), done := s.done + [c])
    case Create => if s.ui.Idle? then s.(browser := true) else s
  }

  function After(s: State, es: seq<Step>): State
    decreases |es|
  {
    if |es| == 0 then s else After(Next(s, es[0]), es[1..])
  }
}

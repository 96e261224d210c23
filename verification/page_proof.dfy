/** No wake-up is lost, nothing but overtaken moves is left out, and the page cannot
    tell the difference. */
module PageProof {
  import opened Bytes
  import opened PageQueue

  // -- what coalescing may leave out -------------------------------------------------

  /** `b` is `a` without some moves that a move directly follows. */
  predicate Thinned(a: seq<Cmd>, b: seq<Cmd>)
    decreases |a|
  {
    if |a| == 0 then |b| == 0
    else
      || (|b| > 0 && b[0] == a[0] && Thinned(a[1..], b[1..]))
      || (|a| > 1 && a[0].Move? && a[1].Move? && Thinned(a[1..], b))
  }

  /** The last command is never left out. */
  lemma {:induction false} LastStays(a: seq<Cmd>, b: seq<Cmd>)
    requires Thinned(a, b) && |a| > 0
    ensures |b| > 0 && b[|b| - 1] == a[|a| - 1]
    decreases |a|
  {
    if |a| > 1 {
      if |b| > 0 && b[0] == a[0] && Thinned(a[1..], b[1..]) {
        LastStays(a[1..], b[1..]);
      } else {
        LastStays(a[1..], b);
      }
    }
  }

  lemma {:induction false} KeepsOne(a: seq<Cmd>, b: seq<Cmd>, c: Cmd)
    requires Thinned(a, b)
    ensures Thinned(a + [c], b + [c])
    decreases |a|
  {
    if |a| == 0 {
      assert a + [c] == [c] && b + [c] == [c];
      assert Thinned([c][1..], [c][1..]);
    } else {
      assert (a + [c])[1..] == a[1..] + [c];
      if |b| > 0 && b[0] == a[0] && Thinned(a[1..], b[1..]) {
        KeepsOne(a[1..], b[1..], c);
        assert (b + [c])[1..] == b[1..] + [c];
      } else {
        KeepsOne(a[1..], b, c);
      }
    }
  }

  /** A move may take the place of the move at the end. */
  lemma {:induction false} TakesPlace(a: seq<Cmd>, b: seq<Cmd>, c: Cmd)
    requires Thinned(a, b) && |a| > 0 && |b| > 0
    requires c.Move? && a[|a| - 1].Move?
    ensures Thinned(a + [c], b[..|b| - 1] + [c])
    decreases |a|
  {
    var ac, bc := a + [c], b[..|b| - 1] + [c];
    assert ac[1..] == a[1..] + [c];
    if |a| == 1 {
      assert |b| == 1 && bc == [c] && ac[1..] == [c];
      assert Thinned([c][1..], [c][1..]);
    } else if b[0] == a[0] && Thinned(a[1..], b[1..]) {
      LastStays(a[1..], b[1..]);
      TakesPlace(a[1..], b[1..], c);
      assert bc[1..] == b[1..][..|b| - 2] + [c];
    } else {
      TakesPlace(a[1..], b, c);
    }
  }

  // -- what the page is told ----------------------------------------------------------

  function HandAfterAll(h: Hand, view: View, cs: seq<Cmd>): Hand
    decreases |cs|
  {
    if |cs| == 0 then h else HandAfterAll(HandAfter(h, view, cs[0]), view, cs[1..])
  }

  function AllCalls(h: Hand, view: View, cs: seq<Cmd>): seq<Call>
    decreases |cs|
  {
    if |cs| == 0 then [] else CallsOf(h, view, cs[0]) + AllCalls(HandAfter(h, view, cs[0]), view, cs[1..])
  }

  /** The calls made for anything but a move. */
  function OtherCalls(h: Hand, view: View, cs: seq<Cmd>): seq<Call>
    decreases |cs|
  {
    if |cs| == 0 then []
    else (if cs[0].Move? then [] else CallsOf(h, view, cs[0])) + OtherCalls(HandAfter(h, view, cs[0]), view, cs[1..])
  }

  /** Leaving those moves out changes neither the buttons held and the last point at
      the end, nor where, how and with which modifiers anything else is done. */
  lemma {:induction false} SameForThePage(h: Hand, view: View, a: seq<Cmd>, b: seq<Cmd>)
    requires Thinned(a, b)
    ensures HandAfterAll(h, view, a) == HandAfterAll(h, view, b)
    ensures OtherCalls(h, view, a) == OtherCalls(h, view, b)
    decreases |a|
  {
    if |a| > 0 {
      var next := HandAfter(h, view, a[0]);
      if |b| > 0 && b[0] == a[0] && Thinned(a[1..], b[1..]) {
        SameForThePage(next, view, a[1..], b[1..]);
      } else {
        SameForThePage(h, view, a[1..], b);
        MoveForgets(h, next, view, a[1..]);
      }
    }
  }

  /** A move makes a hand forget the last point. */
  lemma MoveForgets(h: Hand, g: Hand, view: View, cs: seq<Cmd>)
    requires |cs| > 0 && cs[0].Move? && h.held == g.held
    ensures HandAfterAll(h, view, cs) == HandAfterAll(g, view, cs)
    ensures OtherCalls(h, view, cs) == OtherCalls(g, view, cs)
  {
  }

  lemma {:induction false} OneMore(h: Hand, view: View, cs: seq<Cmd>, c: Cmd)
    ensures HandAfterAll(h, view, cs + [c]) == HandAfter(HandAfterAll(h, view, cs), view, c)
    ensures AllCalls(h, view, cs + [c]) == AllCalls(h, view, cs) + CallsOf(HandAfterAll(h, view, cs), view, c)
    decreases |cs|
  {
    if |cs| == 0 {
      assert cs + [c] == [c];
      assert AllCalls(HandAfter(h, view, c), view, [c][1..]) == [];
    } else {
      var next := HandAfter(h, view, cs[0]);
      OneMore(next, view, cs[1..], c);
      assert (cs + [c])[0] == cs[0] && (cs + [c])[1..] == cs[1..] + [c];
    }
  }

  // -- what the hand remembers ------------------------------------------------------------

  /** The last thing to happen to a button was a press. */
  predicate Pressed(cs: seq<Cmd>, b: Button) {
    if |cs| == 0 then false
    else
      match cs[|cs| - 1]
      case Down(_, _, c, _, _) => c == b || Pressed(cs[..|cs| - 1], b)
      case Up(_, _, c, _, _) => c != b && Pressed(cs[..|cs| - 1], b)
      case Leave => false
      case _ => Pressed(cs[..|cs| - 1], b)
  }

  /** Where the last command with a point was. */
  function LastPoint(view: View, cs: seq<Cmd>): Point {
    if |cs| == 0 then Point(0, 0)
    else
      match cs[|cs| - 1]
      case Move(x, y, _) => At(view, x, y)
      case Down(x, y, _, _, _) => At(view, x, y)
      case Up(x, y, _, _, _) => At(view, x, y)
      case Wheel(x, y, _, _) => At(view, x, y)
      case _ => LastPoint(view, cs[..|cs| - 1])
  }

  /** After any commands the buttons held are those pressed and not let go of since, by
      a release or by leaving the page, and the point kept is the last there was. */
  lemma {:induction false} HandIs(view: View, cs: seq<Cmd>)
    ensures forall b: Button :: Held(b) in HandAfterAll(RESTING, view, cs).held <==> Pressed(cs, b)
    ensures forall f: Flag :: f in HandAfterAll(RESTING, view, cs).held ==> f.Held?
    ensures HandAfterAll(RESTING, view, cs).last == LastPoint(view, cs)
    decreases |cs|
  {
    if |cs| > 0 {
      var front, last := cs[..|cs| - 1], cs[|cs| - 1];
      HandIs(view, front);
      OneMore(RESTING, view, front, last);
      assert cs == front + [last];
    }
  }

  /** Where a share of either side is: across by the width, down by the height. */
  function At(view: View, x: Share, y: Share): Point { Point(ToPixel(x, view.width), ToPixel(y, view.height)) }

  /** A share's pixel is the one it falls in, and the first or the last beyond the side's
      ends; a side of one pixel or none has only the first, and so has what is no number. */
  lemma PixelOfShare(share: Share, side: int)
    ensures share.NotFinite? || side <= 1 ==> ToPixel(share, side) == 0
    ensures side > 1 && share.Finite? && share.share <= 0.0 ==> ToPixel(share, side) == 0
    ensures side > 1 && share.Finite? && share.share >= 1.0 ==> ToPixel(share, side) == side - 1
    ensures side > 1 && share.Finite? && 0.0 <= share.share < 1.0 ==>
      ToPixel(share, side) as real <= share.share * side as real < ToPixel(share, side) as real + 1.0
  {
    if side > 1 && share.Finite? && 0.0 < share.share < 1.0 {
      assert (1.0 - share.share) * side as real > 0.0;
    }
  }

  /** Exactly the modifiers held, and the buttons pressed by these commands. */
  ghost predicate Tells(flags: set<Flag>, cs: seq<Cmd>, m: Mods) {
    && (Shift in flags <==> m.shift) && (Ctrl in flags <==> m.ctrl) && (Alt in flags <==> m.alt)
    && (Meta in flags <==> m.meta) && forall b: Button :: Held(b) in flags <==> Pressed(cs, b)
  }

  const NO_MODS := Mods(false, false, false, false)

  lemma FlagsTell(view: View, cs: seq<Cmd>, m: Mods)
    ensures Tells(Flags(HandAfterAll(RESTING, view, cs).held, m), cs, m)
  {
    HandIs(view, cs);
  }

  /** So a move after any commands is told as a drag with exactly the buttons pressed,
      and a leave at exactly the last point. */
  lemma DragsAreTold(view: View, cs: seq<Cmd>, x: Share, y: Share, mods: Mods) returns (f: set<Flag>)
    ensures Tells(f, cs, mods)
    ensures AllCalls(RESTING, view, cs + [Cmd.Move(x, y, mods)])
         == AllCalls(RESTING, view, cs) + [MouseMove(At(view, x, y), f, false)]
    ensures AllCalls(RESTING, view, cs + [Cmd.Leave])
         == AllCalls(RESTING, view, cs) + [MouseMove(LastPoint(view, cs), {}, true)]
  {
    HandIs(view, cs);
    OneMore(RESTING, view, cs, Cmd.Move(x, y, mods));
    OneMore(RESTING, view, cs, Cmd.Leave);
    f := Flags(HandAfterAll(RESTING, view, cs).held, mods);
    FlagsTell(view, cs, mods);
  }

  /** A press is told behind the focus and a move to its point, with the buttons pressed
      before it, and clicks once at the least. */
  lemma PressesAreTold(view: View, cs: seq<Cmd>, x: Share, y: Share, b: Button, n: nat, mods: Mods) returns (f: set<Flag>)
    ensures Tells(f, cs, mods)
    ensures AllCalls(RESTING, view, cs + [Cmd.Down(x, y, b, n, mods)])
         == AllCalls(RESTING, view, cs)
          + [Focus, MouseMove(At(view, x, y), f, false), Click(At(view, x, y), f, b, false, if n == 0 then 1 else n)]
  {
    OneMore(RESTING, view, cs, Cmd.Down(x, y, b, n, mods));
    f := Flags(HandAfterAll(RESTING, view, cs).held, mods);
    FlagsTell(view, cs, mods);
  }

  /** A release is told with the buttons still pressed after it. */
  lemma ReleasesAreTold(view: View, cs: seq<Cmd>, x: Share, y: Share, b: Button, n: nat, mods: Mods) returns (f: set<Flag>)
    ensures Tells(f, cs + [Cmd.Up(x, y, b, n, mods)], mods) && Held(b) !in f
    ensures AllCalls(RESTING, view, cs + [Cmd.Up(x, y, b, n, mods)])
         == AllCalls(RESTING, view, cs) + [Click(At(view, x, y), f, b, true, if n == 0 then 1 else n)]
  {
    var c := Cmd.Up(x, y, b, n, mods);
    OneMore(RESTING, view, cs, c);
    f := Flags(HandAfterAll(RESTING, view, cs + [c]).held, mods);
    FlagsTell(view, cs + [c], mods);
  }

  /** A turn of the wheel is told with the buttons pressed and no modifiers. */
  lemma WheelsAreTold(view: View, cs: seq<Cmd>, x: Share, y: Share, dx: Share, dy: Share) returns (f: set<Flag>)
    ensures Tells(f, cs, NO_MODS)
    ensures AllCalls(RESTING, view, cs + [Cmd.Wheel(x, y, dx, dy)])
         == AllCalls(RESTING, view, cs) + [Scroll(At(view, x, y), f, dx, dy)]
  {
    OneMore(RESTING, view, cs, Cmd.Wheel(x, y, dx, dy));
    f := HandAfterAll(RESTING, view, cs).held;
    HandIs(view, cs);
  }

  /** A key and a text are told behind the focus, and anything else as it is. */
  lemma KeysAreTold(view: View, cs: seq<Cmd>, code: nat, key: Option<string>, mods: Mods) returns (f: set<Flag>)
    ensures Tells(f, cs, mods)
    ensures AllCalls(RESTING, view, cs + [Cmd.Key(code, key, mods)])
         == AllCalls(RESTING, view, cs) + [Focus, Press(code, key, f)]
  {
    OneMore(RESTING, view, cs, Cmd.Key(code, key, mods));
    f := Flags(HandAfterAll(RESTING, view, cs).held, mods);
    FlagsTell(view, cs, mods);
  }

  lemma TextsAreTold(view: View, cs: seq<Cmd>, text: string, url: string)
    ensures AllCalls(RESTING, view, cs + [Cmd.Text(text)]) == AllCalls(RESTING, view, cs) + [Focus, Type(text)]
    ensures forall c :: c in {Cmd.Go(url), Cmd.Back, Cmd.Forward, Cmd.Reload} ==>
      AllCalls(RESTING, view, cs + [c]) == AllCalls(RESTING, view, cs) + [Navigate(c)]
  {
    OneMore(RESTING, view, cs, Cmd.Text(text));
    forall c | c in {Cmd.Go(url), Cmd.Back, Cmd.Forward, Cmd.Reload}
      ensures AllCalls(RESTING, view, cs + [c]) == AllCalls(RESTING, view, cs) + [Navigate(c)]
    {
      OneMore(RESTING, view, cs, c);
    }
  }

  // -- what every step keeps --------------------------------------------------------------

  /** How many drains are on their way: about to be posted, posted, or entered. */
  function Coming(s: State): nat {
    s.tasks + (if s.reader.Posting? then 1 else 0) + (if s.ui.Entered? then 1 else 0)
  }

  function Taken(s: State): seq<Cmd> { if s.ui.Running? then s.ui.cmds else [] }

  predicate Apart(q: seq<Cmd>) { forall i :: 0 < i < |q| ==> !(q[i - 1].Move? && q[i].Move?) }

  /** The flag is up exactly while one drain is on its way, and there is never more
      than one; what is queued will be seen. */
  predicate Woken(s: State) {
    && Coming(s) == (if s.posted then 1 else 0)
    && (|s.queue| > 0 ==> s.posted || s.reader.Pushed? || s.ui.Cleared?)
  }

  /** What ran, what was taken and what is queued are the lines, thinned. */
  predicate Accounted(s: State) {
    && Thinned(s.input, s.done + Taken(s) + s.queue)
    && Apart(s.queue)
    && (!s.browser ==> |s.done| == 0 && !s.ui.Running?)
    && s.hand == HandAfterAll(RESTING, s.view, s.done)
    && s.calls == AllCalls(RESTING, s.view, s.done)
  }

  lemma WokenStays(s: State, e: Step)
    requires Woken(s)
    ensures Woken(Next(s, e))
  {
  }

  lemma LineAccounted(s: State, c: Cmd)
    requires Accounted(s)
    ensures Thinned(s.input + [c], s.done + Taken(s) + Coalesced(s.queue, c))
    ensures Apart(Coalesced(s.queue, c))
  {
    var before := s.done + Taken(s);
    if c.Move? && |s.queue| > 0 && s.queue[|s.queue| - 1].Move? {
      LineCoalesced(s.input, before, s.queue, c);
    } else {
      KeepsOne(s.input, before + s.queue, c);
      assert before + s.queue + [c] == before + (s.queue + [c]);
    }
  }

  lemma LineCoalesced(input: seq<Cmd>, before: seq<Cmd>, q: seq<Cmd>, c: Cmd)
    requires Thinned(input, before + q) && |q| > 0 && c.Move? && q[|q| - 1].Move?
    ensures Thinned(input + [c], before + (q[..|q| - 1] + [c]))
  {
    LastStays(input, before + q);
    TakesPlace(input, before + q, c);
    assert (before + q)[..|before + q| - 1] + [c] == before + (q[..|q| - 1] + [c]);
  }

  lemma RunAccounted(s: State)
    requires Accounted(s) && s.ui.Running? && |s.ui.cmds| > 0
    ensures Accounted(Next(s, Run))
  {
    var c := s.ui.cmds[0];
    OneMore(RESTING, s.view, s.done, c);
    assert s.done + s.ui.cmds + s.queue == s.done + [c] + s.ui.cmds[1..] + s.queue;
  }

  lemma AccountedStays(s: State, e: Step)
    requires Accounted(s)
    ensures Accounted(Next(s, e))
  {
    match e
    case Line(c) => LineAccounted(s, c);
    case Run =>
      if s.ui.Running? && |s.ui.cmds| > 0 {
        RunAccounted(s);
      }
    case Take =>
      if s.ui.Cleared? {
        assert s.done + [] + s.queue == s.done + s.queue + [];
      }
    case _ =>
  }

  /** Both hold in every reachable state, whatever the interleaving. */
  lemma {:induction false} EveryRun(s: State, es: seq<Step>)
    requires Woken(s) && Accounted(s)
    ensures Woken(After(s, es)) && Accounted(After(s, es))
    decreases |es|
  {
    if |es| > 0 {
      WokenStays(s, es[0]);
      AccountedStays(s, es[0]);
      EveryRun(Next(s, es[0]), es[1..]);
    }
  }

  lemma Starts(view: View)
    ensures Woken(Start(view)) && Accounted(Start(view)) && !Start(view).browser
    ensures Next(Start(view), Create).browser
  {
  }

  /** The lines the reader comes to. */
  function Given(s: State, es: seq<Step>): seq<Cmd>
    decreases |es|
  {
    if |es| == 0 then []
    else (if es[0].Line? && s.reader.Reading? then [es[0].cmd] else []) + Given(Next(s, es[0]), es[1..])
  }

  /** Lines are lost by a drain that finds no browser, and by nothing else. */
  lemma {:induction false} OnlyWithoutABrowser(s: State, es: seq<Step>)
    ensures var t := After(s, es);
      && t.lost + t.input == s.lost + s.input + Given(s, es)
      && (s.browser ==> t.browser && t.lost == s.lost)
    decreases |es|
  {
    if |es| > 0 {
      OnlyWithoutABrowser(Next(s, es[0]), es[1..]);
      OneStep(s, es[0]);
    }
  }

  lemma OneStep(s: State, e: Step)
    ensures var t := Next(s, e);
      && t.lost + t.input == s.lost + s.input + (if e.Line? && s.reader.Reading? then [e.cmd] else [])
  {
    if e.Line? {
      assert s.lost + s.input + [e.cmd] == s.lost + (s.input + [e.cmd]);
    }
  }

  // -- when nothing is on its way ------------------------------------------------------

  predicate Quiet(s: State) { s.reader.Reading? && s.ui.Idle? && s.tasks == 0 }

  /** With the reader between lines and no drain about, every line since there was a
      browser has been run, the page's buttons and pointer are where the lines left
      them, and every call but a move's is the one the lines ask for. */
  lemma QuietIsDone(s: State)
    requires Woken(s) && Accounted(s) && Quiet(s)
    ensures |s.queue| == 0 && Thinned(s.input, s.done)
    ensures s.hand == HandAfterAll(RESTING, s.view, s.input)
    ensures s.calls == AllCalls(RESTING, s.view, s.done)
    ensures OtherCalls(RESTING, s.view, s.done) == OtherCalls(RESTING, s.view, s.input)
  {
    assert s.done + Taken(s) + s.queue == s.done;
    SameForThePage(RESTING, s.view, s.input, s.done);
  }

  /** All of it, for every interleaving from the start. */
  lemma WholeRun(view: View, es: seq<Step>)
    ensures var s := After(Start(view), es);
      && s.lost + s.input == Given(Start(view), es)
      && Coming(s) <= 1
      && (|s.queue| > 0 ==> Coming(s) == 1 || s.reader.Pushed? || s.ui.Cleared?)
      && (Quiet(s) ==>
            && |s.queue| == 0 && Thinned(s.input, s.done)
            && s.calls == AllCalls(RESTING, s.view, s.done)
            && s.hand == HandAfterAll(RESTING, s.view, s.input)
            && OtherCalls(RESTING, s.view, s.done) == OtherCalls(RESTING, s.view, s.input))
  {
    Starts(view);
    EveryRun(Start(view), es);
    OnlyWithoutABrowser(Start(view), es);
    if Quiet(After(Start(view), es)) {
      QuietIsDone(After(Start(view), es));
    }
  }

  function ReaderLeft(r: Reader): nat { match r case Pushed => 2 case Posting => 1 case Reading => 0 }

  function UiLeft(u: Ui): nat { match u case Entered => 3 case Cleared => 2 case Running(_) => 1 case Idle => 0 }

  /** The step that is due when no more lines come. */
  function Due(s: State): Step {
    match s.reader
    case Pushed => Swap
    case Posting => Post
    case Reading =>
      match s.ui
      case Idle => Enter
      case Entered => Clear
      case Cleared => Take
      case Running(_) => Run
  }

  /** From any state the two threads come to rest by themselves, with no other line. */
  lemma {:induction false} Settles(s: State) returns (es: seq<Step>)
    ensures Quiet(After(s, es)) && Given(s, es) == []
    decreases ReaderLeft(s.reader), s.tasks, UiLeft(s.ui), |Taken(s)|
  {
    es := [];
    if !Quiet(s) {
      var rest := Settles(Next(s, Due(s)));
      es := [Due(s)] + rest;
      assert es[1..] == rest;
    }
  }
}

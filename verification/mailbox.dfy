/** Graphic mode's control channel: the newest state line, kept for a page that may
    not have loaded yet or may load again. */
module Mailbox {
  import opened Bytes

  predicate IsSpace(c: char) {
    || '\t' <= c <= '\r' || c == ' ' || c == '\U{0085}' || c == '\U{00A0}' || c == '\U{1680}'
    || '\U{2000}' <= c <= '\U{200A}' || c == '\U{2028}' || c == '\U{2029}' || c == '\U{202F}'
    || c == '\U{205F}' || c == '\U{3000}'
  }

  function TrimEnd(s: string): string {
    if |s| > 0 && IsSpace(s[|s| - 1]) then TrimEnd(s[..|s| - 1]) else s
  }

  function Trim(s: string): string {
    if |s| > 0 && IsSpace(s[0]) then Trim(s[1..]) else TrimEnd(s)
  }

  predicate AllSpace(s: string) { forall i :: 0 <= i < |s| ==> IsSpace(s[i]) }

  /** A line is what is kept of it between spaces, and that begins and ends with none. */
  lemma {:induction false} TrimTakesSpaces(s: string) returns (front: string, back: string)
    ensures s == front + Trim(s) + back && AllSpace(front) && AllSpace(back)
    ensures |Trim(s)| > 0 ==> !IsSpace(Trim(s)[0]) && !IsSpace(Trim(s)[|Trim(s)| - 1])
    decreases |s|
  {
    if |s| > 0 && IsSpace(s[0]) {
      front, back := TrimTakesSpaces(s[1..]);
      front := [s[0]] + front;
    } else {
      front := [];
      back := TrimEndTakesSpaces(s);
    }
  }

  lemma {:induction false} TrimEndTakesSpaces(s: string) returns (back: string)
    ensures s == TrimEnd(s) + back && AllSpace(back)
    ensures |TrimEnd(s)| > 0 ==> !IsSpace(TrimEnd(s)[|TrimEnd(s)| - 1]) && TrimEnd(s)[0] == s[0]
    decreases |s|
  {
    if |s| > 0 && IsSpace(s[|s| - 1]) {
      back := TrimEndTakesSpaces(s[..|s| - 1]);
      back := back + [s[|s| - 1]];
    } else {
      back := [];
    }
  }

  predicate IsObject(line: string) { |line| > 0 && line[0] == '{' && line[|line| - 1] == '}' }

  /** The reader between lines, or past the store and before the task. */
  datatype Reader = Waiting | Stored

  /** CEF's UI thread: idle, about to read the state, and about to hand it over. */
  datatype Ui = Idle | Reading | Giving(line: Option<string>)

  /** What the page's runtime is handed: a line, or `{}` before there is one. */
  type Given = Option<string>

  /** `state`, `loaded` and the pending tasks are shared. `lines` are the lines kept,
      `page` what the page in the frame was last given, and `log` what any page ever
      was, each with how many lines had been kept when it was read. */
  datatype State = State(
    state: Option<string>, loaded: bool, browser: bool, tasks: nat, reader: Reader, ui: Ui,
    lines: seq<string>, read: nat, page: Option<Given>, log: seq<(nat, bool)>)

  function Start(): State { State(None, false, false, 0, Waiting, Idle, [], 0, None, []) }

  /** A line from stdin, the task for it, the browser being kept, a page starting
      and finishing to load, a task run, and the two halves of handing the state on. */
  datatype Step = Line(raw: string) | Post | Remember | LoadStart | LoadEnd | Apply | Read | Give

  /** Callbacks and tasks come one at a time on the UI thread; a load is a load of a
      browser there is. */
  function Next(s: State, e: Step): State {
    match e
    case Line(raw) =>
      var line := Trim(raw);
      if !s.reader.Waiting? || !IsObject(line) then s
      else s.(state := Some(line), lines := s.lines + [line], reader := Stored)
    case Post => if s.reader.Stored? then s.(tasks := s.tasks + 1, reader := Waiting) else s
    case Remember => if s.ui.Idle? then s.(browser := true) else s
    case LoadStart => if s.ui.Idle? && s.browser then s.(loaded := false, page := None) else s
    case LoadEnd => if s.ui.Idle? && s.browser then s.(loaded := true, ui := Reading) else s
    case Apply =>
      if !s.ui.Idle? || s.tasks == 0 then s
      else if s.loaded && s.browser then s.(tasks := s.tasks - 1, ui := Reading)
      else s.(tasks := s.tasks - 1)
    case Read => if s.ui.Reading? then s.(ui := Giving(s.state), read := |s.lines|) else s
    case Give =>
      if s.ui.Giving? then s.(ui := Idle, page := Some(s.ui.line), log := s.log + [(s.read, s.loaded)]) else s
  }

  function After(s: State, es: seq<Step>): State
    decreases |es|
  {
    if |es| == 0 then s else After(Next(s, es[0]), es[1..])
  }

  // -- what every step keeps -------------------------------------------------------

  /** The newest of the first `n` lines. */
  function Newest(lines: seq<string>, n: nat): Given
    requires n <= |lines|
  {
    if n == 0 then None else Some(lines[n - 1])
  }

  /** A page that has loaded has been given the newest line, or will be: by the UI
      thread where it is, by a task, or by the task the reader is about to post. */
  predicate Current(s: State) {
    var newest := Newest(s.lines, |s.lines|);
    s.loaded ==>
      || s.tasks > 0 || s.reader.Stored?
      || match s.ui
         case Idle => s.page == Some(newest)
         case Reading => true
         case Giving(line) => line == newest
  }

  /** Between callbacks a loaded page has been given something. */
  predicate Prompt(s: State) { s.loaded && s.ui.Idle? ==> s.page.Some? }

  predicate Kept(s: State) {
    && s.state == Newest(s.lines, |s.lines|)
    && (forall i :: 0 <= i < |s.lines| ==> IsObject(s.lines[i]))
    && (s.loaded ==> s.browser)
    && (!s.ui.Idle? ==> s.loaded)
    && s.read <= |s.lines|
    && (s.ui.Giving? ==> s.ui.line == Newest(s.lines, s.read))
    && (!s.loaded ==> s.page.None?)
    && (forall i :: 0 <= i < |s.log| ==> s.log[i].0 <= s.read)
    && (s.page.Some? ==> |s.log| > 0 && s.page == Some(Newest(s.lines, s.log[|s.log| - 1].0)))
  }

  /** No page is given a state before it has loaded, and no page, this one or a later
      one, an older state than was given before. */
  predicate Forward(s: State) {
    && (forall i :: 0 <= i < |s.log| ==> s.log[i].1 && s.log[i].0 <= s.read)
    && (forall i, j :: 0 <= i < j < |s.log| ==> s.log[i].0 <= s.log[j].0)
  }

  predicate Inv(s: State) { Kept(s) && Current(s) && Prompt(s) && Forward(s) }

  /** A line is kept exactly when, between its spaces, it begins with an opening brace and
      ends with a closing one. */
  lemma KeptExactly(s: State, raw: string)
    requires s.reader.Waiting?
    ensures var line := Trim(raw);
      Next(s, Line(raw)).lines
      == s.lines + if |line| >= 2 && line[0] == '{' && line[|line| - 1] == '}' then [line] else []
  {
  }

  /** Every line kept becomes one task, and every task is run once. */
  lemma TasksAreLines(s: State, e: Step)
    ensures var t := Next(s, e);
      t.tasks + (if t.reader.Stored? then 1 else 0) + (if e.Apply? && s.ui.Idle? && s.tasks > 0 then 1 else 0)
      == s.tasks + (if s.reader.Stored? then 1 else 0) + |t.lines| - |s.lines|
  {
  }

  /** A page that begins to load has been given nothing; one that ends to load is given the
      newest line, and what it is given is written down. */
  lemma LoadGives(s: State)
    requires Inv(s) && s.ui.Idle?
    ensures Next(s, Remember).browser
    ensures s.browser ==> !Next(s, LoadStart).loaded && Next(s, LoadStart).page.None?
    ensures s.browser ==>
      var t := Next(Next(Next(s, LoadEnd), Read), Give);
      t.loaded && t.ui.Idle? && t.page == Some(Newest(s.lines, |s.lines|)) && t.log == s.log + [(|s.lines|, true)]
  {
  }

  lemma StepKeepsInv(s: State, e: Step)
    requires Inv(s)
    ensures Inv(Next(s, e))
  {
  }

  lemma {:induction false} EveryRun(s: State, es: seq<Step>)
    requires Inv(s)
    ensures Inv(After(s, es))
    decreases |es|
  {
    if |es| > 0 {
      StepKeepsInv(s, es[0]);
      EveryRun(Next(s, es[0]), es[1..]);
    }
  }

  /** Whenever the page is loaded, no task is pending and the reader is between lines,
      what the page was last given is the newest line, or `{}` when there was none. */
  lemma NewestWins(es: seq<Step>)
    ensures var s := After(Start(), es);
      s.loaded && s.ui.Idle? && s.tasks == 0 && s.reader.Waiting?
      ==> s.page == Some(Newest(s.lines, |s.lines|))
  {
    EveryRun(Start(), es);
  }

  /** What has been kept and what any page was given are never taken back. */
  lemma {:induction false} OnlyGrows(s: State, es: seq<Step>)
    ensures s.lines <= After(s, es).lines && s.log <= After(s, es).log
    decreases |es|
  {
    if |es| > 0 {
      OnlyGrows(Next(s, es[0]), es[1..]);
    }
  }

  /** The step that is due when no line comes and no page loads. */
  function Due(s: State): Step {
    match s.ui
    case Reading => Read
    case Giving(_) => Give
    case Idle => if s.reader.Stored? then Post else Apply
  }

  function UiLeft(u: Ui): nat { match u case Reading => 2 case Giving(_) => 1 case Idle => 0 }

  /** From any reachable state a loaded page comes to show the newest line by itself,
      with no other line and no other load. */
  lemma {:induction false} Settles(s: State) returns (es: seq<Step>)
    requires Inv(s)
    ensures forall i :: 0 <= i < |es| ==> !es[i].Line? && !es[i].LoadStart? && !es[i].LoadEnd?
    ensures After(s, es).lines == s.lines && After(s, es).loaded == s.loaded
    ensures s.loaded ==> After(s, es).page == Some(Newest(s.lines, |s.lines|))
    decreases if s.reader.Stored? then 1 else 0, s.tasks, UiLeft(s.ui)
  {
    es := [];
    if !(s.ui.Idle? && s.reader.Waiting? && s.tasks == 0) {
      StepKeepsInv(s, Due(s));
      var rest := Settles(Next(s, Due(s)));
      es := [Due(s)] + rest;
      assert es[1..] == rest;
    }
  }
}

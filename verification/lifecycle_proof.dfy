/** At most one mixer, only one task that replaces it, and crashes answered a minute
    apart. */
module LifecycleProof {
  import opened Bytes
  import opened Lifecycle

  predicate Inv(s: State) { One(s) && Numbered(s) && Known(s) }

  predicate OfConnect(e: Step) { e.Connect? || e.Launch? || e.Reached? }

  lemma OneStays(s: State, e: Step)
    requires Inv(s) && Apart(s, e)
    ensures One(Next(s, e))
  {
    if OfConnect(e) {
      OneStaysConnecting(s, e);
    } else {
      OneStaysOtherwise(s, e);
    }
  }

  lemma OneStaysConnecting(s: State, e: Step)
    requires Inv(s) && Apart(s, e) && OfConnect(e)
    ensures One(Next(s, e))
  {
    match e
    case Connect =>
    case Launch(ok) =>
      if s.looking > 0 {
        assert s.launched == {} && s.alive == {};
        assert WindingUp(Next(s, e)) == WindingUp(s);
      }
    case Reached(pid, ok) =>
      if pid in s.launched {
        OnlyLaunched(s, pid);
        assert Unconnected(Next(s, e)) || s.quitter.Gone?;
        assert WindingUp(Next(s, e)) == WindingUp(s);
      }
    case _ =>
  }

  lemma OneStaysOtherwise(s: State, e: Step)
    requires Inv(s) && Apart(s, e) && !OfConnect(e)
    ensures One(Next(s, e))
  {
    if OfRestart(e) {
      OneStaysRestarting(s, e);
    }
  }

  predicate OfRestart(e: Step) { e.Swap? || e.TakeLocal? || e.Stopped? || e.Spawn? || e.Answer? || e.Let? }

  lemma OneStaysRestarting(s: State, e: Step)
    requires Inv(s) && Apart(s, e) && OfRestart(e)
    ensures One(Next(s, e))
  {
    assert Next(s, e).looking == s.looking && Next(s, e).launched == s.launched;
  }

  lemma KnownStays(s: State, e: Step)
    requires One(s) && Known(s)
    ensures Known(Next(s, e))
  {
    if OfConnect(e) {
      KnownStaysConnecting(s, e);
    } else if e.Quit? || e.Wound? {
      KnownStaysLeaving(s, e);
    } else if OfRestart(e) {
      KnownStaysRestarting(s, e);
    } else {
      KnownByMore(s, Next(s, e));
    }
  }

  lemma KnownByMore(s: State, t: State)
    requires Known(s) && s.next <= t.next && t.launched == s.launched && t.quitter == s.quitter && t.local == s.local
    requires t.holder == s.holder
    ensures Known(t)
  {
    assert WindingUp(t) == WindingUp(s);
  }

  lemma KnownStaysRestarting(s: State, e: Step)
    requires One(s) && Known(s) && OfRestart(e)
    ensures Known(Next(s, e))
  {
    assert WindingUp(Next(s, e)) == WindingUp(s) && Next(s, e).launched == s.launched;
  }

  lemma KnownStaysLeaving(s: State, e: Step)
    requires One(s) && Known(s) && (e.Quit? || e.Wound?)
    ensures Known(Next(s, e))
  {
    var t := Next(s, e);
    assert t.launched == s.launched && t.holder == s.holder && t.next == s.next;
    assert forall p :: p in WindingUp(t) ==> p in WindingUp(s) || s.local == Some(p);
  }

  lemma OnlyLaunched(s: State, pid: Pid)
    requires OneConnect(s) && pid in s.launched
    ensures s.launched == {pid} && s.launched - {pid} == {} && s.looking == 0
  {
  }

  lemma KnownStaysConnecting(s: State, e: Step)
    requires One(s) && Known(s) && OfConnect(e)
    ensures Known(Next(s, e))
  {
    var t := Next(s, e);
    assert WindingUp(t) == WindingUp(s) && t.holder == s.holder;
    match e
    case Connect => KnownByMore(s, t);
    case Launch(ok) =>
      if ok && s.looking > 0 && !s.quitter.Gone? {
        assert s.launched == {} && t.launched == s.launched + {s.next};
      }
    case Reached(pid, ok) =>
      if pid in s.launched {
        OnlyLaunched(s, pid);
      }
    case _ =>
  }

  lemma NumberedStays(s: State, e: Step)
    requires Numbered(s)
    ensures Numbered(Next(s, e))
  {
    if OfRestart(e) {
      NumberedStaysRestarting(s, e);
    }
  }

  lemma NumberedStaysRestarting(s: State, e: Step)
    requires Numbered(s) && OfRestart(e)
    ensures Numbered(Next(s, e))
  {
  }

  lemma SpacedStays(s: State, e: Step)
    requires Spaced(s)
    ensures Spaced(Next(s, e))
  {
    if e.Judge? {
      JudgedSpaced(s);
    } else {
      OnlyJudged(s, e);
    }
  }

  lemma OnlyJudged(s: State, e: Step)
    requires !e.Judge?
    ensures Next(s, e).revived == s.revived && Next(s, e).last == s.last && Next(s, e).now >= s.now
  {
  }

  lemma JudgedSpaced(s: State)
    requires Spaced(s)
    ensures Spaced(Judged(s))
  {
    var t := Judged(s);
    if t.revived != s.revived {
      assert t.revived == s.revived + [s.now];
    }
  }

  lemma Starts(now: nat)
    ensures Inv(Start(now)) && Spaced(Start(now))
  {
  }

  lemma {:induction false} OneAlways(s: State, es: seq<Step>)
    requires Inv(s) && AllApart(s, es)
    ensures Inv(After(s, es))
    decreases |es|
  {
    if |es| > 0 {
      OneStays(s, es[0]);
      NumberedStays(s, es[0]);
      KnownStays(s, es[0]);
      OneAlways(Next(s, es[0]), es[1..]);
    }
  }

  lemma OneIsOne(s: State)
    requires One(s)
    ensures |s.alive| <= 1
  {
    forall p, q | p in s.alive && q in s.alive ensures p == q {
      assert p in Possible(s) && q in Possible(s);
    }
    if p :| p in s.alive {
      assert s.alive == {p};
    }
  }

  /** However restarts, exits, crashes, connects and quits interleave, as long as no
      connect begins beside a restart, a quit or another connect and no restart beside
      a connect: never two mixers, and the flag is up exactly while one task is
      restarting. */
  lemma AtMostOneMixer(now: nat, es: seq<Step>)
    requires AllApart(Start(now), es)
    ensures var s := After(Start(now), es); |s.alive| <= 1 && (s.restarting <==> !s.holder.Free?)
  {
    Starts(now);
    OneAlways(Start(now), es);
    OneIsOne(After(Start(now), es));
  }

  /** The mixer this app holds becomes another one by the hand of the task that holds
      the flag, or of a connect. */
  lemma OnlyTheHolderReplaces(s: State, e: Step)
    requires One(s)
    ensures var t := Next(s, e);
      t.local.Some? && t.local != s.local ==>
        || (s.restarting && s.holder.Waiting? && e == Answer(true) && t.local == Some(s.holder.pid))
        || (e.Reached? && e.ok && e.pid in s.launched && t.local == Some(e.pid))
  {
  }

  /** Crashes are answered at least a minute apart, in every run at all. */
  lemma {:induction false} AMinuteApart(s: State, es: seq<Step>)
    requires Spaced(s)
    ensures Spaced(After(s, es))
    decreases |es|
  {
    if |es| > 0 {
      SpacedStays(s, es[0]);
      AMinuteApart(Next(s, es[0]), es[1..]);
    }
  }

  // -- an answered crash ----------------------------------------------------------------

  /** Nothing is under way and nothing is left to do. */
  predicate AtRest(s: State) {
    s.holder.Free? && Unconnected(s) && s.quitter.Staying? && s.tasks == 0 && s.judged == 0
  }

  lemma {:induction false} AfterAll(s: State, a: seq<Step>, b: seq<Step>)
    ensures After(s, a + b) == After(After(s, a), b)
    decreases |a|
  {
    if |a| == 0 {
      assert a + b == b;
    } else {
      AfterAll(Next(s, a[0]), a[1..], b);
      assert (a + b)[1..] == a[1..] + b;
    }
  }

  lemma Three(s: State, a: Step, b: Step, c: Step)
    ensures After(s, [a, b, c]) == Next(Next(Next(s, a), b), c)
  {
    assert [a, b, c][1..] == [b, c] && [b, c][1..] == [c] && [c][1..] == [];
    assert After(Next(Next(s, a), b), [c]) == Next(Next(Next(s, a), b), c);
    assert After(Next(s, a), [b, c]) == After(Next(Next(s, a), b), [c]);
  }

  predicate Soon(s: State) { s.last.Some? && s.last.value <= s.now && s.now - s.last.value < 60000 }

  /** Not an end that was asked for, and none that asks for a restart. */
  predicate IsCrash(code: Option<int>) { code !in {Some(0), Some(75), Some(76), Some(77)} }

  /** The mixer this app holds ends by itself, its exit is read and decided on. */
  function Crash(p: Pid, code: Option<int>): seq<Step> { [Exit(p, code), Report(p), Judge] }

  /** A mixer is held and runs; nothing connects and nobody quits. */
  predicate OnAir(s: State) { Inv(s) && Unconnected(s) && s.quitter.Staying? && s.local.Some? && s.local.value in s.alive }

  lemma Crashes(s: State, code: Option<int>)
    requires OnAir(s) && IsCrash(code)
    ensures var t := After(s, Crash(s.local.value, code));
      && t.alive == {} && t.local == s.local && t.next == s.next && t.holder == s.holder
      && t.restarting == s.restarting && t.quitter == s.quitter && t.launched == s.launched && t.looking == s.looking
      && t.tasks == s.tasks + (if Soon(s) then 0 else 1)
      && t.revived == (if Soon(s) then s.revived else s.revived + [s.now])
  {
    var p := s.local.value;
    Three(s, Exit(p, code), Report(p), Judge);
    EndsAndIsRead(s, code);
  }

  /** The mixer on the air ends and its exit is read, and it is a crash to decide on. */
  lemma EndsAndIsRead(s: State, code: Option<int>)
    requires OnAir(s) && IsCrash(code)
    ensures var t := Next(Next(s, Exit(s.local.value, code)), Report(s.local.value));
      && t.alive == {} && t == s.(alive := {}, reports := t.reports, ended := t.ended, judged := s.judged + 1)
  {
    var p := s.local.value;
    assert s.alive == {p};
    var s1 := Next(s, Exit(p, code));
    assert s1.alive == {} && s1.reports[p] == code;
  }

  /** In any state with a mixer on the air, whatever else is pending: once its crash has
      been read and decided on, the next task to swap the flag begins a restart exactly
      when the flag was down and there is a task: one from before, or this crash's,
      which it gets exactly when none was answered in the last minute. */
  lemma CrashBeginsExactly(s: State, code: Option<int>)
    requires OnAir(s) && IsCrash(code)
    ensures var t := Next(After(s, Crash(s.local.value, code)), Swap);
      !s.restarting && t.holder.Taking? <==> !s.restarting && (s.tasks > 0 || !Soon(s))
  {
    Crashes(s, code);
    BeginsAfter(s, After(s, Crash(s.local.value, code)));
  }

  lemma BeginsAfter(s: State, c: State)
    requires One(s) && c.holder == s.holder && c.restarting == s.restarting && c.quitter.Staying?
    requires c.tasks == s.tasks + (if Soon(s) then 0 else 1)
    ensures !s.restarting && Next(c, Swap).holder.Taking? <==> !s.restarting && (s.tasks > 0 || !Soon(s))
  {
  }

  /** What the task that holds the flag does next, when all goes well. */
  function Restart(): seq<Step> { [TakeLocal, Stopped, Spawn(true)] + [Answer(true), Let] }

  lemma RestartOf(s: State)
    ensures After(s, Restart()) == Next(Next(Next(Next(Next(s, TakeLocal), Stopped), Spawn(true)), Answer(true)), Let)
  {
    AfterAll(s, [TakeLocal, Stopped, Spawn(true)], [Answer(true), Let]);
    Three(s, TakeLocal, Stopped, Spawn(true));
    var t := After(s, [TakeLocal, Stopped, Spawn(true)]);
    assert [Answer(true), Let][1..] == [Let] && [Let][1..] == [];
    assert After(Next(t, Answer(true)), [Let]) == Next(Next(t, Answer(true)), Let);
  }

  /** The mixer comes back, as a new one, exactly when a restart that has not yet taken
      the old one is under way, or the flag was down and there is a task; otherwise
      nothing runs. */
  lemma CrashComesBackExactly(s: State, code: Option<int>)
    requires OnAir(s) && IsCrash(code)
    ensures var t := After(Next(After(s, Crash(s.local.value, code)), Swap), Restart());
      if s.holder.Taking? || (s.holder.Free? && (s.tasks > 0 || !Soon(s)))
      then t.alive == {s.next} && t.local == Some(s.next) && t.holder.Free?
      else t.alive == {} && t.local == s.local && t.holder.Free?
  {
    Crashes(s, code);
    AfterEnd(s, After(s, Crash(s.local.value, code)));
    RestartOf(Next(After(s, Crash(s.local.value, code)), Swap));
  }

  lemma AfterEnd(s: State, c: State)
    requires One(s) && s.local.Some? && Unconnected(s)
    requires c.alive == {} && c.local == s.local && c.next == s.next && c.holder == s.holder
    requires c.restarting == s.restarting && c.quitter.Staying?
    ensures var t := Next(Next(Next(Next(Next(Next(c, Swap), TakeLocal), Stopped), Spawn(true)), Answer(true)), Let);
      if s.holder.Taking? || (s.holder.Free? && c.tasks > 0)
      then t.alive == {s.next} && t.local == Some(s.next) && t.holder.Free?
      else t.alive == {} && t.local == s.local && t.holder.Free?
  {
    if s.holder.Taking? || (s.holder.Free? && c.tasks > 0) {
      Restarts(Next(c, Swap));
    } else {
      NothingRestarts(Next(c, Swap));
    }
  }

  /** A minute after a crash was answered another may be. */
  lemma AnswersAgain(s: State)
    requires Spaced(s) && !s.quitter.Gone?
    ensures !Soon(Next(s, Tick(60000)))
  {
  }

  // -- what a start that fails leaves ------------------------------------------------------

  /** A start fails: there is no process, or it does not answer and is killed. */
  function Fails(spawned: bool): seq<Step> { if spawned then [Spawn(true), Answer(false)] else [Spawn(false)] }

  lemma FailedStart(s: State, spawned: bool)
    requires Inv(s) && !s.quitter.Gone? && s.holder.Starting?
    ensures var t := After(s, Fails(spawned));
      && t.holder == (if s.holder.again then Starting(false) else Leaving) && t.alive == {}
      && t.restarting == s.restarting && !t.quitter.Gone? && t.local == s.local
  {
    if spawned {
      assert [Spawn(true), Answer(false)][1..] == [Answer(false)] && [Answer(false)][1..] == [];
      assert After(Next(s, Spawn(true)), [Answer(false)]) == Next(Next(s, Spawn(true)), Answer(false));
    } else {
      assert [Spawn(false)][1..] == [];
    }
  }

  /** A restart starts a mixer twice at the most: when both have failed, in whatever way,
      the flag comes down with no mixer running and none held. */
  lemma TwoTries(s: State, first: bool, second: bool)
    requires Inv(s) && !s.quitter.Gone? && s.holder == Starting(true)
    ensures var t := Next(After(After(s, Fails(first)), Fails(second)), Let);
      !t.restarting && t.holder.Free? && t.alive == {} && t.local.None?
  {
    FailedStart(s, first);
    FailsKeep(s, first);
    FailedStart(After(s, Fails(first)), second);
  }

  lemma FailsKeep(s: State, spawned: bool)
    requires Inv(s) && !s.quitter.Gone? && s.holder.Starting?
    ensures Inv(After(s, Fails(spawned)))
  {
    if spawned {
      assert [Spawn(true), Answer(false)][1..] == [Answer(false)] && [Answer(false)][1..] == [];
      assert AllApart(Next(s, Spawn(true)), [Answer(false)]);
    } else {
      assert [Spawn(false)][1..] == [];
    }
    OneAlways(s, Fails(spawned));
  }

  /** A connect whose process does not start, or does not answer, is over, with none. */
  lemma FailedConnect(s: State)
    requires Inv(s) && !s.quitter.Gone?
    ensures s.looking == 1 ==> Unconnected(Next(s, Launch(false))) && Next(s, Launch(false)).alive == s.alive
    ensures forall p :: p in s.launched ==>
      Unconnected(Next(s, Reached(p, false))) && Next(s, Reached(p, false)).alive == {}
  {
    forall p | p in s.launched
      ensures Unconnected(Next(s, Reached(p, false))) && Next(s, Reached(p, false)).alive == {}
    {
      OnlyLaunched(s, p);
    }
  }

  // -- an exit that asks for a restart ------------------------------------------------------

  /** The mixer on the air ends with a code that asks for a restart, and its exit is read. */
  function Asking(p: Pid, code: int): seq<Step> { [Exit(p, Some(code)), Report(p)] }

  /** There is one task more for it, however recent the last crash, and no crash is
      decided on. */
  lemma AskedExit(s: State, code: int)
    requires OnAir(s) && code in {75, 76, 77}
    ensures var t := After(s, Asking(s.local.value, code));
      && t.tasks == s.tasks + 1 && t.judged == s.judged && t.revived == s.revived && t.last == s.last
      && t.alive == {} && t.local == s.local && t.next == s.next && t.holder == s.holder
      && t.restarting == s.restarting && t.quitter == s.quitter
  {
    var p := s.local.value;
    var s1 := Next(s, Exit(p, Some(code)));
    assert s.alive == {p};
    assert s1.alive == {} && s1.reports[p] == Some(code);
    assert Asking(p, code)[1..] == [Report(p)] && [Report(p)][1..] == [];
    assert After(s1, [Report(p)]) == Next(s1, Report(p));
  }

  /** So the mixer comes back, as a new one, exactly unless a restart under way has its
      own already or is about to let the flag down. */
  lemma AskedComesBackExactly(s: State, code: int)
    requires OnAir(s) && code in {75, 76, 77}
    ensures var t := After(Next(After(s, Asking(s.local.value, code)), Swap), Restart());
      if s.holder.Taking? || s.holder.Free?
      then t.alive == {s.next} && t.local == Some(s.next) && t.holder.Free?
      else t.alive == {} && t.local == s.local && t.holder.Free?
  {
    AskedExit(s, code);
    AfterEnd(s, After(s, Asking(s.local.value, code)));
    RestartOf(Next(After(s, Asking(s.local.value, code)), Swap));
  }

  /** What any exit read does, of any process and code. */
  lemma ExitIsRead(s: State, pid: Pid)
    requires pid in s.reports && !s.quitter.Gone?
    ensures var (t, code) := (Next(s, Report(pid)), s.reports[pid]);
      && t == s.(reports := t.reports, ended := t.ended, tasks := t.tasks, judged := t.judged)
      && t.reports == s.reports - {pid} && t.ended == s.ended + {pid}
      && t.tasks == s.tasks + (if code in {Some(75), Some(76), Some(77)} then 1 else 0)
      && t.judged == s.judged + (if IsCrash(code) && s.local == Some(pid) then 1 else 0)
  {
  }

  lemma NothingRestarts(b: State)
    requires (b.holder.Leaving? || b.holder.Free?) && b.quitter.Staying? && b.alive == {}
    ensures var t := Next(Next(Next(Next(Next(b, TakeLocal), Stopped), Spawn(true)), Answer(true)), Let);
      t.alive == {} && t.local == b.local && t.holder.Free?
  {
  }

  /** The flag is up, the old mixer is gone, and a new one is started and answers. */
  lemma Restarts(b: State)
    requires b.holder.Taking? && b.quitter.Staying? && b.local.Some? && b.alive == {}
    ensures var t := Next(Next(Next(Next(Next(b, TakeLocal), Stopped), Spawn(true)), Answer(true)), Let);
      t.alive == {b.next} && t.local == Some(b.next) && t.holder.Free?
  {
  }

  /** So not every answered crash brings a mixer back: one right after a restart, while
      the flag is still up, is written down as answered and dropped. Nothing is left
      running and nothing is left to do. */
  lemma AnsweredAndDropped(now: nat)
    ensures var s := After(Start(now), [Ask, Swap, TakeLocal] + [Stopped, Spawn(true), Answer(true)]
                                    + [Exit(1, Some(1)), Report(1), Judge] + [Swap, Let, Report(0)]);
      s.revived == [now] && s.alive == {} && s.local == Some(1) && AtRest(s) && s.reports == map[]
  {
    var a, b := [Ask, Swap, TakeLocal], [Stopped, Spawn(true), Answer(true)];
    var c, d := [Exit(1, Some(1)), Report(1), Judge], [Swap, Let, Report(0)];
    Four(Start(now), a, b, c, d);
    RestartedOnce(now);
    CrashedAtOnce(now);
    DroppedThen(now);
  }

  lemma Four(s: State, a: seq<Step>, b: seq<Step>, c: seq<Step>, d: seq<Step>)
    ensures After(s, a + b + c + d) == After(After(After(After(s, a), b), c), d)
  {
    AfterAll(s, a + b + c, d);
    AfterAll(s, a + b, c);
    AfterAll(s, a, b);
  }

  lemma DroppedThen(now: nat)
    ensures var s := After(JustCrashed(now), [Swap, Let, Report(0)]);
      s.revived == [now] && s.alive == {} && s.local == Some(1) && AtRest(s) && s.reports == map[]
  {
    Three(JustCrashed(now), Swap, Let, Report(0));
    assert After(JustCrashed(now), [Swap, Let, Report(0)]).reports == map[];
  }

  /** A restart up to where the new mixer answers, the flag still up. */
  function JustRestarted(now: nat): State {
    Start(now).(local := Some(1), alive := {1}, next := 2, reports := map[0 := None], restarting := true, holder := Leaving)
  }

  lemma RestartedOnce(now: nat)
    ensures After(After(Start(now), [Ask, Swap, TakeLocal]), [Stopped, Spawn(true), Answer(true)]) == JustRestarted(now)
  {
    Three(Start(now), Ask, Swap, TakeLocal);
    var s := Start(now).(local := None, restarting := true, holder := Stopping(0));
    assert After(Start(now), [Ask, Swap, TakeLocal]) == s;
    StoppedAndStarted(now, s);
  }

  lemma StoppedAndStarted(now: nat, s: State)
    requires s == Start(now).(local := None, restarting := true, holder := Stopping(0))
    ensures After(s, [Stopped, Spawn(true), Answer(true)]) == JustRestarted(now)
  {
    Three(s, Stopped, Spawn(true), Answer(true));
    var t := s.(alive := {}, reports := map[0 := None], holder := Starting(true));
    assert Next(s, Stopped) == t;
    assert Next(t, Spawn(true)) == t.(alive := {1}, next := 2, holder := Waiting(1, true));
  }

  /** And the crash of that mixer, answered. */
  function JustCrashed(now: nat): State {
    JustRestarted(now).(alive := {}, ended := {1}, last := Some(now), revived := [now], tasks := 1)
  }

  lemma CrashedAtOnce(now: nat)
    ensures After(JustRestarted(now), [Exit(1, Some(1)), Report(1), Judge]) == JustCrashed(now)
  {
    var s := JustRestarted(now);
    Three(s, Exit(1, Some(1)), Report(1), Judge);
    var exits: map<Pid, Option<int>> := map[0 := None];
    var t := s.(alive := {}, reports := exits[1 := Some(1)]);
    assert Next(s, Exit(1, Some(1))) == t;
    ReportedCrash(now, t, exits);
  }

  lemma ReportedCrash(now: nat, t: State, exits: map<Pid, Option<int>>)
    requires exits == map[0 := None]
    requires t == JustRestarted(now).(alive := {}, reports := exits[1 := Some(1)])
    ensures Next(Next(t, Report(1)), Judge) == JustCrashed(now)
  {
    assert exits[1 := Some(1)] - {1} == exits;
    assert Next(t, Report(1)) == t.(reports := exits, ended := {1}, judged := 1);
  }

  // -- what is not kept apart ---------------------------------------------------------------

  lemma SixSteps(s: State, a: Step, b: Step, c: Step, d: Step, e: Step, f: Step)
    ensures After(s, [a, b, c] + [d, e, f]) == Next(Next(Next(Next(Next(Next(s, a), b), c), d), e), f)
  {
    AfterAll(s, [a, b, c], [d, e, f]);
    Three(s, a, b, c);
    Three(After(s, [a, b, c]), d, e, f);
  }

  /** A connect beside a restart does make two mixers: both find the old one stopped. */
  lemma ConnectBesideARestart(now: nat)
    ensures After(Start(now), [Ask, Swap, TakeLocal] + [Stopped, Connect, Spawn(true)] + [Launch(true)]).alive == {1, 2}
  {
    AfterAll(Start(now), [Ask, Swap, TakeLocal] + [Stopped, Connect, Spawn(true)], [Launch(true)]);
    SixSteps(Start(now), Ask, Swap, TakeLocal, Stopped, Connect, Spawn(true));
    var s := Start(now).(local := None, restarting := true, holder := Stopping(0));
    assert Next(Next(Next(Start(now), Ask), Swap), TakeLocal) == s;
    var t := Next(Next(Next(s, Stopped), Connect), Spawn(true));
    assert t.alive == {1} && t.next == 2 && t.looking == 1 && t.quitter.Staying?;
    assert [Launch(true)][1..] == [];
    assert After(t, [Launch(true)]) == Next(t, Launch(true));
  }

  /** The first mixer crashed, and its exit has been read. */
  function FirstCrashed(now: nat): State { Start(now).(alive := {}, ended := {0}, judged := 1) }

  lemma FirstCrash(now: nat)
    ensures Next(Next(Start(now), Exit(0, Some(1))), Report(0)) == FirstCrashed(now)
  {
    var t := Start(now).(alive := {}, reports := map[0 := Some(1)]);
    assert Next(Start(now), Exit(0, Some(1))) == t;
    assert t.reports - {0} == map[];
  }

  /** So does a restart beside a connect: the connect finds the crashed mixer ended, and
      the restart the crash is answered with starts another. */
  lemma RestartBesideAConnect(now: nat)
    ensures After(Start(now), [Exit(0, Some(1)), Report(0), Judge] + [Connect, Swap, TakeLocal]
                              + ([Stopped, Spawn(true), Launch(true)])).alive == {1, 2}
  {
    AfterAll(Start(now), [Exit(0, Some(1)), Report(0), Judge] + [Connect, Swap, TakeLocal], [Stopped, Spawn(true), Launch(true)]);
    SixSteps(Start(now), Exit(0, Some(1)), Report(0), Judge, Connect, Swap, TakeLocal);
    FirstCrash(now);
    var s := FirstCrashed(now).(judged := 0, last := Some(now), revived := [now], tasks := 0,
                                local := None, restarting := true, holder := Stopping(0), looking := 1);
    assert Next(Next(Next(Next(FirstCrashed(now), Judge), Connect), Swap), TakeLocal) == s;
    Three(s, Stopped, Spawn(true), Launch(true));
  }

  /** And a connect beside another: both find the crashed mixer ended. */
  lemma ConnectBesideAConnect(now: nat)
    ensures After(Start(now), [Exit(0, Some(1)), Report(0), Connect] + [Connect, Launch(true), Launch(true)]).alive == {1, 2}
  {
    SixSteps(Start(now), Exit(0, Some(1)), Report(0), Connect, Connect, Launch(true), Launch(true));
    FirstCrash(now);
    var s := FirstCrashed(now).(looking := 2);
    assert Next(Next(FirstCrashed(now), Connect), Connect) == s;
    assert Next(s, Launch(true)).alive == {1} && Next(s, Launch(true)).next == 2;
  }

  /** And one beside a quit, while the old mixer is still being stopped. */
  lemma ConnectBesideAQuit(now: nat)
    ensures After(Start(now), [Quit, Connect, Launch(true)]).alive == {0, 1}
  {
    Three(Start(now), Quit, Connect, Launch(true));
  }
}

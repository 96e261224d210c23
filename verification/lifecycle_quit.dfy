/** What is still running when the app has gone, and exactly when two mixers run. */
module LifecycleQuit {
  import opened Bytes
  import opened Lifecycle
  import opened LifecycleProof

  // -- two mixers ------------------------------------------------------------------------

  /** A step that starts a mixer while one runs. */
  predicate Crowds(s: State, e: Step) {
    && !s.quitter.Gone? && s.alive != {}
    && ((s.holder.Starting? && e == Spawn(true)) || (s.looking > 0 && e == Launch(true)))
  }

  predicate NeverCrowds(s: State, es: seq<Step>)
    decreases |es|
  {
    |es| == 0 || (!Crowds(s, es[0]) && NeverCrowds(Next(s, es[0]), es[1..]))
  }

  /** At no moment of the run are there two. */
  predicate NeverTwo(s: State, es: seq<Step>)
    decreases |es|
  {
    |s.alive| <= 1 && (|es| > 0 ==> NeverTwo(Next(s, es[0]), es[1..]))
  }

  lemma FewerOrAsMany(a: set<Pid>, b: set<Pid>)
    requires a <= b
    ensures |a| <= |b|
  {
    assert a + (b - a) == b;
  }

  lemma OneStepCrowds(s: State, e: Step)
    requires Numbered(s) && |s.alive| <= 1
    ensures |Next(s, e).alive| <= 1 <==> !Crowds(s, e)
  {
    var t := Next(s, e);
    StartsAtMostOne(s, e);
    if s.next in t.alive {
      assert |s.alive + {s.next}| == |s.alive| + 1;
    } else {
      FewerOrAsMany(t.alive, s.alive);
    }
  }

  lemma StartsAtMostOne(s: State, e: Step)
    requires Numbered(s)
    ensures var t := Next(s, e);
      if s.next in t.alive then t.alive == s.alive + {s.next} && (s.alive != {} ==> Crowds(s, e))
      else t.alive <= s.alive && !Crowds(s, e)
  {
  }

  /** In any run at all, whatever is kept apart, there are never two mixers exactly when
      none is started while one runs. */
  lemma {:induction false} NeverTwoExactly(s: State, es: seq<Step>)
    requires Numbered(s) && |s.alive| <= 1
    ensures NeverTwo(s, es) <==> NeverCrowds(s, es)
    decreases |es|
  {
    if |es| > 0 {
      OneStepCrowds(s, es[0]);
      NumberedStays(s, es[0]);
      if !Crowds(s, es[0]) {
        NeverTwoExactly(Next(s, es[0]), es[1..]);
      }
    }
  }

  /** And keeping connects, restarts and quits apart is enough for that. */
  lemma {:induction false} ApartNeverCrowds(s: State, es: seq<Step>)
    requires Inv(s) && AllApart(s, es)
    ensures NeverCrowds(s, es)
    decreases |es|
  {
    if |es| > 0 {
      ApartDoesNotCrowd(s, es[0]);
      OneStep(s, es[0]);
      ApartNeverCrowds(Next(s, es[0]), es[1..]);
    }
  }

  lemma ApartDoesNotCrowd(s: State, e: Step)
    requires Inv(s) && Apart(s, e)
    ensures !Crowds(s, e)
  {
    if s.looking > 0 {
      assert s.launched == {};
    }
  }

  lemma OneStep(s: State, e: Step)
    requires Inv(s) && Apart(s, e)
    ensures Inv(Next(s, e))
  {
    OneStays(s, e);
    NumberedStays(s, e);
    KnownStays(s, e);
  }

  // -- what a quit leaves ------------------------------------------------------------------

  predicate NoQuit(es: seq<Step>) { forall i :: 0 <= i < |es| ==> !es[i].Quit? }

  /** Whatever goes on after a quit, kept apart and with no other quit, the app leaves no
      mixer behind. */
  ghost predicate LeavesNothing(s: State) {
    forall es :: AllApart(Next(s, Quit), es) && NoQuit(es) && After(Next(s, Quit), es).quitter.Gone?
      ==> After(Next(s, Quit), es).alive == {}
  }

  /** The same with any number of other quits. */
  ghost predicate LeavesNothingEver(s: State) {
    forall es :: AllApart(Next(s, Quit), es) && After(Next(s, Quit), es).quitter.Gone?
      ==> After(Next(s, Quit), es).alive == {}
  }

  /** No restart has taken the old mixer without having put a new one in its place, and no
      connect is under way: a mixer that runs is the one held. */
  predicate Settled(s: State) { !Busy(s.holder) && Unconnected(s) }

  /** What runs is what the one quit is stopping. */
  predicate Closing(s: State) {
    && Settled(s) && s.local.None? && s.alive <= WindingUp(s)
    && (forall p, q :: p in WindingUp(s) && q in WindingUp(s) ==> p == q)
    && (Idle(s) ==> s.alive == {}) && (s.quitter.Gone? ==> s.alive == {}) && !s.quitter.Staying?
  }

  lemma ClosingStays(s: State, e: Step)
    requires Closing(s) && Apart(s, e) && !e.Quit?
    ensures Closing(Next(s, e))
  {
  }

  lemma {:induction false} ClosingEnds(s: State, es: seq<Step>)
    requires Closing(s) && AllApart(s, es) && NoQuit(es)
    ensures Closing(After(s, es))
    decreases |es|
  {
    if |es| > 0 {
      ClosingStays(s, es[0]);
      assert forall i :: 0 <= i < |es| - 1 ==> es[1..][i] == es[i + 1];
      ClosingEnds(Next(s, es[0]), es[1..]);
    }
  }

  /** Nothing runs and nothing will. */
  predicate Closed(s: State) { Settled(s) && s.local.None? && s.alive == {} && !s.quitter.Staying? }

  lemma {:induction false} ClosedStays(s: State, es: seq<Step>)
    requires Closed(s) && AllApart(s, es)
    ensures Closed(After(s, es))
    decreases |es|
  {
    if |es| > 0 {
      assert Closed(Next(s, es[0]));
      ClosedStays(Next(s, es[0]), es[1..]);
    }
  }

  // -- and when it leaves one ----------------------------------------------------------------

  /** A run from here, without another quit, that ends with the app gone and a mixer
      running. */
  predicate Abandons(s: State, es: seq<Step>) {
    AllApart(s, es) && NoQuit(es) && After(s, es).quitter.Gone? && After(s, es).alive != {}
  }

  lemma Before(s: State, e: Step, rest: seq<Step>)
    requires Apart(s, e) && !e.Quit? && Abandons(Next(s, e), rest)
    ensures Abandons(s, [e] + rest)
  {
    var es := [e] + rest;
    assert es[0] == e && es[1..] == rest;
  }

  /** What quits there are can be over. */
  predicate Ending(s: State) { Inv(s) && s.quitter.Winding? && (s.quitter.idle || s.quitter.priors != {}) }

  lemma Leave(s: State) returns (es: seq<Step>)
    requires Ending(s) && exists p :: p in s.alive && p !in WindingUp(s)
    ensures Abandons(s, es)
  {
    var p :| p in s.alive && p !in WindingUp(s);
    var e := Wound(None);
    if !s.quitter.idle {
      var prior :| prior in s.quitter.priors;
      e := Wound(Some(prior));
    }
    es := [e];
    assert es[1..] == [];
    assert p in Next(s, e).alive;
    assert After(Next(s, e), []) == Next(s, e);
  }

  lemma FromStarting(s: State) returns (es: seq<Step>)
    requires Ending(s) && s.holder.Starting?
    ensures Abandons(s, es)
  {
    OneStep(s, Spawn(true));
    assert s.next in Next(s, Spawn(true)).alive;
    var rest := Leave(Next(s, Spawn(true)));
    Before(s, Spawn(true), rest);
    es := [Spawn(true)] + rest;
  }

  lemma FromStopping(s: State) returns (es: seq<Step>)
    requires Ending(s) && s.holder.Stopping?
    ensures Abandons(s, es)
  {
    OneStep(s, Stopped);
    var rest := FromStarting(Next(s, Stopped));
    Before(s, Stopped, rest);
    es := [Stopped] + rest;
  }

  lemma FromTaking(s: State) returns (es: seq<Step>)
    requires Ending(s) && s.holder.Taking? && s.local.Some?
    ensures Abandons(s, es)
  {
    OneStep(s, TakeLocal);
    var rest := FromStopping(Next(s, TakeLocal));
    Before(s, TakeLocal, rest);
    es := [TakeLocal] + rest;
  }

  lemma FromAsked(s: State) returns (es: seq<Step>)
    requires Ending(s) && s.holder.Free? && s.local.Some? && Unconnected(s) && s.tasks > 0
    ensures Abandons(s, es)
  {
    OneStep(s, Swap);
    var rest := FromTaking(Next(s, Swap));
    Before(s, Swap, rest);
    es := [Swap] + rest;
  }

  lemma FromFree(s: State) returns (es: seq<Step>)
    requires Ending(s) && s.holder.Free? && s.local.Some? && Unconnected(s)
    ensures Abandons(s, es)
  {
    OneStep(s, Ask);
    var rest := FromAsked(Next(s, Ask));
    Before(s, Ask, rest);
    es := [Ask] + rest;
  }

  lemma FromLeaving(s: State) returns (es: seq<Step>)
    requires Ending(s) && s.holder.Leaving? && s.local.Some?
    ensures Abandons(s, es)
  {
    OneStep(s, Let);
    var rest := FromFree(Next(s, Let));
    Before(s, Let, rest);
    es := [Let] + rest;
  }

  lemma FromWaiting(s: State) returns (es: seq<Step>)
    requires Ending(s) && s.holder.Waiting?
    ensures Abandons(s, es)
  {
    OneStep(s, Answer(true));
    var rest := FromLeaving(Next(s, Answer(true)));
    Before(s, Answer(true), rest);
    es := [Answer(true)] + rest;
  }

  lemma FromConnect(s: State) returns (es: seq<Step>)
    requires Ending(s) && !Unconnected(s)
    ensures Abandons(s, es)
  {
    if s.looking > 0 {
      OneStep(s, Launch(true));
      assert s.next in Next(s, Launch(true)).alive;
      var rest := Leave(Next(s, Launch(true)));
      Before(s, Launch(true), rest);
      es := [Launch(true)] + rest;
    } else {
      var pid :| pid in s.launched;
      var e := Reached(pid, true);
      OneStep(s, e);
      assert s.launched == {pid};
      var rest := FromFree(Next(s, e));
      Before(s, e, rest);
      es := [e] + rest;
    }
  }

  lemma Unsettled(s: State) returns (es: seq<Step>)
    requires Ending(s) && !Settled(s)
    ensures Abandons(s, es)
  {
    if !Unconnected(s) {
      es := FromConnect(s);
    } else {
      match s.holder
      case Stopping(_) => es := FromStopping(s);
      case Starting(_) => es := FromStarting(s);
      case Waiting(_, _) => es := FromWaiting(s);
    }
  }

  /** Of a quit, the first one, the app leaves no mixer behind whatever goes on meanwhile,
      but for another quit, exactly when it does not begin between a restart's taking the
      old mixer and its holding the new one, or beside a connect. With other quits it
      needs that no mixer runs at all. */
  lemma QuitLeavesNothingExactly(s: State)
    requires Inv(s) && s.quitter.Staying?
    ensures LeavesNothing(s) <==> Settled(s)
    ensures LeavesNothingEver(s) <==> Settled(s) && s.alive == {}
  {
    var t := Next(s, Quit);
    OneStep(s, Quit);
    if Settled(s) {
      forall es | AllApart(t, es) && NoQuit(es) && After(t, es).quitter.Gone? ensures After(t, es).alive == {} {
        ClosingEnds(t, es);
      }
      if s.alive == {} {
        forall es | AllApart(t, es) && After(t, es).quitter.Gone? ensures After(t, es).alive == {} {
          ClosedStays(t, es);
        }
      } else {
        QuitTwice(s);
        assert AllApart(t, [Quit, Wound(None)]);
      }
    } else {
      var es := Unsettled(t);
      assert Abandons(t, es);
    }
  }

  /** A second quit finds nothing to take and ends the app at once, while the first is
      still stopping the mixer. */
  lemma QuitTwice(s: State)
    requires Inv(s) && s.quitter.Staying?
    ensures var t := After(Next(s, Quit), [Quit, Wound(None)]); t.quitter.Gone? && t.alive == s.alive
    ensures AllApart(Next(s, Quit), [Quit, Wound(None)])
  {
    var t := Next(s, Quit);
    var es := [Quit, Wound(None)];
    assert es[1..] == [Wound(None)] && [Wound(None)][1..] == [];
    assert After(Next(t, Quit), [Wound(None)]) == After(Next(Next(t, Quit), Wound(None)), []);
    assert AllApart(Next(t, Quit), [Wound(None)]);
  }

  /** So does a first one that finds the mixer taken by a restart: it leaves at once, and
      the mixer runs on. */
  lemma QuitBesideARestart(now: nat)
    ensures var s := After(Start(now), [Ask, Swap, TakeLocal] + [Quit, Wound(None)]);
      s.quitter.Gone? && s.alive == {0}
  {
    AfterAll(Start(now), [Ask, Swap, TakeLocal], [Quit, Wound(None)]);
    Three(Start(now), Ask, Swap, TakeLocal);
    var s := Start(now).(local := None, restarting := true, holder := Stopping(0));
    assert Next(Next(Next(Start(now), Ask), Swap), TakeLocal) == s;
    assert [Quit, Wound(None)][1..] == [Wound(None)] && [Wound(None)][1..] == [];
    assert After(Next(s, Quit), [Wound(None)]) == Next(Next(s, Quit), Wound(None));
  }
}

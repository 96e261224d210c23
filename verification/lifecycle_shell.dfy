/** The shell's own functions, whole: what each does from its first statement to its
    last, with the other tasks doing as they please wherever it waits. */
module LifecycleShell {
  import opened Bytes
  import opened Lifecycle
  import opened LifecycleProof
  import opened LifecycleQuit

  // -- runs of the machine -----------------------------------------------------------

  /** Some run that keeps connects and restarts apart leads from one state to another. */
  ghost predicate CanReach(s: State, t: State) { exists es :: AllApart(s, es) && After(s, es) == t }

  lemma ReachesItself(s: State)
    ensures CanReach(s, s)
  {
    assert AllApart(s, []) && After(s, []) == s;
  }

  lemma {:induction false} ApartOn(s: State, a: seq<Step>, e: Step)
    requires AllApart(s, a) && Apart(After(s, a), e)
    ensures AllApart(s, a + [e]) && After(s, a + [e]) == Next(After(s, a), e)
    decreases |a|
  {
    if |a| == 0 {
      assert a + [e] == [e] && [e][1..] == [];
    } else {
      ApartOn(Next(s, a[0]), a[1..], e);
      assert (a + [e])[1..] == a[1..] + [e];
    }
  }

  /** One more step, and the invariant with it. */
  lemma ReachesOn(s: State, t: State, e: Step)
    requires CanReach(s, t) && Inv(s) && Apart(t, e)
    ensures CanReach(s, Next(t, e)) && Inv(Next(t, e))
  {
    var es :| AllApart(s, es) && After(s, es) == t;
    ApartOn(s, es, e);
    assert AllApart(s, es + [e]);
    OneAlways(s, es + [e]);
  }

  /** A step of anyone but the task that holds the flag; no connect begins. */
  predicate Elsewhere(e: Step) {
    !e.TakeLocal? && !e.Stopped? && !e.Spawn? && !e.Answer? && !e.Let? && !e.Connect?
  }

  lemma ElsewhereKeeps(s: State, e: Step)
    requires Inv(s) && s.restarting && Unconnected(s) && Elsewhere(e)
    ensures Apart(s, e)
    ensures var t := Next(s, e);
      && t.restarting && t.holder == s.holder && Unconnected(t) && t.next == s.next
      && (t.quitter.Staying? ==> s.quitter.Staying? && t.local == s.local)
  {
  }

  /** A step of another task that is kept apart, beside one that has a crash to decide
      on: the decision on that one is not another's. */
  predicate BesideJudging(s: State, e: Step) { Apart(s, e) && (e.Judge? ==> s.judged > 1) }

  /** A step of another task that is kept apart, beside the one connect. */
  predicate BesideConnecting(s: State, e: Step) { Apart(s, e) && !e.Launch? && !e.Reached? }

  /** A step of another task that is kept apart, beside the quit that took this mixer. */
  predicate BesideLeaving(s: State, e: Step, prior: Option<Pid>) { Apart(s, e) && !(prior.Some? && e == Wound(prior)) }

  /** What came of a restart. `Left` when the app was gone before it was over. */
  datatype Outcome = Refused | NoMixer | Failed | Restarted(pid: Pid) | Left

  /** A restart nobody quits beside: there was no mixer to restart, or one of the two
      starts has a process that answers, or neither has. */
  predicate Expected(outcome: Outcome, prior: Option<Pid>, first: (bool, bool), second: (bool, bool)) {
    if prior.None? then outcome.NoMixer?
    else if first == (true, true) || second == (true, true) then outcome.Restarted? else outcome.Failed?
  }

  class Shell {
    var now: nat
    var local: Option<Pid>
    var alive: set<Pid>
    var next: Pid
    var ended: set<Pid>
    var restarting: bool
    var holder: Holder
    var tasks: nat
    var reports: map<Pid, Option<int>>
    var judged: nat
    var last: Option<nat>
    var revived: seq<nat>
    var looking: nat
    var launched: set<Pid>
    var quitter: Quitter

    function Abs(): State
      reads this
    {
      State(now, local, alive, next, ended, restarting, holder, tasks, reports, judged, last, revived,
            looking, launched, quitter)
    }

    ghost predicate Valid()
      reads this
    {
      Inv(Abs())
    }

    constructor (now: nat)
      ensures Valid() && Abs() == Start(now)
    {
      this.now, local, alive, next, ended := now, Some(0), {0}, 1, {};
      restarting, holder, tasks := false, Free, 0;
      reports, judged, last, revived := map[], 0, None, [];
      looking, launched, quitter := 0, {}, Staying;
      new;
      Starts(now);
    }

    /** A step of another task. */
    method Other(e: Step)
      modifies this
      ensures Abs() == Next(old(Abs()), e)
    {
      Become(Next(Abs(), e));
    }

    method Become(t: State)
      modifies this
      ensures Abs() == t
    {
      BecomeHalf(t);
      reports, judged, last, revived := t.reports, t.judged, t.last, t.revived;
      looking, launched, quitter := t.looking, t.launched, t.quitter;
    }

    method BecomeHalf(t: State)
      modifies this
      ensures now == t.now && local == t.local && alive == t.alive && next == t.next && ended == t.ended
      ensures restarting == t.restarting && holder == t.holder && tasks == t.tasks
    {
      now, local, alive, next, ended := t.now, t.local, t.alive, t.next, t.ended;
      restarting, holder, tasks := t.restarting, t.holder, t.tasks;
    }

    /** What happens while the task that holds the flag waits. */
    method Meanwhile(others: seq<Step>)
      requires Valid() && restarting && Unconnected(Abs()) && forall i :: 0 <= i < |others| ==> Elsewhere(others[i])
      modifies this
      ensures Valid() && CanReach(old(Abs()), Abs())
      ensures restarting && holder == old(holder) && Unconnected(Abs()) && next == old(next)
      ensures quitter.Staying? ==> old(quitter).Staying? && local == old(local)
    {
      ReachesItself(Abs());
      for i := 0 to |others|
        invariant Valid() && CanReach(old(Abs()), Abs())
        invariant restarting && holder == old(holder) && Unconnected(Abs()) && next == old(next)
        invariant quitter.Staying? ==> old(quitter).Staying? && local == old(local)
      {
        ElsewhereKeeps(Abs(), others[i]);
        ReachesOn(old(Abs()), Abs(), others[i]);
        Other(others[i]);
      }
    }

    /** Kill a process; one that has gone already is left alone. */
    method Kill(pid: Pid)
      modifies this`alive, this`reports
      ensures Abs() == Ended(old(Abs()), pid, None) && pid !in alive
    {
      if pid in alive {
        alive := alive - {pid};
        reports := reports[pid := None];
      }
    }

    /** The same, as the run goes on. */
    method Wait(ghost start: State, others: seq<Step>)
      requires Inv(start) && CanReach(start, Abs())
      requires Valid() && restarting && Unconnected(Abs()) && forall i :: 0 <= i < |others| ==> Elsewhere(others[i])
      modifies this
      ensures Valid() && CanReach(start, Abs())
      ensures restarting && holder == old(holder) && Unconnected(Abs()) && next == old(next)
      ensures quitter.Staying? ==> old(quitter).Staying? && local == old(local)
    {
      ghost var from := Abs();
      Meanwhile(others);
      ReachesThrough(start, from, Abs());
    }

    /** The held mixer is taken out of the shared state, to be stopped. */
    method TakeHeld(ghost start: State) returns (prior: Option<Pid>)
      requires Inv(start) && CanReach(start, Abs()) && holder.Taking? && !quitter.Gone?
      modifies this`local, this`holder
      ensures prior == old(local) && local.None?
      ensures holder == if prior.Some? then Stopping(prior.value) else Leaving
      ensures Valid() && CanReach(start, Abs())
    {
      ReachesOn(start, Abs(), TakeLocal);
      prior := local;
      local := None;
      holder := if prior.Some? then Stopping(prior.value) else Leaving;
    }

    /** The old mixer is killed, if it has not gone: then there is none at all. */
    method StopHeld(ghost start: State)
      requires Inv(start) && CanReach(start, Abs()) && Valid() && holder.Stopping? && !quitter.Gone?
      modifies this`alive, this`reports, this`holder
      ensures Valid() && CanReach(start, Abs()) && alive == {} && holder == Starting(true)
    {
      ReachesOn(start, Abs(), Stopped);
      Kill(holder.prior);
      holder := Starting(true);
    }

    /** `start_on`: a process is started and waited for. One that does not answer is
        killed, so that without an answer there is no mixer, as before. */
    method StartOn(ghost start: State, waiting: seq<Step>, spawned: bool, answers: bool) returns (pid: Option<Pid>)
      requires Inv(start) && CanReach(start, Abs()) && Valid() && Unconnected(Abs())
      requires restarting && holder.Starting? && !quitter.Gone?
      requires forall i :: 0 <= i < |waiting| ==> Elsewhere(waiting[i])
      modifies this
      ensures Valid() && CanReach(start, Abs()) && Unconnected(Abs()) && restarting && old(next) <= next
      ensures !quitter.Gone? && pid.None? ==>
        alive == {} && holder == if old(holder).again then Starting(false) else Leaving
      ensures !quitter.Gone? && pid.Some? ==>
        holder.Leaving? && local == pid && old(next) <= pid.value < next && alive <= {pid.value}
      ensures !quitter.Gone? ==> (pid.Some? <==> spawned && answers)
      ensures quitter.Staying? ==> old(quitter).Staying?
    {
      if !spawned {
        NotSpawned(start);
        return None;
      }
      var child := Launch(start);
      Wait(start, waiting);
      if quitter.Gone? {
        return None;
      }
      if answers {
        Answered(start);
        pid := Some(child);
      } else {
        Unanswered(start);
        pid := None;
      }
    }

    method NotSpawned(ghost start: State)
      requires Inv(start) && CanReach(start, Abs()) && Valid() && holder.Starting? && !quitter.Gone?
      modifies this`holder
      ensures Valid() && CanReach(start, Abs()) && alive == {}
      ensures holder == if old(holder).again then Starting(false) else Leaving
    {
      ReachesOn(start, Abs(), Spawn(false));
      holder := if holder.again then Starting(false) else Leaving;
    }

    method Answered(ghost start: State)
      requires Inv(start) && CanReach(start, Abs()) && Valid() && holder.Waiting? && !quitter.Gone?
      modifies this`local, this`holder
      ensures Valid() && CanReach(start, Abs()) && alive <= {old(holder).pid}
      ensures local == Some(old(holder).pid) && holder.Leaving?
    {
      ReachesOn(start, Abs(), Answer(true));
      local := Some(holder.pid);
      holder := Leaving;
    }

    method Unanswered(ghost start: State)
      requires Inv(start) && CanReach(start, Abs()) && Valid() && holder.Waiting? && !quitter.Gone?
      modifies this`alive, this`reports, this`holder
      ensures Valid() && CanReach(start, Abs()) && alive == {}
      ensures holder == if old(holder).again then Starting(false) else Leaving
    {
      ReachesOn(start, Abs(), Answer(false));
      Kill(holder.pid);
      holder := if holder.again then Starting(false) else Leaving;
    }

    method Launch(ghost start: State) returns (pid: Pid)
      requires Inv(start) && CanReach(start, Abs()) && Valid() && holder.Starting? && !quitter.Gone?
      modifies this`alive, this`next, this`holder
      ensures pid == old(next) && next == pid + 1 && holder == Waiting(pid, old(holder).again)
      ensures Valid() && CanReach(start, Abs())
    {
      ReachesOn(start, Abs(), Spawn(true));
      pid := next;
      alive := alive + {pid};
      next := next + 1;
      holder := Waiting(pid, holder.again);
    }

    // -- a restart ---------------------------------------------------------------------

    /** `restart_with`, whole. It is refused exactly when the flag is up, and then changes
        nothing; otherwise, unless the app is gone first, the flag is down again when it
        is over. Whatever the others do at its five waits there is never a second mixer,
        and a mixer it says it restarted is a new one, held unless somebody quit. */
    method RestartWith(meanwhile: seq<seq<Step>>, first: (bool, bool), second: (bool, bool)) returns (outcome: Outcome)
      requires Valid() && Unconnected(Abs()) && !quitter.Gone? && tasks > 0
      requires |meanwhile| == 5
      requires forall i, j :: 0 <= i < 5 && 0 <= j < |meanwhile[i]| ==> Elsewhere(meanwhile[i][j])
      modifies this
      ensures Valid() && CanReach(old(Abs()), Abs()) && |alive| <= 1
      ensures outcome.Refused? <==> old(restarting)
      ensures outcome.Refused? ==> Abs() == old(Abs()).(tasks := old(tasks) - 1)
      ensures outcome.Left? ==> quitter.Gone?
      ensures !outcome.Refused? && !outcome.Left? ==> !restarting && holder.Free?
      ensures outcome.Restarted? ==> old(next) <= outcome.pid < next
      ensures outcome.Restarted? && quitter.Staying? ==> local == Some(outcome.pid)
      ensures !outcome.Refused? && quitter.Staying? ==> Expected(outcome, old(local), first, second)
    {
      ghost var start := Abs();
      var refused := RaiseFlag();
      if refused {
        return Refused;
      }
      outcome := RestartOnce(start, meanwhile, first, second);
      OneIsOne(Abs());
      if !outcome.Left? {
        LowerFlag(start);
        OneIsOne(Abs());
      }
    }

    /** The swap: one task at a time gets past it. */
    method RaiseFlag() returns (refused: bool)
      requires Valid() && Unconnected(Abs()) && !quitter.Gone? && tasks > 0
      modifies this`tasks, this`restarting, this`holder
      ensures Valid() && CanReach(old(Abs()), Abs()) && refused == old(restarting) && |alive| <= 1
      ensures if refused then Abs() == old(Abs()).(tasks := old(tasks) - 1) else restarting && holder.Taking?
    {
      ReachesItself(Abs());
      ReachesOn(Abs(), Abs(), Swap);
      OneIsOne(Abs());
      refused := Raise();
    }

    method Raise() returns (refused: bool)
      requires !quitter.Gone? && tasks > 0
      modifies this`tasks, this`restarting, this`holder
      ensures Abs() == Next(old(Abs()), Swap) && refused == old(restarting) && restarting
      ensures if refused then holder == old(holder) else holder.Taking?
    {
      tasks := tasks - 1;
      refused, restarting := restarting, true;
      if !refused {
        holder := Taking;
      }
    }

    method LowerFlag(ghost start: State)
      requires Inv(start) && CanReach(start, Abs()) && Valid() && holder.Leaving? && !quitter.Gone?
      modifies this`restarting, this`holder
      ensures Valid() && CanReach(start, Abs()) && !restarting && holder.Free?
    {
      ReachesOn(start, Abs(), Let);
      restarting := false;
      holder := Free;
    }

    /** `restart_once`: the flag is up, and it ends about to let it down. */
    method RestartOnce(ghost start: State, meanwhile: seq<seq<Step>>, first: (bool, bool), second: (bool, bool))
      returns (outcome: Outcome)
      requires Inv(start) && CanReach(start, Abs()) && Valid() && Unconnected(Abs()) && !quitter.Gone?
      requires restarting && holder.Taking? && |meanwhile| == 5
      requires forall i, j :: 0 <= i < 5 && 0 <= j < |meanwhile[i]| ==> Elsewhere(meanwhile[i][j])
      modifies this
      ensures Valid() && CanReach(start, Abs()) && !outcome.Refused?
      ensures outcome.Left? ==> quitter.Gone?
      ensures !outcome.Left? ==> restarting && holder.Leaving? && !quitter.Gone? && Unconnected(Abs())
      ensures outcome.Restarted? ==> old(next) <= outcome.pid < next
      ensures outcome.Restarted? && quitter.Staying? ==> local == Some(outcome.pid)
      ensures quitter.Staying? ==> old(quitter).Staying? && Expected(outcome, old(local), first, second)
    {
      Wait(start, meanwhile[0]);
      if quitter.Gone? { return Left; }
      var prior := TakeHeld(start);
      if prior.None? { return NoMixer; }
      Wait(start, meanwhile[1]);
      if quitter.Gone? { return Left; }
      StopHeld(start);
      var pid := StartEither(start, meanwhile[2], meanwhile[3], first, second);
      if quitter.Gone? { return Left; }
      if pid.None? { return Failed; }
      Wait(start, meanwhile[4]);
      if quitter.Gone? { return Left; }
      outcome := Restarted(pid.value);
    }

    /** On the old mixer's port, and when that fails on another. */
    method StartEither(ghost start: State, waiting: seq<Step>, again: seq<Step>, first: (bool, bool), second: (bool, bool))
      returns (pid: Option<Pid>)
      requires Inv(start) && CanReach(start, Abs()) && Valid() && Unconnected(Abs())
      requires restarting && holder == Starting(true) && !quitter.Gone?
      requires forall i :: 0 <= i < |waiting| ==> Elsewhere(waiting[i])
      requires forall i :: 0 <= i < |again| ==> Elsewhere(again[i])
      modifies this
      ensures Valid() && CanReach(start, Abs()) && Unconnected(Abs()) && restarting
      ensures !quitter.Gone? ==> holder.Leaving?
      ensures !quitter.Gone? && pid.Some? ==> local == pid && old(next) <= pid.value < next
      ensures !quitter.Gone? ==> (pid.Some? <==> first == (true, true) || second == (true, true))
      ensures quitter.Staying? ==> old(quitter).Staying?
    {
      pid := StartOn(start, waiting, first.0, first.1);
      if !quitter.Gone? && pid.None? {
        pid := StartOn(start, again, second.0, second.1);
      }
    }

    // -- an exit ------------------------------------------------------------------------

    /** What the others do between the reading of an exit and the lock on when the last
        crash was answered: of the steps given, those that can be taken beside it. */
    method Between(ghost start: State, others: seq<Step>)
      requires Inv(start) && CanReach(start, Abs()) && Valid() && judged > 0
      modifies this
      ensures Valid() && CanReach(start, Abs()) && judged > 0 && old(revived) <= revived
    {
      for i := 0 to |others|
        invariant Valid() && CanReach(start, Abs()) && judged > 0 && old(revived) <= revived
      {
        if BesideJudging(Abs(), others[i]) {
          ReachesOn(start, Abs(), others[i]);
          JudgingKeeps(Abs(), others[i]);
          Other(others[i]);
        }
      }
    }

    /** The end of `record` and `revive::after_exit`, whole. A crash is answered exactly
        when it is one, the process was still the mixer this app held when the exit was
        read, and no crash, not even one decided on in between, was answered in the
        minute before the lock was had; an answer is a task and the time of it. */
    method Terminated(pid: Pid, others: seq<Step>) returns (answered: bool, ghost at: State)
      requires Valid() && pid in reports && !quitter.Gone?
      modifies this
      ensures Valid() && CanReach(old(Abs()), Abs())
      ensures CanReach(old(Abs()), at) && old(revived) <= at.revived
      ensures answered <==>
        IsCrash(old(reports)[pid]) && old(local) == Some(pid) && !Soon(at) && !at.quitter.Gone?
      ensures answered ==> revived == at.revived + [now] && now == at.now && tasks == at.tasks + 1
      ensures !answered ==> revived == at.revived
      ensures old(reports)[pid] in {Some(75), Some(76), Some(77)} ==>
        !answered && tasks == old(tasks) + 1 && judged == old(judged) && last == old(last)
    {
      ghost var start := Abs();
      var ours := ReadExit(pid);
      at := Abs();
      if !ours {
        return false, at;
      }
      Between(start, others);
      at := Abs();
      if quitter.Gone? {
        return false, at;
      }
      answered := Decided(start);
    }

    /** The exit is read: one that asks for a restart gets its task at once. */
    method ReadExit(pid: Pid) returns (ours: bool)
      requires Valid() && pid in reports && !quitter.Gone?
      modifies this
      ensures Valid() && CanReach(old(Abs()), Abs()) && revived == old(revived)
      ensures ours <==> IsCrash(old(reports)[pid]) && old(local) == Some(pid)
      ensures ours ==> judged > 0
      ensures old(reports)[pid] in {Some(75), Some(76), Some(77)} ==>
        tasks == old(tasks) + 1 && judged == old(judged) && last == old(last)
    {
      ReachesItself(Abs());
      ReachesOn(Abs(), Abs(), Report(pid));
      ours := Dispatch(pid);
    }

    method Dispatch(pid: Pid) returns (ours: bool)
      requires pid in reports
      modifies this`reports, this`ended, this`tasks, this`judged
      ensures Abs() == Read(old(Abs()), pid)
      ensures ours <==> IsCrash(old(reports)[pid]) && old(local) == Some(pid)
      ensures ours ==> judged == old(judged) + 1
      ensures old(reports)[pid] in {Some(75), Some(76), Some(77)} ==> tasks == old(tasks) + 1 && judged == old(judged)
    {
      var code := reports[pid];
      reports := reports - {pid};
      ended := ended + {pid};
      ours := false;
      if code == Some(RESTART_EXIT_CODE) || code == Some(SHARE_EXIT_CODE) || code == Some(LOCAL_EXIT_CODE) {
        tasks := tasks + 1;
      } else {
        ours := code != Some(0) && local == Some(pid);
        judged := if ours then judged + 1 else judged;
      }
    }

    /** With the lock held. */
    method Decided(ghost start: State) returns (answered: bool)
      requires Inv(start) && CanReach(start, Abs()) && Valid() && judged > 0 && !quitter.Gone?
      modifies this`judged, this`last, this`revived, this`tasks
      ensures Valid() && CanReach(start, Abs()) && answered == !Soon(old(Abs()))
      ensures revived == if answered then old(revived) + [now] else old(revived)
      ensures tasks == if answered then old(tasks) + 1 else old(tasks)
    {
      ReachesOn(start, Abs(), Judge);
      answered := Decide();
    }

    method Decide() returns (answered: bool)
      requires judged > 0
      modifies this`judged, this`last, this`revived, this`tasks
      ensures Abs() == Judged(old(Abs())) && answered == !Soon(old(Abs()))
      ensures revived == if answered then old(revived) + [now] else old(revived)
      ensures tasks == if answered then old(tasks) + 1 else old(tasks)
    {
      judged := judged - 1;
      answered := !(last.Some? && last.value <= now && now - last.value < TOO_SOON);
      if answered {
        last := Some(now);
        revived := revived + [now];
        tasks := tasks + 1;
      }
    }

    // -- a connect ------------------------------------------------------------------------

    /** `local_target`, whole, begun with no restart, quit or other connect under way: it
        answers the mixer that is held and has not ended, or starts one, and there is
        never a second. */
    method LocalTarget(looking': seq<Step>, waiting: seq<Step>, spawned: bool, answers: bool) returns (pid: Option<Pid>)
      requires Valid() && holder.Free? && quitter.Staying? && Unconnected(Abs())
      modifies this
      ensures Valid() && CanReach(old(Abs()), Abs()) && |alive| <= 1
      ensures old(local).Some? && old(local).value !in old(ended) ==> pid == old(local) && Abs() == old(Abs())
      ensures !(old(local).Some? && old(local).value !in old(ended)) ==>
        && (pid.Some? ==> local == pid && old(next) <= pid.value < next)
        && (!quitter.Gone? ==> (pid.Some? <==> spawned && answers))
      ensures !quitter.Gone? ==> Unconnected(Abs())
    {
      ghost var start := Abs();
      ReachesItself(start);
      OneIsOne(Abs());
      if local.Some? && local.value !in ended {
        return local;
      }
      BeginConnect(start);
      pid := Ensure(start, looking', waiting, spawned, answers);
      OneAtMost();
    }

    lemma OneAtMost()
      requires Valid()
      ensures |alive| <= 1
    {
      OneIsOne(Abs());
    }

    method BeginConnect(ghost start: State)
      requires Inv(start) && CanReach(start, Abs()) && Valid() && holder.Free? && quitter.Staying? && Unconnected(Abs())
      requires local.None? || local.value in ended
      modifies this`looking
      ensures Valid() && CanReach(start, Abs()) && looking == 1 && launched == {}
    {
      ReachesOn(start, Abs(), Connect);
      looking := looking + 1;
    }

    /** `ensure`, whole, by the one connect there is. */
    method Ensure(ghost start: State, looking': seq<Step>, waiting: seq<Step>, spawned: bool, answers: bool)
      returns (pid: Option<Pid>)
      requires Inv(start) && CanReach(start, Abs()) && Valid() && looking == 1 && launched == {}
      modifies this
      ensures Valid() && CanReach(start, Abs()) && (!quitter.Gone? ==> Unconnected(Abs()))
      ensures pid.Some? ==> local == pid && old(next) <= pid.value < next
      ensures !quitter.Gone? ==> (pid.Some? <==> spawned && answers)
    {
      Beside(start, looking');
      if quitter.Gone? {
        return None;
      }
      if !spawned {
        NotLaunched(start);
        return None;
      }
      var child := Started(start);
      Beside(start, waiting);
      if quitter.Gone? {
        return None;
      }
      pid := Connected(start, child, answers);
    }

    /** What the others do while a connect waits: of the steps given, those that can be
        taken beside it. */
    method Beside(ghost start: State, others: seq<Step>)
      requires Inv(start) && CanReach(start, Abs()) && Valid() && !Unconnected(Abs())
      modifies this
      ensures Valid() && CanReach(start, Abs())
      ensures looking == old(looking) && launched == old(launched) && next == old(next)
    {
      for i := 0 to |others|
        invariant Valid() && CanReach(start, Abs())
        invariant looking == old(looking) && launched == old(launched) && next == old(next)
      {
        if BesideConnecting(Abs(), others[i]) {
          ReachesOn(start, Abs(), others[i]);
          ConnectingKeeps(Abs(), others[i]);
          Other(others[i]);
        }
      }
    }

    method NotLaunched(ghost start: State)
      requires Inv(start) && CanReach(start, Abs()) && Valid() && looking == 1 && launched == {} && !quitter.Gone?
      modifies this`looking
      ensures Valid() && CanReach(start, Abs()) && Unconnected(Abs())
    {
      ReachesOn(start, Abs(), Step.Launch(false));
      looking := looking - 1;
    }

    method Started(ghost start: State) returns (pid: Pid)
      requires Inv(start) && CanReach(start, Abs()) && Valid() && looking == 1 && launched == {} && !quitter.Gone?
      modifies this`alive, this`next, this`looking, this`launched
      ensures Valid() && CanReach(start, Abs())
      ensures pid == old(next) && next == pid + 1 && looking == 0 && launched == {pid}
    {
      ReachesOn(start, Abs(), Step.Launch(true));
      pid := StartProcess();
    }

    method StartProcess() returns (pid: Pid)
      requires looking > 0 && !quitter.Gone?
      modifies this`alive, this`next, this`looking, this`launched
      ensures Abs() == Next(old(Abs()), Step.Launch(true)) && pid == old(next) && next == pid + 1
      ensures looking == old(looking) - 1 && launched == old(launched) + {pid}
    {
      pid := next;
      alive := alive + {pid};
      next := next + 1;
      looking, launched := looking - 1, launched + {pid};
    }

    method Connected(ghost start: State, child: Pid, answers: bool) returns (pid: Option<Pid>)
      requires Inv(start) && CanReach(start, Abs()) && Valid() && looking == 0 && launched == {child} && !quitter.Gone?
      modifies this`alive, this`reports, this`local, this`launched
      ensures Valid() && CanReach(start, Abs()) && Unconnected(Abs())
      ensures if answers then pid == Some(child) && local == pid else pid.None?
    {
      ReachesOn(start, Abs(), Reached(child, answers));
      if answers {
        local := Some(child);
        pid := local;
      } else {
        Kill(child);
        pid := None;
      }
      launched := launched - {child};
    }

    // -- leaving ---------------------------------------------------------------------------

    /** `wind_down`, whole. When it is this quit that ends the app, the mixer it took does
        not run; and when it began as the first, not between a restart's taking the old
        mixer and its holding the new one, and beside no connect, none does. */
    method WindDown(others: seq<Step>) returns (own: bool)
      requires Valid() && !quitter.Gone?
      modifies this
      ensures Valid() && CanReach(old(Abs()), Abs()) && quitter.Gone?
      ensures own && old(local).Some? ==> old(local).value !in alive
      ensures own && old(quitter).Staying? && Settled(old(Abs())) ==> alive == {}
      ensures |others| == 0 ==> own
    {
      ghost var start := Abs();
      ReachesItself(start);
      ReachesOn(start, Abs(), Quit);
      var prior := TakeToStop();
      own := Wind(start, prior, others);
    }

    method TakeToStop() returns (prior: Option<Pid>)
      requires !quitter.Gone?
      modifies this`local, this`quitter
      ensures Abs() == Next(old(Abs()), Quit) && prior == old(local) && quitter.Winding? && Held(Abs(), prior)
    {
      prior := local;
      local := None;
      quitter := Winding(WindingUp(Abs()) + Only(prior), Idle(Abs()) || prior.None?);
    }

    method Wind(ghost start: State, prior: Option<Pid>, others: seq<Step>) returns (own: bool)
      requires Inv(start) && CanReach(start, Abs()) && Valid() && quitter.Winding? && Held(Abs(), prior)
      modifies this
      ensures Valid() && CanReach(start, Abs()) && quitter.Gone?
      ensures own && prior.Some? ==> prior.value !in alive
      ensures own && OnlyIts(old(Abs()), prior) ==> alive == {}
      ensures |others| == 0 ==> own
    {
      for i := 0 to |others|
        invariant Valid() && CanReach(start, Abs()) && !quitter.Staying? && Held(Abs(), prior)
        invariant OnlyIts(old(Abs()), prior) ==> OnlyIts(Abs(), prior)
        invariant i == 0 ==> quitter.Winding?
      {
        if BesideLeaving(Abs(), others[i], prior) {
          ReachesOn(start, Abs(), others[i]);
          LeavingKeeps(Abs(), others[i], prior);
          Other(others[i]);
        }
      }
      own := !quitter.Gone?;
      if own {
        WindUp(start, prior);
      }
    }

    method WindUp(ghost start: State, prior: Option<Pid>)
      requires Inv(start) && CanReach(start, Abs()) && Valid() && quitter.Winding? && Held(Abs(), prior)
      modifies this`alive, this`reports, this`quitter
      ensures Valid() && CanReach(start, Abs()) && quitter.Gone? && alive <= old(alive)
      ensures prior.Some? ==> prior.value !in alive
    {
      ReachesOn(start, Abs(), Wound(prior));
      if prior.Some? {
        Kill(prior.value);
      }
      quitter := Gone(quitter.priors);
    }
  }

  /** A quit has this to stop, or nothing to wait for. */
  predicate Held(s: State, prior: Option<Pid>) {
    !s.quitter.Staying? && if prior.Some? then prior.value in WindingUp(s) else s.quitter.Winding? ==> s.quitter.idle
  }

  /** What runs, if anything, is what it has to stop. */
  predicate OnlyIts(s: State, prior: Option<Pid>) { Settled(s) && s.local.None? && s.alive <= Only(prior) }

  lemma JudgingKeeps(s: State, e: Step)
    requires BesideJudging(s, e) && s.judged > 0
    ensures Next(s, e).judged > 0 && s.revived <= Next(s, e).revived
  {
  }

  lemma ConnectingKeeps(s: State, e: Step)
    requires One(s) && !Unconnected(s) && BesideConnecting(s, e)
    ensures Next(s, e).looking == s.looking && Next(s, e).launched == s.launched && Next(s, e).next == s.next
  {
  }

  lemma LeavingKeeps(s: State, e: Step, prior: Option<Pid>)
    requires BesideLeaving(s, e, prior) && Held(s, prior)
    ensures Held(Next(s, e), prior)
    ensures OnlyIts(s, prior) ==> OnlyIts(Next(s, e), prior)
  {
  }

  lemma ReachesThrough(s: State, t: State, u: State)
    requires CanReach(s, t) && CanReach(t, u)
    ensures CanReach(s, u)
  {
    var a :| AllApart(s, a) && After(s, a) == t;
    var b :| AllApart(t, b) && After(t, b) == u;
    ApartThrough(s, a, b);
    assert AllApart(s, a + b) && After(s, a + b) == u;
  }

  lemma {:induction false} ApartThrough(s: State, a: seq<Step>, b: seq<Step>)
    requires AllApart(s, a) && AllApart(After(s, a), b)
    ensures AllApart(s, a + b) && After(s, a + b) == After(After(s, a), b)
    decreases |a|
  {
    if |a| == 0 {
      assert a + b == b;
    } else {
      ApartThrough(Next(s, a[0]), a[1..], b);
      assert (a + b)[1..] == a[1..] + b;
    }
  }
}

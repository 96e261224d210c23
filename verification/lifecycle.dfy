/** The mixer a desktop window runs: restarts, crashes, connects and quits. Waits end
    a step, so anything may happen between them. */
module Lifecycle {
  import opened Bytes

  const RESTART_EXIT_CODE: int := 75
  const SHARE_EXIT_CODE: int := 76
  const LOCAL_EXIT_CODE: int := 77

  /** In milliseconds: how long after an answered crash no other is answered. */
  const TOO_SOON: nat := 60000

  type Pid = nat

  /** The one task inside `restart_once`: the flag just raised; the old mixer taken and
      being stopped; about to start another, `again` saying whether a second port is
      left to try; waiting for it to answer; and on the way out, flag still up. */
  datatype Holder =
    | Free
    | Taking
    | Stopping(prior: Pid)
    | Starting(again: bool)
    | Waiting(pid: Pid, again: bool)
    | Leaving

  /** Quits under way: the mixers they took to stop, and whether one found none to take
      and so has nothing to wait for. The first that is done ends the app. */
  datatype Quitter = Staying | Winding(priors: set<Pid>, idle: bool) | Gone(priors: set<Pid>)

  /** `local` is the mixer this app holds, `alive` the processes there are, `next` the
      next process id, `tasks` the restarts asked for and not begun, `reports` the
      exits not yet read, `judged` the crashes read and not decided, `revived` when
      each crash was answered. Any number of connects may be under way: `looking` have
      found nothing running and are about to start a mixer, and those in `launched`
      wait for the one they started. */
  datatype State = State(
    now: nat, local: Option<Pid>, alive: set<Pid>, next: Pid, ended: set<Pid>,
    restarting: bool, holder: Holder, tasks: nat,
    reports: map<Pid, Option<int>>, judged: nat, last: Option<nat>, revived: seq<nat>,
    looking: nat, launched: set<Pid>, quitter: Quitter)

  /** A shell that holds a mixer it has just started. */
  function Start(now: nat): State {
    State(now, Some(0), {0}, 1, {}, false, Free, 0, map[], 0, None, [], 0, {}, Staying)
  }

  datatype Revive = Leave | Restart | GiveUp

  function Decide(code: Option<int>, ours: bool, sinceLast: Option<nat>): Revive {
    if code == Some(0) || !ours then Leave
    else if sinceLast.Some? && sinceLast.value < TOO_SOON then GiveUp
    else Restart
  }

  predicate AsksForRestart(code: Option<int>) {
    code == Some(RESTART_EXIT_CODE) || code == Some(SHARE_EXIT_CODE) || code == Some(LOCAL_EXIT_CODE)
  }

  datatype Step =
    | Tick(ms: nat)
    | Exit(pid: Pid, code: Option<int>)
    | Report(pid: Pid)
    | Judge
    | Ask
    | Swap
    | TakeLocal
    | Stopped
    | Spawn(ok: bool)
    | Answer(ok: bool)
    | Let
    | Connect
    | Launch(ok: bool)
    | Reached(pid: Pid, ok: bool)
    | Quit
    | Wound(prior: Option<Pid>)

  /** A process ends, by itself or killed: the second is a no-op if it has gone. */
  function Ended(s: State, pid: Pid, code: Option<int>): State {
    if pid !in s.alive then s else s.(alive := s.alive - {pid}, reports := s.reports[pid := code])
  }

  /** An exit is read: one that asks for a restart gets a task, any other is judged by
      whether the process is still the mixer this app holds. */
  function Read(s: State, pid: Pid): State {
    if pid !in s.reports then s
    else
      var code := s.reports[pid];
      var t := s.(reports := s.reports - {pid}, ended := s.ended + {pid});
      if AsksForRestart(code) then t.(tasks := s.tasks + 1)
      else if Decide(code, s.local == Some(pid), None).Restart? then t.(judged := s.judged + 1)
      else t
  }

  /** The lock on when the last crash was answered is held while this one is decided. */
  function Judged(s: State): State {
    if s.judged == 0 then s
    else
      var t := s.(judged := s.judged - 1);
      var since := if s.last.Some? && s.last.value <= s.now then Some(s.now - s.last.value) else None;
      if Decide(None, true, since).Restart?
      then t.(last := Some(s.now), revived := s.revived + [s.now], tasks := s.tasks + 1)
      else t
  }

  function Next(s: State, e: Step): State {
    if s.quitter.Gone? then s
    else
      match e
      case Tick(ms) => s.(now := s.now + ms)
      case Exit(pid, code) => Ended(s, pid, code)
      case Report(pid) => Read(s, pid)
      case Judge => Judged(s)
      case Ask => s.(tasks := s.tasks + 1)
      case Swap =>
        if s.tasks == 0 then s
        else if s.restarting then s.(tasks := s.tasks - 1)
        else s.(tasks := s.tasks - 1, restarting := true, holder := Taking)
      case TakeLocal =>
        if !s.holder.Taking? then s
        else if s.local.None? then s.(holder := Leaving)
        else s.(local := None, holder := Stopping(s.local.value))
      case Stopped =>
        if s.holder.Stopping? then Ended(s, s.holder.prior, None).(holder := Starting(true)) else s
      case Spawn(ok) =>
        if !s.holder.Starting? then s
        else if ok then s.(alive := s.alive + {s.next}, next := s.next + 1, holder := Waiting(s.next, s.holder.again))
        else s.(holder := if s.holder.again then Starting(false) else Leaving)
      case Answer(ok) =>
        if !s.holder.Waiting? then s
        else if ok then s.(local := Some(s.holder.pid), holder := Leaving)
        else Ended(s, s.holder.pid, None).(holder := if s.holder.again then Starting(false) else Leaving)
      case Let => if s.holder.Leaving? then s.(restarting := false, holder := Free) else s
      case Connect =>
        if s.local.Some? && s.local.value !in s.ended then s else s.(looking := s.looking + 1)
      case Launch(ok) =>
        if s.looking == 0 then s
        else if ok
        then s.(alive := s.alive + {s.next}, next := s.next + 1, looking := s.looking - 1, launched := s.launched + {s.next})
        else s.(looking := s.looking - 1)
      case Reached(pid, ok) =>
        if pid !in s.launched then s
        else if ok then s.(local := Some(pid), launched := s.launched - {pid})
        else Ended(s, pid, None).(launched := s.launched - {pid})
      case Quit =>
        s.(local := None, quitter := Winding(WindingUp(s) + Only(s.local), Idle(s) || s.local.None?))
      case Wound(prior) =>
        if prior.Some? && prior.value in WindingUp(s) then Ended(s, prior.value, None).(quitter := Gone(WindingUp(s)))
        else if prior.None? && Idle(s) then s.(quitter := Gone(WindingUp(s)))
        else s
  }

  function After(s: State, es: seq<Step>): State
    decreases |es|
  {
    if |es| == 0 then s else After(Next(s, es[0]), es[1..])
  }

  // -- one mixer -----------------------------------------------------------------

  predicate Unconnected(s: State) { s.looking == 0 && s.launched == {} }

  /** No connect begins beside a restart, a quit or another connect, and no restart
      beside a connect: the code does not keep any of these apart. */
  predicate Apart(s: State, e: Step) {
    && (e.Connect? ==> s.holder.Free? && s.quitter.Staying? && Unconnected(s))
    && (e.Swap? ==> Unconnected(s))
  }

  predicate AllApart(s: State, es: seq<Step>)
    decreases |es|
  {
    |es| == 0 || (Apart(s, es[0]) && AllApart(Next(s, es[0]), es[1..]))
  }

  function Only(p: Option<Pid>): set<Pid> { if p.Some? then {p.value} else {} }

  function WindingUp(s: State): set<Pid> { if s.quitter.Staying? then {} else s.quitter.priors }

  predicate Idle(s: State) { s.quitter.Winding? && s.quitter.idle }

  /** The processes there can be, from where the tasks are. */
  function Possible(s: State): set<Pid> {
    match s.holder
    case Stopping(prior) => {prior}
    case Starting(_) => {}
    case Waiting(pid, _) => {pid}
    case _ => if Unconnected(s) then Only(s.local) + WindingUp(s) else s.launched
  }

  predicate Busy(h: Holder) { h.Stopping? || h.Starting? || h.Waiting? }

  predicate OneConnect(s: State) {
    && s.looking <= 1 && (s.looking == 1 ==> s.launched == {})
    && forall p, q :: p in s.launched && q in s.launched ==> p == q
  }

  predicate One(s: State) {
    && s.alive <= Possible(s)
    && (s.restarting <==> !s.holder.Free?)
    && (Busy(s.holder) ==> s.local.None?)
    && (!Unconnected(s) ==> s.holder.Free?)
    && OneConnect(s)
    && (s.local.Some? ==> forall p :: p in WindingUp(s) ==> p !in s.alive)
    && forall p, q :: p in s.alive && q in s.alive ==> p == q
  }

  /** Processes get numbers nobody has had, and an exit is of one that is gone. */
  predicate Numbered(s: State) {
    && (forall p :: p in s.alive ==> p < s.next && p !in s.ended && p !in s.reports)
    && (forall p :: p in s.ended ==> p < s.next)
    && (forall p :: p in s.reports ==> p < s.next)
  }

  /** What the tasks hold has been started, and a new mixer is not an old one. */
  predicate Known(s: State) {
    && (s.local.Some? ==> s.local.value < s.next)
    && (forall p :: p in WindingUp(s) ==> p < s.next)
    && (s.holder.Waiting? ==> s.holder.pid < s.next && s.holder.pid !in WindingUp(s))
    && (forall p :: p in s.launched ==> p < s.next && s.local != Some(p) && p !in WindingUp(s))
  }

  /** Crashes that were answered, at least a minute apart. */
  predicate Spaced(s: State) { MinutesApart(s.revived, s.last, s.now) }

  predicate MinutesApart(revived: seq<nat>, last: Option<nat>, now: nat) {
    && (forall i, j :: 0 <= i < j < |revived| ==> revived[i] + 60000 <= revived[j])
    && last == (if |revived| == 0 then None else Some(revived[|revived| - 1]))
    && (last.Some? ==> last.value <= now)
  }
}

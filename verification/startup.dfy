/** Waiting for a mixer that has been started: the deadline moves while its log
    grows, up to a ceiling. */
module Startup {
  import opened Bytes

  /** Milliseconds. */
  const START_TIMEOUT: nat := 25000
  const START_CEILING: nat := 120000

  /** What one pass of the loop finds: how long ago the wait began, how long the log
      is, whether the mixer is running and whether it answers. */
  datatype Poll = Poll(now: nat, log: nat, running: bool, answers: bool)

  datatype Outcome = Answered | Died | Late

  /** The log is longer at pass `k` than it was when the wait began or at any pass
      since. */
  predicate Grew(began: nat, polls: seq<Poll>, k: nat)
    requires k < |polls|
  {
    polls[k].log > began && forall j :: 0 <= j < k ==> polls[k].log > polls[j].log
  }

  /** When the log last grew before pass `k`; the start of the wait if it has not. */
  function LastGrew(began: nat, polls: seq<Poll>, k: nat): nat
    requires k <= |polls|
  {
    if k == 0 then 0
    else if Grew(began, polls, k - 1) then polls[k - 1].now else LastGrew(began, polls, k - 1)
  }

  /** When the wait is over for pass `k`: a timeout after the log last grew, and the
      ceiling at the latest. */
  function Deadline(began: nat, polls: seq<Poll>, k: nat): nat
    requires k <= |polls|
  {
    Min(LastGrew(began, polls, k) + START_TIMEOUT, START_CEILING)
  }

  predicate Timely(polls: seq<Poll>) {
    && |polls| > 0 && polls[|polls| - 1].now >= START_CEILING
    && forall i, j :: 0 <= i < j < |polls| ==> polls[i].now <= polls[j].now
  }

  /** Pass `k` decides. */
  predicate Decides(began: nat, polls: seq<Poll>, k: nat)
    requires k < |polls|
  {
    polls[k].now >= Deadline(began, polls, k) || !polls[k].running || polls[k].answers
  }

  /** `polls` is what the passes would find, far enough that the ceiling is passed. */
  method WaitUntilAnswering(began: nat, polls: seq<Poll>) returns (outcome: Outcome, k: nat)
    requires Timely(polls)
    ensures k < |polls| && Decides(began, polls, k) && forall j :: 0 <= j < k ==> !Decides(began, polls, j)
    ensures outcome == if polls[k].now >= Deadline(began, polls, k) then Late
                       else if !polls[k].running then Died else Answered
  {
    var written, deadline := began, START_TIMEOUT;
    k := 0;
    while polls[k].now < deadline
      invariant k < |polls|
      invariant deadline == Deadline(began, polls, k) <= START_CEILING
      invariant began <= written && forall j :: 0 <= j < k ==> polls[j].log <= written
      invariant written == began || exists j :: 0 <= j < k && polls[j].log == written
      invariant forall j :: 0 <= j < k ==> !Decides(began, polls, j)
      decreases |polls| - k
    {
      if polls[k].log > written {
        written := polls[k].log;
        deadline := Min(polls[k].now + START_TIMEOUT, START_CEILING);
      }
      if !polls[k].running {
        return Died, k;
      }
      if polls[k].answers {
        return Answered, k;
      }
      k := k + 1;
    }
    outcome := Late;
  }

  /** A mixer is given up on exactly two minutes after it was started, or when it has been
      25 seconds since then and since every pass at which its log had grown. */
  lemma BusyIsWaitedFor(began: nat, polls: seq<Poll>, k: nat)
    requires Timely(polls) && k < |polls|
    ensures polls[k].now >= Deadline(began, polls, k) <==>
      || polls[k].now >= 120000
      || (polls[k].now >= 25000
          && forall j :: 0 <= j < k && Grew(began, polls, j) ==> polls[k].now >= polls[j].now + 25000)
  {
    forall j | 0 <= j < k && Grew(began, polls, j) ensures LastGrew(began, polls, k) >= polls[j].now {
      GrewCounts(began, polls, j, k);
    }
    LastIsOne(began, polls, k);
  }

  lemma {:induction false} LastIsOne(began: nat, polls: seq<Poll>, k: nat)
    requires k <= |polls|
    ensures LastGrew(began, polls, k) == 0
      || exists j :: 0 <= j < k && Grew(began, polls, j) && LastGrew(began, polls, k) == polls[j].now
    decreases k
  {
    if k > 0 {
      LastIsOne(began, polls, k - 1);
    }
  }

  lemma {:induction false} GrewCounts(began: nat, polls: seq<Poll>, j: nat, k: nat)
    requires Timely(polls) && j < k <= |polls| && Grew(began, polls, j)
    ensures LastGrew(began, polls, k) >= polls[j].now
    decreases k
  {
    if j < k - 1 {
      GrewCounts(began, polls, j, k - 1);
    }
  }
}

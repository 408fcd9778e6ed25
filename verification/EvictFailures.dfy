/** Why an eviction fails: every error a worker ends with has its cause in the run, and every cause its
    error. A pod that is refused for too many requests is asked again. */
module EvictFailures {
  import opened Kube
  import opened PodFate
  import opened EvictProtocol
  import opened EvictTheorems
  import opened EvictSoundness

  /** The action, taken in state `s`, makes worker `i` fail with `e`. */
  predicate Cause(pods: seq<Pod>, i: nat, s: Sys, step: Step, e: DrainError)
    requires i < |pods| && |s.workers| == |pods|
  {
    match step
    case CheckDeadline(w) => w == i && s.expired && e == DeadlineReached(pods[i])
    case Request(w, reply) => w == i && reply.Refused? && e == EvictRefused(pods[i], reply.message)
    case Look(w, got, now) =>
      && w == i && got.err != NoError && got.err != NotFound
      && (got.obj.None? || got.obj.value.uid == pods[i].uid)
      && e == WaitFailed(pods[i], GetFailed(got.err))
    case Decide(w) =>
      && w == i
      && (|| (s.expired && e == WaitFailed(pods[i], GlobalTimeout))
          || (!s.expired && s.workers[i].pc == Deciding(true) && e == WaitFailed(pods[i], PollTimeout)))
    case _ => false
  }

  predicate EndsIn(pc: Pc, e: DrainError) {
    pc == Sending(Failure(e)) || pc == Finished(Failure(e))
  }

  lemma InnerCause(skipAfter: int, pods: seq<Pod>, s: Sys, step: Step, e: DrainError)
    requires Placed(pods, s) && Enabled(s, step) && InnerAction(step)
    ensures !EndsIn(s.workers[step.w].pc, e)
    ensures EndsIn(PcAfter(skipAfter, s.workers[step.w], s.expired, step), e) <==> Cause(pods, step.w, s, step, e)
  {}

  lemma FailMove(skipAfter: int, pods: seq<Pod>, s: Sys, step: Step, i: nat, e: DrainError)
    requires Placed(pods, s) && Enabled(s, step) && i < |pods|
    ensures |Next(skipAfter, s, step).workers| == |pods|
    ensures EndsIn(Next(skipAfter, s, step).workers[i].pc, e)
       <==> EndsIn(s.workers[i].pc, e) || Cause(pods, i, s, step, e)
  {
    if InnerAction(step) && step.w == i {
      InnerCause(skipAfter, pods, s, step, e);
    }
  }

  /** Some action of the run was the cause: the last one, or an earlier one. */
  ghost predicate Caused(skipAfter: int, pods: seq<Pod>, steps: seq<Step>, i: nat, e: DrainError)
    requires Run(skipAfter, Init(pods), steps) && i < |pods|
  {
    steps != [] &&
    var before := steps[..|steps| - 1];
    || Caused(skipAfter, pods, before, i, e)
    || (|Final(skipAfter, pods, before).workers| == |pods|
        && Cause(pods, i, Final(skipAfter, pods, before), steps[|steps| - 1], e))
  }

  /** In every run a worker ends with an error exactly when one of its actions was the cause. */
  lemma {:induction false} FailsIffCaused(skipAfter: int, pods: seq<Pod>, steps: seq<Step>, i: nat, e: DrainError)
    requires Run(skipAfter, Init(pods), steps) && i < |pods|
    ensures |Final(skipAfter, pods, steps).workers| == |pods|
    ensures EndsIn(Final(skipAfter, pods, steps).workers[i].pc, e) <==> Caused(skipAfter, pods, steps, i, e)
  {
    RunInv(skipAfter, pods, steps);
    if steps != [] {
      var n := |steps| - 1;
      RunInv(skipAfter, pods, steps[..n]);
      FailsIffCaused(skipAfter, pods, steps[..n], i, e);
      FailMove(skipAfter, pods, Final(skipAfter, pods, steps[..n]), steps[n], i, e);
    }
  }

  /** The cause, with the part of the run before it. */
  lemma {:induction false} CauseOf(skipAfter: int, pods: seq<Pod>, steps: seq<Step>, i: nat, e: DrainError)
    returns (before: seq<Step>, step: Step)
    requires Run(skipAfter, Init(pods), steps) && i < |pods| && Caused(skipAfter, pods, steps, i, e)
    ensures before + [step] <= steps
    ensures Run(skipAfter, Init(pods), before) && |Final(skipAfter, pods, before).workers| == |pods|
    ensures Cause(pods, i, Final(skipAfter, pods, before), step, e)
  {
    var n := |steps| - 1;
    if Caused(skipAfter, pods, steps[..n], i, e) {
      before, step := CauseOf(skipAfter, pods, steps[..n], i, e);
    } else {
      before, step := steps[..n], steps[n];
      assert before + [step] == steps;
    }
  }

  /** When the collector returns, an error is among the collected ones exactly when some worker's action
      was its cause. */
  lemma CollectedIffCaused(skipAfter: int, pods: seq<Pod>, steps: seq<Step>, e: DrainError)
    requires Run(skipAfter, Init(pods), steps) && Final(skipAfter, pods, steps).returned
    ensures e in Final(skipAfter, pods, steps).errors
       <==> exists i: nat | i < |pods| :: Caused(skipAfter, pods, steps, i, e)
  {
    var s := Final(skipAfter, pods, steps);
    CollectorReturns(skipAfter, pods, steps);
    HandedOverSum(s.workers, e);
    assert e in s.errors <==> multiset(s.errors)[e] > 0;
    if e in s.errors {
      var i: nat :| i < |pods| && s.workers[i].pc == Finished(Failure(e));
      FailsIffCaused(skipAfter, pods, steps, i, e);
    }
    if i: nat :| i < |pods| && Caused(skipAfter, pods, steps, i, e) {
      FailsIffCaused(skipAfter, pods, steps, i, e);
      assert s.workers[i].pc == Finished(Failure(e));
    }
  }

  // ----- Too many requests -----

  /** Refused for too many requests, the pod is asked again and found missing. */
  const RETRIED_RUN: seq<Step> :=
    [Spawn, CheckDeadline(0), Request(0, Throttled), Wake(0), CheckDeadline(0), Request(0, Missing), Send(0), Receive,
     Return]

  function RetriedState(pod: Pod, n: nat): Sys {
    match n
    case 0 => Init([pod])
    case 1 => Sys([Worker(pod, AtTop)], 1, None, false, 0, [], false)
    case 2 => Sys([Worker(pod, Requesting)], 1, None, false, 0, [], false)
    case 3 => Sys([Worker(pod, Backoff)], 1, None, false, 0, [], false)
    case 4 => Sys([Worker(pod, AtTop)], 1, None, false, 0, [], false)
    case 5 => Sys([Worker(pod, Requesting)], 1, None, false, 0, [], false)
    case 6 => Sys([Worker(pod, Sending(Clean))], 1, None, false, 0, [], false)
    case 7 => Sys([Worker(pod, Finished(Clean))], 1, Some(Clean), false, 0, [], false)
    case 8 => Sys([Worker(pod, Finished(Clean))], 1, None, false, 1, [], false)
    case _ => Sys([Worker(pod, Finished(Clean))], 1, None, true, 1, [], true)
  }

  lemma RetriedStep(skipAfter: int, pod: Pod, n: nat)
    requires n < |RETRIED_RUN|
    ensures Enabled(RetriedState(pod, n), RETRIED_RUN[n])
    ensures Next(skipAfter, RetriedState(pod, n), RETRIED_RUN[n]) == RetriedState(pod, n + 1)
  {}

  lemma ThrottledIsRetried(skipAfter: int, pod: Pod)
    ensures Run(skipAfter, Init([pod]), RETRIED_RUN)
    ensures Final(skipAfter, [pod], RETRIED_RUN).returned && Final(skipAfter, [pod], RETRIED_RUN).errors == []
  {
    var states := (n: nat) => RetriedState(pod, n);
    forall n: nat | n < |RETRIED_RUN|
      ensures Links(skipAfter, states, RETRIED_RUN, n)
    {
      RetriedStep(skipAfter, pod, n);
    }
    ChainRuns(skipAfter, states, RETRIED_RUN, |RETRIED_RUN|);
    assert RETRIED_RUN[..|RETRIED_RUN|] == RETRIED_RUN;
  }
}

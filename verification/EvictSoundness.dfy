/** When a nil return of the eviction means what it says: a failed lookup can pass for a deletion, and
    this is the only way to be told that a pod is gone while it is not. */
module EvictSoundness {
  import opened Kube
  import opened PodFate
  import opened EvictProtocol
  import opened EvictTheorems

  /** A failed lookup that was taken for the deletion of pod `i`. */
  predicate FalseEvidence(pods: seq<Pod>, i: nat, step: Step)
    requires i < |pods|
  {
    step.Look? && step.w == i && Misjudged(pods[i], step.got)
  }

  ghost predicate Misled(pods: seq<Pod>, i: nat, steps: seq<Step>)
    requires i < |pods|
  {
    exists k | 0 <= k < |steps| :: FalseEvidence(pods, i, steps[k])
  }

  predicate TrueEvidence(skipAfter: int, pods: seq<Pod>, i: nat, step: Step)
    requires i < |pods|
  {
    Evidence(skipAfter, pods, i, step) && !FalseEvidence(pods, i, step)
  }

  /** At some moment the server itself said that the pod is missing or replaced, or showed it long
      deleted. */
  ghost predicate TrulyWitnessed(skipAfter: int, pods: seq<Pod>, i: nat, steps: seq<Step>)
    requires i < |pods|
  {
    exists k | 0 <= k < |steps| :: TrueEvidence(skipAfter, pods, i, steps[k])
  }

  /** A worker that has ended cleanly gathers no further evidence. */
  lemma CleanIsDeaf(skipAfter: int, pods: seq<Pod>, s: Sys, step: Step, i: nat)
    requires Inv(pods, s) && Enabled(s, step) && i < |pods| && EndsClean(s.workers[i].pc)
    ensures !Evidence(skipAfter, pods, i, step)
  {}

  /** In every run a pod has at most one piece of evidence. */
  lemma {:induction false} OneEvidence(skipAfter: int, pods: seq<Pod>, steps: seq<Step>, i: nat, j: nat, k: nat)
    requires Run(skipAfter, Init(pods), steps) && i < |pods| && j < k < |steps|
    requires Evidence(skipAfter, pods, i, steps[j])
    ensures !Evidence(skipAfter, pods, i, steps[k])
  {
    var n := |steps| - 1;
    var before := steps[..n];
    assert before[j] == steps[j];
    if k < n {
      assert before[k] == steps[k];
      OneEvidence(skipAfter, pods, before, i, j, k);
    } else {
      RunInv(skipAfter, pods, before);
      CleanIffWitnessed(skipAfter, pods, before, i);
      CleanIsDeaf(skipAfter, pods, Final(skipAfter, pods, before), steps[n], i);
    }
  }

  lemma WitnessIsTrueIff(skipAfter: int, pods: seq<Pod>, steps: seq<Step>, i: nat)
    requires Run(skipAfter, Init(pods), steps) && i < |pods|
    ensures TrulyWitnessed(skipAfter, pods, i, steps)
       <==> Witnessed(skipAfter, pods, i, steps) && !Misled(pods, i, steps)
  {
    if TrulyWitnessed(skipAfter, pods, i, steps) {
      var k :| 0 <= k < |steps| && TrueEvidence(skipAfter, pods, i, steps[k]);
      forall j | 0 <= j < |steps|
        ensures !FalseEvidence(pods, i, steps[j])
      {
        if j < k && Evidence(skipAfter, pods, i, steps[j]) {
          OneEvidence(skipAfter, pods, steps, i, j, k);
        } else if k < j {
          OneEvidence(skipAfter, pods, steps, i, k, j);
        }
      }
    }
    if Witnessed(skipAfter, pods, i, steps) && !Misled(pods, i, steps) {
      var k :| 0 <= k < |steps| && Evidence(skipAfter, pods, i, steps[k]);
      assert TrueEvidence(skipAfter, pods, i, steps[k]);
    }
  }

  /** For every run that has returned: every pod was truly found missing, gone or skippable exactly
      when the result is nil and no lookup misled its worker. */
  lemma SoundIffNotMisled(skipAfter: int, pods: seq<Pod>, steps: seq<Step>)
    requires Run(skipAfter, Init(pods), steps) && Final(skipAfter, pods, steps).returned
    ensures (forall i: nat | i < |pods| :: TrulyWitnessed(skipAfter, pods, i, steps))
       <==> Final(skipAfter, pods, steps).errors == [] && forall i: nat | i < |pods| :: !Misled(pods, i, steps)
  {
    CollectorReturns(skipAfter, pods, steps);
    forall i: nat | i < |pods|
      ensures TrulyWitnessed(skipAfter, pods, i, steps)
         <==> Witnessed(skipAfter, pods, i, steps) && !Misled(pods, i, steps)
    {
      WitnessIsTrueIff(skipAfter, pods, steps, i);
    }
  }

  /** What a nil result means: every pod was found missing, gone or skippable by some step, and truly
      so exactly when no failed lookup was taken for a deletion. */
  ghost predicate NilMeans(skipAfter: int, pods: seq<Pod>, steps: seq<Step>) {
    && (forall i: nat | i < |pods| :: Witnessed(skipAfter, pods, i, steps))
    && ((forall i: nat | i < |pods| :: TrulyWitnessed(skipAfter, pods, i, steps))
        <==> forall i: nat | i < |pods| :: !Misled(pods, i, steps))
  }

  lemma NilResult(skipAfter: int, pods: seq<Pod>, steps: seq<Step>)
    requires Run(skipAfter, Init(pods), steps) && Final(skipAfter, pods, steps).returned
    requires Final(skipAfter, pods, steps).errors == []
    ensures NilMeans(skipAfter, pods, steps)
  {
    CollectorReturns(skipAfter, pods, steps);
    SoundIffNotMisled(skipAfter, pods, steps);
  }

  /** A run that returns nil although the only lookup of the pod failed. */
  function MisledRun(other: Pod, message: string): seq<Step> {
    [Spawn, CheckDeadline(0), Request(0, Accepted), Look(0, RawReply(Some(other), OtherError(message)), 0),
     Send(0), Receive, Return]
  }

  /** The states that run passes through. */
  function MisledState(pod: Pod, n: nat): Sys {
    match n
    case 0 => Init([pod])
    case 1 => Sys([Worker(pod, AtTop)], 1, None, false, 0, [], false)
    case 2 => Sys([Worker(pod, Requesting)], 1, None, false, 0, [], false)
    case 3 => Sys([Worker(pod, Polling(false))], 1, None, false, 0, [], false)
    case 4 => Sys([Worker(pod, Sending(Clean))], 1, None, false, 0, [], false)
    case 5 => Sys([Worker(pod, Finished(Clean))], 1, Some(Clean), false, 0, [], false)
    case 6 => Sys([Worker(pod, Finished(Clean))], 1, None, false, 1, [], false)
    case _ => Sys([Worker(pod, Finished(Clean))], 1, None, true, 1, [], true)
  }

  lemma MisledStep(skipAfter: int, pod: Pod, other: Pod, message: string, n: nat)
    requires other.uid != pod.uid && n < 7
    ensures var step := MisledRun(other, message)[n];
            && Enabled(MisledState(pod, n), step)
            && Next(skipAfter, MisledState(pod, n), step) == MisledState(pod, n + 1)
  {}

  ghost predicate Links(skipAfter: int, states: nat -> Sys, steps: seq<Step>, k: nat)
    requires k < |steps|
  {
    Enabled(states(k), steps[k]) && Next(skipAfter, states(k), steps[k]) == states(k + 1)
  }

  /** Steps that each lead from one state to the next make a run. */
  lemma {:induction false} ChainRuns(skipAfter: int, states: nat -> Sys, steps: seq<Step>, n: nat)
    requires n <= |steps|
    requires forall k: nat | k < |steps| :: Links(skipAfter, states, steps, k)
    ensures Run(skipAfter, states(0), steps[..n]) && Exec(skipAfter, states(0), steps[..n]) == states(n)
  {
    if n == 0 {
      assert steps[..0] == [];
    } else {
      ChainRuns(skipAfter, states, steps, n - 1);
      assert Links(skipAfter, states, steps, n - 1) && states(n - 1 + 1) == states(n);
      RunSnoc(skipAfter, states(0), steps[..n - 1], steps[n - 1]);
      assert steps[..n] == steps[..n - 1] + [steps[n - 1]];
    }
  }

  lemma MisledRuns(skipAfter: int, pod: Pod, other: Pod, message: string)
    requires other.uid != pod.uid
    ensures var steps := MisledRun(other, message);
            Run(skipAfter, Init([pod]), steps) && Exec(skipAfter, Init([pod]), steps) == MisledState(pod, 7)
  {
    var steps := MisledRun(other, message);
    var states := (n: nat) => MisledState(pod, n);
    forall n: nat | n < |steps|
      ensures Links(skipAfter, states, steps, n)
    {
      MisledStep(skipAfter, pod, other, message, n);
    }
    ChainRuns(skipAfter, states, steps, |steps|);
    assert steps[..|steps|] == steps;
  }

  lemma NilWithoutEvidence(skipAfter: int, pod: Pod, other: Pod, message: string)
    requires other.uid != pod.uid
    ensures var steps := MisledRun(other, message);
            && Run(skipAfter, Init([pod]), steps)
            && Final(skipAfter, [pod], steps).returned && Final(skipAfter, [pod], steps).errors == []
            && !TrulyWitnessed(skipAfter, [pod], 0, steps)
  {
    var steps := MisledRun(other, message);
    MisledRuns(skipAfter, pod, other, message);
    assert FalseEvidence([pod], 0, steps[3]);
    WitnessIsTrueIff(skipAfter, [pod], steps, 0);
  }

  /** The server said that the pod is missing, or showed another one. */
  predicate ToldGone(pods: seq<Pod>, i: nat, step: Step)
    requires i < |pods|
  {
    match step
    case Request(w, reply) => w == i && reply == Missing
    case Look(w, got, _) => w == i && (got.err == NotFound || (got.obj.Some? && got.obj.value.uid != pods[i].uid))
    case _ => false
  }

  lemma EvidenceTells(skipAfter: int, pods: seq<Pod>, i: nat, step: Step)
    requires i < |pods| && skipAfter <= 0 && Evidence(skipAfter, pods, i, step)
    ensures ToldGone(pods, i, step)
  {
    if step.Look? {
      JudgeMeans(pods[i], step.got, skipAfter, step.now);
    }
  }

  /** Without a skip time a nil eviction was told so of every pod. */
  lemma NilRunWithoutSkips(skipAfter: int, pods: seq<Pod>, steps: seq<Step>, i: nat)
    requires Run(skipAfter, Init(pods), steps) && Final(skipAfter, pods, steps).returned
    requires Final(skipAfter, pods, steps).errors == [] && skipAfter <= 0 && i < |pods|
    ensures exists k | 0 <= k < |steps| :: ToldGone(pods, i, steps[k])
  {
    CollectorReturns(skipAfter, pods, steps);
    assert Witnessed(skipAfter, pods, i, steps);
    var k :| 0 <= k < |steps| && Evidence(skipAfter, pods, i, steps[k]);
    EvidenceTells(skipAfter, pods, i, steps[k]);
  }
}

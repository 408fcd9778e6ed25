/** What every run of the eviction protocol guarantees: exactly-once delivery, the meaning of a nil
    return, absence of deadlock, and termination once the deadline has passed. */
module EvictTheorems {
  import opened Kube
  import opened PodFate
  import opened EvictProtocol

  ghost function Final(skipAfter: int, pods: seq<Pod>, steps: seq<Step>): Sys
    requires Run(skipAfter, Init(pods), steps)
  {
    Exec(skipAfter, Init(pods), steps)
  }

  // ----- Exactly one result per worker -----

  ghost function Count(steps: seq<Step>, p: Step -> bool): nat {
    if steps == [] then 0
    else Count(steps[..|steps| - 1], p) + if p(steps[|steps| - 1]) then 1 else 0
  }

  function SendBy(i: nat): Step -> bool {
    step => step == Send(i)
  }

  lemma SendMove(skipAfter: int, pods: seq<Pod>, s: Sys, step: Step, i: nat)
    requires Placed(pods, s) && Enabled(s, step) && i < |pods|
    ensures |Next(skipAfter, s, step).workers| == |pods|
    ensures Next(skipAfter, s, step).workers[i].pc.Finished? <==> s.workers[i].pc.Finished? || step == Send(i)
    ensures step == Send(i) ==> !s.workers[i].pc.Finished?
  {}

  lemma {:induction false} SendsOnce(skipAfter: int, pods: seq<Pod>, steps: seq<Step>, i: nat)
    requires Run(skipAfter, Init(pods), steps) && i < |pods|
    ensures |Final(skipAfter, pods, steps).workers| == |pods|
    ensures Count(steps, SendBy(i)) == if Final(skipAfter, pods, steps).workers[i].pc.Finished? then 1 else 0
  {
    RunInv(skipAfter, pods, steps);
    if steps != [] {
      var before := steps[..|steps| - 1];
      RunInv(skipAfter, pods, before);
      SendsOnce(skipAfter, pods, before, i);
      SendMove(skipAfter, pods, Final(skipAfter, pods, before), steps[|steps| - 1], i);
    }
  }

  // ----- What a nil return means -----

  /** A moment of the run at which pod `i` was found to need no more waiting. */
  predicate Evidence(skipAfter: int, pods: seq<Pod>, i: nat, step: Step)
    requires i < |pods|
  {
    match step
    case Request(w, reply) => w == i && reply == Missing
    case Look(w, got, now) => w == i && Judge(pods[i], got, skipAfter, now) in {Gone, Skipped}
    case _ => false
  }

  ghost predicate Witnessed(skipAfter: int, pods: seq<Pod>, i: nat, steps: seq<Step>)
    requires i < |pods|
  {
    exists k | 0 <= k < |steps| :: Evidence(skipAfter, pods, i, steps[k])
  }

  predicate EndsClean(pc: Pc) {
    pc == Sending(Clean) || pc == Finished(Clean)
  }

  lemma EvidenceMove(skipAfter: int, pods: seq<Pod>, s: Sys, step: Step, i: nat)
    requires Placed(pods, s) && Enabled(s, step) && i < |pods|
    ensures |Next(skipAfter, s, step).workers| == |pods|
    ensures EndsClean(Next(skipAfter, s, step).workers[i].pc)
       <==> EndsClean(s.workers[i].pc) || Evidence(skipAfter, pods, i, step)
  {
    assert s.workers[i].pod == pods[i];
    if InnerAction(step) && step.w == i {
      InnerEvidence(skipAfter, s, step);
    }
  }

  lemma InnerEvidence(skipAfter: int, s: Sys, step: Step)
    requires Enabled(s, step) && InnerAction(step)
    ensures var w := s.workers[step.w];
            && !EndsClean(w.pc)
            && (EndsClean(PcAfter(skipAfter, w, s.expired, step)) <==>
                  step == Request(step.w, Missing)
                  || (step.Look? && Judge(w.pod, step.got, skipAfter, step.now) in {Gone, Skipped}))
  {}

  lemma {:induction false} CleanIffWitnessed(skipAfter: int, pods: seq<Pod>, steps: seq<Step>, i: nat)
    requires Run(skipAfter, Init(pods), steps) && i < |pods|
    ensures |Final(skipAfter, pods, steps).workers| == |pods|
    ensures EndsClean(Final(skipAfter, pods, steps).workers[i].pc) <==> Witnessed(skipAfter, pods, i, steps)
  {
    RunInv(skipAfter, pods, steps);
    if steps != [] {
      var n := |steps| - 1;
      var before := steps[..n];
      RunInv(skipAfter, pods, before);
      CleanIffWitnessed(skipAfter, pods, before, i);
      EvidenceMove(skipAfter, pods, Final(skipAfter, pods, before), steps[n], i);
      assert forall k | 0 <= k < n :: before[k] == steps[k];
      if Witnessed(skipAfter, pods, i, before) {
        var k :| 0 <= k < n && Evidence(skipAfter, pods, i, before[k]);
        assert Evidence(skipAfter, pods, i, steps[k]);
      }
      if Evidence(skipAfter, pods, i, steps[n]) {
        assert Witnessed(skipAfter, pods, i, steps);
      }
    }
  }

  lemma {:induction false} HandedOverSum(ws: seq<Worker>, e: DrainError)
    ensures Sum(ws, HandedOver(e)) >= 0
    ensures Sum(ws, HandedOver(e)) == 0 <==> forall i | 0 <= i < |ws| :: ws[i].pc != Finished(Failure(e))
  {
    if ws != [] {
      HandedOverSum(ws[1..], e);
      assert forall i | 0 <= i < |ws| - 1 :: ws[1..][i] == ws[i + 1];
      if forall i | 0 <= i < |ws[1..]| :: ws[1..][i].pc != Finished(Failure(e)) {
        assert forall i | 1 <= i < |ws| :: ws[i] == ws[1..][i - 1];
      }
    }
  }

  /** When the collector returns, every worker has finished its send, nothing is left in the channel,
      the errors are exactly the workers' non-nil results, and the result is nil exactly when every
      pod was found missing, gone or skippable at some moment of the run. */
  lemma CollectorReturns(skipAfter: int, pods: seq<Pod>, steps: seq<Step>)
    requires Run(skipAfter, Init(pods), steps)
    requires Final(skipAfter, pods, steps).returned
    ensures var s := Final(skipAfter, pods, steps);
            && |s.workers| == |pods|
            && (forall i | 0 <= i < |pods| :: s.workers[i].pc.Finished?)
            && s.channel.None?
            && (forall e :: multiset(s.errors)[e] == Sum(s.workers, HandedOver(e)))
            && (s.errors == [] <==> forall i: nat | i < |pods| :: Witnessed(skipAfter, pods, i, steps))
  {
    var s := Final(skipAfter, pods, steps);
    RunInv(skipAfter, pods, steps);
    DoneBound(s.workers);
    forall i: nat | i < |pods|
      ensures EndsClean(s.workers[i].pc) <==> Witnessed(skipAfter, pods, i, steps)
    {
      CleanIffWitnessed(skipAfter, pods, steps, i);
    }
    if i: nat :| i < |pods| && !EndsClean(s.workers[i].pc) {
      FailureCollected(pods, s, i, s.workers[i].pc.outcome.error);
    } else if s.errors != [] {
      var e := s.errors[0];
      assert e in multiset(s.errors);
      HandedOverSum(s.workers, e);
    }
  }

  lemma FailureCollected(pods: seq<Pod>, s: Sys, i: nat, e: DrainError)
    requires Inv(pods, s) && s.channel.None?
    requires i < |pods| && s.workers[i].pc == Finished(Failure(e))
    ensures s.errors != []
  {
    HandedOverSum(s.workers, e);
    assert multiset(s.errors)[e] > 0;
  }

  // ----- Asked before waited for -----

  /** The pod was asked to go at some moment of the run. */
  ghost predicate Asked(i: nat, steps: seq<Step>) {
    exists k | 0 <= k < |steps| :: RequestBy(i)(steps[k])
  }

  predicate Waiting(pc: Pc) {
    pc.Polling? || pc.Deciding? || pc.Idle?
  }

  lemma AskedMove(skipAfter: int, pods: seq<Pod>, s: Sys, step: Step, i: nat)
    requires Placed(pods, s) && Enabled(s, step) && i < |pods|
    ensures |Next(skipAfter, s, step).workers| == |pods|
    ensures Waiting(Next(skipAfter, s, step).workers[i].pc) || Evidence(skipAfter, pods, i, step) ==>
              Waiting(s.workers[i].pc) || RequestBy(i)(step)
  {}

  /** No pod is waited for, or found to need no more waiting, unless it was asked to go first. */
  lemma {:induction false} AskedFirst(skipAfter: int, pods: seq<Pod>, steps: seq<Step>, i: nat)
    requires Run(skipAfter, Init(pods), steps) && i < |pods|
    ensures |Final(skipAfter, pods, steps).workers| == |pods|
    ensures Waiting(Final(skipAfter, pods, steps).workers[i].pc) || Witnessed(skipAfter, pods, i, steps) ==>
              Asked(i, steps)
  {
    RunInv(skipAfter, pods, steps);
    if steps != [] {
      var n := |steps| - 1;
      var before := steps[..n];
      RunInv(skipAfter, pods, before);
      AskedFirst(skipAfter, pods, before, i);
      AskedMove(skipAfter, pods, Final(skipAfter, pods, before), steps[n], i);
      if Witnessed(skipAfter, pods, i, steps) && !Evidence(skipAfter, pods, i, steps[n]) {
        var k :| 0 <= k < n && Evidence(skipAfter, pods, i, steps[k]);
        assert Evidence(skipAfter, pods, i, before[k]);
      }
      if Asked(i, before) {
        var k :| 0 <= k < n && RequestBy(i)(before[k]);
        assert RequestBy(i)(steps[k]);
      }
    }
  }

  // ----- No deadlock -----

  /** An action other than the collector's idle turn and the clock. */
  predicate Progress(step: Step) {
    !step.Spin? && !step.Expire?
  }

  /** Every reachable unfinished state has an enabled action that makes progress. */
  lemma NeverStuck(skipAfter: int, pods: seq<Pod>, steps: seq<Step>) returns (step: Step)
    requires Run(skipAfter, Init(pods), steps)
    requires !Final(skipAfter, pods, steps).returned
    ensures Enabled(Final(skipAfter, pods, steps), step) && Progress(step)
  {
    RunInv(skipAfter, pods, steps);
    step := StepOf(pods, Final(skipAfter, pods, steps));
  }

  lemma StepOf(pods: seq<Pod>, s: Sys) returns (step: Step)
    requires Inv(pods, s) && !s.returned
    ensures Enabled(s, step) && Progress(step)
  {
    DoneBound(s.workers);
    if s.spawned < |pods| {
      step := Spawn;
    } else if s.channel.Some? {
      step := Receive;
    } else if s.doneCount == |pods| {
      step := Return;
    } else {
      var w: nat :| w < |pods| && !s.workers[w].pc.Finished?;
      step := match s.workers[w].pc
        case AtTop => CheckDeadline(w)
        case Requesting => Request(w, Missing)
        case Backoff => Wake(w)
        case Polling(_) => Look(w, RawReply(None, NotFound), 0)
        case Deciding(_) => Decide(w)
        case Idle => Tick(w, false)
        case Sending(_) => Send(w);
    }
  }

  // ----- After the deadline -----

  lemma MoveRank(s: Sys, w: nat, pc: Pc)
    requires w < |s.workers|
    ensures SysRank(Move(s, w, pc)) == SysRank(s) - Rank(s.workers[w].pc) + Rank(pc)
  {
    SumUpdate(s.workers, Rank, w, s.workers[w].(pc := pc));
  }

  lemma WorkerRank(skipAfter: int, s: Sys, step: Step)
    requires s.expired && Enabled(s, step)
    requires InnerAction(step)
    ensures var pc' := Next(skipAfter, s, step).workers[step.w].pc;
            Next(skipAfter, s, step) == Move(s, step.w, pc') && Rank(pc') < Rank(s.workers[step.w].pc)
  {}

  /** Each action that makes progress lowers the rank; the others leave it alone. */
  lemma RankStep(skipAfter: int, pods: seq<Pod>, s: Sys, step: Step)
    requires Inv(pods, s) && s.expired && Enabled(s, step)
    ensures var s' := Next(skipAfter, s, step);
            s'.expired && SysRank(s') <= SysRank(s) - (if Progress(step) then 1 else 0)
  {
    match step {
      case Spawn => MoveRank(s, s.spawned, AtTop);
      case Send(w) => MoveRank(s, w, Finished(s.workers[w].pc.outcome));
      case Receive =>
      case Spin =>
      case Return =>
      case Expire =>
      case _ =>
        WorkerRank(skipAfter, s, step);
        MoveRank(s, step.w, Next(skipAfter, s, step).workers[step.w].pc);
    }
  }

  lemma {:induction false} RankBounds(ws: seq<Worker>)
    ensures 0 <= Sum(ws, Rank) <= 5 * |ws|
  {
    if ws != [] {
      RankBounds(ws[1..]);
    }
  }

  lemma {:induction false} RunFrom(skipAfter: int, pods: seq<Pod>, s: Sys, steps: seq<Step>)
    requires Inv(pods, s) && Run(skipAfter, s, steps)
    ensures Inv(pods, Exec(skipAfter, s, steps))
  {
    if steps != [] {
      var before := steps[..|steps| - 1];
      RunFrom(skipAfter, pods, s, before);
      StepInv(skipAfter, pods, Exec(skipAfter, s, before), steps[|steps| - 1]);
    }
  }

  /** After the deadline at most 5n + 2 progress actions remain, whatever the server answers. */
  lemma {:induction false} DeadlineBoundsRun(skipAfter: int, pods: seq<Pod>, s: Sys, steps: seq<Step>)
    requires Inv(pods, s) && s.expired && Run(skipAfter, s, steps)
    ensures Exec(skipAfter, s, steps).expired
    ensures Count(steps, Progress) + SysRank(Exec(skipAfter, s, steps)) <= SysRank(s)
    ensures Count(steps, Progress) <= 5 * |pods| + 2
  {
    if steps != [] {
      var before := steps[..|steps| - 1];
      DeadlineBoundsRun(skipAfter, pods, s, before);
      RunFrom(skipAfter, pods, s, before);
      RankStep(skipAfter, pods, Exec(skipAfter, s, before), steps[|steps| - 1]);
    }
    RankBounds(s.workers);
    RankBounds(Exec(skipAfter, s, steps).workers);
  }

  lemma RunSnoc(skipAfter: int, s0: Sys, steps: seq<Step>, step: Step)
    requires Run(skipAfter, s0, steps) && Enabled(Exec(skipAfter, s0, steps), step)
    ensures Run(skipAfter, s0, steps + [step])
    ensures Exec(skipAfter, s0, steps + [step]) == Next(skipAfter, Exec(skipAfter, s0, steps), step)
  {
    assert (steps + [step])[..|steps|] == steps;
  }

  /** Whatever is left to do can be done: some run from such a state ends with the collector's return. */
  lemma {:induction false} RunToReturn(skipAfter: int, pods: seq<Pod>, s0: Sys, steps: seq<Step>)
    returns (longer: seq<Step>)
    requires Inv(pods, s0) && Run(skipAfter, s0, steps) && Exec(skipAfter, s0, steps).expired
    ensures Run(skipAfter, s0, longer) && Exec(skipAfter, s0, longer).returned
    decreases SysRank(Exec(skipAfter, s0, steps))
  {
    var s := Exec(skipAfter, s0, steps);
    RunFrom(skipAfter, pods, s0, steps);
    if s.returned {
      longer := steps;
    } else {
      var step := StepOf(pods, s);
      RankStep(skipAfter, pods, s, step);
      RunSnoc(skipAfter, s0, steps, step);
      RunFrom(skipAfter, pods, s0, steps + [step]);
      RankBounds(Exec(skipAfter, s0, steps + [step]).workers);
      longer := RunToReturn(skipAfter, pods, s0, steps + [step]);
    }
  }

  /** Every list of pods has a run that returns. */
  lemma SomeRunReturns(skipAfter: int, pods: seq<Pod>) returns (steps: seq<Step>)
    ensures Run(skipAfter, Init(pods), steps) && Final(skipAfter, pods, steps).returned
  {
    InitInv(pods);
    assert Run(skipAfter, Init(pods), []);
    RunSnoc(skipAfter, Init(pods), [], Expire);
    steps := RunToReturn(skipAfter, pods, Init(pods), [] + [Expire]);
  }

  function RequestBy(i: nat): Step -> bool {
    (step: Step) => step.Request? && step.w == i
  }

  function LookBy(i: nat): Step -> bool {
    (step: Step) => step.Look? && step.w == i
  }

  /** Eviction requests and poll rounds a worker may still issue once the deadline has passed. */
  function RequestsLeft(pc: Pc): nat {
    if pc.Requesting? then 1 else 0
  }

  function LooksLeft(pc: Pc): nat {
    if pc.Requesting? || pc.Polling? || pc.Idle? then 1 else 0
  }

  lemma CallMove(skipAfter: int, pods: seq<Pod>, s: Sys, step: Step, i: nat)
    requires Placed(pods, s) && s.expired && Enabled(s, step) && i < |pods|
    ensures |Next(skipAfter, s, step).workers| == |pods|
    ensures var pc, pc' := s.workers[i].pc, Next(skipAfter, s, step).workers[i].pc;
            && RequestsLeft(pc') + (if RequestBy(i)(step) then 1 else 0) <= RequestsLeft(pc)
            && LooksLeft(pc') + (if LookBy(i)(step) then 1 else 0) <= LooksLeft(pc)
  {}

  lemma {:induction false} DeadlineBoundsCalls(skipAfter: int, pods: seq<Pod>, s: Sys, steps: seq<Step>, i: nat)
    requires Inv(pods, s) && s.expired && Run(skipAfter, s, steps) && i < |pods|
    ensures Exec(skipAfter, s, steps).expired && |Exec(skipAfter, s, steps).workers| == |pods|
    ensures var pc, pc' := s.workers[i].pc, Exec(skipAfter, s, steps).workers[i].pc;
            && Count(steps, RequestBy(i)) + RequestsLeft(pc') <= RequestsLeft(pc) <= 1
            && Count(steps, LookBy(i)) + LooksLeft(pc') <= LooksLeft(pc) <= 1
  {
    RunFrom(skipAfter, pods, s, steps);
    if steps != [] {
      var before := steps[..|steps| - 1];
      RunFrom(skipAfter, pods, s, before);
      DeadlineBoundsCalls(skipAfter, pods, s, before, i);
      CallMove(skipAfter, pods, Exec(skipAfter, s, before), steps[|steps| - 1], i);
    }
  }

  /** An infinite schedule together with the states it passes through; a returned system rests. */
  ghost predicate Schedule(skipAfter: int, pods: seq<Pod>, states: nat -> Sys, chosen: nat -> Step) {
    && Inv(pods, states(0))
    && forall n: nat :: Follows(skipAfter, states(n), chosen(n), states(n + 1))
  }

  ghost predicate Follows(skipAfter: int, s: Sys, step: Step, s': Sys) {
    if s.returned then s' == s else Enabled(s, step) && s' == Next(skipAfter, s, step)
  }

  /** Progress recurs as long as the collector has not returned. */
  ghost predicate Recurs(states: nat -> Sys, chosen: nat -> Step) {
    forall n: nat | !states(n).returned :: ProgressFrom(chosen, n)
  }

  ghost predicate ProgressFrom(chosen: nat -> Step, n: nat) {
    exists m: nat | m >= n :: Progress(chosen(m))
  }

  lemma {:induction false} ScheduleState(skipAfter: int, pods: seq<Pod>, states: nat -> Sys, chosen: nat -> Step,
                                         n: nat)
    requires Schedule(skipAfter, pods, states, chosen)
    ensures Inv(pods, states(n))
  {
    if n > 0 {
      ScheduleState(skipAfter, pods, states, chosen, n - 1);
      assert Follows(skipAfter, states(n - 1), chosen(n - 1), states(n - 1 + 1));
      if !states(n - 1).returned {
        StepInv(skipAfter, pods, states(n - 1), chosen(n - 1));
      }
    }
  }

  /** The rank does not rise from moment `n` to moment `m`. */
  lemma {:induction false} RankOver(skipAfter: int, pods: seq<Pod>, states: nat -> Sys, chosen: nat -> Step, n: nat,
                                    m: nat)
    requires Schedule(skipAfter, pods, states, chosen) && n <= m && states(n).expired
    ensures states(m).expired && SysRank(states(m)) <= SysRank(states(n))
  {
    if n < m {
      RankOver(skipAfter, pods, states, chosen, n, m - 1);
      ScheduleState(skipAfter, pods, states, chosen, m - 1);
      assert Follows(skipAfter, states(m - 1), chosen(m - 1), states(m - 1 + 1));
      if !states(m - 1).returned {
        RankStep(skipAfter, pods, states(m - 1), chosen(m - 1));
      }
    }
  }

  /** Where progress recurs the collector returns once the deadline has passed. */
  lemma {:induction false} ReturnsIfRecurs(skipAfter: int, pods: seq<Pod>, states: nat -> Sys, chosen: nat -> Step,
                                           n: nat)
    returns (m: nat)
    requires Schedule(skipAfter, pods, states, chosen) && Recurs(states, chosen)
    requires states(n).expired
    ensures m >= n && states(m).returned
    decreases SysRank(states(n))
  {
    ScheduleState(skipAfter, pods, states, chosen, n);
    RankBounds(states(n).workers);
    if states(n).returned {
      m := n;
    } else {
      assert ProgressFrom(chosen, n);
      var k: nat :| k >= n && Progress(chosen(k));
      RankOver(skipAfter, pods, states, chosen, n, k);
      ScheduleState(skipAfter, pods, states, chosen, k);
      assert Follows(skipAfter, states(k), chosen(k), states(k + 1));
      if states(k).returned {
        m := k;
      } else {
        RankStep(skipAfter, pods, states(k), chosen(k));
        m := ReturnsIfRecurs(skipAfter, pods, states, chosen, k + 1);
      }
    }
  }

  // ----- Fair scheduling of the goroutines -----

  /** The goroutines: the caller's own, which spawns and collects, and one per pod. */
  datatype Process = Collector | PodWorker(w: nat)

  /** Whose action it is; the clock's belongs to none. */
  function ActorOf(step: Step): Option<Process> {
    match step
    case Spawn => Some(Collector)
    case Receive => Some(Collector)
    case Spin => Some(Collector)
    case Return => Some(Collector)
    case Expire => None
    case _ => Some(PodWorker(step.w))
  }

  ghost predicate CanAct(s: Sys, p: Process) {
    exists step :: Enabled(s, step) && ActorOf(step) == Some(p)
  }

  ghost predicate StaysReady(states: nat -> Sys, p: Process, n: nat) {
    forall m: nat | m >= n :: CanAct(states(m), p)
  }

  ghost predicate ActsFrom(chosen: nat -> Step, p: Process, n: nat) {
    exists m: nat | m >= n :: ActorOf(chosen(m)) == Some(p)
  }

  /** No goroutine that stays able to act is passed over for ever. */
  ghost predicate WeaklyFair(states: nat -> Sys, chosen: nat -> Step) {
    forall p: Process, n: nat :: StaysReady(states, p, n) ==> ActsFrom(chosen, p, n)
  }

  /** While nothing makes progress, only the clock can change the state. */
  lemma {:induction false} Stalled(skipAfter: int, pods: seq<Pod>, states: nat -> Sys, chosen: nat -> Step, n: nat,
                                   m: nat)
    requires Schedule(skipAfter, pods, states, chosen) && n <= m
    requires !states(n).returned && !ProgressFrom(chosen, n)
    ensures states(m) == states(n).(expired := states(m).expired)
  {
    if n < m {
      Stalled(skipAfter, pods, states, chosen, n, m - 1);
      assert Follows(skipAfter, states(m - 1), chosen(m - 1), states(m - 1 + 1));
      assert !Progress(chosen(m - 1));
    }
  }

  /** The collector idles only when it has nothing else to do. */
  lemma IdleOnly(s: Sys, step: Step)
    requires Enabled(s, step) && Progress(step) && ActorOf(step) == Some(Collector)
    ensures !Enabled(s, Spin)
  {}

  /** Absence of deadlock turns fair scheduling into recurring progress. */
  lemma FairRecurs(skipAfter: int, pods: seq<Pod>, states: nat -> Sys, chosen: nat -> Step)
    requires Schedule(skipAfter, pods, states, chosen) && WeaklyFair(states, chosen)
    ensures Recurs(states, chosen)
  {
    forall n: nat | !states(n).returned
      ensures ProgressFrom(chosen, n)
    {
      if !ProgressFrom(chosen, n) {
        ScheduleState(skipAfter, pods, states, chosen, n);
        var step := StepOf(pods, states(n));
        ReadyWhileStalled(skipAfter, pods, states, chosen, n, step);
        var p := ActorOf(step).value;
        var m: nat :| m >= n && ActorOf(chosen(m)) == Some(p);
        Stalled(skipAfter, pods, states, chosen, n, m);
        assert Follows(skipAfter, states(m), chosen(m), states(m + 1));
        IdleOnly(states(m), step);
        assert false;
      }
    }
  }

  lemma ReadyWhileStalled(skipAfter: int, pods: seq<Pod>, states: nat -> Sys, chosen: nat -> Step, n: nat, step: Step)
    requires Schedule(skipAfter, pods, states, chosen) && WeaklyFair(states, chosen)
    requires !states(n).returned && !ProgressFrom(chosen, n)
    requires Enabled(states(n), step) && Progress(step)
    ensures forall m: nat | m >= n :: Enabled(states(m), step)
    ensures ActsFrom(chosen, ActorOf(step).value, n)
  {
    forall m: nat | m >= n
      ensures Enabled(states(m), step) && CanAct(states(m), ActorOf(step).value)
    {
      Stalled(skipAfter, pods, states, chosen, n, m);
    }
    assert StaysReady(states, ActorOf(step).value, n);
  }

  /** Under fair scheduling of the goroutines the collector returns once the deadline has passed. */
  lemma EventuallyReturns(skipAfter: int, pods: seq<Pod>, states: nat -> Sys, chosen: nat -> Step, n: nat)
    returns (m: nat)
    requires Schedule(skipAfter, pods, states, chosen) && WeaklyFair(states, chosen)
    requires states(n).expired
    ensures m >= n && states(m).returned
  {
    FairRecurs(skipAfter, pods, states, chosen);
    m := ReturnsIfRecurs(skipAfter, pods, states, chosen, n);
  }
}

/** The concurrent eviction of a list of pods: one worker per pod, a result channel that holds one
    message, a context with a deadline, and a collector that polls the channel. Every interleaving
    of the atomic actions is a run of the transition system below. */
module EvictProtocol {
  import opened Kube
  import opened PodFate

  datatype EvictReply = Accepted | Missing | Throttled | Refused(message: string)

  datatype WaitError = GlobalTimeout | PollTimeout | GetFailed(err: ApiError)

  datatype DrainError =
    | DeadlineReached(pod: Pod)
    | EvictRefused(pod: Pod, message: string)
    | WaitFailed(pod: Pod, cause: WaitError)

  /** What a worker sends: nil, or an error. */
  datatype Outcome = Clean | Failure(error: DrainError)

  /** Where a worker stands. `last` marks the poll round that runs after the poll timer has fired. */
  datatype Pc =
    | Unspawned
    | AtTop
    | Requesting
    | Backoff
    | Polling(last: bool)
    | Deciding(last: bool)
    | Idle
    | Sending(outcome: Outcome)
    | Finished(outcome: Outcome)

  datatype Worker = Worker(pod: Pod, pc: Pc)

  datatype Sys = Sys(
    workers: seq<Worker>,
    spawned: nat,
    channel: Option<Outcome>,
    expired: bool,
    doneCount: nat,
    errors: seq<DrainError>,
    returned: bool)

  /** One atomic action, with the environment's answer where it has one. */
  datatype Step =
    | Spawn
    | CheckDeadline(w: nat)
    | Request(w: nat, reply: EvictReply)
    | Wake(w: nat)
    | Look(w: nat, got: GetReply, now: int)
    | Decide(w: nat)
    | Tick(w: nat, last: bool)
    | Send(w: nat)
    | Receive
    | Spin
    | Return
    | Expire

  function Init(pods: seq<Pod>): Sys {
    Sys(seq(|pods|, i requires 0 <= i < |pods| => Worker(pods[i], Unspawned)), 0, None, false, 0, [], false)
  }

  predicate At(s: Sys, w: nat, pc: Pc) {
    w < |s.workers| && s.workers[w].pc == pc
  }

  predicate Collecting(s: Sys) {
    s.spawned == |s.workers| && !s.returned && s.doneCount < |s.workers|
  }

  predicate Enabled(s: Sys, step: Step) {
    match step
    case Spawn => s.spawned < |s.workers|
    case CheckDeadline(w) => At(s, w, AtTop)
    case Request(w, _) => At(s, w, Requesting)
    case Wake(w) => At(s, w, Backoff)
    case Look(w, _, _) => w < |s.workers| && s.workers[w].pc.Polling?
    case Decide(w) => w < |s.workers| && s.workers[w].pc.Deciding?
    case Tick(w, _) => At(s, w, Idle)
    case Send(w) => w < |s.workers| && s.workers[w].pc.Sending? && s.channel.None?
    case Receive => Collecting(s) && s.channel.Some?
    case Spin => Collecting(s) && s.channel.None?
    case Return => s.spawned == |s.workers| && !s.returned && s.doneCount >= |s.workers|
    case Expire => !s.expired
  }

  function Move(s: Sys, w: nat, pc: Pc): Sys
    requires w < |s.workers|
  {
    s.(workers := s.workers[w := s.workers[w].(pc := pc)])
  }

  function AfterRequest(pod: Pod, reply: EvictReply): Pc {
    match reply
    case Accepted => Polling(false)
    case Missing => Sending(Clean)
    case Throttled => Backoff
    case Refused(m) => Sending(Failure(EvictRefused(pod, m)))
  }

  function AfterLook(pod: Pod, last: bool, fate: Fate): Pc {
    match fate
    case Gone => Sending(Clean)
    case Skipped => Sending(Clean)
    case Broken(e) => Sending(Failure(WaitFailed(pod, GetFailed(e))))
    case Pending => Deciding(last)
  }

  function AfterDecide(pod: Pod, last: bool, expired: bool): Pc {
    if expired then Sending(Failure(WaitFailed(pod, GlobalTimeout)))
    else if last then Sending(Failure(WaitFailed(pod, PollTimeout)))
    else Idle
  }

  /** The actions of a worker other than its send. */
  predicate InnerAction(step: Step) {
    step.CheckDeadline? || step.Request? || step.Wake? || step.Look? || step.Decide? || step.Tick?
  }

  /** Where such an action leaves the worker. */
  function PcAfter(skipAfter: int, worker: Worker, expired: bool, step: Step): Pc
    requires InnerAction(step)
    requires step.Look? ==> worker.pc.Polling?
    requires step.Decide? ==> worker.pc.Deciding?
  {
    match step
    case CheckDeadline(_) => if expired then Sending(Failure(DeadlineReached(worker.pod))) else Requesting
    case Request(_, reply) => AfterRequest(worker.pod, reply)
    case Wake(_) => AtTop
    case Look(_, got, now) => AfterLook(worker.pod, worker.pc.last, Judge(worker.pod, got, skipAfter, now))
    case Decide(_) => AfterDecide(worker.pod, worker.pc.last, expired)
    case Tick(_, last) => Polling(last)
  }

  function Next(skipAfter: int, s: Sys, step: Step): Sys
    requires Enabled(s, step)
  {
    match step
    case Spawn => Move(s, s.spawned, AtTop).(spawned := s.spawned + 1)
    case Send(w) =>
      Move(s, w, Finished(s.workers[w].pc.outcome)).(channel := Some(s.workers[w].pc.outcome))
    case Receive =>
      s.(channel := None,
         doneCount := s.doneCount + 1,
         errors := s.errors + FailuresIn(s.channel.value))
    case Spin => s
    case Return => s.(returned := true, expired := true)
    case Expire => s.(expired := true)
    case _ => Move(s, step.w, PcAfter(skipAfter, s.workers[step.w], s.expired, step))
  }

  function FailuresIn(o: Outcome): seq<DrainError> {
    if o.Failure? then [o.error] else []
  }

  // ----- Runs -----

  ghost predicate Run(skipAfter: int, s0: Sys, steps: seq<Step>)
    decreases |steps|, 0
  {
    steps == [] ||
    (var before := steps[..|steps| - 1];
     Run(skipAfter, s0, before) && Enabled(Exec(skipAfter, s0, before), steps[|steps| - 1]))
  }

  ghost function Exec(skipAfter: int, s0: Sys, steps: seq<Step>): Sys
    requires Run(skipAfter, s0, steps)
    decreases |steps|, 1
  {
    if steps == [] then s0
    else Next(skipAfter, Exec(skipAfter, s0, steps[..|steps| - 1]), steps[|steps| - 1])
  }

  // ----- Bookkeeping over the workers -----

  ghost function Sum(ws: seq<Worker>, weight: Pc -> int): int {
    if ws == [] then 0 else weight(ws[0].pc) + Sum(ws[1..], weight)
  }

  function Done(pc: Pc): int {
    if pc.Finished? then 1 else 0
  }

  /** Weighs 1 for a finished worker that handed over `e`. */
  ghost function HandedOver(e: DrainError): Pc -> int {
    pc => if pc == Finished(Failure(e)) then 1 else 0
  }

  lemma {:induction false} SumUpdate(ws: seq<Worker>, weight: Pc -> int, i: nat, w: Worker)
    requires i < |ws|
    ensures Sum(ws[i := w], weight) == Sum(ws, weight) - weight(ws[i].pc) + weight(w.pc)
  {
    if i == 0 {
      assert ws[0 := w][1..] == ws[1..];
    } else {
      assert ws[i := w][1..] == ws[1..][i - 1 := w];
      SumUpdate(ws[1..], weight, i - 1, w);
    }
  }

  lemma {:induction false} DoneBound(ws: seq<Worker>)
    ensures 0 <= Sum(ws, Done) <= |ws|
    ensures Sum(ws, Done) == |ws| <==> forall i | 0 <= i < |ws| :: ws[i].pc.Finished?
  {
    if ws != [] {
      DoneBound(ws[1..]);
      assert forall i | 0 <= i < |ws| - 1 :: ws[1..][i] == ws[i + 1];
      if forall i | 0 <= i < |ws[1..]| :: ws[1..][i].pc.Finished? {
        assert forall i | 1 <= i < |ws| :: ws[i] == ws[1..][i - 1];
      }
    }
  }

  ghost function InTransit(channel: Option<Outcome>, e: DrainError): nat {
    if channel == Some(Failure(e)) then 1 else 0
  }

  /** Each pod has its worker, and the workers start in order. */
  ghost predicate Placed(pods: seq<Pod>, s: Sys) {
    && |s.workers| == |pods|
    && (forall i | 0 <= i < |pods| :: s.workers[i].pod == pods[i])
    && s.spawned <= |pods|
    && (forall i | 0 <= i < |pods| :: s.workers[i].pc == Unspawned <==> s.spawned <= i)
  }

  ghost predicate Inv(pods: seq<Pod>, s: Sys) {
    && Placed(pods, s)
    && Sum(s.workers, Done) == s.doneCount + (if s.channel.Some? then 1 else 0)
    && (forall e :: Sum(s.workers, HandedOver(e)) == multiset(s.errors)[e] + InTransit(s.channel, e))
    && (s.returned ==> s.doneCount == |pods| && s.expired)
  }

  lemma {:induction false} InitInv(pods: seq<Pod>)
    ensures Inv(pods, Init(pods))
  {
    NothingFinished(Init(pods).workers, Done);
    forall e {
      NothingFinished(Init(pods).workers, HandedOver(e));
    }
  }

  lemma {:induction false} NothingFinished(ws: seq<Worker>, weight: Pc -> int)
    requires forall i | 0 <= i < |ws| :: ws[i].pc == Unspawned
    requires weight(Unspawned) == 0
    ensures Sum(ws, weight) == 0
  {
    if ws != [] {
      NothingFinished(ws[1..], weight);
    }
  }

  /** How the sums change when one worker moves. */
  lemma MoveSums(s: Sys, w: nat, pc: Pc)
    requires w < |s.workers|
    ensures var ws, ws' := s.workers, Move(s, w, pc).workers;
            && Sum(ws', Done) == Sum(ws, Done) - Done(ws[w].pc) + Done(pc)
            && forall e :: Sum(ws', HandedOver(e))
                        == Sum(ws, HandedOver(e)) - HandedOver(e)(ws[w].pc) + HandedOver(e)(pc)
  {
    var w' := s.workers[w].(pc := pc);
    SumUpdate(s.workers, Done, w, w');
    forall e {
      SumUpdate(s.workers, HandedOver(e), w, w');
    }
  }

  /** A move of one running worker that does not finish it. */
  lemma MoveInv(pods: seq<Pod>, s: Sys, w: nat, pc: Pc)
    requires Inv(pods, s) && w < |pods|
    requires !s.workers[w].pc.Unspawned? && !s.workers[w].pc.Finished?
    requires !pc.Unspawned? && !pc.Finished?
    ensures Inv(pods, Move(s, w, pc))
  {
    MoveSums(s, w, pc);
  }

  lemma SpawnInv(pods: seq<Pod>, s: Sys)
    requires Inv(pods, s) && s.spawned < |pods|
    ensures Inv(pods, Move(s, s.spawned, AtTop).(spawned := s.spawned + 1))
  {
    MoveSums(s, s.spawned, AtTop);
  }

  lemma SendInv(pods: seq<Pod>, s: Sys, w: nat)
    requires Inv(pods, s) && w < |pods| && s.workers[w].pc.Sending? && s.channel.None?
    ensures var o := s.workers[w].pc.outcome;
            Inv(pods, Move(s, w, Finished(o)).(channel := Some(o)))
  {
    var o := s.workers[w].pc.outcome;
    MoveSums(s, w, Finished(o));
    DoneBound(Move(s, w, Finished(o)).workers);
  }

  lemma ReceiveInv(pods: seq<Pod>, s: Sys)
    requires Inv(pods, s) && Enabled(s, Receive)
    ensures Inv(pods, Next(0, s, Receive))
  {}

  /** A worker's action other than a send moves that worker, which neither starts nor finishes. */
  lemma InnerMoves(skipAfter: int, s: Sys, step: Step)
    requires Enabled(s, step) && InnerAction(step)
    ensures step.w < |s.workers| && |Next(skipAfter, s, step).workers| == |s.workers|
    ensures var pc, pc' := s.workers[step.w].pc, Next(skipAfter, s, step).workers[step.w].pc;
            && Next(skipAfter, s, step) == Move(s, step.w, pc')
            && !pc.Unspawned? && !pc.Finished? && !pc'.Unspawned? && !pc'.Finished?
  {}

  lemma StepInv(skipAfter: int, pods: seq<Pod>, s: Sys, step: Step)
    requires Inv(pods, s) && Enabled(s, step)
    ensures Inv(pods, Next(skipAfter, s, step))
  {
    match step {
      case Spawn => SpawnInv(pods, s);
      case Send(w) => SendInv(pods, s, w);
      case Receive => ReceiveInv(pods, s);
      case Spin =>
      case Return => DoneBound(s.workers);
      case Expire =>
      case _ =>
        InnerMoves(skipAfter, s, step);
        MoveInv(pods, s, step.w, Next(skipAfter, s, step).workers[step.w].pc);
    }
  }

  /** Every reachable state: finished workers are exactly the counted messages plus the one in the
      channel, and the collected errors are exactly the ones handed over. */
  lemma {:induction false} RunInv(skipAfter: int, pods: seq<Pod>, steps: seq<Step>)
    requires Run(skipAfter, Init(pods), steps)
    ensures Inv(pods, Exec(skipAfter, Init(pods), steps))
  {
    if steps == [] {
      InitInv(pods);
    } else {
      var before := steps[..|steps| - 1];
      RunInv(skipAfter, pods, before);
      StepInv(skipAfter, pods, Exec(skipAfter, Init(pods), before), steps[|steps| - 1]);
    }
  }

  // ----- Ranking after the deadline -----

  function Rank(pc: Pc): int {
    match pc
    case Finished(_) => 0
    case Sending(_) => 2
    case AtTop => 3
    case Deciding(_) => 3
    case Unspawned => 4
    case Backoff => 4
    case Polling(_) => 4
    case Idle => 5
    case Requesting => 5
  }

  ghost function SysRank(s: Sys): int {
    Sum(s.workers, Rank) + (if s.channel.Some? then 1 else 0) + (if s.returned then 0 else 1)
  }
}

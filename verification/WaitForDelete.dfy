/** Waiting until pods are gone: the polling loop, its bookkeeping by input position, and the plain
    deletion path built on it. */
module WaitForDelete {
  import opened Kube
  import opened PodFate
  import opened EvictProtocol

  /** The environment of one wait, read at call number `t`: the getter's answers, the clock, whether
      the context is done, and the replies to delete requests. */
  datatype World = World(
    got: (nat, Pod) -> GetReply,
    now: nat -> int,
    contextDone: nat -> bool,
    deleted: (nat, Pod) -> ApiError)

  function FateAt(world: World, skipAfter: int, pod: Pod, t: nat): Fate {
    Judge(pod, world.got(t, pod), skipAfter, world.now(t))
  }

  // ----- The loop as a function on input positions -----

  /** What one pass over the pending positions has gathered; a getter error cuts it short. `calls`
      lists the positions looked at so far in the whole wait: the k-th look is call `base + k`. */
  datatype Round = Round(pending: seq<nat>, done: seq<nat>, skipped: seq<nat>, err: Option<WaitError>, calls: seq<nat>)

  ghost predicate Positions(pods: seq<Pod>, todo: seq<nat>) {
    forall i | 0 <= i < |todo| :: todo[i] < |pods|
  }

  ghost predicate RoundWithin(pods: seq<Pod>, r: Round) {
    Positions(pods, r.pending) && Positions(pods, r.done)
  }

  ghost function LookAt(pods: seq<Pod>, world: World, skipAfter: int, base: nat, p: nat, r: Round): (r': Round)
    requires p < |pods| && RoundWithin(pods, r)
    ensures RoundWithin(pods, r')
  {
    var looked := r.(calls := r.calls + [p]);
    match FateAt(world, skipAfter, pods[p], base + |r.calls|)
    case Broken(e) => looked.(err := Some(GetFailed(e)))
    case Gone => looked.(done := r.done + [p])
    case Skipped => looked.(skipped := r.skipped + [p])
    case Pending => looked.(pending := r.pending + [p])
  }

  ghost function PollFrom(pods: seq<Pod>, world: World, skipAfter: int, base: nat, todo: seq<nat>, i: nat,
                          r: Round): (r': Round)
    requires Positions(pods, todo) && i <= |todo| && RoundWithin(pods, r)
    ensures RoundWithin(pods, r')
    decreases |todo| - i
  {
    if i == |todo| || r.err.Some? then r
    else PollFrom(pods, world, skipAfter, base, todo, i + 1, LookAt(pods, world, skipAfter, base, todo[i], r))
  }

  ghost function PollRound(pods: seq<Pod>, world: World, skipAfter: int, base: nat, todo: seq<nat>,
                           calls: seq<nat>): (r: Round)
    requires Positions(pods, todo)
    ensures RoundWithin(pods, r)
  {
    PollFrom(pods, world, skipAfter, base, todo, 0, Round([], [], [], None, calls))
  }

  /** Where a wait stands or ends: the positions returned, reported done and skipped. */
  datatype Waited = Waited(rest: seq<nat>, done: seq<nat>, skipped: seq<nat>, err: Option<WaitError>, calls: seq<nat>)

  /** `ticks` counts the intervals left before the poll timer fires. */
  ghost function Wait(pods: seq<Pod>, world: World, skipAfter: int, base: nat, w: Waited, ticks: nat): (r: Waited)
    requires Positions(pods, w.rest) && Positions(pods, w.done)
    ensures Positions(pods, r.rest) && Positions(pods, r.done)
    decreases ticks
  {
    var round := PollRound(pods, world, skipAfter, base, w.rest, w.calls);
    var next := AfterRound(w, round);
    if round.err.Some? then next.(rest := w.rest, err := round.err)
    else if round.pending == [] then next
    else if world.contextDone(base + |round.calls|) then next.(err := Some(GlobalTimeout))
    else if ticks == 0 then next.(err := Some(PollTimeout))
    else Wait(pods, world, skipAfter, base, next, ticks - 1)
  }

  ghost function AfterRound(w: Waited, round: Round): Waited {
    Waited(round.pending, w.done + round.done, w.skipped + round.skipped, None, round.calls)
  }

  ghost function Start(pods: seq<Pod>): (w: Waited)
    ensures Positions(pods, w.rest) && Positions(pods, w.done)
  {
    Waited(seq(|pods|, i requires 0 <= i < |pods| => i), [], [], None, [])
  }

  ghost function Pick(pods: seq<Pod>, todo: seq<nat>): seq<Pod>
    requires Positions(pods, todo)
  {
    seq(|todo|, i requires 0 <= i < |todo| => pods[todo[i]])
  }

  lemma PickAppend(pods: seq<Pod>, a: seq<nat>, b: seq<nat>)
    requires Positions(pods, a) && Positions(pods, b)
    ensures Positions(pods, a + b) && Pick(pods, a + b) == Pick(pods, a) + Pick(pods, b)
  {}

  // ----- The loops themselves -----

  /** One look of a poll, and what it adds to the lists. */
  lemma LookTurn(pods: seq<Pod>, world: World, skipAfter: int, base: nat, todo: seq<nat>, i: nat, r: Round)
    requires Positions(pods, todo) && i < |todo| && RoundWithin(pods, r) && r.err.None?
    ensures var r' := LookAt(pods, world, skipAfter, base, todo[i], r);
            && PollFrom(pods, world, skipAfter, base, todo, i, r)
               == PollFrom(pods, world, skipAfter, base, todo, i + 1, r')
            && (r'.err.Some? ==> PollFrom(pods, world, skipAfter, base, todo, i, r) == r')
            && |r'.calls| == |r.calls| + 1
            && var pod, fate := pods[todo[i]], FateAt(world, skipAfter, pods[todo[i]], base + |r.calls|);
               && Pick(pods, r'.done) == Pick(pods, r.done) + (if fate == Gone then [pod] else [])
               && Pick(pods, r'.pending) == Pick(pods, r.pending) + (if fate == Pending then [pod] else [])
               && r'.err == (if fate.Broken? then Some(GetFailed(fate.err)) else None)
  {
    PickAppend(pods, r.done, [todo[i]]);
    PickAppend(pods, r.pending, [todo[i]]);
    assert Pick(pods, [todo[i]]) == [pods[todo[i]]];
  }

  /** One poll: the body handed to the poller. `pods` is the pending list, `todo` its positions. */
  method Poll(pods: seq<Pod>, world: World, skipAfter: int, start: nat,
              ghost input: seq<Pod>, ghost base: nat, ghost todo: seq<nat>, ghost calls: seq<nat>)
    returns (pending: seq<Pod>, reported: seq<Pod>, err: Option<WaitError>, t: nat)
    requires Positions(input, todo) && pods == Pick(input, todo) && start == base + |calls|
    ensures var r := PollRound(input, world, skipAfter, base, todo, calls);
            && pending == Pick(input, r.pending) && reported == Pick(input, r.done)
            && err == r.err && t == base + |r.calls|
  {
    pending, reported, err, t := [], [], None, start;
    ghost var r := Round([], [], [], None, calls);
    for i := 0 to |pods|
      invariant RoundWithin(input, r) && r.err.None? && err.None? && t == base + |r.calls|
      invariant pending == Pick(input, r.pending) && reported == Pick(input, r.done)
      invariant PollFrom(input, world, skipAfter, base, todo, i, r)
             == PollRound(input, world, skipAfter, base, todo, calls)
    {
      var pod := pods[i];
      var fate := FateAt(world, skipAfter, pod, t);
      LookTurn(input, world, skipAfter, base, todo, i, r);
      r := LookAt(input, world, skipAfter, base, todo[i], r);
      t := t + 1;
      match fate {
        case Broken(e) =>
          err := Some(GetFailed(e));
          return;
        case Gone => reported := reported + [pod];
        case Skipped =>
        case Pending => pending := pending + [pod];
      }
    }
  }

  /** One turn of the wait: either the round ends it, or the wait goes on from what the round left. */
  lemma WaitTurn(pods: seq<Pod>, world: World, skipAfter: int, base: nat, w: Waited, ticks: nat)
    requires Positions(pods, w.rest) && Positions(pods, w.done)
    ensures var round := PollRound(pods, world, skipAfter, base, w.rest, w.calls);
            var r, next := Wait(pods, world, skipAfter, base, w, ticks), AfterRound(w, round);
            && Positions(pods, next.done) && Pick(pods, next.done) == Pick(pods, w.done) + Pick(pods, round.done)
            && (if round.err.Some? then r == next.(rest := w.rest, err := round.err)
                else if round.pending == [] then r == next
                else if world.contextDone(base + |round.calls|) then r == next.(err := Some(GlobalTimeout))
                else if ticks == 0 then r == next.(err := Some(PollTimeout))
                else r == Wait(pods, world, skipAfter, base, next, ticks - 1))
  {
    var round := PollRound(pods, world, skipAfter, base, w.rest, w.calls);
    PickAppend(pods, w.done, round.done);
  }

  lemma PickAll(pods: seq<Pod>)
    ensures Pick(pods, Start(pods).rest) == pods && Pick(pods, Start(pods).done) == []
  {}

  /** Returns the pods still pending, the error, and the pods passed to the done callback in order. */
  method WaitForPods(pods: seq<Pod>, world: World, skipAfter: int, start: nat, ticks: nat)
    returns (rest: seq<Pod>, err: Option<WaitError>, reported: seq<Pod>)
    ensures var w := Wait(pods, world, skipAfter, start, Start(pods), ticks);
            rest == Pick(pods, w.rest) && err == w.err && reported == Pick(pods, w.done)
  {
    rest, err, reported := pods, None, [];
    var t, left := start, ticks;
    ghost var w := Start(pods);
    PickAll(pods);
    while true
      invariant err.None? && t == start + |w.calls|
      invariant Positions(pods, w.rest) && rest == Pick(pods, w.rest)
      invariant Positions(pods, w.done) && reported == Pick(pods, w.done)
      invariant Wait(pods, world, skipAfter, start, w, left) == Wait(pods, world, skipAfter, start, Start(pods), ticks)
      decreases left
    {
      ghost var round := PollRound(pods, world, skipAfter, start, w.rest, w.calls);
      var pending, gone, failure, after := Poll(rest, world, skipAfter, t, pods, start, w.rest, w.calls);
      WaitTurn(pods, world, skipAfter, start, w, left);
      reported, t := reported + gone, after;
      if failure.Some? {
        err := failure;
        return;
      }
      rest := pending;
      if |pending| == 0 {
        return;
      }
      if world.contextDone(t) {
        err := Some(GlobalTimeout);
        return;
      }
      if left == 0 {
        err := Some(PollTimeout);
        return;
      }
      left := left - 1;
      w := AfterRound(w, round);
    }
  }
}

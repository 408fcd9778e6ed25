/** The bookkeeping law of the polling loop: every input position is accounted for exactly once. */
module WaitTheorems {
  import opened Kube
  import opened PodFate
  import opened EvictProtocol
  import opened WaitForDelete

  ghost predicate Increasing(s: seq<nat>) {
    forall i, j | 0 <= i < j < |s| :: s[i] < s[j]
  }

  ghost predicate NoDuplicates(s: seq<nat>) {
    forall i, j | 0 <= i < j < |s| :: s[i] != s[j]
  }

  ghost predicate Apart(a: seq<nat>, b: seq<nat>) {
    forall p | p in a :: p !in b
  }

  /** `pending`, `done` and `skipped` split the positions in `all` between them. */
  ghost predicate Splits(all: seq<nat>, pending: seq<nat>, done: seq<nat>, skipped: seq<nat>) {
    && (forall p :: p in all <==> p in pending || p in done || p in skipped)
    && Apart(pending, done) && Apart(pending, skipped) && Apart(done, skipped)
  }

  /** A wait's books over `n` inputs: the pending list is a subsequence of the input, and each
      position is exactly one of pending, reported done (once) and skipped (once). */
  ghost predicate Books(n: nat, w: Waited) {
    && Increasing(w.rest) && NoDuplicates(w.done) && NoDuplicates(w.skipped)
    && (forall p :: p in w.rest || p in w.done || p in w.skipped <==> 0 <= p < n)
    && Apart(w.rest, w.done) && Apart(w.rest, w.skipped) && Apart(w.done, w.skipped)
  }

  // ----- One round -----

  ghost predicate RoundBooks(todo: seq<nat>, i: nat, r: Round)
    requires i <= |todo|
  {
    && Increasing(r.pending) && Increasing(r.done) && Increasing(r.skipped)
    && Splits(todo[..i], r.pending, r.done, r.skipped)
  }

  lemma IncreasingAppend(s: seq<nat>, p: nat)
    requires Increasing(s) && forall q | q in s :: q < p
    ensures Increasing(s + [p])
  {
    forall i, j | 0 <= i < j < |s + [p]|
      ensures (s + [p])[i] < (s + [p])[j]
    {
      assert (s + [p])[i] == s[i] && s[i] in s;
    }
  }

  lemma LookBooks(pods: seq<Pod>, world: World, skipAfter: int, base: nat, todo: seq<nat>, i: nat, r: Round)
    requires Positions(pods, todo) && RoundWithin(pods, r) && Increasing(todo)
    requires i < |todo| && RoundBooks(todo, i, r)
    ensures var r' := LookAt(pods, world, skipAfter, base, todo[i], r);
            RoundBooks(todo, if FateAt(world, skipAfter, pods[todo[i]], base + |r.calls|).Broken? then i else i + 1, r')
  {
    var p := todo[i];
    assert todo[..i + 1] == todo[..i] + [p];
    forall q | q in todo[..i]
      ensures q < p
    {
      var k :| 0 <= k < i && todo[k] == q;
    }
    assert forall q | q in r.pending || q in r.done || q in r.skipped :: q in todo[..i];
    IncreasingAppend(r.pending, p);
    IncreasingAppend(r.done, p);
    IncreasingAppend(r.skipped, p);
  }

  /** `j` is where the round stopped. */
  lemma {:induction false} PollBooks(pods: seq<Pod>, world: World, skipAfter: int, base: nat, todo: seq<nat>, i: nat,
                                     r: Round)
    returns (j: nat)
    requires Positions(pods, todo) && RoundWithin(pods, r) && Increasing(todo)
    requires i <= |todo| && RoundBooks(todo, i, r) && r.err.None?
    ensures var r' := PollFrom(pods, world, skipAfter, base, todo, i, r);
            && j <= |todo| && RoundBooks(todo, j, r')
            && (r'.err.None? ==> j == |todo|)
            && (r'.err.Some? ==> r'.err.value.GetFailed?)
    decreases |todo| - i
  {
    if i == |todo| {
      j := i;
    } else {
      LookBooks(pods, world, skipAfter, base, todo, i, r);
      var r' := LookAt(pods, world, skipAfter, base, todo[i], r);
      if r'.err.Some? {
        j := i;
        assert PollFrom(pods, world, skipAfter, base, todo, i + 1, r') == r';
      } else {
        j := PollBooks(pods, world, skipAfter, base, todo, i + 1, r');
      }
    }
  }

  // ----- The whole wait -----

  lemma AppendNoDuplicates(a: seq<nat>, b: seq<nat>)
    requires NoDuplicates(a) && Increasing(b) && Apart(a, b)
    ensures NoDuplicates(a + b)
  {
    forall i, j | 0 <= i < j < |a + b|
      ensures (a + b)[i] != (a + b)[j]
    {
      if i < |a| <= j {
        assert (a + b)[i] in a && (a + b)[j] in b;
      }
    }
  }

  /** Adding what one round resolved to the books. */
  lemma RoundJoins(n: nat, w: Waited, round: Round, j: nat)
    requires Books(n, w) && j <= |w.rest| && RoundBooks(w.rest, j, round)
    ensures var next := AfterRound(w, round);
            && NoDuplicates(next.done) && NoDuplicates(next.skipped) && Apart(next.done, next.skipped)
            && (forall p | p in round.done || p in round.skipped :: p in w.rest)
            && (j == |w.rest| ==> Books(n, next))
  {
    assert forall p | p in w.rest[..j] :: p in w.rest;
    assert forall p | p in round.done || p in round.skipped || p in round.pending :: p in w.rest[..j];
    AppendNoDuplicates(w.done, round.done);
    AppendNoDuplicates(w.skipped, round.skipped);
    if j == |w.rest| {
      assert w.rest[..j] == w.rest;
    }
  }

  /** What a wait guarantees when it ends. After a getter error the list is the one the failing
      round began with (`before`), so the positions that round had already resolved are still in it. */
  ghost predicate Settled(n: nat, r: Waited, before: Waited) {
    match r.err
    case None => Books(n, r) && r.rest == []
    case Some(GetFailed(_)) =>
      && Books(n, before) && r.rest == before.rest
      && before.done <= r.done && before.skipped <= r.skipped
      && NoDuplicates(r.done) && NoDuplicates(r.skipped) && Apart(r.done, r.skipped)
      && (forall p | p in r.done[|before.done|..] || p in r.skipped[|before.skipped|..] :: p in r.rest)
    case Some(_) => Books(n, r) && r.rest != []
  }

  lemma {:induction false} WaitSettles(pods: seq<Pod>, world: World, skipAfter: int, base: nat, w: Waited, ticks: nat)
    returns (before: Waited)
    requires Positions(pods, w.rest) && Positions(pods, w.done) && Books(|pods|, w)
    ensures Settled(|pods|, Wait(pods, world, skipAfter, base, w, ticks), before)
    decreases ticks
  {
    before := w;
    var round := PollRound(pods, world, skipAfter, base, w.rest, w.calls);
    var j := PollBooks(pods, world, skipAfter, base, w.rest, 0, Round([], [], [], None, w.calls));
    RoundJoins(|pods|, w, round, j);
    if round.err.None? && round.pending != [] && !world.contextDone(base + |round.calls|) && ticks > 0 {
      before := WaitSettles(pods, world, skipAfter, base, AfterRound(w, round), ticks - 1);
    }
  }

  lemma StartBooks(pods: seq<Pod>)
    ensures Books(|pods|, Start(pods))
  {
    var all := Start(pods).rest;
    forall p
      ensures p in all <==> 0 <= p < |pods|
    {
      if 0 <= p < |pods| {
        assert all[p] == p;
      }
    }
  }

  lemma WaitAccountsForAll(pods: seq<Pod>, world: World, skipAfter: int, base: nat, ticks: nat)
    returns (before: Waited)
    ensures Settled(|pods|, Wait(pods, world, skipAfter, base, Start(pods), ticks), before)
  {
    StartBooks(pods);
    before := WaitSettles(pods, world, skipAfter, base, Start(pods), ticks);
  }

  // ----- What was seen of each resolved pod -----

  /** Some look of the wait was at position `p` and judged it `fate`. */
  ghost predicate Seen(pods: seq<Pod>, world: World, skipAfter: int, base: nat, calls: seq<nat>, p: nat, fate: Fate)
    requires p < |pods|
  {
    exists k: nat | k < |calls| :: calls[k] == p && FateAt(world, skipAfter, pods[p], base + k) == fate
  }

  ghost predicate Witnessed(pods: seq<Pod>, world: World, skipAfter: int, base: nat, calls: seq<nat>,
                            done: seq<nat>, skipped: seq<nat>)
  {
    && (forall p | p in done :: p < |pods| && Seen(pods, world, skipAfter, base, calls, p, Gone))
    && (forall p | p in skipped :: p < |pods| && Seen(pods, world, skipAfter, base, calls, p, Skipped))
  }

  lemma WitnessedLonger(pods: seq<Pod>, world: World, skipAfter: int, base: nat, calls: seq<nat>, longer: seq<nat>,
                        done: seq<nat>, skipped: seq<nat>)
    requires Witnessed(pods, world, skipAfter, base, calls, done, skipped) && calls <= longer
    ensures Witnessed(pods, world, skipAfter, base, longer, done, skipped)
  {
    forall p, fate | 0 <= p < |pods| && Seen(pods, world, skipAfter, base, calls, p, fate)
      ensures Seen(pods, world, skipAfter, base, longer, p, fate)
    {
      var k: nat :| k < |calls| && calls[k] == p && FateAt(world, skipAfter, pods[p], base + k) == fate;
      assert longer[k] == p;
    }
  }

  lemma {:induction false} PollWitnessed(pods: seq<Pod>, world: World, skipAfter: int, base: nat, todo: seq<nat>,
                                         i: nat, r: Round)
    requires Positions(pods, todo) && RoundWithin(pods, r) && i <= |todo|
    requires Witnessed(pods, world, skipAfter, base, r.calls, r.done, r.skipped)
    ensures var r' := PollFrom(pods, world, skipAfter, base, todo, i, r);
            r.calls <= r'.calls && Witnessed(pods, world, skipAfter, base, r'.calls, r'.done, r'.skipped)
    decreases |todo| - i
  {
    if i < |todo| && r.err.None? {
      var p := todo[i];
      var r' := LookAt(pods, world, skipAfter, base, p, r);
      WitnessedLonger(pods, world, skipAfter, base, r.calls, r'.calls, r.done, r.skipped);
      assert r'.calls[|r.calls|] == p;
      assert Seen(pods, world, skipAfter, base, r'.calls, p, FateAt(world, skipAfter, pods[p], base + |r.calls|));
      PollWitnessed(pods, world, skipAfter, base, todo, i + 1, r');
    }
  }

  lemma {:induction false} WaitWitnessed(pods: seq<Pod>, world: World, skipAfter: int, base: nat, w: Waited, ticks: nat)
    requires Positions(pods, w.rest) && Positions(pods, w.done)
    requires Witnessed(pods, world, skipAfter, base, w.calls, w.done, w.skipped)
    ensures var r := Wait(pods, world, skipAfter, base, w, ticks);
            Witnessed(pods, world, skipAfter, base, r.calls, r.done, r.skipped)
    decreases ticks
  {
    var round := PollRound(pods, world, skipAfter, base, w.rest, w.calls);
    PollWitnessed(pods, world, skipAfter, base, w.rest, 0, Round([], [], [], None, w.calls));
    WitnessedLonger(pods, world, skipAfter, base, w.calls, round.calls, w.done, w.skipped);
    var next := AfterRound(w, round);
    assert Witnessed(pods, world, skipAfter, base, next.calls, next.done, next.skipped);
    if round.err.None? && round.pending != [] && !world.contextDone(base + |round.calls|) && ticks > 0 {
      WaitWitnessed(pods, world, skipAfter, base, next, ticks - 1);
    }
  }

  /** A pod that needs no more waiting, by the looks of one wait. */
  ghost predicate Resolved(pods: seq<Pod>, world: World, skipAfter: int, base: nat, ticks: nat, p: nat)
    requires p < |pods|
  {
    var calls := Wait(pods, world, skipAfter, base, Start(pods), ticks).calls;
    || Seen(pods, world, skipAfter, base, calls, p, Gone)
    || Seen(pods, world, skipAfter, base, calls, p, Skipped)
  }

  /** A nil error means every pod was seen gone or skippable by some look of this wait. */
  lemma NilWaitIsSound(pods: seq<Pod>, world: World, skipAfter: int, base: nat, ticks: nat)
    requires Wait(pods, world, skipAfter, base, Start(pods), ticks).err.None?
    ensures forall p: nat | p < |pods| :: Resolved(pods, world, skipAfter, base, ticks, p)
  {
    var before := WaitAccountsForAll(pods, world, skipAfter, base, ticks);
    WaitWitnessed(pods, world, skipAfter, base, Start(pods), ticks);
  }

  // ----- One pod, as an eviction worker waits for it -----

  /** What a worker's polling comes to, by the actions of the eviction protocol. */
  ghost function WorkerPolls(pod: Pod, world: World, skipAfter: int, t: nat, ticks: nat): Outcome
    decreases ticks
  {
    var looked := AfterLook(pod, ticks == 0, FateAt(world, skipAfter, pod, t));
    if looked.Sending? then looked.outcome
    else
      var decided := AfterDecide(pod, looked.last, world.contextDone(t + 1));
      if decided.Sending? then decided.outcome
      else WorkerPolls(pod, world, skipAfter, t + 1, ticks - 1)
  }

  function OutcomeOf(pod: Pod, err: Option<WaitError>): Outcome {
    if err.None? then Clean else Failure(WaitFailed(pod, err.value))
  }

  /** One round over a single pod is one look. */
  lemma SingleRound(pod: Pod, world: World, skipAfter: int, base: nat, calls: seq<nat>)
    ensures var r := PollRound([pod], world, skipAfter, base, [0], calls);
            && r == LookAt([pod], world, skipAfter, base, 0, Round([], [], [], None, calls))
            && r.calls == calls + [0]
  {
    var r0 := Round([], [], [], None, calls);
    var r1 := LookAt([pod], world, skipAfter, base, 0, r0);
    assert PollFrom([pod], world, skipAfter, base, [0], 1, r1) == r1;
  }

  /** One turn of the loop over a single pod, told by how the pod is judged. */
  lemma SingleTurn(pod: Pod, world: World, skipAfter: int, base: nat, w: Waited, ticks: nat) returns (next: Waited)
    requires w.rest == [0] && Positions([pod], w.done)
    ensures next.rest == [0] && Positions([pod], next.done) && |next.calls| == |w.calls| + 1
    ensures Positions([pod], w.rest)
    ensures var t, err := base + |w.calls|, Wait([pod], world, skipAfter, base, w, ticks).err;
            match FateAt(world, skipAfter, pod, t)
            case Broken(e) => err == Some(GetFailed(e))
            case Gone => err == None
            case Skipped => err == None
            case Pending =>
              err == if world.contextDone(t + 1) then Some(GlobalTimeout)
                     else if ticks == 0 then Some(PollTimeout)
                     else Wait([pod], world, skipAfter, base, next, ticks - 1).err
  {
    SingleRound(pod, world, skipAfter, base, w.calls);
    var round := PollRound([pod], world, skipAfter, base, w.rest, w.calls);
    next := AfterRound(w, round).(rest := [0], calls := w.calls + [0]);
    if FateAt(world, skipAfter, pod, base + |w.calls|).Pending? {
      assert round.pending == [0] && next == AfterRound(w, round);
    }
  }

  /** The protocol's polling actions and the polling loop on a single pod come to the same. */
  lemma {:induction false} WorkerPollsAsWait(pod: Pod, world: World, skipAfter: int, base: nat, w: Waited, ticks: nat)
    requires w.rest == [0] && Positions([pod], w.done)
    ensures Positions([pod], w.rest)
    ensures WorkerPolls(pod, world, skipAfter, base + |w.calls|, ticks)
         == OutcomeOf(pod, Wait([pod], world, skipAfter, base, w, ticks).err)
    decreases ticks
  {
    var next := SingleTurn(pod, world, skipAfter, base, w, ticks);
    if ticks > 0 {
      WorkerPollsAsWait(pod, world, skipAfter, base, next, ticks - 1);
    }
  }
}

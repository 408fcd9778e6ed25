/** When a nil return of a wait means what it says: the bookkeeping cannot tell a failed lookup from a
    deletion, and nothing else can go wrong. */
module WaitSoundness {
  import opened Kube
  import opened PodFate
  import opened WaitForDelete
  import opened WaitTheorems

  ghost predicate Within(pods: seq<Pod>, calls: seq<nat>) {
    forall k | 0 <= k < |calls| :: calls[k] < |pods|
  }

  /** Look number `k` judged its pod gone or skippable. */
  ghost predicate Resolving(pods: seq<Pod>, world: World, skipAfter: int, base: nat, calls: seq<nat>, k: nat)
    requires Within(pods, calls)
  {
    k < |calls| && FateAt(world, skipAfter, pods[calls[k]], base + k) in {Gone, Skipped}
  }

  /** Look number `k` was a failed lookup that was taken for a deletion. */
  ghost predicate MisledAt(pods: seq<Pod>, world: World, base: nat, calls: seq<nat>, k: nat)
    requires Within(pods, calls)
  {
    k < |calls| && Misjudged(pods[calls[k]], world.got(base + k, pods[calls[k]]))
  }

  ghost predicate TrulySeen(pods: seq<Pod>, world: World, skipAfter: int, base: nat, calls: seq<nat>, p: nat)
    requires Within(pods, calls)
  {
    exists k: nat | k < |calls| ::
      calls[k] == p && Resolving(pods, world, skipAfter, base, calls, k) && !MisledAt(pods, world, base, calls, k)
  }

  // ----- Each position is resolved at most once -----

  ghost predicate AtMostOnce(pods: seq<Pod>, world: World, skipAfter: int, base: nat, calls: seq<nat>)
    requires Within(pods, calls)
  {
    forall j: nat, k: nat | j < k < |calls| ::
      Resolving(pods, world, skipAfter, base, calls, j) && Resolving(pods, world, skipAfter, base, calls, k) ==>
        calls[j] != calls[k]
  }

  /** No look so far has resolved any of the positions. */
  ghost predicate Unresolved(pods: seq<Pod>, world: World, skipAfter: int, base: nat, calls: seq<nat>, todo: seq<nat>)
    requires Within(pods, calls)
  {
    forall k: nat | k < |calls| && Resolving(pods, world, skipAfter, base, calls, k) :: calls[k] !in todo
  }

  ghost predicate Fresh(pods: seq<Pod>, world: World, skipAfter: int, base: nat, calls: seq<nat>, todo: seq<nat>) {
    && Within(pods, calls)
    && AtMostOnce(pods, world, skipAfter, base, calls)
    && Unresolved(pods, world, skipAfter, base, calls, todo)
  }

  /** One more look, at a position not resolved so far. */
  lemma LookFresh(pods: seq<Pod>, world: World, skipAfter: int, base: nat, calls: seq<nat>, todo: seq<nat>,
                  p: nat, left: seq<nat>)
    requires Fresh(pods, world, skipAfter, base, calls, todo) && p in todo && p < |pods|
    requires forall q | q in left :: q in todo
    requires FateAt(world, skipAfter, pods[p], base + |calls|) in {Gone, Skipped} ==> p !in left
    ensures Fresh(pods, world, skipAfter, base, calls + [p], left)
  {
    var more := calls + [p];
    forall k: nat | k < |calls|
      ensures Resolving(pods, world, skipAfter, base, more, k) <==> Resolving(pods, world, skipAfter, base, calls, k)
    {
      assert more[k] == calls[k];
    }
    assert Resolving(pods, world, skipAfter, base, more, |calls|) <==>
           FateAt(world, skipAfter, pods[p], base + |calls|) in {Gone, Skipped};
  }

  /** What a round leaves unresolved: the pending positions, or the one whose lookup broke it off. */
  ghost function LeftBy(r: Round): seq<nat>
    requires r.err.Some? ==> r.calls != []
  {
    if r.err.Some? then [r.calls[|r.calls| - 1]] else r.pending
  }

  lemma StepFresh(pods: seq<Pod>, world: World, skipAfter: int, base: nat, todo: seq<nat>, i: nat, r: Round)
    requires Positions(pods, todo) && RoundWithin(pods, r) && Increasing(todo) && i < |todo| && r.err.None?
    requires forall p | p in r.pending :: p !in todo[i..]
    requires Fresh(pods, world, skipAfter, base, r.calls, r.pending + todo[i..])
    ensures var r' := LookAt(pods, world, skipAfter, base, todo[i], r);
            && r'.calls == r.calls + [todo[i]]
            && (r'.err.Some? ==> Fresh(pods, world, skipAfter, base, r'.calls, [todo[i]]))
            && (r'.err.None? ==>
                  && Fresh(pods, world, skipAfter, base, r'.calls, r'.pending + todo[i + 1..])
                  && forall p | p in r'.pending :: p !in todo[i + 1..])
  {
    var p := todo[i];
    var r' := LookAt(pods, world, skipAfter, base, p, r);
    assert todo[i..] == [p] + todo[i + 1..];
    assert p !in todo[i + 1..];
    if r'.err.Some? {
      LookFresh(pods, world, skipAfter, base, r.calls, r.pending + todo[i..], p, [p]);
    } else {
      LookFresh(pods, world, skipAfter, base, r.calls, r.pending + todo[i..], p, r'.pending + todo[i + 1..]);
    }
  }

  lemma {:induction false} PollFresh(pods: seq<Pod>, world: World, skipAfter: int, base: nat, todo: seq<nat>, i: nat,
                                     r: Round)
    requires Positions(pods, todo) && RoundWithin(pods, r) && Increasing(todo) && i <= |todo| && r.err.None?
    requires forall p | p in r.pending :: p !in todo[i..]
    requires Fresh(pods, world, skipAfter, base, r.calls, r.pending + todo[i..])
    ensures var r' := PollFrom(pods, world, skipAfter, base, todo, i, r);
            (r'.err.Some? ==> r'.calls != []) && Fresh(pods, world, skipAfter, base, r'.calls, LeftBy(r'))
    decreases |todo| - i
  {
    if i == |todo| {
      assert r.pending + todo[i..] == r.pending;
    } else {
      var r' := LookAt(pods, world, skipAfter, base, todo[i], r);
      StepFresh(pods, world, skipAfter, base, todo, i, r);
      if r'.err.Some? {
        assert PollFrom(pods, world, skipAfter, base, todo, i + 1, r') == r';
      } else {
        PollFresh(pods, world, skipAfter, base, todo, i + 1, r');
      }
    }
  }

  /** What a wait leaves unresolved when it ends. */
  ghost predicate LeftOpen(pods: seq<Pod>, r: Waited, open: seq<nat>) {
    && Positions(pods, open)
    && (r.err.None? <==> open == [])
  }

  lemma RoundFresh(pods: seq<Pod>, world: World, skipAfter: int, base: nat, todo: seq<nat>, calls: seq<nat>)
    requires Positions(pods, todo) && Increasing(todo) && Fresh(pods, world, skipAfter, base, calls, todo)
    ensures var r := PollRound(pods, world, skipAfter, base, todo, calls);
            && (r.err.Some? ==> r.calls != []) && Fresh(pods, world, skipAfter, base, r.calls, LeftBy(r))
            && (r.err.Some? ==> r.calls[|r.calls| - 1] < |pods|)
  {
    assert [] + todo[0..] == todo;
    PollFresh(pods, world, skipAfter, base, todo, 0, Round([], [], [], None, calls));
  }

  lemma RoundKeepsBooks(pods: seq<Pod>, world: World, skipAfter: int, base: nat, w: Waited)
    requires Positions(pods, w.rest) && Books(|pods|, w)
    requires PollRound(pods, world, skipAfter, base, w.rest, w.calls).err.None?
    ensures Books(|pods|, AfterRound(w, PollRound(pods, world, skipAfter, base, w.rest, w.calls)))
  {
    var j := PollBooks(pods, world, skipAfter, base, w.rest, 0, Round([], [], [], None, w.calls));
    RoundJoins(|pods|, w, PollRound(pods, world, skipAfter, base, w.rest, w.calls), j);
  }

  lemma {:induction false} WaitFresh(pods: seq<Pod>, world: World, skipAfter: int, base: nat, w: Waited, ticks: nat)
    returns (open: seq<nat>)
    requires Positions(pods, w.rest) && Positions(pods, w.done) && Books(|pods|, w)
    requires Fresh(pods, world, skipAfter, base, w.calls, w.rest)
    ensures var r := Wait(pods, world, skipAfter, base, w, ticks);
            LeftOpen(pods, r, open) && Fresh(pods, world, skipAfter, base, r.calls, open)
    decreases ticks
  {
    var round := PollRound(pods, world, skipAfter, base, w.rest, w.calls);
    RoundFresh(pods, world, skipAfter, base, w.rest, w.calls);
    WaitTurn(pods, world, skipAfter, base, w, ticks);
    open := LeftBy(round);
    if round.err.None? && round.pending != [] && !world.contextDone(base + |round.calls|) && ticks > 0 {
      RoundKeepsBooks(pods, world, skipAfter, base, w);
      open := WaitFresh(pods, world, skipAfter, base, AfterRound(w, round), ticks - 1);
    }
  }

  // ----- The whole wait -----

  ghost function Looks(pods: seq<Pod>, world: World, skipAfter: int, base: nat, ticks: nat): (calls: seq<nat>)
    ensures Within(pods, calls)
  {
    LooksFresh(pods, world, skipAfter, base, ticks);
    Wait(pods, world, skipAfter, base, Start(pods), ticks).calls
  }

  lemma LooksFresh(pods: seq<Pod>, world: World, skipAfter: int, base: nat, ticks: nat)
    ensures var r := Wait(pods, world, skipAfter, base, Start(pods), ticks);
            exists open :: LeftOpen(pods, r, open) && Fresh(pods, world, skipAfter, base, r.calls, open)
  {
    StartBooks(pods);
    var open := WaitFresh(pods, world, skipAfter, base, Start(pods), ticks);
  }

  lemma SeenIsResolving(pods: seq<Pod>, world: World, skipAfter: int, base: nat, ticks: nat, p: nat)
    requires p < |pods| && Resolved(pods, world, skipAfter, base, ticks, p)
    ensures var calls := Looks(pods, world, skipAfter, base, ticks);
            exists k: nat | k < |calls| :: calls[k] == p && Resolving(pods, world, skipAfter, base, calls, k)
  {
    var calls := Looks(pods, world, skipAfter, base, ticks);
    var fate := if Seen(pods, world, skipAfter, base, calls, p, Gone) then Gone else Skipped;
    var k: nat :| k < |calls| && calls[k] == p && FateAt(world, skipAfter, pods[p], base + k) == fate;
    assert Resolving(pods, world, skipAfter, base, calls, k);
  }

  /** Every pod was truly seen gone or skippable exactly when the wait ends without an error and no
      lookup misled it. */
  lemma WaitSoundIff(pods: seq<Pod>, world: World, skipAfter: int, base: nat, ticks: nat)
    ensures var calls := Looks(pods, world, skipAfter, base, ticks);
            (forall p: nat | p < |pods| :: TrulySeen(pods, world, skipAfter, base, calls, p))
            <==> && Wait(pods, world, skipAfter, base, Start(pods), ticks).err.None?
                 && (forall k: nat | k < |calls| :: !MisledAt(pods, world, base, calls, k))
  {
    var calls := Looks(pods, world, skipAfter, base, ticks);
    var r := Wait(pods, world, skipAfter, base, Start(pods), ticks);
    LooksFresh(pods, world, skipAfter, base, ticks);
    var open :| LeftOpen(pods, r, open) && Fresh(pods, world, skipAfter, base, calls, open);
    if open != [] {
      OpenIsUnseen(pods, world, skipAfter, base, calls, open, open[0]);
    } else {
      forall p: nat | p < |pods|
        ensures TrulySeen(pods, world, skipAfter, base, calls, p)
             || exists k: nat | k < |calls| :: MisledAt(pods, world, base, calls, k)
      {
        NilWaitIsSound(pods, world, skipAfter, base, ticks);
        SeenIsResolving(pods, world, skipAfter, base, ticks, p);
        var k: nat :| k < |calls| && calls[k] == p && Resolving(pods, world, skipAfter, base, calls, k);
        assert TrulySeen(pods, world, skipAfter, base, calls, p) || MisledAt(pods, world, base, calls, k);
      }
      forall k: nat | k < |calls| && MisledAt(pods, world, base, calls, k)
        ensures !TrulySeen(pods, world, skipAfter, base, calls, calls[k])
      {
        MisledIsUnseen(pods, world, skipAfter, base, calls, k);
      }
    }
  }

  lemma OpenIsUnseen(pods: seq<Pod>, world: World, skipAfter: int, base: nat, calls: seq<nat>, open: seq<nat>, p: nat)
    requires Fresh(pods, world, skipAfter, base, calls, open) && p in open
    ensures !TrulySeen(pods, world, skipAfter, base, calls, p)
  {}

  lemma MisledIsUnseen(pods: seq<Pod>, world: World, skipAfter: int, base: nat, calls: seq<nat>, k: nat)
    requires Within(pods, calls) && AtMostOnce(pods, world, skipAfter, base, calls)
    requires k < |calls| && MisledAt(pods, world, base, calls, k)
    ensures !TrulySeen(pods, world, skipAfter, base, calls, calls[k])
  {
    assert Resolving(pods, world, skipAfter, base, calls, k);
    forall j: nat | j < |calls| && calls[j] == calls[k] && Resolving(pods, world, skipAfter, base, calls, j)
      ensures j == k
    {
      assert j < k || j == k || k < j;
    }
  }

  /** A single failed lookup, answered with another object, ends a wait for one pod with nil. */
  lemma NilWithoutSight(pod: Pod, other: Pod, message: string, skipAfter: int, ticks: nat)
    requires other.uid != pod.uid
    ensures var world :=
              World((t, p) => RawReply(Some(other), OtherError(message)), t => 0, t => false, (t, p) => NoError);
            && Wait([pod], world, skipAfter, 0, Start([pod]), ticks).err.None?
            && !TrulySeen([pod], world, skipAfter, 0, Looks([pod], world, skipAfter, 0, ticks), 0)
  {
    var world := World((t, p) => RawReply(Some(other), OtherError(message)), t => 0, t => false, (t, p) => NoError);
    assert Start([pod]).rest == [0];
    SingleRound(pod, world, skipAfter, 0, []);
    var calls := Looks([pod], world, skipAfter, 0, ticks);
    assert calls == [0];
    assert MisledAt([pod], world, 0, calls, 0);
  }

  /** Without a skip time a nil wait was told of every pod that it is missing, or shown another one. */
  lemma NilWaitWithoutSkips(pods: seq<Pod>, world: World, skipAfter: int, base: nat, ticks: nat, p: nat)
    requires skipAfter <= 0 && p < |pods|
    requires Wait(pods, world, skipAfter, base, Start(pods), ticks).err.None?
    ensures var calls := Looks(pods, world, skipAfter, base, ticks);
            exists k: nat | k < |calls| ::
              && calls[k] == p
              && var reply := world.got(base + k, pods[p]);
                 reply.err == NotFound || (reply.obj.Some? && reply.obj.value.uid != pods[p].uid)
  {
    NilWaitIsSound(pods, world, skipAfter, base, ticks);
    SeenIsResolving(pods, world, skipAfter, base, ticks, p);
    var calls := Looks(pods, world, skipAfter, base, ticks);
    var k: nat :| k < |calls| && calls[k] == p && Resolving(pods, world, skipAfter, base, calls, k);
    NeverSkippedByDefault(pods[p], world.got(base + k, pods[p]), skipAfter, world.now(base + k));
  }
}

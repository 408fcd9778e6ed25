/** Deleting pods without the eviction subresource: delete them all, then wait for all. */
module PodDeletion {
  import opened Kube
  import opened EvictProtocol
  import opened WaitForDelete
  import opened WaitTheorems
  import opened WaitSoundness

  datatype DeleteError = DeleteFailed(err: ApiError) | WaitingFailed(cause: WaitError)

  /** Some lookup of the wait that follows `n` delete calls was a failure taken for a deletion. */
  ghost predicate WaitMisled(pods: seq<Pod>, world: World, skipAfter: int, n: nat, ticks: nat) {
    var calls := Looks(pods, world, skipAfter, n, ticks);
    exists k: nat | k < |calls| :: MisledAt(pods, world, n, calls, k)
  }

  ghost predicate TrulyGone(pods: seq<Pod>, world: World, skipAfter: int, n: nat, ticks: nat, i: nat) {
    TrulySeen(pods, world, skipAfter, n, Looks(pods, world, skipAfter, n, ticks), i)
  }

  /** What a nil result means: every pod was seen gone or skippable by some lookup, and truly so
      exactly when no failed lookup was taken for a deletion. */
  ghost predicate NilMeans(pods: seq<Pod>, world: World, skipAfter: int, n: nat, ticks: nat) {
    && (forall i: nat | i < |pods| :: Resolved(pods, world, skipAfter, n, ticks, i))
    && ((forall i: nat | i < |pods| :: TrulyGone(pods, world, skipAfter, n, ticks, i))
        <==> !WaitMisled(pods, world, skipAfter, n, ticks))
  }

  lemma NilResult(pods: seq<Pod>, world: World, skipAfter: int, n: nat, ticks: nat)
    requires Wait(pods, world, skipAfter, n, Start(pods), ticks).err.None?
    ensures NilMeans(pods, world, skipAfter, n, ticks)
  {
    NilWaitIsSound(pods, world, skipAfter, n, ticks);
    WaitSoundIff(pods, world, skipAfter, n, ticks);
    forall i: nat | i < |pods|
      ensures TrulyGone(pods, world, skipAfter, n, ticks, i)
         <==> TrulySeen(pods, world, skipAfter, n, Looks(pods, world, skipAfter, n, ticks), i)
    {}
  }

  /** Every deletion is accepted, or finds no pod, and the wait ends without an error. */
  ghost predicate Ends(pods: seq<Pod>, world: World, skipAfter: int, ticks: nat) {
    && (forall i: nat | i < |pods| :: world.deleted(i, pods[i]) in {NoError, NotFound})
    && Wait(pods, world, skipAfter, |pods|, Start(pods), ticks).err.None?
  }

  /** Deletes every pod, then waits for all of them; `requested` logs the delete calls. */
  method DeletePods(pods: seq<Pod>, world: World, skipAfter: int, ticks: nat)
    returns (err: Option<DeleteError>, requested: seq<Pod>)
    ensures requested <= pods
    ensures err.None? <==> Ends(pods, world, skipAfter, ticks)
    ensures forall i: nat | i + 1 < |requested| :: world.deleted(i, pods[i]) in {NoError, NotFound}
    ensures match err
            case None =>
              && requested == pods
              && Ends(pods, world, skipAfter, ticks)
              && NilMeans(pods, world, skipAfter, |pods|, ticks)
            case Some(DeleteFailed(e)) =>
              && requested != [] && e !in {NoError, NotFound}
              && world.deleted(|requested| - 1, pods[|requested| - 1]) == e
            case Some(WaitingFailed(cause)) =>
              && requested == pods
              && Wait(pods, world, skipAfter, |pods|, Start(pods), ticks).err == Some(cause)
  {
    requested := [];
    for i := 0 to |pods|
      invariant requested == pods[..i]
      invariant forall k: nat | k < i :: world.deleted(k, pods[k]) in {NoError, NotFound}
    {
      requested := requested + [pods[i]];
      var reply := world.deleted(i, pods[i]);
      if reply != NoError && reply != NotFound {
        return Some(DeleteFailed(reply)), requested;
      }
    }
    var rest, failure, reported := WaitForPods(pods, world, skipAfter, |pods|, ticks);
    if failure.Some? {
      return Some(WaitingFailed(failure.value)), requested;
    }
    NilResult(pods, world, skipAfter, |pods|, ticks);
    return None, requested;
  }
}

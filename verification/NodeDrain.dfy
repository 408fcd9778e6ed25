/** Draining a node: list its pods, select, then delete or evict the selected ones. */
module NodeDrain {
  import opened Kube
  import opened EvictProtocol
  import opened WaitForDelete
  import opened PodDeletion
  import opened DrainFilters
  import EvictTheorems
  import EvictSoundness

  datatype Reply<+T> = Answer(value: T) | CallFailed(err: ApiError)

  /** What one eviction run came to: the errors it returned and the eviction requests it sent. */
  datatype EvictResult = EvictResult(errors: seq<DrainError>, requested: seq<Pod>)

  ghost function RequestsIn(pods: seq<Pod>, steps: seq<Step>): seq<Pod> {
    if steps == [] then []
    else
      var last := steps[|steps| - 1];
      RequestsIn(pods, steps[..|steps| - 1]) +
      if last.Request? && last.w < |pods| then [pods[last.w]] else []
  }

  ghost predicate EvictRun(skipAfter: int, pods: seq<Pod>, steps: seq<Step>, r: EvictResult) {
    && Run(skipAfter, Init(pods), steps)
    && EvictTheorems.Final(skipAfter, pods, steps).returned
    && r == EvictResult(EvictTheorems.Final(skipAfter, pods, steps).errors, RequestsIn(pods, steps))
  }

  lemma {:induction false} RequestsAddressPods(pods: seq<Pod>, steps: seq<Step>)
    ensures forall p | p in RequestsIn(pods, steps) :: p in pods
  {
    if steps != [] {
      RequestsAddressPods(pods, steps[..|steps| - 1]);
    }
  }

  lemma {:induction false} AskedIsRequested(pods: seq<Pod>, steps: seq<Step>, i: nat)
    requires i < |pods| && EvictTheorems.Asked(i, steps)
    ensures pods[i] in RequestsIn(pods, steps)
  {
    var n := |steps| - 1;
    var k :| 0 <= k < |steps| && EvictTheorems.RequestBy(i)(steps[k]);
    if k < n {
      assert EvictTheorems.RequestBy(i)(steps[..n][k]);
      AskedIsRequested(pods, steps[..n], i);
    }
  }

  /** An eviction that ends without an error has asked every pod to go. */
  lemma CleanRunAsksAll(skipAfter: int, pods: seq<Pod>, steps: seq<Step>, r: EvictResult)
    requires EvictRun(skipAfter, pods, steps, r) && r.errors == []
    ensures EvictSoundness.NilMeans(skipAfter, pods, steps)
    ensures forall p | p in pods :: p in r.requested
  {
    EvictSoundness.NilResult(skipAfter, pods, steps);
    forall p | p in pods
      ensures p in r.requested
    {
      var i: nat :| i < |pods| && pods[i] == p;
      EvictTheorems.AskedFirst(skipAfter, pods, steps, i);
      AskedIsRequested(pods, steps, i);
    }
  }

  datatype DrainFailure =
    | ListFailed(err: ApiError)
    | DiscoveryFailed(err: ApiError)
    | EvictErrors(errors: seq<DrainError>)
    | DeleteErrors(cause: DeleteError)

  /** One drain's surroundings. `supported` says whether the server offers the eviction subresource;
      `schedule` and `evicted` fix the interleaving an eviction takes and what it comes to. */
  datatype Surroundings = Surroundings(
    listing: Reply<seq<Pod>>,
    at: nat -> Snapshot,
    supported: Reply<bool>,
    world: World,
    ticks: nat,
    schedule: seq<Pod> -> seq<Step>,
    evicted: seq<Pod> -> EvictResult)

  ghost predicate Faithful(h: Helper, s: Surroundings) {
    forall pods :: EvictRun(h.skipAfter, pods, s.schedule(pods), s.evicted(pods))
  }

  ghost function SomeSchedule(skipAfter: int, pods: seq<Pod>): (steps: seq<Step>)
    ensures Run(skipAfter, Init(pods), steps) && EvictTheorems.Final(skipAfter, pods, steps).returned
  {
    assert exists steps ::
        Run(skipAfter, Init(pods), steps) && EvictTheorems.Final(skipAfter, pods, steps).returned by {
      var steps := EvictTheorems.SomeRunReturns(skipAfter, pods);
    }
    var steps :| Run(skipAfter, Init(pods), steps) && EvictTheorems.Final(skipAfter, pods, steps).returned;
    steps
  }

  ghost function ResultOf(skipAfter: int, pods: seq<Pod>): EvictResult {
    var steps := SomeSchedule(skipAfter, pods);
    EvictResult(EvictTheorems.Final(skipAfter, pods, steps).errors, RequestsIn(pods, steps))
  }

  /** All surroundings can be completed by evictions that run the protocol. */
  lemma FaithfulExists(h: Helper, s: Surroundings) returns (s': Surroundings)
    ensures Faithful(h, s') && s' == s.(schedule := s'.schedule, evicted := s'.evicted)
  {
    s' := s.(schedule := pods => SomeSchedule(h.skipAfter, pods), evicted := pods => ResultOf(h.skipAfter, pods));
    forall pods
      ensures EvictRun(h.skipAfter, pods, s'.schedule(pods), s'.evicted(pods))
    {}
  }

  predicate UsesEviction(h: Helper, s: Surroundings) {
    !h.disableEviction && s.supported == Answer(true)
  }

  /** What a nil result means, by what the run itself saw. */
  ghost predicate NilMeans(h: Helper, s: Surroundings, pods: seq<Pod>) {
    if UsesEviction(h, s) then EvictSoundness.NilMeans(h.skipAfter, pods, s.schedule(pods))
    else PodDeletion.NilMeans(pods, s.world, h.skipAfter, |pods|, s.ticks)
  }

  /** Discovery answers and what follows ends without an error. */
  ghost predicate Unhindered(h: Helper, s: Surroundings, pods: seq<Pod>) {
    && (h.disableEviction || s.supported.Answer?)
    && if UsesEviction(h, s) then s.evicted(pods).errors == [] else Ends(pods, s.world, h.skipAfter, s.ticks)
  }

  method DeleteOrEvictPods(h: Helper, s: Surroundings, pods: seq<Pod>)
    returns (err: Option<DrainFailure>, requested: seq<Pod>)
    requires Faithful(h, s)
    ensures forall p | p in requested :: p in pods
    ensures err.None? && pods != [] ==> NilMeans(h, s, pods)
    ensures err.None? <==> pods == [] || Unhindered(h, s, pods)
    ensures err.None? ==> forall p | p in pods :: p in requested
    ensures pods == [] ==> err.None? && requested == []
    ensures pods != [] && UsesEviction(h, s) ==>
              && requested == s.evicted(pods).requested
              && err == if s.evicted(pods).errors == [] then None else Some(EvictErrors(s.evicted(pods).errors))
    ensures !UsesEviction(h, s) ==> requested <= pods
    ensures pods != [] && !h.disableEviction && s.supported.CallFailed? ==>
              err == Some(DiscoveryFailed(s.supported.err)) && requested == []
  {
    if |pods| == 0 {
      return None, [];
    }
    if !h.disableEviction {
      if s.supported.CallFailed? {
        return Some(DiscoveryFailed(s.supported.err)), [];
      }
      if s.supported.value {
        var result := s.evicted(pods);
        assert EvictRun(h.skipAfter, pods, s.schedule(pods), result);
        if result.errors == [] {
          CleanRunAsksAll(h.skipAfter, pods, s.schedule(pods), result);
        }
        RequestsAddressPods(pods, s.schedule(pods));
        return (if |result.errors| == 0 then None else Some(EvictErrors(result.errors))), result.requested;
      }
    }
    var failure, sent := DeletePods(pods, s.world, h.skipAfter, s.ticks);
    return (if failure.None? then None else Some(DeleteErrors(failure.value))), sent;
  }

  ghost predicate Listed(h: Helper, s: Surroundings, p: Pod)
    requires s.listing.Answer?
  {
    exists i: nat :: i < |s.listing.value| && s.listing.value[i] == p && Drainable(h, s.at(i), p)
  }

  ghost function Chosen(h: Helper, s: Surroundings): seq<PodDelete>
    requires s.listing.Answer?
  {
    Selected(h, s.at, s.listing.value)
  }

  /** The chosen pods are exactly the listed ones that pass all five filters. */
  lemma ChosenAreListed(h: Helper, s: Surroundings)
    requires s.listing.Answer?
    ensures forall p :: p in PodsOf(Chosen(h, s)) <==> Listed(h, s, p)
  {
    SelectedFacts(h, s.at, s.listing.value);
    var items := Chosen(h, s);
    forall p | p in PodsOf(items)
      ensures Listed(h, s, p)
    {
      var k :| 0 <= k < |items| && PodsOf(items)[k] == p;
      assert items[k] in items && items[k].pod == p;
    }
    forall p | Listed(h, s, p)
      ensures p in PodsOf(items)
    {
      var i: nat :| i < |s.listing.value| && s.listing.value[i] == p && Drainable(h, s.at(i), p);
      DrainableIsSelected(h, s.at, s.listing.value, i);
      var d :| d in items && d.pod == p;
      var k :| 0 <= k < |items| && items[k] == d;
      assert PodsOf(items)[k] == p;
    }
  }

  /** A selection has nothing to report as an error, and warns of unmanaged pods only. */
  lemma ChosenReports(h: Helper, s: Surroundings, errors: map<string, seq<string>>, warnings: map<string, seq<string>>)
    requires s.listing.Answer?
    requires Grouped(errors, Chosen(h, s), Error) && forall key | key in errors :: errors[key] != []
    requires Grouped(warnings, Chosen(h, s), Warning) && forall key | key in warnings :: warnings[key] != []
    ensures errors == map[] && warnings.Keys <= {UNMANAGED_WARNING}
  {
    SelectedFacts(h, s.at, s.listing.value);
    forall key
      ensures key !in errors
      ensures key in warnings ==> key == UNMANAGED_WARNING
    {
      NoNames(Chosen(h, s), Error, key);
      if key != UNMANAGED_WARNING {
        NoNames(Chosen(h, s), Warning, key);
      }
    }
  }

  /** `warned` is what goes to the error output. Only pods of the listing that pass all five filters
      are ever addressed, and rejected pods, even those a filter calls an error, go unreported. */
  method RunNodeDrain(h: Helper, s: Surroundings)
    returns (err: Option<DrainFailure>, requested: seq<Pod>, warned: map<string, seq<string>>)
    requires Faithful(h, s)
    ensures s.listing.CallFailed? ==> err == Some(ListFailed(s.listing.err)) && requested == []
    ensures s.listing.Answer? ==>
              && (forall p | p in requested :: Listed(h, s, p))
              && (err.None? && Chosen(h, s) != [] ==> NilMeans(h, s, PodsOf(Chosen(h, s))))
              && (err.None? ==> forall p | p in PodsOf(Chosen(h, s)) :: p in requested)
              && (err.None? ==> forall p | Listed(h, s, p) :: p in requested)
              && (err.None? ==> ((forall p | p in s.listing.value :: p in requested)
                                 <==> forall p | p in s.listing.value :: Listed(h, s, p)))
              && (Chosen(h, s) == [] ==> err.None? && requested == [])
              && warned.Keys <= {UNMANAGED_WARNING}
              && NamesUnder(Chosen(h, s), Warning, UNMANAGED_WARNING)
                 == (if UNMANAGED_WARNING in warned then warned[UNMANAGED_WARNING] else [])
  {
    warned := map[];
    if s.listing.CallFailed? {
      return Some(ListFailed(s.listing.err)), [], warned;
    }
    var items := SelectPods(h, s.at, s.listing.value);
    // The selection holds no item with an error status, so the early return on errors never happens.
    var errors := Errors(items);
    warned := Warnings(items);
    ChosenReports(h, s, errors, warned);
    assert |errors| == 0;
    assert forall d | d in items :: d.status.delete by {
      SelectedFacts(h, s.at, s.listing.value);
    }
    NothingDropped(items);
    var pods := Pods(items);
    ChosenAreListed(h, s);
    err, requested := DeleteOrEvictPods(h, s, pods);
  }

  const UNMANAGED_POD := Pod("default", "web", "1", [], map[], map[], None, None, [], PodRunning, [], [])

  lemma UnmanagedPodIsRejected(h: Helper, at: nat -> Snapshot)
    requires !h.force
    ensures UnreplicatedFilter(h, at(0), UNMANAGED_POD) == StatusError(UNMANAGED_FATAL)
    ensures Selected(h, at, [UNMANAGED_POD]) == []
  {
    assert !Drainable(h, at(0), UNMANAGED_POD);
    assert [UNMANAGED_POD][..0] == [];
  }

  /** Concretely: a node with one running pod without owners, drained without force. The drain returns
      nil and has asked nothing, although the last filter calls the pod an error. */
  method DrainLeavesUnmanagedPod(h: Helper, s: Surroundings)
    returns (err: Option<DrainFailure>, requested: seq<Pod>, warned: map<string, seq<string>>)
    requires Faithful(h, s) && !h.force && s.listing == Answer([UNMANAGED_POD])
    ensures err.None? && requested == []
    ensures UnreplicatedFilter(h, s.at(0), UNMANAGED_POD) == StatusError(UNMANAGED_FATAL)
  {
    UnmanagedPodIsRejected(h, s.at);
    err, requested, warned := RunNodeDrain(h, s);
  }
}

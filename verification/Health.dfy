/** Counting pods by state, and how far the counts can move when a few pods change. */
module Health {
  import opened Kube

  predicate IsPodCrashLoopBackoff(pod: Pod) {
    exists i | 0 <= i < |pod.containers| :: pod.containers[i] == Waiting("CrashLoopBackOff")
  }

  predicate IsPodHealthy(pod: Pod) {
    if pod.phase == PodSucceeded then
      forall i | 0 <= i < |pod.containers| :: pod.containers[i].Terminated? ==> pod.containers[i].exitCode == 0
    else if pod.phase == PodFailed || IsPodCrashLoopBackoff(pod) then false
    else if exists i | 0 <= i < |pod.conditions| :: pod.conditions[i].status == ConditionFalse then false
    else pod.phase == PodRunning
  }

  predicate IsPodPending(pod: Pod) {
    pod.phase == PodPending
  }

  datatype Class = Ignored | CrashLooping | Healthy | Waiting_ | Erroneous

  function ClassOf(pod: Pod): Class {
    if IsDeleted(pod) || (pod.priority.Some? && pod.priority.value < 0) then Ignored
    else if IsPodCrashLoopBackoff(pod) then CrashLooping
    else if IsPodHealthy(pod) then Healthy
    else if IsPodPending(pod) then Waiting_
    else Erroneous
  }

  datatype Report = Report(
    runningPods: int, pendingPods: int, errorPods: int, crashLoopBackOff: int,
    readyNodes: int, unreadyNodes: int, failed: bool)
  {
    function NonReadyPods(): int {
      pendingPods + errorPods + crashLoopBackOff
    }

    predicate IsDegradedComparedTo(h2: Report, tolerance: int) {
      || NonReadyPods() - h2.NonReadyPods() > tolerance
      || h2.runningPods - runningPods > tolerance
      || unreadyNodes - h2.unreadyNodes > 0
    }
  }

  function Count(pods: seq<Pod>, p: Pod -> bool): nat {
    if pods == [] then 0 else Count(pods[..|pods| - 1], p) + if p(pods[|pods| - 1]) then 1 else 0
  }

  function InClass(c: Class): Pod -> bool {
    pod => ClassOf(pod) == c
  }

  predicate IsCounted(pod: Pod) {
    ClassOf(pod) != Ignored
  }

  predicate IsNonReady(pod: Pod) {
    ClassOf(pod) in {CrashLooping, Waiting_, Erroneous}
  }

  predicate IsRunning(pod: Pod) {
    ClassOf(pod) == Healthy
  }

  /** The report of a listing that succeeded. */
  predicate Reports(h: Report, pods: seq<Pod>) {
    && h.runningPods == Count(pods, InClass(Healthy))
    && h.pendingPods == Count(pods, InClass(Waiting_))
    && h.errorPods == Count(pods, InClass(Erroneous))
    && h.crashLoopBackOff == Count(pods, InClass(CrashLooping))
    && h.readyNodes == 0 && h.unreadyNodes == 0 && !h.failed
  }

  /** No listing means that it failed. */
  method GetHealth(listing: Option<seq<Pod>>) returns (h: Report)
    ensures listing.Some? ==> Reports(h, listing.value)
    ensures listing.None? ==> h == Report(0, 0, 0, 0, 0, 0, true)
  {
    h := Report(0, 0, 0, 0, 0, 0, false);
    if listing.None? {
      return h.(failed := true);
    }
    var pods := listing.value;
    for i := 0 to |pods|
      invariant Reports(h, pods[..i])
    {
      assert pods[..i + 1][..i] == pods[..i];
      var pod := pods[i];
      if IsDeleted(pod) {
        continue;
      }
      if pod.priority.Some? && pod.priority.value < 0 {
        continue;
      }
      if IsPodCrashLoopBackoff(pod) {
        h := h.(crashLoopBackOff := h.crashLoopBackOff + 1);
      } else if IsPodHealthy(pod) {
        h := h.(runningPods := h.runningPods + 1);
      } else if IsPodPending(pod) {
        h := h.(pendingPods := h.pendingPods + 1);
      } else {
        h := h.(errorPods := h.errorPods + 1);
      }
    }
    assert pods[..|pods|] == pods;
  }

  // ----- Sums -----

  lemma {:induction false} ClassesSum(pods: seq<Pod>)
    ensures Count(pods, IsNonReady)
         == Count(pods, InClass(Waiting_)) + Count(pods, InClass(Erroneous)) + Count(pods, InClass(CrashLooping))
    ensures Count(pods, IsRunning) == Count(pods, InClass(Healthy))
    ensures Count(pods, IsCounted) == Count(pods, IsNonReady) + Count(pods, IsRunning)
  {
    if pods != [] {
      ClassesSum(pods[..|pods| - 1]);
    }
  }

  /** The four counters add up to the pods that are neither deleted nor of negative priority. */
  lemma CountersSum(h: Report, pods: seq<Pod>)
    requires Reports(h, pods)
    ensures h.runningPods + h.NonReadyPods() == Count(pods, IsCounted)
    ensures h.NonReadyPods() == Count(pods, IsNonReady) && h.runningPods == Count(pods, IsRunning)
  {
    ClassesSum(pods);
  }

  lemma {:induction false} CountAppends(a: seq<Pod>, b: seq<Pod>, p: Pod -> bool)
    ensures Count(a + b, p) == Count(a, p) + Count(b, p)
  {
    if b == [] {
      assert a + b == a;
    } else {
      assert (a + b)[..|a + b| - 1] == a + b[..|b| - 1];
      CountAppends(a, b[..|b| - 1], p);
    }
  }

  // ----- Stability -----

  lemma CountOne(x: Pod, p: Pod -> bool)
    ensures Count([x], p) == if p(x) then 1 else 0
  {
    assert [x][..0] == [];
  }

  /** Taking out one occurrence. */
  lemma CountWithout(l: seq<Pod>, x: Pod, r: seq<Pod>, p: Pod -> bool)
    ensures Count(l + [x] + r, p) == Count(l + r, p) + (if p(x) then 1 else 0)
    ensures multiset(l + [x] + r) == multiset(l + r) + multiset{x}
  {
    CountAppends(l, [x], p);
    CountAppends(l + [x], r, p);
    CountAppends(l, r, p);
    CountOne(x, p);
  }

  lemma SplitAt(b: seq<Pod>, x: Pod) returns (l: seq<Pod>, r: seq<Pod>)
    requires x in b
    ensures b == l + [x] + r
  {
    var j: nat :| j < |b| && b[j] == x;
    l, r := b[..j], b[j + 1..];
  }

  /** A count exceeds another by at most the pods that only the first list has. */
  lemma {:induction false} CountDiffers(a: seq<Pod>, b: seq<Pod>, p: Pod -> bool)
    ensures Count(a, p) - Count(b, p) <= |multiset(a) - multiset(b)|
  {
    if a != [] {
      var n := |a| - 1;
      var x := a[n];
      assert a == a[..n] + [x];
      if x in b {
        var l, r := SplitAt(b, x);
        CountWithout(l, x, r, p);
        CountDiffers(a[..n], l + r, p);
        assert multiset(a) - multiset(b) == multiset(a[..n]) - multiset(l + r);
      } else {
        CountDiffers(a[..n], b, p);
        assert multiset(a) - multiset(b) == (multiset(a[..n]) - multiset(b)) + multiset{x};
      }
    }
  }

  /** At most k pods were added, removed or changed between the two lists. */
  ghost predicate Differ(a: seq<Pod>, b: seq<Pod>, k: nat) {
    |multiset(a) - multiset(b)| <= k && |multiset(b) - multiset(a)| <= k
  }

  /** Reports of lists that differ in at most k pods are not degraded against each other at any
      tolerance of at least k. */
  lemma NotDegradedWithin(ha: Report, hb: Report, a: seq<Pod>, b: seq<Pod>, k: nat, tolerance: int)
    requires Reports(ha, a) && Reports(hb, b) && Differ(a, b, k) && tolerance >= k
    ensures !ha.IsDegradedComparedTo(hb, tolerance) && !hb.IsDegradedComparedTo(ha, tolerance)
  {
    CountersSum(ha, a);
    CountersSum(hb, b);
    CountDiffers(a, b, IsNonReady);
    CountDiffers(b, a, IsNonReady);
    CountDiffers(a, b, IsRunning);
    CountDiffers(b, a, IsRunning);
  }

  /** The bound is sharp: a running pod that is lost shows at tolerance 0. */
  lemma LossShowsAtZero(ha: Report, hb: Report, a: seq<Pod>, lost: Pod)
    requires ClassOf(lost) == Healthy && Reports(ha, a) && Reports(hb, a + [lost])
    ensures Differ(a, a + [lost], 1) && ha.IsDegradedComparedTo(hb, 0)
  {
    CountAppends(a, [lost], InClass(Healthy));
    CountOne(lost, InClass(Healthy));
    assert multiset(a) - multiset(a + [lost]) == multiset{};
    assert multiset(a + [lost]) - multiset(a) == multiset{lost};
  }

  /** A failed listing reports no pods and therefore counts as degraded against any report with more
      running pods than the tolerance. */
  lemma FailureLooksDegraded(hb: Report, tolerance: nat)
    requires hb.unreadyNodes == 0 && hb.NonReadyPods() >= 0
    ensures Report(0, 0, 0, 0, 0, 0, true).IsDegradedComparedTo(hb, tolerance) <==> hb.runningPods > tolerance
  {}

  /** A further pod that is waiting, failing or crashing counts against the report, and a further
      healthy one does not. */
  lemma RiseShowsAtZero(ha: Report, hb: Report, a: seq<Pod>, more: Pod)
    requires Reports(ha, a) && Reports(hb, a + [more])
    ensures hb.IsDegradedComparedTo(ha, 0) <==> IsNonReady(more)
    ensures ha.IsDegradedComparedTo(hb, 0) <==> IsRunning(more)
  {
    CountersSum(ha, a);
    CountersSum(hb, a + [more]);
    CountAppends(a, [more], IsNonReady);
    CountAppends(a, [more], IsRunning);
    CountOne(more, IsNonReady);
    CountOne(more, IsRunning);
  }

  function PodIs(phase: Phase, containers: seq<ContainerState>): Pod {
    Pod("default", "web", "1", [], map[], map[], None, None, [], phase, containers, [])
  }

  /** One pod for each class. */
  lemma ClassExamples()
    ensures var running := PodIs(PodRunning, [Running]);
            && ClassOf(running) == Healthy
            && ClassOf(PodIs(PodRunning, [Running, Waiting("CrashLoopBackOff")])) == CrashLooping
            && ClassOf(PodIs(PodRunning, [Waiting("ContainerCreating")])) == Healthy
            && ClassOf(PodIs(PodPending, [Waiting("ContainerCreating")])) == Waiting_
            && ClassOf(PodIs(PodFailed, [Terminated(1)])) == Erroneous
            && ClassOf(PodIs(PodUnknown, [])) == Erroneous
            && ClassOf(PodIs(PodSucceeded, [Terminated(0)])) == Healthy
            && ClassOf(PodIs(PodSucceeded, [Terminated(0), Terminated(1)])) == Erroneous
            && ClassOf(running.(conditions := [PodCondition("Ready", ConditionFalse)])) == Erroneous
            && ClassOf(running.(conditions := [PodCondition("Ready", ConditionTrue)])) == Healthy
            && ClassOf(running.(deletionTimestamp := Some(1))) == Ignored
            && ClassOf(running.(priority := Some(-1))) == Ignored
            && ClassOf(running.(priority := Some(0))) == Healthy
  {
    var running := PodIs(PodRunning, [Running]);
    assert PodIs(PodRunning, [Running, Waiting("CrashLoopBackOff")]).containers[1] == Waiting("CrashLoopBackOff");
    assert running.(conditions := [PodCondition("Ready", ConditionFalse)]).conditions[0].status == ConditionFalse;
    assert PodIs(PodSucceeded, [Terminated(0), Terminated(1)]).containers[1].exitCode == 1;
  }

  /** A crashing container, the first or a later one, makes a pod unhealthy in any phase. */
  lemma CrashingIsUnhealthy(pod: Pod, i: nat)
    requires i < |pod.containers| && pod.containers[i] == Waiting("CrashLoopBackOff") && pod.phase != PodSucceeded
    ensures IsPodCrashLoopBackoff(pod) && !IsPodHealthy(pod)
  {}

  /** What degrades a report: each of the three differences alone, the one of unready nodes at any
      tolerance. */
  lemma DegradedExamples()
    ensures var h := Report(5, 1, 1, 1, 2, 0, false);
            && !h.IsDegradedComparedTo(h, 0)
            && h.(pendingPods := 2).IsDegradedComparedTo(h, 0) && !h.(pendingPods := 2).IsDegradedComparedTo(h, 1)
            && h.(errorPods := 2).IsDegradedComparedTo(h, 0) && h.(crashLoopBackOff := 2).IsDegradedComparedTo(h, 0)
            && h.(runningPods := 4).IsDegradedComparedTo(h, 0) && !h.(runningPods := 4).IsDegradedComparedTo(h, 1)
            && h.(unreadyNodes := 1).IsDegradedComparedTo(h, 9) && !h.IsDegradedComparedTo(h.(unreadyNodes := 1), 0)
  {}
}

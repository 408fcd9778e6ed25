/** Which pods of a node a drain selects: the chain of filters and the lists built from it. */
module DrainFilters {
  import opened Kube
  import opened PodFate

  const DAEMON_SET_FATAL := "DaemonSet-managed Pods (use --ignore-daemonsets to ignore)"
  const DAEMON_SET_WARNING := "ignoring DaemonSet-managed Pods"
  const LOCAL_STORAGE_FATAL := "Pods with local storage (use --delete-local-data to override)"
  const LOCAL_STORAGE_WARNING := "deleting Pods with local storage"
  const UNMANAGED_FATAL :=
    "Pods not managed by ReplicationController, ReplicaSet, Job, DaemonSet or StatefulSet (use --force to override)"
  const UNMANAGED_WARNING :=
    "deleting Pods not managed by ReplicationController, ReplicaSet, Job, DaemonSet or StatefulSet"

  datatype Helper = Helper(
    force: bool,
    ignoreAllDaemonSets: bool,
    deleteLocalData: bool,
    disableEviction: bool,
    skipAfter: int)

  datatype ClaimReply = ClaimFound(storageClass: Option<string>) | ClaimFailed(message: string)

  /** What the API server and the clock answer while one pod is being filtered. */
  datatype Snapshot = Snapshot(
    daemonSet: (string, string) -> ApiError,
    claim: (string, string) -> ClaimReply,
    now: int)

  datatype Reason = Okay | Skip | Warning | Error

  datatype Status = Status(delete: bool, reason: Reason, message: string)

  function StatusOkay(): Status { Status(true, Okay, "") }

  function StatusSkip(): Status { Status(false, Skip, "") }

  function StatusWarning(delete: bool, message: string): Status { Status(delete, Warning, message) }

  function StatusError(message: string): Status { Status(false, Error, message) }

  function ErrorText(err: ApiError): string {
    match err
    case NoError => ""
    case NotFound => "not found"
    case TooManyRequests => "too many requests"
    case OtherError(m) => m
  }

  // ----- The five filters -----

  function SkipDeletedFilter(h: Helper, c: Snapshot, pod: Pod): Status {
    if ShouldSkipPod(pod, h.skipAfter, c.now) then StatusSkip() else StatusOkay()
  }

  function DaemonSetFilter(h: Helper, c: Snapshot, pod: Pod): Status {
    var controller := ControllerOf(pod.owners);
    if controller.None? || controller.value.kind != "DaemonSet" then StatusOkay()
    else if IsPodFinished(pod) then StatusOkay()
    else
      var err := c.daemonSet(pod.namespace, controller.value.name);
      if err != NoError then
        if err == NotFound && h.force then StatusWarning(true, ErrorText(err)) else StatusError(ErrorText(err))
      else if !h.ignoreAllDaemonSets then StatusError(DAEMON_SET_FATAL)
      else StatusWarning(false, DAEMON_SET_WARNING)
  }

  function MirrorPodFilter(h: Helper, c: Snapshot, pod: Pod): Status {
    if MIRROR_POD_ANNOTATION in pod.annotations then StatusSkip() else StatusOkay()
  }

  /** An unset storage class, or one whose name contains "local", pins the data to the node. */
  predicate IsLocalClass(storageClass: Option<string>) {
    storageClass.None? || Contains(storageClass.value, "local")
  }

  /** The first volume whose claim rejects the pod, if any. */
  function ScanClaims(c: Snapshot, namespace: string, volumes: seq<Volume>): Option<Status> {
    if volumes == [] then None
    else if volumes[0].claimName.None? then ScanClaims(c, namespace, volumes[1..])
    else
      match c.claim(namespace, volumes[0].claimName.value)
      case ClaimFailed(m) => Some(StatusError(m))
      case ClaimFound(class_) =>
        if IsLocalClass(class_) then Some(StatusSkip()) else ScanClaims(c, namespace, volumes[1..])
  }

  predicate HasLocalStorage(pod: Pod) {
    exists i | 0 <= i < |pod.volumes| :: pod.volumes[i].emptyDir
  }

  function LocalStorageFilter(h: Helper, c: Snapshot, pod: Pod): Status {
    var rejected := ScanClaims(c, pod.namespace, pod.volumes);
    if rejected.Some? then rejected.value
    else if !HasLocalStorage(pod) then StatusOkay()
    else if IsPodFinished(pod) then StatusOkay()
    else if !h.deleteLocalData then StatusError(LOCAL_STORAGE_FATAL)
    else StatusWarning(true, LOCAL_STORAGE_WARNING)
  }

  function UnreplicatedFilter(h: Helper, c: Snapshot, pod: Pod): Status {
    if IsPodFinished(pod) then StatusOkay()
    else if ControllerOf(pod.owners).Some? then StatusOkay()
    else if h.force then StatusWarning(true, UNMANAGED_WARNING)
    else StatusError(UNMANAGED_FATAL)
  }

  function MakeFilters(h: Helper, c: Snapshot): seq<Pod -> Status> {
    [pod => SkipDeletedFilter(h, c, pod),
     pod => DaemonSetFilter(h, c, pod),
     pod => MirrorPodFilter(h, c, pod),
     pod => LocalStorageFilter(h, c, pod),
     pod => UnreplicatedFilter(h, c, pod)]
  }

  // ----- What the chain decides, said without it -----

  ghost predicate ClaimAllows(c: Snapshot, namespace: string, volume: Volume) {
    volume.claimName.Some? ==>
      var reply := c.claim(namespace, volume.claimName.value);
      reply.ClaimFound? && reply.storageClass.Some? && !Contains(reply.storageClass.value, "local")
  }

  ghost predicate ClaimsAllow(c: Snapshot, pod: Pod) {
    forall i | 0 <= i < |pod.volumes| :: ClaimAllows(c, pod.namespace, pod.volumes[i])
  }

  predicate Finished(pod: Pod) {
    pod.phase == PodSucceeded || pod.phase == PodFailed
  }

  /** Not an unfinished pod of a DaemonSet, unless that is certainly gone and force is on. */
  ghost predicate DaemonSetAllows(h: Helper, c: Snapshot, pod: Pod) {
    forall i: nat | FirstController(pod.owners, i) && pod.owners[i].kind == "DaemonSet" && !Finished(pod) ::
      h.force && c.daemonSet(pod.namespace, pod.owners[i].name) == NotFound
  }

  /** The condition for draining a pod, on its fields and on what the server answers. */
  ghost predicate Drainable(h: Helper, c: Snapshot, pod: Pod) {
    && !LongDeleted(pod, h.skipAfter, c.now)
    && "kubernetes.io/config.mirror" !in pod.annotations
    && DaemonSetAllows(h, c, pod)
    && ClaimsAllow(c, pod)
    && (Finished(pod) || h.deleteLocalData || forall i | 0 <= i < |pod.volumes| :: !pod.volumes[i].emptyDir)
    && (Finished(pod) || h.force || HasController(pod))
  }

  lemma {:induction false} ScanAllows(c: Snapshot, namespace: string, volumes: seq<Volume>)
    ensures ScanClaims(c, namespace, volumes).None?
       <==> forall i | 0 <= i < |volumes| :: ClaimAllows(c, namespace, volumes[i])
    ensures ScanClaims(c, namespace, volumes).Some? ==> !ScanClaims(c, namespace, volumes).value.delete
  {
    if volumes != [] {
      ScanAllows(c, namespace, volumes[1..]);
      assert forall i | 1 <= i < |volumes| :: volumes[i] == volumes[1..][i - 1];
    }
  }

  lemma DaemonSetDecides(h: Helper, c: Snapshot, pod: Pod)
    ensures DaemonSetFilter(h, c, pod).delete <==> DaemonSetAllows(h, c, pod)
  {
    ControllerIsFirst(pod.owners);
    if ControllerOf(pod.owners).Some? {
      var i: nat :| i < |pod.owners| && FirstController(pod.owners, i);
    }
  }

  /** Each filter lets a pod through exactly when its own condition holds. */
  lemma FiltersDecide(h: Helper, c: Snapshot, pod: Pod)
    ensures Drainable(h, c, pod) <==> forall i | 0 <= i < 5 :: MakeFilters(h, c)[i](pod).delete
  {
    var f := MakeFilters(h, c);
    ScanAllows(c, pod.namespace, pod.volumes);
    ControllerIsFirst(pod.owners);
    assert f[0](pod).delete <==> !LongDeleted(pod, h.skipAfter, c.now);
    DaemonSetDecides(h, c, pod);
    assert f[1](pod).delete <==> DaemonSetAllows(h, c, pod);
    assert f[2](pod).delete <==> "kubernetes.io/config.mirror" !in pod.annotations;
    assert f[3](pod).delete <==>
        ClaimsAllow(c, pod) && (Finished(pod) || !HasLocalStorage(pod) || h.deleteLocalData);
    assert f[4](pod).delete <==> Finished(pod) || HasController(pod) || h.force;
  }

  // ----- Selection -----

  datatype PodDelete = PodDelete(pod: Pod, status: Status)

  /** The pods that pass, in listing order, each with the last filter's status. */
  ghost function Selected(h: Helper, at: nat -> Snapshot, pods: seq<Pod>): seq<PodDelete> {
    if pods == [] then []
    else
      var n := |pods| - 1;
      Selected(h, at, pods[..n]) +
      if Drainable(h, at(n), pods[n]) then [PodDelete(pods[n], UnreplicatedFilter(h, at(n), pods[n]))] else []
  }

  /** Runs the chain on one pod, stopping at the first filter that rejects it. */
  method FilterPod(h: Helper, c: Snapshot, pod: Pod) returns (status: Status)
    ensures status.delete <==> Drainable(h, c, pod)
    ensures status.delete ==> status == UnreplicatedFilter(h, c, pod)
    ensures status.delete ==> status.reason in {Okay, Warning}
  {
    FiltersDecide(h, c, pod);
    var filters := MakeFilters(h, c);
    status := Status(false, Okay, "");
    for i := 0 to |filters|
      invariant forall k | 0 <= k < i :: filters[k](pod).delete
      invariant i > 0 ==> status == filters[i - 1](pod)
    {
      status := filters[i](pod);
      if !status.delete {
        return;
      }
    }
  }

  /** `at(i)` is the snapshot seen while filtering the i-th listed pod. */
  method SelectPods(h: Helper, at: nat -> Snapshot, pods: seq<Pod>) returns (items: seq<PodDelete>)
    ensures items == Selected(h, at, pods)
  {
    items := [];
    for i := 0 to |pods|
      invariant items == Selected(h, at, pods[..i])
    {
      var status := FilterPod(h, at(i), pods[i]);
      assert pods[..i + 1][..i] == pods[..i];
      if status.delete {
        items := items + [PodDelete(pods[i], status)];
      }
    }
    assert pods[..|pods|] == pods;
  }

  lemma {:induction false} SelectedFacts(h: Helper, at: nat -> Snapshot, pods: seq<Pod>)
    ensures forall d | d in Selected(h, at, pods) ::
              && d.status.delete
              && (d.status == StatusOkay() || d.status == StatusWarning(true, UNMANAGED_WARNING))
              && (d.status.reason.Warning? <==> !Finished(d.pod) && !HasController(d.pod))
              && exists i: nat :: i < |pods| && pods[i] == d.pod && Drainable(h, at(i), d.pod)
  {
    if pods != [] {
      var n := |pods| - 1;
      SelectedFacts(h, at, pods[..n]);
      FiltersDecide(h, at(n), pods[n]);
      ControllerIsFirst(pods[n].owners);
      forall d | d in Selected(h, at, pods[..n])
        ensures exists i: nat :: i < |pods| && pods[i] == d.pod && Drainable(h, at(i), d.pod)
      {
        var i: nat :| i < n && pods[..n][i] == d.pod && Drainable(h, at(i), d.pod);
        assert pods[i] == d.pod;
      }
    }
  }

  /** Every listed pod that passes is selected. */
  lemma {:induction false} DrainableIsSelected(h: Helper, at: nat -> Snapshot, pods: seq<Pod>, i: nat)
    requires i < |pods| && Drainable(h, at(i), pods[i])
    ensures exists d | d in Selected(h, at, pods) :: d.pod == pods[i]
  {
    var n := |pods| - 1;
    var init := Selected(h, at, pods[..n]);
    if i < n {
      DrainableIsSelected(h, at, pods[..n], i);
      var d :| d in init && d.pod == pods[i];
      assert d in Selected(h, at, pods);
    } else {
      var d := PodDelete(pods[n], UnreplicatedFilter(h, at(n), pods[n]));
      assert Selected(h, at, pods) == init + [d];
      assert d in Selected(h, at, pods);
    }
  }

  // ----- The three views of the list -----

  ghost function PodsOf(items: seq<PodDelete>): seq<Pod> {
    seq(|items|, i requires 0 <= i < |items| => items[i].pod)
  }

  ghost function Deletable(items: seq<PodDelete>): seq<PodDelete> {
    if items == [] then []
    else
      var n := |items| - 1;
      Deletable(items[..n]) + if items[n].status.delete then [items[n]] else []
  }

  /** Splitting the list anywhere splits its deletable items. */
  lemma {:induction false} DeletableAppends(a: seq<PodDelete>, b: seq<PodDelete>)
    ensures Deletable(a + b) == Deletable(a) + Deletable(b)
  {
    if b == [] {
      assert a + b == a;
    } else {
      var n := |b| - 1;
      DeletableAppends(a, b[..n]);
      assert (a + b)[..|a + b| - 1] == a + b[..n];
      assert (a + b)[|a + b| - 1] == b[n];
    }
  }

  lemma {:induction false} DeletableIff(items: seq<PodDelete>, d: PodDelete)
    ensures d in Deletable(items) <==> d in items && d.status.delete
  {
    if items != [] {
      DeletableIff(items[..|items| - 1], d);
    }
  }

  lemma {:induction false} NothingDropped(items: seq<PodDelete>)
    requires forall d | d in items :: d.status.delete
    ensures Deletable(items) == items
  {
    if items != [] {
      var n := |items| - 1;
      NothingDropped(items[..n]);
      assert items == items[..n] + [items[n]];
    }
  }

  /** Keeps the items whose status says delete. */
  method Pods(items: seq<PodDelete>) returns (pods: seq<Pod>)
    ensures pods == PodsOf(Deletable(items))
  {
    pods := [];
    for i := 0 to |items|
      invariant pods == PodsOf(Deletable(items[..i]))
    {
      assert items[..i + 1][..i] == items[..i];
      if items[i].status.delete {
        pods := pods + [items[i].pod];
      }
    }
    assert items[..|items|] == items;
  }

  function FullName(pod: Pod): string {
    pod.namespace + "/" + pod.name
  }

  function AddName(groups: map<string, seq<string>>, key: string, pod: Pod): map<string, seq<string>> {
    groups[key := (if key in groups then groups[key] else []) + [FullName(pod)]]
  }

  /** The message an item is filed under. */
  function KeyOf(d: PodDelete): string {
    if d.status.reason.Error? && d.status.message == "" then "unexpected error" else d.status.message
  }

  /** The full names of the items filed under `reason` and `key`, in list order. */
  ghost function NamesUnder(items: seq<PodDelete>, reason: Reason, key: string): seq<string> {
    if items == [] then []
    else
      var d := items[|items| - 1];
      NamesUnder(items[..|items| - 1], reason, key) +
      if d.status.reason == reason && KeyOf(d) == key then [FullName(d.pod)] else []
  }

  /** Every item of the given reason is filed, in order, under its own message and nothing else is. */
  ghost predicate Grouped(groups: map<string, seq<string>>, items: seq<PodDelete>, reason: Reason) {
    forall key :: NamesUnder(items, reason, key) == if key in groups then groups[key] else []
  }

  lemma NamesSnoc(items: seq<PodDelete>, i: nat, reason: Reason, key: string)
    requires i < |items|
    ensures NamesUnder(items[..i + 1], reason, key)
         == NamesUnder(items[..i], reason, key)
            + if items[i].status.reason == reason && KeyOf(items[i]) == key then [FullName(items[i].pod)] else []
  {
    assert items[..i + 1][..i] == items[..i];
  }

  lemma GroupedNext(groups: map<string, seq<string>>, items: seq<PodDelete>, i: nat, reason: Reason)
    requires i < |items| && Grouped(groups, items[..i], reason)
    ensures Grouped(if items[i].status.reason == reason then AddName(groups, KeyOf(items[i]), items[i].pod) else groups,
                    items[..i + 1], reason)
  {
    var next := if items[i].status.reason == reason then AddName(groups, KeyOf(items[i]), items[i].pod) else groups;
    forall key
      ensures NamesUnder(items[..i + 1], reason, key) == if key in next then next[key] else []
    {
      NamesSnoc(items, i, reason, key);
    }
  }

  method Group(items: seq<PodDelete>, reason: Reason) returns (groups: map<string, seq<string>>)
    ensures Grouped(groups, items, reason)
    ensures forall key | key in groups :: groups[key] != []
  {
    groups := map[];
    for i := 0 to |items|
      invariant Grouped(groups, items[..i], reason)
      invariant forall key | key in groups :: groups[key] != []
    {
      GroupedNext(groups, items, i, reason);
      if items[i].status.reason == reason {
        groups := AddName(groups, KeyOf(items[i]), items[i].pod);
      }
    }
    assert items[..|items|] == items;
  }

  method Warnings(items: seq<PodDelete>) returns (groups: map<string, seq<string>>)
    ensures Grouped(groups, items, Warning)
    ensures forall key | key in groups :: groups[key] != []
  {
    groups := Group(items, Warning);
  }

  method Errors(items: seq<PodDelete>) returns (groups: map<string, seq<string>>)
    ensures Grouped(groups, items, Error)
    ensures forall key | key in groups :: groups[key] != []
  {
    groups := Group(items, Error);
  }

  lemma {:induction false} NoNames(items: seq<PodDelete>, reason: Reason, key: string)
    requires forall d | d in items :: d.status.reason != reason || KeyOf(d) != key
    ensures NamesUnder(items, reason, key) == []
  {
    if items != [] {
      NoNames(items[..|items| - 1], reason, key);
    }
  }

  // ----- Examples -----

  /** Without a skip time the deletion timestamp does not matter. */
  lemma DeletionIgnoredByDefault(h: Helper, c: Snapshot, pod: Pod, t: Option<int>)
    requires h.skipAfter <= 0
    ensures Drainable(h, c, pod.(deletionTimestamp := t)) <==> Drainable(h, c, pod)
  {
    var p := pod.(deletionTimestamp := t);
    assert p.owners == pod.owners && p.volumes == pod.volumes;
    assert DaemonSetAllows(h, c, p) <==> DaemonSetAllows(h, c, pod);
    assert ClaimsAllow(c, p) <==> ClaimsAllow(c, pod);
  }

  const BARE := Pod("default", "web", "1", [], map[], map[], None, None, [], PodRunning, [], [])
  const LENIENT := Helper(true, true, true, false, 0)
  const STRICT := Helper(false, false, false, false, 0)

  function Answers(err: ApiError, claim: ClaimReply): Snapshot {
    Snapshot((ns, name) => err, (ns, name) => claim, 110)
  }

  /** What each filter says of one pod, word for word. */
  lemma SkipAndMirrorExamples()
    ensures var c := Answers(NoError, ClaimFound(None));
            var deleted := BARE.(deletionTimestamp := Some(100));
            && SkipDeletedFilter(STRICT, c, deleted) == Status(true, Okay, "")
            && SkipDeletedFilter(STRICT.(skipAfter := 9), c, deleted) == Status(false, Skip, "")
            && MirrorPodFilter(LENIENT, c, BARE.(annotations := map["kubernetes.io/config.mirror" := "x"])) ==
                 Status(false, Skip, "")
            && MirrorPodFilter(LENIENT, c, BARE) == Status(true, Okay, "")
  {}

  lemma DaemonSetExamples()
    ensures var daemon := BARE.(owners := [OwnerReference("DaemonSet", "d", true)]);
            var found := Answers(NoError, ClaimFound(None));
            var lost := Answers(NotFound, ClaimFound(None));
            && DaemonSetFilter(STRICT, found, daemon) ==
                 Status(false, Error, "DaemonSet-managed Pods (use --ignore-daemonsets to ignore)")
            && DaemonSetFilter(LENIENT, found, daemon) == Status(false, Warning, "ignoring DaemonSet-managed Pods")
            && DaemonSetFilter(LENIENT, lost, daemon) == Status(true, Warning, "not found")
            && DaemonSetFilter(STRICT, lost, daemon) == Status(false, Error, "not found")
            && DaemonSetFilter(LENIENT, Answers(OtherError("timeout"), ClaimFound(None)), daemon) ==
                 Status(false, Error, "timeout")
            && DaemonSetFilter(STRICT, found, daemon.(phase := PodFailed)) == Status(true, Okay, "")
  {}

  lemma StorageExamples()
    ensures var scratch := BARE.(volumes := [Volume(None, true)]);
            var mounted := BARE.(volumes := [Volume(Some("data"), false)]);
            var unset := Answers(NoError, ClaimFound(None));
            && LocalStorageFilter(LENIENT, unset, mounted) == Status(false, Skip, "")
            && LocalStorageFilter(LENIENT, Answers(NoError, ClaimFailed("gone")), mounted) ==
                 Status(false, Error, "gone")
            && LocalStorageFilter(STRICT, unset, scratch) ==
                 Status(false, Error, "Pods with local storage (use --delete-local-data to override)")
            && LocalStorageFilter(LENIENT, unset, scratch) == Status(true, Warning, "deleting Pods with local storage")
            && LocalStorageFilter(STRICT, unset, scratch.(phase := PodSucceeded)) == Status(true, Okay, "")
  {
    var scratch := BARE.(volumes := [Volume(None, true)]);
    assert scratch.volumes[0].emptyDir;
  }

  lemma UnreplicatedExamples()
    ensures var c := Answers(NoError, ClaimFound(None));
            && UnreplicatedFilter(STRICT, c, BARE) == Status(false, Error, UNMANAGED_FATAL)
            && UnreplicatedFilter(LENIENT, c, BARE) == Status(true, Warning, UNMANAGED_WARNING)
            && UnreplicatedFilter(STRICT, c, BARE.(phase := PodFailed)) == Status(true, Okay, "")
            && UnreplicatedFilter(STRICT, c, BARE.(owners := [OwnerReference("Job", "j", true)])) ==
                 Status(true, Okay, "")
  {}

  lemma UnmanagedTexts()
    ensures UNMANAGED_FATAL ==
    "Pods not managed by ReplicationController, ReplicaSet, Job, DaemonSet or StatefulSet (use --force to override)"
    ensures UNMANAGED_WARNING ==
    "deleting Pods not managed by ReplicationController, ReplicaSet, Job, DaemonSet or StatefulSet"
  {}

  /** Under which message and name a pod is filed. */
  lemma FilingExamples()
    ensures FullName(BARE) == "default/web"
    ensures KeyOf(PodDelete(BARE, Status(false, Error, ""))) == "unexpected error"
    ensures KeyOf(PodDelete(BARE, Status(false, Error, "x"))) == "x"
    ensures KeyOf(PodDelete(BARE, Status(true, Warning, ""))) == ""
  {}
}

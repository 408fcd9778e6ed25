/** The API entities shared by the drain, eviction and health models. */
module Kube {

  datatype Option<+T> = None | Some(value: T)

  datatype Phase = PodPending | PodRunning | PodSucceeded | PodFailed | PodUnknown

  datatype ConditionStatus = ConditionTrue | ConditionFalse | ConditionUnknown

  datatype OwnerReference = OwnerReference(kind: string, name: string, controller: bool)

  /** A pod volume: the claim it mounts, if any, and whether it is an emptyDir. */
  datatype Volume = Volume(claimName: Option<string>, emptyDir: bool)

  datatype ContainerState =
    | Waiting(reason: string)
    | Running
    | Terminated(exitCode: int)
    | NoState

  datatype PodCondition = PodCondition(kind: string, status: ConditionStatus)

  datatype Pod = Pod(
    namespace: string,
    name: string,
    uid: string,
    owners: seq<OwnerReference>,
    annotations: map<string, string>,
    labels: map<string, string>,
    deletionTimestamp: Option<int>,
    priority: Option<int>,
    volumes: seq<Volume>,
    phase: Phase,
    containers: seq<ContainerState>,
    conditions: seq<PodCondition>)

  /** What the typed client reports about one call. */
  datatype ApiError = NoError | NotFound | TooManyRequests | OtherError(message: string)

  const MIRROR_POD_ANNOTATION := "kubernetes.io/config.mirror"

  predicate IsPodFinished(pod: Pod) {
    pod.phase == PodSucceeded || pod.phase == PodFailed
  }

  predicate IsDeleted(pod: Pod) {
    pod.deletionTimestamp.Some?
  }

  /** The first owner reference that is marked as the managing controller. */
  function ControllerOf(owners: seq<OwnerReference>): Option<OwnerReference> {
    if owners == [] then None
    else if owners[0].controller then Some(owners[0])
    else ControllerOf(owners[1..])
  }

  predicate IsPodDaemonSet(pod: Pod) {
    var controller := ControllerOf(pod.owners);
    controller.Some? && controller.value.kind == "DaemonSet"
  }

  predicate IsStaticPod(pod: Pod) {
    exists i | 0 <= i < |pod.owners| :: pod.owners[i].kind == "Node"
  }

  predicate HasAt(s: string, sub: string, i: int) {
    0 <= i <= |s| - |sub| && s[i..i + |sub|] == sub
  }

  predicate Contains(s: string, sub: string) {
    exists i | 0 <= i <= |s| - |sub| :: HasAt(s, sub, i)
  }

  /** Owner `i` is the first that is marked as controller; only that one controls. */
  predicate FirstController(owners: seq<OwnerReference>, i: nat) {
    i < |owners| && owners[i].controller && forall j | 0 <= j < i :: !owners[j].controller
  }

  predicate ControlledBy(pod: Pod, kind: string) {
    exists i: nat | i < |pod.owners| :: FirstController(pod.owners, i) && pod.owners[i].kind == kind
  }

  predicate HasController(pod: Pod) {
    exists i | 0 <= i < |pod.owners| :: pod.owners[i].controller
  }

  lemma {:induction false} ControllerIsFirst(owners: seq<OwnerReference>)
    ensures forall i: nat :: FirstController(owners, i) ==> ControllerOf(owners) == Some(owners[i])
    ensures ControllerOf(owners).Some? ==> exists i: nat | i < |owners| :: FirstController(owners, i)
    ensures ControllerOf(owners).Some? <==> exists i | 0 <= i < |owners| :: owners[i].controller
  {
    if owners != [] {
      var rest := owners[1..];
      ControllerIsFirst(rest);
      assert forall i | 1 <= i < |owners| :: owners[i] == rest[i - 1];
      assert forall i | 0 <= i < |rest| :: rest[i] == owners[i + 1];
      if owners[0].controller {
        assert FirstController(owners, 0);
      } else {
        forall i: nat | FirstController(owners, i)
          ensures FirstController(rest, i - 1)
        {
          assert forall j | 0 <= j < i - 1 :: rest[j] == owners[j + 1];
        }
        if i: nat :| i < |rest| && FirstController(rest, i) {
          forall j | 0 <= j < i + 1
            ensures !owners[j].controller
          {
            assert j == 0 || !rest[j - 1].controller;
          }
          assert FirstController(owners, i + 1);
        }
      }
    }
  }

  lemma ControlledIff(pod: Pod, kind: string)
    ensures ControlledBy(pod, kind)
       <==> ControllerOf(pod.owners).Some? && ControllerOf(pod.owners).value.kind == kind
  {
    ControllerIsFirst(pod.owners);
  }

  /** Containing a text is having it somewhere between two others. */
  lemma ContainsSplits(s: string, sub: string) returns (before: string, after: string)
    requires Contains(s, sub)
    ensures s == before + sub + after
  {
    var i :| 0 <= i <= |s| - |sub| && HasAt(s, sub, i);
    before, after := s[..i], s[i + |sub|..];
  }

  lemma ContainsBetween(before: string, sub: string, after: string)
    ensures Contains(before + sub + after, sub)
  {
    assert HasAt(before + sub + after, sub, |before|);
  }
}

/** Evicting one pod: scale a single-replica owner up, evict, recreate node-local claims, scale back. */
module PodEviction {
  import opened Kube
  import opened ClusterApi
  import opened DrainFilters

  predicate Evictable(pod: Pod) {
    !IsPodDaemonSet(pod) && !IsPodFinished(pod) && !IsDeleted(pod) && !IsStaticPod(pod)
  }

  /** The pods that evicting leaves alone, by their fields. */
  predicate LeftAlone(pod: Pod) {
    || (exists i | 0 <= i < |pod.owners| :: pod.owners[i].kind == "Node")
    || pod.phase == PodSucceeded || pod.phase == PodFailed
    || pod.deletionTimestamp.Some?
    || ControlledBy(pod, "DaemonSet")
  }

  lemma EvictableIff(pod: Pod)
    ensures Evictable(pod) <==> !LeftAlone(pod)
  {
    ControlledIff(pod, "DaemonSet");
  }

  function PodWith(owners: seq<OwnerReference>, phase: Phase, deletion: Option<int>): Pod {
    Pod("kube-system", "p", "1", owners, map[], map[], deletion, None, [], phase, [], [])
  }

  /** One pod for each case, and two that are evicted. */
  lemma EvictableExamples()
    ensures !Evictable(PodWith([OwnerReference("Node", "n", true)], PodRunning, None))
    ensures !Evictable(PodWith([OwnerReference("DaemonSet", "d", true)], PodRunning, None))
    ensures !Evictable(PodWith([], PodSucceeded, None)) && !Evictable(PodWith([], PodFailed, None))
    ensures !Evictable(PodWith([], PodRunning, Some(100)))
    ensures Evictable(PodWith([OwnerReference("DaemonSet", "d", false)], PodRunning, None))
    ensures Evictable(PodWith([OwnerReference("ReplicaSet", "r", true)], PodPending, None))
  {
    var mirror := PodWith([OwnerReference("Node", "n", true)], PodRunning, None);
    assert mirror.owners[0].kind == "Node";
    var daemon := PodWith([OwnerReference("DaemonSet", "d", true)], PodRunning, None);
    assert FirstController(daemon.owners, 0);
    EvictableIff(mirror);
    EvictableIff(daemon);
    EvictableIff(PodWith([], PodSucceeded, None));
    EvictableIff(PodWith([], PodFailed, None));
    EvictableIff(PodWith([], PodRunning, Some(100)));
    EvictableIff(PodWith([OwnerReference("DaemonSet", "d", false)], PodRunning, None));
    EvictableIff(PodWith([OwnerReference("ReplicaSet", "r", true)], PodPending, None));
  }

  function Owners(pod: Pod): seq<Key> {
    ReplicaSetKeys(pod.namespace, pod.owners)
  }

  // ----- Replica counts -----

  function ScaledAll(replicas: map<Key, int>, keys: seq<Key>, n: int): map<Key, int> {
    if keys == [] then replicas else ScaledAll(replicas, keys[..|keys| - 1], n)[keys[|keys| - 1] := n]
  }

  lemma {:induction false} ScaledAllFacts(replicas: map<Key, int>, keys: seq<Key>, n: int)
    ensures forall k | k in keys :: k in ScaledAll(replicas, keys, n) && ScaledAll(replicas, keys, n)[k] == n
    ensures forall k | k !in keys ::
              && (k in ScaledAll(replicas, keys, n) <==> k in replicas)
              && (k in replicas ==> ScaledAll(replicas, keys, n)[k] == replicas[k])
  {
    if keys != [] {
      ScaledAllFacts(replicas, keys[..|keys| - 1], n);
    }
  }

  lemma ScaleTwice(replicas: map<Key, int>, keys: seq<Key>, n: int, m: int)
    ensures ScaledAll(ScaledAll(replicas, keys, n), keys, m) == ScaledAll(replicas, keys, m)
  {
    ScaledAllFacts(replicas, keys, n);
    ScaledAllFacts(replicas, keys, m);
    ScaledAllFacts(ScaledAll(replicas, keys, n), keys, m);
  }

  /** Scaling up and back restores the counts exactly when every owner asked for one replica: the
      test looks at the first owner only, the scaling touches all of them. */
  lemma RestoredIff(replicas: map<Key, int>, keys: seq<Key>)
    ensures ScaledAll(ScaledAll(replicas, keys, 2), keys, 1) == replicas
       <==> forall k | k in keys :: k in replicas && replicas[k] == 1
  {
    ScaleTwice(replicas, keys, 2, 1);
    ScaledAllFacts(replicas, keys, 1);
  }

  /** Concretely: a second owner that asked for three replicas is left with one. */
  lemma SecondOwnerLosesReplicas()
    ensures var a, b := Key("ns", "a"), Key("ns", "b");
            ScaledAll(ScaledAll(map[a := 1, b := 3], [a, b], 2), [a, b], 1) == map[a := 1, b := 1]
  {
    var a, b := Key("ns", "a"), Key("ns", "b");
    assert a != b;
    var before := map[a := 1, b := 3];
    ScaleTwice(before, [a, b], 2, 1);
    ScaledAllFacts(before, [a, b], 1);
    var after := ScaledAll(before, [a, b], 1);
    assert forall k :: k in after <==> k in {a, b};
  }

  /** The replica count the decision is based on: the first owner's, or 1 without one. */
  method GetPodReplicas(cluster: Cluster, pod: Pod) returns (n: Option<int>)
    modifies cluster`calls
    ensures n.Some? && Owners(pod) != [] ==>
              Owners(pod)[0] in cluster.replicas && n.value == cluster.replicas[Owners(pod)[0]]
    ensures n.Some? && Owners(pod) == [] ==> n.value == 1
    ensures cluster.Smooth() && (forall k | k in Owners(pod) :: k in cluster.replicas) ==> n.Some?
    ensures cluster.fails(old(cluster.calls) + 1) ==> n.None?
  {
    var connected := cluster.Call();
    if !connected {
      return None;
    }
    for i := 0 to |pod.owners|
      invariant ReplicaSetKeys(pod.namespace, pod.owners[..i]) == []
    {
      assert pod.owners[..i + 1][..i] == pod.owners[..i];
      if pod.owners[i].kind == "ReplicaSet" {
        FirstKey(pod, i);
        n := cluster.GetReplicas(Key(pod.namespace, pod.owners[i].name));
        return;
      }
    }
    assert pod.owners[..|pod.owners|] == pod.owners;
    return Some(1);
  }

  lemma FirstKey(pod: Pod, i: nat)
    requires i < |pod.owners| && pod.owners[i].kind == "ReplicaSet"
    requires ReplicaSetKeys(pod.namespace, pod.owners[..i]) == []
    ensures var key := Key(pod.namespace, pod.owners[i].name);
            Owners(pod) != [] && Owners(pod)[0] == key && key in Owners(pod)
  {
    assert pod.owners[..i + 1][..i] == pod.owners[..i];
    FirstOwner(pod.namespace, pod.owners, i + 1);
    assert ReplicaSetKeys(pod.namespace, pod.owners[..i + 1])[0] == Key(pod.namespace, pod.owners[i].name);
  }

  lemma {:induction false} FirstOwner(namespace: string, owners: seq<OwnerReference>, i: nat)
    requires i <= |owners|
    ensures ReplicaSetKeys(namespace, owners[..i]) <= ReplicaSetKeys(namespace, owners)
  {
    if i < |owners| {
      assert owners[..|owners| - 1][..i] == owners[..i];
      FirstOwner(namespace, owners[..|owners| - 1], i);
    } else {
      assert owners[..i] == owners;
    }
  }

  /** A scaling that broke off: the first owners, perhaps none, but not all were set. */
  ghost predicate PartlyScaled(before: map<Key, int>, after: map<Key, int>, keys: seq<Key>, n: int) {
    after == before || exists part :: part < keys && after == ScaledAll(before, part, n)
  }

  lemma ProperPrefix<T>(a: seq<T>, x: T, b: seq<T>)
    requires a + [x] <= b
    ensures a < b && x in b
  {
    assert b[|a|] == (a + [x])[|a|] == x;
    assert b[..|a|] == (a + [x])[..|a|] == a;
  }

  lemma ScaledSnoc(replicas: map<Key, int>, keys: seq<Key>, key: Key, n: int)
    ensures ScaledAll(replicas, keys + [key], n) == ScaledAll(replicas, keys, n)[key := n]
  {
    assert (keys + [key])[..|keys|] == keys;
  }

  /** The owners up to the i-th reference, and what one more scaling of the next one comes to. */
  lemma OwnersSnoc(replicas: map<Key, int>, pod: Pod, i: nat, n: int)
    requires i < |pod.owners| && pod.owners[i].kind == "ReplicaSet"
    ensures var keys, key := ReplicaSetKeys(pod.namespace, pod.owners[..i]), Key(pod.namespace, pod.owners[i].name);
            && ReplicaSetKeys(pod.namespace, pod.owners[..i + 1]) == keys + [key]
            && keys < Owners(pod) && key in Owners(pod)
            && ScaledAll(replicas, keys + [key], n) == ScaledAll(replicas, keys, n)[key := n]
  {
    var keys, key := ReplicaSetKeys(pod.namespace, pod.owners[..i]), Key(pod.namespace, pod.owners[i].name);
    assert pod.owners[..i + 1][..i] == pod.owners[..i];
    FirstOwner(pod.namespace, pod.owners, i + 1);
    ProperPrefix(keys, key, Owners(pod));
    ScaledSnoc(replicas, keys, key, n);
  }

  lemma OtherOwner(pod: Pod, i: nat)
    requires i < |pod.owners| && pod.owners[i].kind != "ReplicaSet"
    ensures ReplicaSetKeys(pod.namespace, pod.owners[..i + 1]) == ReplicaSetKeys(pod.namespace, pod.owners[..i])
  {
    assert pod.owners[..i + 1][..i] == pod.owners[..i];
  }

  method ScaleOwner(cluster: Cluster, key: Key, n: int) returns (ok: bool)
    modifies cluster`calls, cluster`replicas
    ensures ok ==> key in old(cluster.replicas)
    ensures cluster.replicas == if ok then old(cluster.replicas)[key := n] else old(cluster.replicas)
    ensures cluster.Smooth() && key in old(cluster.replicas) ==> ok
    ensures key in old(cluster.replicas) && old(cluster.replicas)[key] == n ==> cluster.calls == old(cluster.calls) + 1
  {
    var current := cluster.GetReplicas(key);
    if current.None? {
      return false;
    }
    ok := true;
    if current.value != n {
      ok := cluster.UpdateReplicas(key, n);
    }
  }

  method ScalePod(cluster: Cluster, pod: Pod, n: int) returns (ok: bool)
    modifies cluster`calls, cluster`replicas
    ensures ok ==> cluster.replicas == ScaledAll(old(cluster.replicas), Owners(pod), n)
    ensures ok ==> forall k | k in Owners(pod) :: k in old(cluster.replicas)
    ensures !ok ==> PartlyScaled(old(cluster.replicas), cluster.replicas, Owners(pod), n)
    ensures cluster.Smooth() && (forall k | k in Owners(pod) :: k in old(cluster.replicas)) ==> ok
    ensures cluster.fails(old(cluster.calls) + 1) ==> !ok && cluster.replicas == old(cluster.replicas)
    ensures cluster.replicas.Keys == old(cluster.replicas).Keys
  {
    var connected := cluster.Call();
    if !connected {
      return false;
    }
    for i := 0 to |pod.owners|
      invariant cluster.replicas == ScaledAll(old(cluster.replicas), ReplicaSetKeys(pod.namespace, pod.owners[..i]), n)
      invariant cluster.replicas.Keys == old(cluster.replicas).Keys
    {
      if pod.owners[i].kind == "ReplicaSet" {
        OwnersSnoc(old(cluster.replicas), pod, i, n);
        ok := ScaleOwner(cluster, Key(pod.namespace, pod.owners[i].name), n);
        if !ok {
          return;
        }
      } else {
        OtherOwner(pod, i);
      }
    }
    assert pod.owners[..|pod.owners|] == pod.owners;
    ScaledAllFacts(old(cluster.replicas), Owners(pod), n);
    return true;
  }

  // ----- Claims -----

  /** The claim as it is sent back for creation, whatever version the server then writes. */
  predicate Renewed(before: Claim, after: Claim) {
    after == before.(annotations := map[], finalizers := [], selfLink := "", volumeName := "",
                     resourceVersion := after.resourceVersion, terminating := false)
  }

  /** The local claims that the given volumes of a pod mount. */
  function LocalClaims(namespace: string, volumes: seq<Volume>, claims: map<Key, Claim>): set<Key> {
    set v | v in volumes && v.claimName.Some? && Key(namespace, v.claimName.value) in claims
            && IsLocalClass(claims[Key(namespace, v.claimName.value)].storageClass)
      :: Key(namespace, v.claimName.value)
  }

  /** The local claims a pod mounts. */
  function ClaimsMounted(pod: Pod, claims: map<Key, Claim>): set<Key> {
    LocalClaims(pod.namespace, pod.volumes, claims)
  }

  /** All claims a pod mounts are there. */
  predicate ClaimsPresent(pod: Pod, claims: map<Key, Claim>) {
    forall v | v in pod.volumes && v.claimName.Some? :: Key(pod.namespace, v.claimName.value) in claims
  }

  /** What the pod refers to is there. */
  predicate Present(pod: Pod, replicas: map<Key, int>, claims: map<Key, Claim>) {
    (forall k | k in Owners(pod) :: k in replicas) && ClaimsPresent(pod, claims)
  }

  /** Every listed claim was recreated and every other one left alone. */
  ghost predicate Recreated(before: map<Key, Claim>, after: map<Key, Claim>, keys: set<Key>) {
    && after.Keys == before.Keys
    && forall k | k in before :: if k in keys then Renewed(before[k], after[k]) else after[k] == before[k]
  }

  /** When recreation breaks off, at most one claim, a local one, is missing or still terminating;
      the others are untouched or, if local, recreated. */
  ghost predicate BrokenOff(before: map<Key, Claim>, after: map<Key, Claim>, keys: set<Key>) {
    exists victim :: OnlyVictim(before, after, keys, victim)
  }

  ghost predicate OnlyVictim(before: map<Key, Claim>, after: map<Key, Claim>, keys: set<Key>, victim: Option<Key>) {
    && (victim.Some? ==> victim.value in keys)
    && after.Keys <= before.Keys
    && forall k | k in before && Some(k) != victim ::
         k in after && (after[k] == before[k] || (k in keys && Renewed(before[k], after[k])))
  }

  lemma LocalClaimsGrow(namespace: string, volumes: seq<Volume>, claims: map<Key, Claim>, i: nat)
    requires i < |volumes|
    ensures LocalClaims(namespace, volumes[..i + 1], claims)
         == LocalClaims(namespace, volumes[..i], claims) + LocalClaims(namespace, [volumes[i]], claims)
    ensures LocalClaims(namespace, volumes[..i + 1], claims) <= LocalClaims(namespace, volumes, claims)
    ensures LocalClaims(namespace, volumes[..i], claims) <= LocalClaims(namespace, volumes, claims)
  {
    assert volumes[..i + 1] == volumes[..i] + [volumes[i]];
  }

  /** Deletes one claim and creates it afresh. */
  method RecycleClaim(cluster: Cluster, key: Key, claim: Claim) returns (ok: bool)
    requires key in cluster.claims && cluster.claims[key] == claim
    modifies cluster`calls, cluster`claims
    ensures ok ==> Recreated(old(cluster.claims), cluster.claims, {key})
    ensures !ok ==> OnlyVictim(old(cluster.claims), cluster.claims, {key}, Some(key))
    ensures cluster.Smooth() ==> ok
    ensures cluster.fails(old(cluster.calls) + 1) ==>
              !ok && cluster.claims == old(cluster.claims) && cluster.calls == old(cluster.calls) + 1
  {
    ok := cluster.DeleteClaim(key);
    if !ok {
      return;
    }
    var blank := claim.(annotations := map[], finalizers := [], selfLink := "", resourceVersion := "",
                        volumeName := "");
    ok := cluster.CreateClaim(key, blank);
  }

  method RecycleClaims(cluster: Cluster, pod: Pod) returns (ok: bool)
    modifies cluster`calls, cluster`claims
    ensures ok ==> Recreated(old(cluster.claims), cluster.claims, ClaimsMounted(pod, old(cluster.claims)))
    ensures !ok ==> BrokenOff(old(cluster.claims), cluster.claims, ClaimsMounted(pod, old(cluster.claims)))
    ensures cluster.Smooth() && ClaimsPresent(pod, old(cluster.claims)) ==> ok
  {
    ghost var before := cluster.claims;
    for i := 0 to |pod.volumes|
      invariant Recreated(before, cluster.claims, LocalClaims(pod.namespace, pod.volumes[..i], before))
    {
      LocalClaimsGrow(pod.namespace, pod.volumes, before, i);
      var vol := pod.volumes[i];
      ghost var all := LocalClaims(pod.namespace, pod.volumes, before);
      if vol.claimName.Some? {
        var key := Key(pod.namespace, vol.claimName.value);
        var claim := cluster.GetClaim(key);
        if claim.None? {
          assert OnlyVictim(before, cluster.claims, all, None);
          return false;
        }
        if IsLocalClass(claim.value.storageClass) {
          assert key in LocalClaims(pod.namespace, [vol], before);
          ok := RecycleClaim(cluster, key, claim.value);
          if !ok {
            assert OnlyVictim(before, cluster.claims, all, Some(key));
            return;
          }
        }
      }
    }
    assert pod.volumes[..|pod.volumes|] == pod.volumes;
    return true;
  }

  // ----- One pod -----

  /** Whether failing over a Postgres leader comes first. */
  predicate IsLeader(pod: Pod) {
    "spilo-role" in pod.labels && pod.labels["spilo-role"] == "master"
  }

  /** The pod that is asked to hand over before it is drained, by its label. */
  function HandsOver(pod: Pod): seq<Pod> {
    if ("spilo-role", "master") in pod.labels.Items then [pod] else []
  }

  /** What was added to the log is nothing, the request, or the request and that the pod has gone. */
  ghost predicate OneRequest(pod: Pod, sent: Event, before: seq<Event>, log: seq<Event>) {
    && |before| <= |log| <= |before| + 2 && before == log[..|before|]
    && (|log| > |before| ==> log[|before|] == sent)
    && (|log| > |before| + 1 ==> log[|before| + 1].Drained? && log[|before| + 1].pod == pod)
  }

  /** A request for this pod and, with one owner, not while that owner asks for exactly one replica. */
  ghost predicate Proper(pod: Pod, sent: Event) {
    sent.EvictSent? && sent.pod == pod && (|Owners(pod)| <= 1 ==> Some(1) !in sent.asked)
  }

  /** Evicts and recycles; the caller restores the replica count whatever comes of it. */
  method EvictScaled(cluster: Cluster, pod: Pod) returns (ok: bool)
    requires cluster.Valid()
    modifies cluster`calls, cluster`claims, cluster`log, cluster`failovers
    ensures cluster.Valid()
    ensures ok ==> Recreated(old(cluster.claims), cluster.claims, ClaimsMounted(pod, old(cluster.claims)))
    ensures !ok ==> BrokenOff(old(cluster.claims), cluster.claims, ClaimsMounted(pod, old(cluster.claims)))
    ensures OneRequest(pod, EvictSent(pod, Counts(cluster.replicas, Owners(pod))), old(cluster.log), cluster.log)
    ensures ok ==> |cluster.log| == |old(cluster.log)| + 2
    ensures cluster.Smooth() && ClaimsPresent(pod, old(cluster.claims)) ==> ok
    ensures cluster.failovers == old(cluster.failovers) + HandsOver(pod)
    ensures IsLeader(pod) && cluster.fails(old(cluster.calls) + 1) ==> !ok && cluster.log == old(cluster.log)
    ensures |cluster.log| < |old(cluster.log)| + 2 ==> cluster.claims == old(cluster.claims)
  {
    assert OnlyVictim(cluster.claims, cluster.claims, ClaimsMounted(pod, cluster.claims), None);
    if IsLeader(pod) {
      ok := cluster.Failover(pod);
      if !ok {
        return;
      }
    }
    ok := cluster.Drain(pod);
    if !ok {
      return;
    }
    ok := RecycleClaims(cluster, pod);
  }

  /** The first owner decides: scaling happens when it asks for exactly one replica. */
  predicate ScalesUp(pod: Pod, replicas: map<Key, int>) {
    Evictable(pod) && Owners(pod) != [] && Owners(pod)[0] in replicas && replicas[Owners(pod)[0]] == 1
  }

  predicate AllAskForOne(pod: Pod, replicas: map<Key, int>) {
    forall k | k in Owners(pod) :: k in replicas && replicas[k] == 1
  }

  /** The counts after any ending, for any number of owners: as before; scaled up in part and left so,
      when scaling up breaks off; all at one; or, with a warning, scaled back in part. */
  ghost predicate ScalingOutcome(pod: Pod, before: map<Key, int>, after: map<Key, int>, ok: bool, warned: bool) {
    var owners := Owners(pod);
    || after == before
    || (ScalesUp(pod, before)
        && (|| (!ok && !warned && PartlyScaled(before, after, owners, 2))
            || (!warned && after == ScaledAll(before, owners, 1))
            || (warned && PartlyScaled(ScaledAll(before, owners, 2), after, owners, 1))))
  }

  /** What scaling up and, perhaps in part, back comes to. */
  lemma ScaledBack(pod: Pod, before: map<Key, int>, after: map<Key, int>, ok: bool, warned: bool)
    requires ScalesUp(pod, before) && forall k | k in Owners(pod) :: k in before
    requires var up := ScaledAll(before, Owners(pod), 2);
             if warned then PartlyScaled(up, after, Owners(pod), 1) else after == ScaledAll(up, Owners(pod), 1)
    ensures ScalingOutcome(pod, before, after, ok, warned)
    ensures !warned ==> (after == before <==> AllAskForOne(pod, before))
    ensures |Owners(pod)| == 1 ==> after == if warned then before[Owners(pod)[0] := 2] else before
  {
    var owners := Owners(pod);
    RestoredIff(before, owners);
    ScaleTwice(before, owners, 2, 1);
    if |owners| == 1 {
      assert owners[..0] == [];
      assert ScaledAll(before, owners, 2) == before[owners[0] := 2];
    }
  }

  /** Once scaled up, no owner asks for exactly one. */
  lemma ScaledIsProper(pod: Pod, before: map<Key, int>)
    ensures Some(1) !in Counts(ScaledAll(before, Owners(pod), 2), Owners(pod))
  {
    ScaledAllFacts(before, Owners(pod), 2);
    var asked := Counts(ScaledAll(before, Owners(pod), 2), Owners(pod));
    forall i | 0 <= i < |asked|
      ensures asked[i] == Some(2)
    {
      assert Owners(pod)[i] in Owners(pod);
    }
  }

  /** Scales the owners up to two when the first of them asks for exactly one. */
  method ScaleUp(cluster: Cluster, pod: Pod) returns (ok: bool, scaled: bool)
    requires Evictable(pod)
    modifies cluster`calls, cluster`replicas
    ensures !ok ==> !scaled && ScalingOutcome(pod, old(cluster.replicas), cluster.replicas, false, false)
    ensures !ok && |Owners(pod)| <= 1 ==> cluster.replicas == old(cluster.replicas)
    ensures ok && scaled ==>
              && (Owners(pod) != [] ==> ScalesUp(pod, old(cluster.replicas)))
              && (forall k | k in Owners(pod) :: k in old(cluster.replicas))
              && cluster.replicas == ScaledAll(old(cluster.replicas), Owners(pod), 2)
    ensures ok && !scaled ==> cluster.replicas == old(cluster.replicas) && !ScalesUp(pod, old(cluster.replicas))
    ensures ok && |Owners(pod)| <= 1 ==> Some(1) !in Counts(cluster.replicas, Owners(pod))
    ensures cluster.Smooth() && (forall k | k in Owners(pod) :: k in old(cluster.replicas)) ==> ok
    ensures cluster.replicas.Keys == old(cluster.replicas).Keys
  {
    var replicas := GetPodReplicas(cluster, pod);
    if replicas.None? {
      return false, false;
    }
    ok, scaled := true, false;
    if replicas.value == 1 {
      ok := ScalePod(cluster, pod, 2);
      if !ok {
        return;
      }
      scaled := true;
      ScaledIsProper(pod, old(cluster.replicas));
    }
  }

  /** Scales up, evicts, recycles and scales back. `warned` reports a failed scale-back, `sent` the
      request, if one went out. */
  method EvictEvictable(cluster: Cluster, pod: Pod) returns (ok: bool, warned: bool, ghost sent: Event)
    requires cluster.Valid() && Evictable(pod)
    modifies cluster`calls, cluster`replicas, cluster`claims, cluster`log, cluster`failovers
    ensures cluster.Valid()
    ensures ok ==> Recreated(old(cluster.claims), cluster.claims, ClaimsMounted(pod, old(cluster.claims)))
    ensures !ok ==> BrokenOff(old(cluster.claims), cluster.claims, ClaimsMounted(pod, old(cluster.claims)))
    ensures |Owners(pod)| <= 1 && !warned ==> cluster.replicas == old(cluster.replicas)
    ensures |Owners(pod)| == 1 && warned ==> cluster.replicas == old(cluster.replicas)[Owners(pod)[0] := 2]
    ensures |Owners(pod)| == 0 ==> cluster.replicas == old(cluster.replicas)
    ensures ScalingOutcome(pod, old(cluster.replicas), cluster.replicas, ok, warned)
    ensures ok && !warned ==>
              (cluster.replicas == old(cluster.replicas)
               <==> !ScalesUp(pod, old(cluster.replicas)) || AllAskForOne(pod, old(cluster.replicas)))
    ensures cluster.Smooth() && Present(pod, old(cluster.replicas), old(cluster.claims)) ==> ok && !warned
    ensures cluster.replicas.Keys == old(cluster.replicas).Keys
    ensures Proper(pod, sent) && OneRequest(pod, sent, old(cluster.log), cluster.log)
    ensures ok ==> |cluster.log| == |old(cluster.log)| + 2
    ensures |cluster.log| > |old(cluster.log)| ==> cluster.failovers == old(cluster.failovers) + HandsOver(pod)
    ensures ok && !warned ==>
              cluster.replicas == if ScalesUp(pod, old(cluster.replicas))
                                  then ScaledAll(ScaledAll(old(cluster.replicas), Owners(pod), 2), Owners(pod), 1)
                                  else old(cluster.replicas)
    ensures cluster.fails(old(cluster.calls) + 1) ==>
              && !ok && cluster.calls == old(cluster.calls) + 1 && cluster.replicas == old(cluster.replicas)
              && cluster.claims == old(cluster.claims) && cluster.log == old(cluster.log)
    ensures |cluster.log| < |old(cluster.log)| + 2 ==> cluster.claims == old(cluster.claims)
  {
    warned, sent := false, EvictSent(pod, []);
    assert OnlyVictim(cluster.claims, cluster.claims, ClaimsMounted(pod, cluster.claims), None);
    ok := cluster.Call();
    if !ok {
      return;
    }
    var scaled: bool;
    ok, scaled := ScaleUp(cluster, pod);
    if !ok {
      return;
    }
    sent := EvictSent(pod, Counts(cluster.replicas, Owners(pod)));
    ok := EvictScaled(cluster, pod);
    if scaled {
      var restored := ScalePod(cluster, pod, 1);
      warned := !restored;
      if Owners(pod) != [] {
        ScaledBack(pod, old(cluster.replicas), cluster.replicas, ok, warned);
      }
    }
  }

  /** `warned` reports a failed scale-back, `sent` the request, if one went out. */
  method EvictPod(cluster: Cluster, pod: Pod) returns (ok: bool, warned: bool, ghost sent: Event)
    requires cluster.Valid()
    modifies cluster`calls, cluster`replicas, cluster`claims, cluster`log, cluster`failovers
    ensures cluster.Valid()
    ensures ok && Evictable(pod) ==>
              Recreated(old(cluster.claims), cluster.claims, ClaimsMounted(pod, old(cluster.claims)))
    ensures !Evictable(pod) ==>
              && ok && cluster.claims == old(cluster.claims)
              && cluster.replicas == old(cluster.replicas) && cluster.log == old(cluster.log)
    ensures !ok ==> BrokenOff(old(cluster.claims), cluster.claims, ClaimsMounted(pod, old(cluster.claims)))
    ensures |Owners(pod)| <= 1 && !warned ==> cluster.replicas == old(cluster.replicas)
    ensures |Owners(pod)| == 1 && warned ==> cluster.replicas == old(cluster.replicas)[Owners(pod)[0] := 2]
    ensures |Owners(pod)| == 0 ==> cluster.replicas == old(cluster.replicas)
    ensures ok && !warned ==>
              cluster.replicas == if ScalesUp(pod, old(cluster.replicas))
                                  then ScaledAll(ScaledAll(old(cluster.replicas), Owners(pod), 2), Owners(pod), 1)
                                  else old(cluster.replicas)
    ensures ScalingOutcome(pod, old(cluster.replicas), cluster.replicas, ok, warned)
    ensures ok && !warned ==>
              (cluster.replicas == old(cluster.replicas)
               <==> !ScalesUp(pod, old(cluster.replicas)) || AllAskForOne(pod, old(cluster.replicas)))
    ensures cluster.Smooth() && Present(pod, old(cluster.replicas), old(cluster.claims)) ==> ok && !warned
    ensures cluster.replicas.Keys == old(cluster.replicas).Keys
    ensures Proper(pod, sent) && OneRequest(pod, sent, old(cluster.log), cluster.log)
    ensures ok ==> |cluster.log| == |old(cluster.log)| + if Evictable(pod) then 2 else 0
    ensures LeftAlone(pod) ==> ok && cluster.log == old(cluster.log)
    ensures ok && !LeftAlone(pod) ==>
              && |cluster.log| == |old(cluster.log)| + 2
              && cluster.log[|old(cluster.log)|].EvictSent? && cluster.log[|old(cluster.log)|].pod == pod
              && cluster.log[|old(cluster.log)| + 1].Drained? && cluster.log[|old(cluster.log)| + 1].pod == pod
    ensures |cluster.log| > |old(cluster.log)| ==> cluster.failovers == old(cluster.failovers) + HandsOver(pod)
    ensures !LeftAlone(pod) && cluster.fails(old(cluster.calls) + 1) ==>
              && !ok && cluster.calls == old(cluster.calls) + 1 && cluster.replicas == old(cluster.replicas)
              && cluster.claims == old(cluster.claims) && cluster.log == old(cluster.log)
    ensures |cluster.log| < |old(cluster.log)| + 2 ==> cluster.claims == old(cluster.claims)
  {
    EvictableIff(pod);
    if !Evictable(pod) {
      return true, false, EvictSent(pod, []);
    }
    ok, warned, sent := EvictEvictable(cluster, pod);
  }
}

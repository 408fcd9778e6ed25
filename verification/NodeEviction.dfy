/** Evicting a whole node: its pods one after the other, then its volume attachments. */
module NodeEviction {
  import opened Kube
  import opened ClusterApi
  import opened NodeDrain
  import opened PodEviction

  // ----- Claims over several pods -----

  /** The local claims a pod mounts, if it is evicted at all. */
  ghost function EvictedClaims(pod: Pod, claims: map<Key, Claim>): set<Key> {
    if Evictable(pod) then LocalClaims(pod.namespace, pod.volumes, claims) else {}
  }

  ghost function ClaimsOf(pods: seq<Pod>, claims: map<Key, Claim>): set<Key> {
    if pods == [] then {}
    else ClaimsOf(pods[..|pods| - 1], claims) + EvictedClaims(pods[|pods| - 1], claims)
  }

  lemma SameLocalClaims(before: map<Key, Claim>, after: map<Key, Claim>, keys: set<Key>, namespace: string,
                        volumes: seq<Volume>)
    requires Recreated(before, after, keys)
    ensures LocalClaims(namespace, volumes, after) == LocalClaims(namespace, volumes, before)
  {
    assert forall k | k in before :: after[k].storageClass == before[k].storageClass;
  }

  lemma RecreatedMore(before: map<Key, Claim>, middle: map<Key, Claim>, after: map<Key, Claim>, a: set<Key>,
                      b: set<Key>)
    requires Recreated(before, middle, a) && Recreated(middle, after, b)
    ensures Recreated(before, after, a + b)
  {
    forall k | k in before
      ensures if k in a + b then Renewed(before[k], after[k]) else after[k] == before[k]
    {
      assert k in middle;
    }
  }

  lemma BrokenOffLater(before: map<Key, Claim>, middle: map<Key, Claim>, after: map<Key, Claim>,
                       a: set<Key>, b: set<Key>, all: set<Key>)
    requires Recreated(before, middle, a) && BrokenOff(middle, after, b) && a + b <= all
    ensures BrokenOff(before, after, all)
  {
    var victim :| OnlyVictim(middle, after, b, victim);
    assert OnlyVictim(before, after, all, victim);
  }

  lemma RecreatedIsBrokenOff(before: map<Key, Claim>, after: map<Key, Claim>, keys: set<Key>)
    requires Recreated(before, after, keys)
    ensures BrokenOff(before, after, keys)
  {
    assert OnlyVictim(before, after, keys, None);
  }

  lemma {:induction false} ClaimsOfPrefix(pods: seq<Pod>, i: nat, claims: map<Key, Claim>)
    requires i < |pods|
    ensures ClaimsOf(pods[..i], claims) + EvictedClaims(pods[i], claims) <= ClaimsOf(pods, claims)
  {
    var n := |pods| - 1;
    if i < n {
      assert pods[..n][..i] == pods[..i];
      ClaimsOfPrefix(pods[..n], i, claims);
    }
  }

  // ----- Attachments -----

  /** Clears the finalizers, if there are any, and deletes. */
  method RemoveVolumeAttachment(cluster: Cluster, a: Attachment) returns (ok: bool)
    requires a.name in cluster.attachments && cluster.attachments[a.name] == a
    modifies cluster`calls, cluster`attachments, cluster`log
    ensures cluster.attachments - {a.name} == old(cluster.attachments) - {a.name}
    ensures a.name in cluster.attachments ==> cluster.attachments[a.name].(finalizers := a.finalizers) == a
    ensures ok ==> a.name !in cluster.attachments
    ensures cluster.Smooth() ==> ok
    ensures cluster.log == if ok then old(cluster.log) + [Detached(a.name)] else old(cluster.log)
    ensures cluster.fails(old(cluster.calls) + 1) ==>
              !ok && cluster.calls == old(cluster.calls) + 1 && cluster.attachments == old(cluster.attachments)
    ensures a.finalizers == [] ==> cluster.calls <= old(cluster.calls) + 2
  {
    var va := a;
    ok := cluster.Call();
    if !ok {
      return;
    }
    if |va.finalizers| > 0 {
      va := va.(finalizers := []);
      ok := cluster.UpdateAttachment(va);
      if !ok {
        return;
      }
    }
    ok := cluster.DeleteAttachment(va.name);
  }

  ghost predicate NamedByKey(attachments: map<string, Attachment>) {
    forall n | n in attachments :: attachments[n].name == n
  }

  /** The attachments of other nodes. */
  ghost function Elsewhere(attachments: map<string, Attachment>, node: string): map<string, Attachment> {
    map n | n in attachments && attachments[n].node != node :: attachments[n]
  }

  /** The first `i` items have been seen to: of the node's attachments only later items remain. */
  ghost predicate SeenTo(before: map<string, Attachment>, now: map<string, Attachment>, items: seq<Attachment>,
                         i: nat, node: string)
    requires i <= |items|
  {
    && (forall n | n in now ::
          n in before && now[n] == before[n] && (before[n].node == node ==> before[n] in items[i..]))
    && (forall k | i <= k < |items| :: items[k].name in now && now[items[k].name] == items[k])
  }

  /** An attachment of another node stays, one of the node goes. */
  lemma SeenToNext(before: map<string, Attachment>, middle: map<string, Attachment>, now: map<string, Attachment>,
                   items: seq<Attachment>, i: nat, node: string)
    requires NamedByKey(before) && i < |items| && SeenTo(before, middle, items, i, node)
    requires forall j, k | 0 <= j < k < |items| :: items[j].name != items[k].name
    requires if items[i].node == node then now == middle - {items[i].name} else now == middle
    ensures SeenTo(before, now, items, i + 1, node)
  {
    forall n | n in now && before[n].node == node
      ensures before[n] in items[i + 1..]
    {
      assert items[i..] == [items[i]] + items[i + 1..];
      assert before[n] != items[i] by {
        assert before[n].name == n;
      }
    }
  }

  lemma AllSeenTo(before: map<string, Attachment>, now: map<string, Attachment>, items: seq<Attachment>, node: string)
    requires SeenTo(before, now, items, |items|, node) && Elsewhere(now, node) == Elsewhere(before, node)
    ensures now == Elsewhere(before, node)
  {
    assert items[|items|..] == [];
    forall n | n in now
      ensures n in Elsewhere(now, node) && Elsewhere(now, node)[n] == now[n]
    {
      assert before[n].node != node;
    }
    assert Elsewhere(now, node).Keys <= now.Keys;
  }

  /** Sees to the i-th item. */
  method DetachNext(cluster: Cluster, items: seq<Attachment>, i: nat, node: string, ghost before: map<string,
                    Attachment>)
    returns (ok: bool)
    requires NamedByKey(before) && i < |items| && SeenTo(before, cluster.attachments, items, i, node)
    requires forall j, k | 0 <= j < k < |items| :: items[j].name != items[k].name
    modifies cluster`calls, cluster`attachments, cluster`log
    ensures Elsewhere(cluster.attachments, node) == Elsewhere(old(cluster.attachments), node)
    ensures ok ==> SeenTo(before, cluster.attachments, items, i + 1, node)
    ensures cluster.Smooth() ==> ok
    ensures cluster.log == old(cluster.log) || cluster.log == old(cluster.log) + [Detached(items[i].name)]
  {
    ghost var middle := cluster.attachments;
    ok := true;
    if items[i].node == node {
      ok := RemoveVolumeAttachment(cluster, items[i]);
      AttachmentGone(middle, cluster.attachments, items[i], node);
      if !ok {
        return;
      }
    }
    SeenToNext(before, middle, cluster.attachments, items, i, node);
  }

  method DetachVolumes(cluster: Cluster, node: string) returns (ok: bool)
    requires NamedByKey(cluster.attachments)
    modifies cluster`calls, cluster`attachments, cluster`log
    ensures Elsewhere(cluster.attachments, node) == Elsewhere(old(cluster.attachments), node)
    ensures ok ==> cluster.attachments == Elsewhere(old(cluster.attachments), node)
    ensures DetachPhase(old(cluster.log), cluster.log)
    ensures cluster.Smooth() ==> ok
  {
    ghost var before := cluster.attachments;
    var items := cluster.ListAttachments();
    if items.None? {
      return false;
    }
    for i := 0 to |items.value|
      invariant Elsewhere(cluster.attachments, node) == Elsewhere(before, node)
      invariant SeenTo(before, cluster.attachments, items.value, i, node)
      invariant DetachPhase(old(cluster.log), cluster.log)
    {
      ok := DetachNext(cluster, items.value, i, node, before);
      if !ok {
        return;
      }
    }
    AllSeenTo(before, cluster.attachments, items.value, node);
    return true;
  }

  lemma AttachmentGone(before: map<string, Attachment>, after: map<string, Attachment>, a: Attachment, node: string)
    requires a.node == node && a.name in before && before[a.name] == a
    requires after - {a.name} == before - {a.name}
    requires a.name in after ==> after[a.name].node == node
    ensures Elsewhere(after, node) == Elsewhere(before, node)
    ensures a.name !in after ==> after == before - {a.name}
    ensures forall n | n != a.name :: (n in after <==> n in before) && (n in after ==> after[n] == before[n])
  {
    forall n | n != a.name
      ensures (n in after <==> n in before) && (n in after ==> after[n] == before[n])
    {
      assert n in after <==> n in after - {a.name};
      assert n in before <==> n in before - {a.name};
      if n in after {
        assert (after - {a.name})[n] == (before - {a.name})[n];
      }
    }
  }

  // ----- The log -----

  /** What the log can tell of a pod: that it was asked to go, that it has gone, that it is done with. */
  datatype Stage = Asked | Gone | Done

  ghost function PodIn(e: Event, stage: Stage): seq<Pod> {
    match e
    case EvictSent(pod, _) => if stage == Asked then [pod] else []
    case Drained(pod, _) => if stage == Gone then [pod] else []
    case PodDone(pod) => if stage == Done then [pod] else []
    case Detached(_) => []
  }

  /** The pods at a stage, in order. */
  ghost function PodsIn(log: seq<Event>, stage: Stage): seq<Pod> {
    if log == [] then [] else PodsIn(log[..|log| - 1], stage) + PodIn(log[|log| - 1], stage)
  }

  /** The pods that reached each stage from `before` to `log`. */
  ghost predicate Adds(before: seq<Event>, log: seq<Event>, asked: seq<Pod>, gone: seq<Pod>, done: seq<Pod>) {
    && PodsIn(log, Asked) == PodsIn(before, Asked) + asked
    && PodsIn(log, Gone) == PodsIn(before, Gone) + gone
    && PodsIn(log, Done) == PodsIn(before, Done) + done
  }

  lemma DropLast(a: seq<Pod>, b: seq<Pod>, c: seq<Pod>, d: seq<Pod>)
    requires a + b == c + d && |d| <= |b|
    ensures c == a + b[..|b| - |d|] && b == b[..|b| - |d|] + d
  {
    assert (a + b)[..|c|] == c && (a + b)[|c|..] == d;
    assert (a + b)[|a|..] == b;
  }

  /** A pod that reached a stage did so at some moment. */
  lemma {:induction false} StageWasLogged(before: seq<Event>, log: seq<Event>, stage: Stage, pods: seq<Pod>, p: Pod)
    requires |before| <= |log| && before == log[..|before|]
    requires PodsIn(log, stage) == PodsIn(before, stage) + pods && p in pods
    ensures exists i | |before| <= i < |log| :: PodIn(log[i], stage) == [p]
  {
    var n := |log| - 1;
    assert log[..|log|] == log;
    assert |PodsIn(log, stage)| > |PodsIn(before, stage)|;
    if PodIn(log[n], stage) != [p] {
      var last := PodIn(log[n], stage);
      var fewer := pods[..|pods| - |last|];
      DropLast(PodsIn(before, stage), pods, PodsIn(log[..n], stage), last);
      assert before == log[..n][..|before|];
      StageWasLogged(before, log[..n], stage, fewer, p);
      var i :| |before| <= i < n && PodIn(log[..n][i], stage) == [p];
      assert log[i] == log[..n][i];
    }
  }

  /** Every later request went to an evictable pod and, if that has one owner, not while the owner
      asked for exactly one replica. */
  ghost predicate RequestsProper(before: seq<Event>, log: seq<Event>) {
    forall i | |before| <= i < |log| ::
      log[i].EvictSent? ==> Evictable(log[i].pod) && (|Owners(log[i].pod)| <= 1 ==> Some(1) !in log[i].asked)
  }

  /** Each later detachment comes after every one of the pods has been finished with. */
  ghost predicate DetachesLast(before: seq<Event>, log: seq<Event>, pods: seq<Pod>) {
    forall i | |before| <= i < |log| && log[i].Detached? :: PodsIn(log[..i], Done) == PodsIn(before, Done) + pods
  }

  /** What the pod phase logs: proper requests and completions, nothing detached. */
  ghost predicate PodPhase(before: seq<Event>, log: seq<Event>) {
    && |before| <= |log| && before == log[..|before|] && RequestsProper(before, log)
    && (forall i | |before| <= i < |log| :: !log[i].Detached?)
  }

  ghost predicate DetachPhase(before: seq<Event>, log: seq<Event>) {
    && |before| <= |log| && before == log[..|before|]
    && (forall i | |before| <= i < |log| :: log[i].Detached?)
  }

  lemma PodPhases(a: seq<Event>, b: seq<Event>, c: seq<Event>)
    requires PodPhase(a, b) && PodPhase(b, c)
    ensures PodPhase(a, c)
  {
    assert a == c[..|b|][..|a|] == c[..|a|];
    assert forall i | |a| <= i < |b| :: c[i] == b[i];
  }

  lemma Associative(a: seq<Pod>, b: seq<Pod>, c: seq<Pod>)
    ensures (a + b) + c == a + (b + c)
  {}

  lemma AddsTogether(a: seq<Event>, b: seq<Event>, c: seq<Event>,
                     asked: seq<Pod>, gone: seq<Pod>, done: seq<Pod>, asked': seq<Pod>, gone': seq<Pod>,
                     done': seq<Pod>)
    requires Adds(a, b, asked, gone, done) && Adds(b, c, asked', gone', done')
    ensures Adds(a, c, asked + asked', gone + gone', done + done')
  {
    Associative(PodsIn(a, Asked), asked, asked');
    Associative(PodsIn(a, Gone), gone, gone');
    Associative(PodsIn(a, Done), done, done');
  }

  lemma {:induction false} DetachmentsAddNothing(before: seq<Event>, log: seq<Event>)
    requires DetachPhase(before, log)
    ensures Adds(before, log, [], [], [])
  {
    if |log| > |before| {
      DetachmentsAddNothing(before, log[..|log| - 1]);
    } else {
      assert log == before;
    }
  }

  /** Detachments that come after a complete pod phase come last. */
  lemma DetachmentsFollow(a: seq<Event>, b: seq<Event>, c: seq<Event>, asked: seq<Pod>, gone: seq<Pod>, pods: seq<Pod>)
    requires PodPhase(a, b) && Adds(a, b, asked, gone, pods) && DetachPhase(b, c)
    ensures Adds(a, c, asked, gone, pods) && DetachesLast(a, c, pods) && RequestsProper(a, c)
  {
    assert forall i | |a| <= i < |b| :: c[i] == b[i];
    forall i | |b| <= i <= |c|
      ensures PodsIn(c[..i], Done) == PodsIn(b, Done)
    {
      assert DetachPhase(b, c[..i]);
      DetachmentsAddNothing(b, c[..i]);
    }
    DetachmentsAddNothing(b, c);
  }

  // ----- The loop over the pods -----

  lemma AddOne(log: seq<Event>, e: Event)
    ensures Adds(log, log + [e], PodIn(e, Asked), PodIn(e, Gone), PodIn(e, Done))
  {
    assert (log + [e])[..|log|] == log;
  }

  lemma SentPhase(pod: Pod, sent: Event, before: seq<Event>)
    requires Proper(pod, sent) && Evictable(pod)
    ensures PodPhase(before, before + [sent]) && Adds(before, before + [sent], [pod], [], [])
  {
    AddOne(before, sent);
  }

  lemma GonePhase(pod: Pod, sent: Event, e: Event, before: seq<Event>)
    requires Proper(pod, sent) && Evictable(pod) && e.Drained? && e.pod == pod
    ensures PodPhase(before, before + [sent] + [e]) && Adds(before, before + [sent] + [e], [pod], [pod], [])
  {
    SentPhase(pod, sent, before);
    AddOne(before + [sent], e);
    AddsTogether(before, before + [sent], before + [sent] + [e], [pod], [], [], [], [pod], []);
  }

  lemma RequestPhase(pod: Pod, sent: Event, before: seq<Event>, log: seq<Event>)
    requires Proper(pod, sent) && OneRequest(pod, sent, before, log) && (!Evictable(pod) ==> log == before)
    ensures PodPhase(before, log)
    ensures Adds(before, log, if |log| > |before| then [pod] else [], if |log| > |before| + 1 then [pod] else [], [])
  {
    if |log| == |before| {
      assert log == before;
    } else if |log| == |before| + 1 {
      assert log == before + [sent];
      SentPhase(pod, sent, before);
    } else {
      assert log == before + [sent] + [log[|before| + 1]];
      GonePhase(pod, sent, log[|before| + 1], before);
    }
  }

  lemma DonePhase(pod: Pod, before: seq<Event>, log: seq<Event>, asked: seq<Pod>, gone: seq<Pod>)
    requires PodPhase(before, log) && Adds(before, log, asked, gone, [])
    ensures PodPhase(before, log + [PodDone(pod)]) && Adds(before, log + [PodDone(pod)], asked, gone, [pod])
  {
    AddOne(log, PodDone(pod));
    assert (log + [PodDone(pod)])[..|before|] == log[..|before|];
  }

  ghost function EvictableOf(pods: seq<Pod>): seq<Pod> {
    if pods == [] then []
    else
      var n := |pods| - 1;
      EvictableOf(pods[..n]) + if Evictable(pods[n]) then [pods[n]] else []
  }

  /** What is logged when the pods are dealt with without a failure. */
  ghost predicate AddsAll(before: seq<Event>, log: seq<Event>, pods: seq<Pod>) {
    Adds(before, log, EvictableOf(pods), EvictableOf(pods), pods)
  }

  lemma EvictableOne(pod: Pod)
    ensures EvictableOf([pod]) == if Evictable(pod) then [pod] else []
  {
    assert [pod][..0] == [];
  }

  method EvictNext(cluster: Cluster, pod: Pod) returns (ok: bool, warned: bool)
    requires cluster.Valid()
    modifies cluster`calls, cluster`replicas, cluster`claims, cluster`log, cluster`failovers
    ensures cluster.Valid()
    ensures PodPhase(old(cluster.log), cluster.log)
    ensures ok ==> AddsAll(old(cluster.log), cluster.log, [pod])
    ensures ok ==> Recreated(old(cluster.claims), cluster.claims, EvictedClaims(pod, old(cluster.claims)))
    ensures !ok ==> BrokenOff(old(cluster.claims), cluster.claims, EvictedClaims(pod, old(cluster.claims)))
    ensures |Owners(pod)| <= 1 && !warned ==> cluster.replicas == old(cluster.replicas)
    ensures cluster.Smooth() && Present(pod, old(cluster.replicas), old(cluster.claims)) ==> ok && !warned
    ensures cluster.replicas.Keys == old(cluster.replicas).Keys
  {
    ghost var before := cluster.log;
    ghost var sent: Event;
    ok, warned, sent := EvictPod(cluster, pod);
    RequestPhase(pod, sent, before, cluster.log);
    if ok {
      EvictableOne(pod);
      DonePhase(pod, before, cluster.log, EvictableOf([pod]), EvictableOf([pod]));
      cluster.TruthfulSnoc(cluster.log, PodDone(pod));
      cluster.log := cluster.log + [PodDone(pod)];
    }
  }

  lemma AllNext(pods: seq<Pod>, i: nat, a: seq<Event>, b: seq<Event>, c: seq<Event>)
    requires i < |pods| && AddsAll(a, b, pods[..i]) && AddsAll(b, c, [pods[i]])
    ensures AddsAll(a, c, pods[..i + 1])
  {
    var pod := pods[i];
    assert pods[..i + 1][..i] == pods[..i] && pods[..i + 1] == pods[..i] + [pod];
    EvictableOne(pod);
    AddsTogether(a, b, c, EvictableOf(pods[..i]), EvictableOf(pods[..i]), pods[..i],
                 EvictableOf([pod]), EvictableOf([pod]), [pod]);
  }

  lemma ClaimsNext(pods: seq<Pod>, i: nat, before: map<Key, Claim>, middle: map<Key, Claim>, after: map<Key, Claim>)
    requires i < |pods| && Recreated(before, middle, ClaimsOf(pods[..i], before))
    requires Recreated(middle, after, EvictedClaims(pods[i], middle))
    ensures Recreated(before, after, ClaimsOf(pods[..i + 1], before))
  {
    assert pods[..i + 1][..i] == pods[..i];
    SameLocalClaims(before, middle, ClaimsOf(pods[..i], before), pods[i].namespace, pods[i].volumes);
    RecreatedMore(before, middle, after, ClaimsOf(pods[..i], before), EvictedClaims(pods[i], before));
  }

  lemma ClaimsBroken(pods: seq<Pod>, i: nat, before: map<Key, Claim>, middle: map<Key, Claim>, after: map<Key, Claim>)
    requires i < |pods| && Recreated(before, middle, ClaimsOf(pods[..i], before))
    requires BrokenOff(middle, after, EvictedClaims(pods[i], middle))
    ensures BrokenOff(before, after, ClaimsOf(pods, before))
  {
    SameLocalClaims(before, middle, ClaimsOf(pods[..i], before), pods[i].namespace, pods[i].volumes);
    ClaimsOfPrefix(pods, i, before);
    BrokenOffLater(before, middle, after, ClaimsOf(pods[..i], before), EvictedClaims(pods[i], before),
                   ClaimsOf(pods, before));
  }

  predicate AllPresent(pods: seq<Pod>, replicas: map<Key, int>, claims: map<Key, Claim>) {
    forall p | p in pods :: Present(p, replicas, claims)
  }

  /** Evicts the listed pods in order, stopping at the first failure. */
  method EvictPods(cluster: Cluster, pods: seq<Pod>) returns (ok: bool, warned: bool)
    requires cluster.Valid()
    modifies cluster`calls, cluster`replicas, cluster`claims, cluster`log, cluster`failovers
    ensures cluster.Valid()
    ensures PodPhase(old(cluster.log), cluster.log)
    ensures ok ==> AddsAll(old(cluster.log), cluster.log, pods)
    ensures ok ==> Recreated(old(cluster.claims), cluster.claims, ClaimsOf(pods, old(cluster.claims)))
    ensures !ok ==> BrokenOff(old(cluster.claims), cluster.claims, ClaimsOf(pods, old(cluster.claims)))
    ensures (forall p | p in pods :: |Owners(p)| <= 1) && !warned ==> cluster.replicas == old(cluster.replicas)
    ensures cluster.Smooth() && AllPresent(pods, old(cluster.replicas), old(cluster.claims)) ==> ok && !warned
  {
    warned := false;
    ghost var log, claims := cluster.log, cluster.claims;
    for i := 0 to |pods|
      invariant cluster.Valid()
      invariant PodPhase(log, cluster.log)
      invariant AddsAll(log, cluster.log, pods[..i])
      invariant Recreated(claims, cluster.claims, ClaimsOf(pods[..i], claims))
      invariant (forall p | p in pods :: |Owners(p)| <= 1) && !warned ==> cluster.replicas == old(cluster.replicas)
      invariant cluster.replicas.Keys == old(cluster.replicas).Keys
      invariant cluster.Smooth() && AllPresent(pods, old(cluster.replicas), claims) ==> !warned
    {
      ghost var middle, upTo := cluster.claims, cluster.log;
      var failed: bool;
      ok, failed := EvictNext(cluster, pods[i]);
      assert pods[i] in pods;
      warned := warned || failed;
      PodPhases(log, upTo, cluster.log);
      if !ok {
        ClaimsBroken(pods, i, claims, middle, cluster.claims);
        return;
      }
      AllNext(pods, i, log, upTo, cluster.log);
      ClaimsNext(pods, i, claims, middle, cluster.claims);
    }
    assert pods[..|pods|] == pods;
    ok := true;
  }

  /** Since `before` the pod has been drained, and that means what a nil drain means. */
  ghost predicate WasDrained(cluster: Cluster, before: seq<Event>, p: Pod)
    reads cluster`log
  {
    exists i | |before| <= i < |cluster.log| ::
      && cluster.log[i].Drained? && cluster.log[i].pod == p
      && NilMeans(cluster.helper, cluster.drains(cluster.log[i].call), [p])
  }

  lemma AllWereDrained(cluster: Cluster, before: seq<Event>, pods: seq<Pod>)
    requires cluster.Valid() && AddsAll(before, cluster.log, pods)
    requires |before| <= |cluster.log| && before == cluster.log[..|before|]
    ensures forall p | p in EvictableOf(pods) :: WasDrained(cluster, before, p)
  {
    forall p | p in EvictableOf(pods)
      ensures WasDrained(cluster, before, p)
    {
      StageWasLogged(before, cluster.log, Gone, EvictableOf(pods), p);
      var i :| |before| <= i < |cluster.log| && PodIn(cluster.log[i], Gone) == [p];
      assert cluster.log[i].Drained? && cluster.log[i].pod == p;
    }
  }

  /** What is done once there is a client. */
  method EvictConnected(cluster: Cluster, node: string, listed: seq<Pod>) returns (ok: bool, warned: bool)
    requires cluster.Valid() && NamedByKey(cluster.attachments)
    modifies cluster`calls, cluster`replicas, cluster`claims, cluster`attachments, cluster`log,
             cluster`failovers
    ensures cluster.Valid()
    ensures ok ==>
              && Recreated(old(cluster.claims), cluster.claims, ClaimsOf(listed, old(cluster.claims)))
              && AddsAll(old(cluster.log), cluster.log, listed)
              && cluster.attachments == Elsewhere(old(cluster.attachments), node)
              && forall p | p in EvictableOf(listed) :: WasDrained(cluster, old(cluster.log), p)
    ensures !ok ==> BrokenOff(old(cluster.claims), cluster.claims, ClaimsOf(listed, old(cluster.claims)))
    ensures Elsewhere(cluster.attachments, node) == Elsewhere(old(cluster.attachments), node)
    ensures RequestsProper(old(cluster.log), cluster.log) && DetachesLast(old(cluster.log), cluster.log, listed)
    ensures (forall p | p in listed :: |Owners(p)| <= 1) && !warned ==> cluster.replicas == old(cluster.replicas)
    ensures cluster.Smooth() && AllPresent(listed, old(cluster.replicas), old(cluster.claims)) ==> ok && !warned
    ensures cluster.fails(old(cluster.calls) + 1) ==>
              && !ok && cluster.calls == old(cluster.calls) + 1 && cluster.replicas == old(cluster.replicas)
              && cluster.claims == old(cluster.claims) && cluster.attachments == old(cluster.attachments)
              && cluster.log == old(cluster.log)
  {
    warned := false;
    ok := cluster.Call();
    if !ok {
      NothingHappened(cluster.claims, ClaimsOf(listed, cluster.claims));
      return;
    }
    ghost var before, claims := cluster.log, cluster.claims;
    ok, warned := EvictPods(cluster, listed);
    if !ok {
      return;
    }
    ghost var log := cluster.log;
    RecreatedIsBrokenOff(claims, cluster.claims, ClaimsOf(listed, claims));
    ok := DetachVolumes(cluster, node);
    cluster.TruthfulLonger(log, cluster.log);
    DetachmentsFollow(before, log, cluster.log, EvictableOf(listed), EvictableOf(listed), listed);
    AllWereDrained(cluster, before, listed);
  }

  /** `connected` tells whether a client could be had, which the first call decides: without one the
      call reports success although nothing was done, so it means what it says only if there was
      nothing to do. */
  method EvictNode(cluster: Cluster, node: string, listed: seq<Pod>) returns (ok: bool, warned: bool, connected: bool)
    requires cluster.Valid() && NamedByKey(cluster.attachments)
    modifies cluster`calls, cluster`replicas, cluster`claims, cluster`attachments, cluster`log,
             cluster`failovers
    ensures cluster.Valid()
    ensures connected <==> !cluster.fails(old(cluster.calls) + 1)
    ensures !connected ==>
              && ok && cluster.claims == old(cluster.claims) && cluster.attachments == old(cluster.attachments)
              && cluster.replicas == old(cluster.replicas) && cluster.log == old(cluster.log)
    ensures connected && ok ==>
              && Recreated(old(cluster.claims), cluster.claims, ClaimsOf(listed, old(cluster.claims)))
              && AddsAll(old(cluster.log), cluster.log, listed)
    ensures ok ==> ((forall p | p in EvictableOf(listed) :: WasDrained(cluster, old(cluster.log), p))
                    <==> connected || EvictableOf(listed) == [])
    ensures ok ==> (cluster.attachments == Elsewhere(old(cluster.attachments), node)
                    <==> connected || old(cluster.attachments) == Elsewhere(old(cluster.attachments), node))
    ensures !ok ==> BrokenOff(old(cluster.claims), cluster.claims, ClaimsOf(listed, old(cluster.claims)))
    ensures Elsewhere(cluster.attachments, node) == Elsewhere(old(cluster.attachments), node)
    ensures RequestsProper(old(cluster.log), cluster.log) && DetachesLast(old(cluster.log), cluster.log, listed)
    ensures (forall p | p in listed :: |Owners(p)| <= 1) && !warned ==> cluster.replicas == old(cluster.replicas)
    ensures cluster.Smooth() && AllPresent(listed, old(cluster.replicas), old(cluster.claims)) ==>
              connected && ok && !warned
    ensures forall i | |old(cluster.log)| <= i < |cluster.log| && cluster.log[i].EvictSent? ::
              !LeftAlone(cluster.log[i].pod)
    ensures connected && ok ==> forall p | p in listed && !LeftAlone(p) :: WasDrained(cluster, old(cluster.log), p)
  {
    connected := cluster.Call();
    if !connected {
      assert EvictableOf(listed) != [] ==> EvictableOf(listed)[0] in EvictableOf(listed);
      return true, false, false;
    }
    ghost var before := cluster.log;
    ok, warned := EvictConnected(cluster, node, listed);
    RequestsLeaveAlone(before, cluster.log);
    EvictableListed(listed);
  }

  lemma RequestsLeaveAlone(before: seq<Event>, log: seq<Event>)
    requires RequestsProper(before, log)
    ensures forall i | |before| <= i < |log| && log[i].EvictSent? :: !LeftAlone(log[i].pod)
  {
    forall i | |before| <= i < |log| && log[i].EvictSent?
      ensures !LeftAlone(log[i].pod)
    {
      EvictableIff(log[i].pod);
    }
  }

  lemma {:induction false} EvictableListed(pods: seq<Pod>)
    ensures forall p :: p in EvictableOf(pods) <==> p in pods && !LeftAlone(p)
  {
    if pods != [] {
      EvictableListed(pods[..|pods| - 1]);
      EvictableIff(pods[|pods| - 1]);
    }
  }

  lemma NothingHappened(claims: map<Key, Claim>, keys: set<Key>)
    ensures BrokenOff(claims, claims, keys)
  {
    assert OnlyVictim(claims, claims, keys, None);
  }
}

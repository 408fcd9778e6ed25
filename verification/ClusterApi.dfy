/** The part of the cluster that evicting a node reads and writes, with calls that may fail. */
module ClusterApi {
  import opened Kube
  import opened DrainFilters
  import opened NodeDrain

  datatype Key = Key(namespace: string, name: string)

  datatype Claim = Claim(
    storageClass: Option<string>,
    volumeName: string,
    annotations: map<string, string>,
    finalizers: seq<string>,
    selfLink: string,
    resourceVersion: string,
    terminating: bool,
    spec: string)

  datatype Attachment = Attachment(name: string, node: string, finalizers: seq<string>)

  /** `asked` holds the replica counts of the pod's replica sets when the request went out, `call`
      the call whose drain ended without an error. */
  datatype Event =
    | EvictSent(pod: Pod, asked: seq<Option<int>>)
    | Drained(pod: Pod, call: nat)
    | PodDone(pod: Pod)
    | Detached(name: string)

  function ReplicaSetKeys(namespace: string, owners: seq<OwnerReference>): seq<Key> {
    if owners == [] then []
    else
      var n := |owners| - 1;
      ReplicaSetKeys(namespace, owners[..n]) +
      if owners[n].kind == "ReplicaSet" then [Key(namespace, owners[n].name)] else []
  }

  function Counts(replicas: map<Key, int>, keys: seq<Key>): seq<Option<int>> {
    seq(|keys|, i requires 0 <= i < |keys| => if keys[i] in replicas then Some(replicas[keys[i]]) else None)
  }

  /** `fails` tells which calls fail, `lingers` which deletions of a claim have not finished when
      the wait for them ends, `stamp` which version the server writes, `drains` what a drain meets.
      A failed call has no effect. */
  class Cluster {
    var replicas: map<Key, int>
    var claims: map<Key, Claim>
    var attachments: map<string, Attachment>
    var log: seq<Event>
    var failovers: seq<Pod>
    var calls: nat
    const fails: nat -> bool
    const lingers: nat -> bool
    const stamp: nat -> string
    const helper: Helper
    const drains: nat -> Surroundings

    /** Every drain ran the protocol. */
    ghost predicate Faithfully() {
      forall n: nat :: Faithful(helper, drains(n))
    }

    /** What a log says of drained pods is so. */
    ghost predicate Truthful(log: seq<Event>) {
      forall i | 0 <= i < |log| && log[i].Drained? :: NilMeans(helper, drains(log[i].call), [log[i].pod])
    }

    ghost predicate Valid()
      reads this`log
    {
      Faithfully() && Truthful(log)
    }

    /** Every call succeeds, every deletion finishes in time and every drain ends without an error. */
    ghost predicate Smooth() {
      && (forall n: nat :: !fails(n) && !lingers(n))
      && (forall n: nat, pod: Pod :: Unhindered(helper, drains(n), [pod]))
    }

    lemma TruthfulSnoc(log: seq<Event>, e: Event)
      requires Truthful(log) && (e.Drained? ==> NilMeans(helper, drains(e.call), [e.pod]))
      ensures Truthful(log + [e])
    {}

    lemma {:induction false} TruthfulLonger(log: seq<Event>, longer: seq<Event>)
      requires Truthful(log) && |log| <= |longer| && log == longer[..|log|]
      requires forall i | |log| <= i < |longer| :: !longer[i].Drained?
      ensures Truthful(longer)
    {
      assert forall i | 0 <= i < |log| :: longer[i] == log[i];
    }

    constructor (replicas: map<Key, int>, claims: map<Key, Claim>, attachments: map<string, Attachment>,
                 fails: nat -> bool, lingers: nat -> bool, stamp: nat -> string,
                 helper: Helper, drains: nat -> Surroundings)
      requires forall n: nat :: Faithful(helper, drains(n))
      ensures Valid()
      ensures this.replicas == replicas && this.claims == claims && this.attachments == attachments && log == []
    {
      this.replicas, this.claims, this.attachments := replicas, claims, attachments;
      this.log, this.calls, this.failovers := [], 0, [];
      this.fails, this.lingers, this.stamp := fails, lingers, stamp;
      this.helper, this.drains := helper, drains;
    }

    /** A call whose only effect is that it may fail: connecting, listing, running a command. */
    method Call() returns (ok: bool)
      modifies this`calls
      ensures calls == old(calls) + 1 && ok == !fails(calls)
    {
      calls := calls + 1;
      ok := !fails(calls);
    }

    /** Asks a Postgres leader to hand over; `failovers` lists the pods asked. */
    method Failover(pod: Pod) returns (ok: bool)
      modifies this`calls, this`failovers
      ensures failovers == old(failovers) + [pod] && calls == old(calls) + 1 && ok == !fails(calls)
    {
      failovers := failovers + [pod];
      ok := Call();
    }

    method GetReplicas(key: Key) returns (n: Option<int>)
      modifies this`calls
      ensures n.Some? ==> key in replicas && n.value == replicas[key]
      ensures Smooth() && key in replicas ==> n.Some?
      ensures calls == old(calls) + 1
    {
      var ok := Call();
      return if ok && key in replicas then Some(replicas[key]) else None;
    }

    method UpdateReplicas(key: Key, n: int) returns (ok: bool)
      modifies this`calls, this`replicas
      ensures replicas == if ok then old(replicas)[key := n] else old(replicas)
      ensures ok ==> key in old(replicas)
      ensures Smooth() && key in old(replicas) ==> ok
      ensures calls == old(calls) + 1
    {
      ok := Call();
      ok := ok && key in replicas;
      if ok {
        replicas := replicas[key := n];
      }
    }

    /** Asks for the pod's deletion or eviction and waits for it to go. */
    method Drain(pod: Pod) returns (ok: bool)
      requires Valid()
      modifies this`calls, this`log
      ensures Valid()
      ensures var sent := EvictSent(pod, Counts(replicas, ReplicaSetKeys(pod.namespace, pod.owners)));
              if ok then log == old(log) + [sent, Drained(pod, calls)]
              else log == old(log) || log == old(log) + [sent]
      ensures Smooth() ==> ok
    {
      calls := calls + 1;
      var err, requested := DeleteOrEvictPods(helper, drains(calls), [pod]);
      ok := err.None?;
      if ok {
        assert pod in [pod] && pod in requested;
      }
      if |requested| > 0 {
        TruthfulSnoc(log, EvictSent(pod, Counts(replicas, ReplicaSetKeys(pod.namespace, pod.owners))));
        log := log + [EvictSent(pod, Counts(replicas, ReplicaSetKeys(pod.namespace, pod.owners)))];
      }
      if ok {
        TruthfulSnoc(log, Drained(pod, calls));
        log := log + [Drained(pod, calls)];
      }
    }

    method GetClaim(key: Key) returns (c: Option<Claim>)
      modifies this`calls
      ensures c.Some? ==> key in claims && c.value == claims[key]
      ensures Smooth() && key in claims ==> c.Some?
    {
      var ok := Call();
      return if ok && key in claims then Some(claims[key]) else None;
    }

    /** Deletes a claim and waits a while; it may still be there, terminating, when the wait ends. */
    method DeleteClaim(key: Key) returns (ok: bool)
      modifies this`calls, this`claims
      ensures !ok ==> claims == old(claims)
      ensures ok ==> key in old(claims)
      ensures calls == old(calls) + 1 && (fails(calls) ==> !ok)
      ensures ok ==> || claims == old(claims) - {key}
                     || claims == old(claims)[key := old(claims)[key].(terminating := true)]
      ensures Smooth() && key in old(claims) ==> ok && claims == old(claims) - {key}
    {
      ok := Call();
      ok := ok && key in claims;
      if ok {
        claims := if lingers(calls) then claims[key := claims[key].(terminating := true)] else claims - {key};
      }
    }

    method CreateClaim(key: Key, c: Claim) returns (ok: bool)
      modifies this`calls, this`claims
      ensures !ok ==> claims == old(claims)
      ensures ok ==> key !in old(claims)
      ensures ok ==> exists v :: claims == old(claims)[key := c.(resourceVersion := v, terminating := false)]
      ensures Smooth() && key !in old(claims) ==> ok
    {
      ok := Call();
      ok := ok && key !in claims;
      if ok {
        claims := claims[key := c.(resourceVersion := stamp(calls), terminating := false)];
      }
    }

    method ListAttachments() returns (items: Option<seq<Attachment>>)
      requires forall n | n in attachments :: attachments[n].name == n
      modifies this`calls
      ensures items.Some? ==>
                && (forall i | 0 <= i < |items.value| ::
                      items.value[i].name in attachments && attachments[items.value[i].name] == items.value[i])
                && (forall n | n in attachments :: attachments[n] in items.value)
                && (forall i, j | 0 <= i < j < |items.value| :: items.value[i].name != items.value[j].name)
      ensures Smooth() ==> items.Some?
    {
      var ok := Call();
      if !ok {
        return None;
      }
      var left := attachments.Keys;
      var list: seq<Attachment> := [];
      while left != {}
        invariant left <= attachments.Keys
        invariant forall i | 0 <= i < |list| ::
                    list[i].name in attachments && list[i].name !in left && attachments[list[i].name] == list[i]
        invariant forall n | n in attachments :: n in left || attachments[n] in list
        invariant forall i, j | 0 <= i < j < |list| :: list[i].name != list[j].name
        decreases left
      {
        var n :| n in left;
        list := list + [attachments[n]];
        left := left - {n};
      }
      return Some(list);
    }

    method UpdateAttachment(a: Attachment) returns (ok: bool)
      modifies this`calls, this`attachments
      ensures attachments == if ok then old(attachments)[a.name := a] else old(attachments)
      ensures ok ==> a.name in old(attachments)
      ensures Smooth() && a.name in old(attachments) ==> ok
      ensures calls == old(calls) + 1
    {
      ok := Call();
      ok := ok && a.name in attachments;
      if ok {
        attachments := attachments[a.name := a];
      }
    }

    /** Deleting takes effect only once no finalizer holds the object back. */
    method DeleteAttachment(name: string) returns (ok: bool)
      modifies this`calls, this`attachments, this`log
      ensures ok ==> name in old(attachments)
      ensures Smooth() && name in old(attachments) ==> ok
      ensures calls == old(calls) + 1
      ensures attachments == if ok && old(attachments)[name].finalizers == [] then old(attachments) - {name}
                             else old(attachments)
      ensures log == if ok then old(log) + [Detached(name)] else old(log)
    {
      ok := Call();
      ok := ok && name in attachments;
      if ok {
        log := log + [Detached(name)];
        if attachments[name].finalizers == [] {
          attachments := attachments - {name};
        }
      }
    }
  }
}

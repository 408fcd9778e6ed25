/** Applying a list of objects, and what that converges to. */
module ApplyAll {
  import opened Kube
  import opened Nested
  import opened CopyImmutable
  import opened Apply

  /** What preparing one input object comes to: a nil object is skipped, mapping, defaulting or
      kustomizing may fail, and otherwise there is an identity and a desired object. */
  datatype Plan = NilObject | Unprepared | Ready(id: Id, desired: Object)

  predicate Distinct(plans: seq<Plan>) {
    forall i, j | 0 <= i < j < |plans| && plans[i].Ready? && plans[j].Ready? :: plans[i].id != plans[j].id
  }

  function Named(plans: seq<Plan>): set<Id> {
    set i | 0 <= i < |plans| && plans[i].Ready? :: plans[i].id
  }

  ghost predicate AllReached(server: ApiServer, before: map<Id, Object>, after: map<Id, Object>,
                             plans: seq<Plan>, immutables: seq<string>)
  {
    forall i | 0 <= i < |plans| && plans[i].Ready? ::
      && plans[i].id in after
      && Reached(server, Lookup(before, plans[i].id), plans[i].desired, immutables, after[plans[i].id])
  }

  predicate AllSettled(store: map<Id, Object>, plans: seq<Plan>, immutables: seq<string>) {
    forall i | 0 <= i < |plans| && plans[i].Ready? ::
      plans[i].id in store && Settled(store[plans[i].id], plans[i].desired, immutables)
  }

  lemma AllSettledSnoc(store: map<Id, Object>, plans: seq<Plan>, immutables: seq<string>, k: nat)
    requires k < |plans| && AllSettled(store, plans[..k], immutables)
    requires plans[k].Ready? ==> plans[k].id in store && Settled(store[plans[k].id], plans[k].desired, immutables)
    ensures AllSettled(store, plans[..k + 1], immutables)
  {
    forall i | 0 <= i < k + 1 && plans[..k + 1][i].Ready?
      ensures plans[i].id in store && Settled(store[plans[i].id], plans[i].desired, immutables)
    {
      assert i == k || plans[..k][i] == plans[i];
    }
  }

  /** No copy of an object panics. */
  predicate AllCopy(store: map<Id, Object>, plans: seq<Plan>, immutables: seq<string>) {
    forall i | 0 <= i < |plans| && plans[i].Ready? ::
      Copied(Lookup(store, plans[i].id), plans[i].desired, immutables).Some?
  }

  predicate NothingLost(before: map<Id, Object>, after: map<Id, Object>, err: Option<ApplyError>) {
    forall id | id in before && id !in after :: err == Some(RecreateFailed(id))
  }

  lemma NamedPrefix(plans: seq<Plan>, k: nat)
    requires k < |plans|
    ensures Named(plans[..k + 1]) == Named(plans[..k]) + (if plans[k].Ready? then {plans[k].id} else {})
    ensures Named(plans[..k + 1]) <= Named(plans)
    ensures Named(plans[..k]) <= Named(plans)
  {
    assert forall i | 0 <= i < k :: plans[..k + 1][i] == plans[i] == plans[..k][i];
    assert plans[..k + 1][k] == plans[k];
    forall x | x in Named(plans[..k])
      ensures x in Named(plans[..k + 1])
    {
      var i :| 0 <= i < k && plans[..k][i].Ready? && plans[..k][i].id == x;
      assert plans[..k + 1][i].id == x;
    }
  }

  /** Working on the k-th object leaves the earlier ones and the unnamed ones as they were. */
  lemma Untouched(server: ApiServer, before: map<Id, Object>, middle: map<Id, Object>, after: map<Id, Object>,
                  plans: seq<Plan>, k: nat, immutables: seq<string>)
    requires Distinct(plans) && k < |plans| && plans[k].Ready?
    requires SameElsewhere(middle, before, Named(plans[..k]))
    requires SameElsewhere(after, middle, {plans[k].id})
    ensures SameElsewhere(after, before, Named(plans[..k + 1]))
    ensures Lookup(middle, plans[k].id) == Lookup(before, plans[k].id)
    ensures forall i | 0 <= i < k && plans[i].Ready? :: Lookup(after, plans[i].id) == Lookup(middle, plans[i].id)
    ensures forall id | id in middle && id !in after :: id == plans[k].id
  {
    assert plans[k].id !in Named(plans[..k]);
    NamedPrefix(plans, k);
    forall id | id in middle && id !in after
      ensures id == plans[k].id
    {
      assert Lookup(after, id) != Lookup(middle, id);
    }
  }

  lemma ReachedNext(server: ApiServer, before: map<Id, Object>, middle: map<Id, Object>, after: map<Id, Object>,
                    plans: seq<Plan>, k: nat, immutables: seq<string>)
    requires Distinct(plans) && k < |plans| && plans[k].Ready?
    requires SameElsewhere(middle, before, Named(plans[..k]))
    requires SameElsewhere(after, middle, {plans[k].id})
    requires AllReached(server, before, middle, plans[..k], immutables) && before.Keys <= middle.Keys
    requires plans[k].id in after
    requires Reached(server, Lookup(middle, plans[k].id), plans[k].desired, immutables, after[plans[k].id])
    ensures AllReached(server, before, after, plans[..k + 1], immutables) && before.Keys <= after.Keys
  {
    Untouched(server, before, middle, after, plans, k, immutables);
    forall i | 0 <= i < k + 1 && plans[..k + 1][i].Ready?
      ensures plans[i].id in after
      ensures Reached(server, Lookup(before, plans[i].id), plans[i].desired, immutables, after[plans[i].id])
    {
      if i < k {
        assert plans[..k][i] == plans[i];
        assert Lookup(after, plans[i].id) == Lookup(middle, plans[i].id);
      }
    }
    forall id | id in before
      ensures id in after
    {
      assert id in middle;
    }
  }

  lemma SettledAt(store: map<Id, Object>, plans: seq<Plan>, immutables: seq<string>, k: nat)
    requires AllSettled(store, plans, immutables) && k < |plans| && plans[k].Ready?
    ensures plans[k].id in store && Settled(store[plans[k].id], plans[k].desired, immutables)
  {}

  /** Applies the k-th object, the earlier ones having been reached from `before`. */
  method ApplyNext(server: ApiServer, plans: seq<Plan>, k: nat, immutables: seq<string>, ghost before: map<Id, Object>)
    returns (err: Option<ApplyError>)
    requires Distinct(plans) && k < |plans| && plans[k].Ready?
    requires SameElsewhere(server.store, before, Named(plans[..k]))
    requires AllReached(server, before, server.store, plans[..k], immutables) && before.Keys <= server.store.Keys
    modifies server
    ensures SameElsewhere(server.store, before, Named(plans[..k + 1])) && NothingLost(before, server.store, err)
    ensures err.None? ==> AllReached(server, before, server.store, plans[..k + 1], immutables)
    ensures server.writes >= old(server.writes)
    ensures err.None? && server.writes == old(server.writes) && old(server.store) == before ==>
              && server.store == before
              && plans[k].id in before && Settled(before[plans[k].id], plans[k].desired, immutables)
    ensures server.AlwaysAnswers() && old(server.store) == before && AllSettled(before, plans, immutables) ==>
              err.None? && server.store == before && server.writes == old(server.writes)
    ensures server.AlwaysAnswers() && server.NeverRefuses() && AllCopy(before, plans, immutables) ==> err.None?
  {
    ghost var middle := server.store;
    if AllSettled(before, plans, immutables) {
      SettledAt(before, plans, immutables, k);
    }
    err := ApplyOne(server, plans[k].id, plans[k].desired, immutables);
    Untouched(server, before, middle, server.store, plans, k, immutables);
    if err.None? {
      ReachedNext(server, before, middle, server.store, plans, k, immutables);
    }
  }

  method ApplyObjects(server: ApiServer, plans: seq<Plan>, immutables: seq<string>, dryRun: bool)
    returns (err: Option<ApplyError>)
    requires Distinct(plans)
    modifies server
    ensures SameElsewhere(server.store, old(server.store), Named(plans))
    ensures err.None? && !dryRun ==> AllReached(server, old(server.store), server.store, plans, immutables)
    ensures NothingLost(old(server.store), server.store, err)
    ensures dryRun ==> server.store == old(server.store) && server.writes == old(server.writes)
    ensures err.None? ==> forall i | 0 <= i < |plans| :: !plans[i].Unprepared?
    ensures server.AlwaysAnswers() && (forall i | 0 <= i < |plans| :: !plans[i].Unprepared?)
            && AllSettled(old(server.store), plans, immutables) ==>
              err.None? && server.store == old(server.store) && server.writes == old(server.writes)
    ensures err.None? && !dryRun && server.writes == old(server.writes) ==>
              AllSettled(old(server.store), plans, immutables)
    ensures server.AlwaysAnswers() && server.NeverRefuses() && AllCopy(old(server.store), plans, immutables)
            && (forall i | 0 <= i < |plans| :: !plans[i].Unprepared?) ==>
              err.None?
  {
    ghost var before := server.store;
    for k := 0 to |plans|
      invariant SameElsewhere(server.store, before, Named(plans[..k]))
      invariant !dryRun ==> AllReached(server, before, server.store, plans[..k], immutables)
      invariant before.Keys <= server.store.Keys
      invariant dryRun ==> server.store == before && server.writes == old(server.writes)
      invariant forall i | 0 <= i < k :: !plans[i].Unprepared?
      invariant server.writes >= old(server.writes)
      invariant !dryRun && server.writes == old(server.writes) ==>
                  server.store == before && AllSettled(before, plans[..k], immutables)
      invariant server.AlwaysAnswers() && AllSettled(before, plans, immutables) ==>
                  server.store == before && server.writes == old(server.writes)
    {
      NamedPrefix(plans, k);
      match plans[k] {
        case NilObject =>
        case Unprepared => return Some(PrepareFailed);
        case Ready(id, desired) =>
          if !dryRun {
            err := ApplyNext(server, plans, k, immutables, before);
            if err.Some? {
              return;
            }
          }
      }
      if !dryRun && server.writes == old(server.writes) {
        AllSettledSnoc(before, plans, immutables, k);
      }
    }
    assert plans[..|plans|] == plans;
    err := None;
  }
}

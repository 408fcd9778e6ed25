/** What applying converges to, and why applying again does nothing. */
module ApplyTheorems {
  import opened Kube
  import opened Nested
  import opened Sanitizing
  import opened CopyImmutable
  import opened CopyTheorems
  import opened CopyCases
  import opened Apply
  import opened ApplyAll
  import opened ClaimTheorems
  import opened Settling

  // ----- Convergence -----

  /** A server that changes nothing but runtime fields of what it accepts. */
  ghost predicate Stores(server: ApiServer) {
    forall n: nat, o: Object :: Sanitized(server.admit(n, o)) == Sanitized(o)
  }

  /** The one way to miss: a claim found unchanged although its requests differ. */
  predicate MissedResize(before: Option<Object>, d: Object, immutables: seq<string>) {
    && before.Some? && SharesSpec(d) && SpecIsMap(before.value) && Writable(before.value, REQUESTS)
    && Settled(before.value, d, immutables)
    && Get(before.value, REQUESTS) != Get(d, REQUESTS)
  }

  /** What is sent for `d`: the copy, or on recreation the copy without its identifiers. */
  predicate SentFor(before: Option<Object>, d: Object, immutables: seq<string>, sent: Object) {
    var r := Copied(before, d, immutables);
    r.Some? && (sent == r.value.to || (before.Some? && sent == Stripped(r.value.to)))
  }

  lemma SentSanitizes(before: Option<Object>, d: Object, immutables: seq<string>, sent: Object)
    requires HasMetadata(d) && SentFor(before, d, immutables, sent)
    ensures Sanitized(sent) == Sanitized(Copied(before, d, immutables).value.to)
  {
    var x := Copied(before, d, immutables).value.to;
    if before.Some? {
      CopyKeepsMetadata(before.value, d, immutables);
      SanitizeForgetsIdentifiers(x, None, None, None, None, None);
    }
  }

  /** A stored object that was not simply left alone was admitted from something sent for `d`. */
  lemma WhatWasSent(server: ApiServer, before: Option<Object>, d: Object, immutables: seq<string>, after: Object)
    returns (sent: Object)
    requires Reached(server, before, d, immutables, after)
    requires before.None? || !Settled(before.value, d, immutables)
    ensures SentFor(before, d, immutables, sent) && server.Admits(sent, after)
  {
    var x := Copied(before, d, immutables).value.to;
    sent := if server.Admits(x, after) then x else Stripped(x);
  }

  /** After a successful application the stored object is, runtime fields aside, the desired one with
      the immutable fields carried over, whether it was created, skipped, updated or recreated;
      with the single exception of a missed resize. */
  lemma ConvergesIff(server: ApiServer, before: Option<Object>, d: Object, immutables: seq<string>, after: Object)
    requires Stores(server) && HasMetadata(d) && Reached(server, before, d, immutables, after)
    ensures Sanitized(after) == Sanitized(Copied(before, d, immutables).value.to)
       <==> !MissedResize(before, d, immutables)
  {
    if before.None? || !Settled(before.value, d, immutables) {
      var sent := WhatWasSent(server, before, d, immutables, after);
      SentSanitizes(before, d, immutables, sent);
    } else if SharesSpec(d) && SpecIsMap(before.value) {
      ClaimConvergesIff(before.value, d, immutables);
    } else {
      LeavesFrom(before.value, d);
    }
  }

  // ----- The fixpoint -----

  /** Node ports aside, the stored ports are the sent ones, and no node port is lost. */
  ghost predicate KeepsPorts(sent: Object, stored: Object) {
    SpecIsMap(stored) && IsLoadBalancer(stored) ==>
      && SpecIsMap(sent) && SpecValue(sent, "ports").List? && SpecValue(stored, "ports").List?
      && var a, b := SpecValue(sent, "ports").items, SpecValue(stored, "ports").items;
         && |a| == |b|
         && forall i | 0 <= i < |a| :: PortFixed(a[i], b[i]) && (HasNodePort(a[i]) ==> HasNodePort(b[i]))
  }

  /** The server may assign copied and runtime fields, but keeps all else and all it once held. */
  ghost predicate WellBehaved(server: ApiServer, before: Option<Object>, d: Object, immutables: seq<string>) {
    forall sent, stored | SentFor(before, d, immutables, sent) && server.Admits(sent, stored) ::
      && Keeps(KindOf(d), before, sent, stored, immutables)
      && (KindOf(d) == "Service" ==> KeepsPorts(sent, stored))
      && (SharesSpec(d) ==> SpecIsMap(stored))
  }

  lemma StoredPortsSettleFor(before: Option<Object>, d: Object, immutables: seq<string>, sent: Object, stored: Object)
    requires KindOf(d) == "Service" && SpecIsMap(d) && SentFor(before, d, immutables, sent)
    requires KeepsPorts(sent, stored)
    ensures PortsSettle(stored, d)
  {
    if SpecIsMap(stored) && IsLoadBalancer(stored) {
      var after := SpecValue(stored, "ports").items;
      if before.Some? {
        PortsSent(before.value, d, immutables);
        assert SpecValue(sent, "ports") == SpecValue(Copied(before, d, immutables).value.to, "ports");
      }
      if before.Some? && IsLoadBalancer(before.value) {
        MergePanicsIff(SpecValue(d, "ports").items, SpecValue(before.value, "ports").items);
        StoredPortsSettle(SpecValue(d, "ports").items, SpecValue(before.value, "ports").items, after);
      } else {
        MergeSettlesIff(SpecValue(d, "ports").items, after);
      }
    }
  }

  lemma CopySucceeds(s: Object, d: Object, immutables: seq<string>)
    requires Holds(KindOf(d), s) && PortsSettle(s, d) && (KindOf(d) == "Service" ==> SpecIsMap(d))
    ensures CopiedFrom(s, d, immutables).Some?
  {}

  /** What was stored for `d` leaves nothing to change the next time. */
  lemma SettlesAfter(server: ApiServer, before: Option<Object>, d: Object, immutables: seq<string>, after: Object)
    requires Reached(server, before, d, immutables, after)
    requires HasMetadata(d) && (KindOf(d) == "Service" ==> SpecIsMap(d))
    requires before.Some? ==> Holds(KindOf(d), before.value) && (SharesSpec(d) ==> SpecIsMap(before.value))
    requires WellBehaved(server, before, d, immutables)
    ensures Settled(after, d, immutables)
  {
    if before.None? || !Settled(before.value, d, immutables) {
      var sent := WhatWasSent(server, before, d, immutables, after);
      SentSanitizes(before, d, immutables, sent);
      if SharesSpec(d) {
        StoredClaimSettles(before, d, sent, after, immutables);
        return;
      }
      if KindOf(d) == "Service" {
        StoredPortsSettleFor(before, d, immutables, sent, after);
      }
      StoredAgrees(before, d, sent, after, immutables);
      CopySucceeds(after, d, immutables);
      NoDiffIffAgrees(after, d, immutables);
    }
  }

  /** The assumptions under which applying is a fixpoint, for one object. */
  ghost predicate Tame(server: ApiServer, before: Option<Object>, d: Object, immutables: seq<string>) {
    && HasMetadata(d) && (KindOf(d) == "Service" ==> SpecIsMap(d))
    && (before.Some? ==> Holds(KindOf(d), before.value) && (SharesSpec(d) ==> SpecIsMap(before.value)))
    && WellBehaved(server, before, d, immutables)
  }

  ghost predicate AllTame(server: ApiServer, store: map<Id, Object>, plans: seq<Plan>, immutables: seq<string>) {
    forall i | 0 <= i < |plans| && plans[i].Ready? ::
      Tame(server, Lookup(store, plans[i].id), plans[i].desired, immutables)
  }

  lemma TameSettles(server: ApiServer, before: map<Id, Object>, after: map<Id, Object>, plans: seq<Plan>,
                    immutables: seq<string>)
    requires AllTame(server, before, plans, immutables) && AllReached(server, before, after, plans, immutables)
    ensures AllSettled(after, plans, immutables)
  {
    forall i | 0 <= i < |plans| && plans[i].Ready?
      ensures plans[i].id in after && Settled(after[plans[i].id], plans[i].desired, immutables)
    {
      SettlesAfter(server, Lookup(before, plans[i].id), plans[i].desired, immutables, after[plans[i].id]);
    }
  }

  /** Applying the same objects twice. The second time no create, update or delete is sent exactly
      when what was stored the first time is settled, and a tame server sees to that. `between` is
      the store between the two. */
  method ApplyTwice(server: ApiServer, plans: seq<Plan>, immutables: seq<string>)
    returns (first: Option<ApplyError>, second: Option<ApplyError>, extraWrites: int, ghost between: map<Id, Object>)
    requires Distinct(plans) && server.AlwaysAnswers()
    modifies server
    ensures first.None? ==>
              && AllReached(server, old(server.store), between, plans, immutables)
              && (second.None? && extraWrites == 0 <==> AllSettled(between, plans, immutables))
              && (AllTame(server, old(server.store), plans, immutables) ==> second.None? && extraWrites == 0)
  {
    ghost var before := server.store;
    first := ApplyObjects(server, plans, immutables, false);
    between := server.store;
    if first.Some? {
      return first, None, 0, between;
    }
    if AllTame(server, before, plans, immutables) {
      TameSettles(server, before, between, plans, immutables);
    }
    var writes := server.writes;
    second := ApplyObjects(server, plans, immutables, false);
    extraWrites := server.writes - writes;
  }
}

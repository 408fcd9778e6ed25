/** Applying desired objects to the server: create, skip, update, or delete and recreate. */
module Apply {
  import opened Kube
  import opened Nested
  import opened Sanitizing
  import opened CopyImmutable
  import opened CopyFields
  import CopyTheorems

  // ----- Objects edited in place -----

  class Unstructured {
    var content: Object

    constructor (content: Object)
      ensures this.content == content
    {
      this.content := content;
    }

    method SetField(p: Path, v: Value)
      modifies this
      ensures content == Set(old(content), p, v)
    {
      content := Set(content, p, v);
    }

    method RemoveField(p: Path)
      modifies this
      ensures content == Remove(old(content), p)
    {
      content := Remove(content, p);
    }

    method SetOrRemove(p: Path, v: Option<Value>)
      modifies this
      ensures content == Put(old(content), p, v)
    {
      if v.Some? {
        SetField(p, v.value);
      } else {
        RemoveField(p);
      }
    }

    method SetAnnotation(key: string, value: string)
      modifies this
      ensures content == WithAnnotation(old(content), key, value)
    {
      if !HasAnnotations(content) {
        SetField(ANNOTATIONS, Obj(map[]));
      }
      SetField(AnnotationPath(key), Text(value));
    }

    method Sanitize()
      modifies this
      ensures content == Sanitized(old(content))
    {
      if !HasAnnotations(content) {
        SetField(ANNOTATIONS, Obj(map[]));
      }
      for i := 0 to |RUNTIME_PATHS|
        invariant RemoveAll(content, RUNTIME_PATHS[i..]) == Sanitized(old(content))
      {
        RemoveField(RUNTIME_PATHS[i]);
        assert RUNTIME_PATHS[i..][1..] == RUNTIME_PATHS[i + 1..];
      }
    }

    method SetIdentifiers(version: Option<Value>, link: Option<Value>, uid: Option<Value>,
                          created: Option<Value>, generation: Option<Value>)
      modifies this
      ensures content == WithIdentifiers(old(content), version, link, uid, created, generation)
    {
      SetOrRemove(MetadataPath("resourceVersion"), version);
      SetOrRemove(MetadataPath("selfLink"), link);
      SetOrRemove(MetadataPath("uid"), uid);
      SetOrRemove(MetadataPath("creationTimestamp"), created);
      SetOrRemove(MetadataPath("generation"), generation);
    }

    method StripIdentifiers()
      modifies this
      ensures content == Stripped(old(content))
      ensures IsStripped(old(content), content)
    {
      StrippedFields(content);
      SetIdentifiers(None, None, None, None, None);
    }
  }

  /** Overwrites the service fields; true when an assertion on a spec map or a port fails. */
  method CopyServiceInto(from: Unstructured, to: Unstructured) returns (panicked: bool)
    requires from != to
    modifies to
    ensures panicked <==> CopyService(from.content, old(to.content)).None?
    ensures !panicked ==> Some(to.content) == CopyService(from.content, old(to.content))
  {
    if !SpecIsMap(to.content) || !SpecIsMap(from.content) {
      return true;
    }
    var ports, fromPorts := SpecValue(to.content, "ports"), SpecValue(from.content, "ports");
    var fields := ServiceFields(from.content);
    for i := 0 to |fields|
      invariant to.content == CopySpecFields(from.content, old(to.content), fields[..i])
    {
      assert fields[..i + 1][..i] == fields[..i];
      to.SetField(SpecPath(fields[i]), SpecValue(from.content, fields[i]));
    }
    assert fields[..|fields|] == fields;
    if IsLoadBalancer(from.content) {
      if !ports.List? || !fromPorts.List? {
        return true;
      }
      var merged: seq<Value> := [];
      for i := 0 to |ports.items|
        invariant MergePorts(ports.items[..i], fromPorts.items) == Some(merged)
      {
        assert ports.items[..i + 1][..i] == ports.items[..i];
        if i >= |fromPorts.items| || MergePort(ports.items[i], fromPorts.items[i]).None? {
          MergeStaysNone(ports.items, fromPorts.items, i + 1);
          return true;
        }
        merged := merged + [MergePort(ports.items[i], fromPorts.items[i]).value];
      }
      assert ports.items[..|ports.items|] == ports.items;
      to.SetField(SpecPath("ports"), List(merged));
    }
    return false;
  }

  lemma {:induction false} MergeStaysNone(ports: seq<Value>, from: seq<Value>, i: nat)
    requires i <= |ports| && MergePorts(ports[..i], from).None?
    ensures MergePorts(ports, from).None?
  {
    if i < |ports| {
      assert ports[..|ports| - 1][..i] == ports[..i];
      MergeStaysNone(ports[..|ports| - 1], from, i);
    } else {
      assert ports[..i] == ports;
    }
  }

  /** For a claim that declares requests the two objects share their spec map from the first
      assignment on, so the second one shows in both. */
  method CopyClaimInto(from: Unstructured, to: Unstructured)
    requires from != to
    modifies to, from
    ensures Pair(from.content, to.content) == CopyClaim(old(from.content), old(to.content))
  {
    var requests := Get(to.content, REQUESTS);
    if requests.Some? {
      to.content := to.content["spec" := OrNull(from.content, "spec")];
      to.SetField(REQUESTS, requests.value);
      if SpecIsMap(from.content) {
        from.content := from.content["spec" := to.content["spec"]];
      }
    }
  }

  /** The fields that are carried over for some kinds only. */
  method CopyKindInto(from: Unstructured, to: Unstructured) returns (panicked: bool)
    requires from != to
    modifies to, from
    ensures panicked <==> CopyKindFields(old(from.content), old(to.content)).None?
    ensures !panicked ==> Some(Pair(from.content, to.content)) == CopyKindFields(old(from.content), old(to.content))
  {
    panicked := false;
    var kind := KindOf(to.content);
    if kind == "Service" {
      panicked := CopyServiceInto(from, to);
    } else if kind == "ServiceAccount" {
      to.SetField(Field("secrets"), OrNull(from.content, "secrets"));
    } else if kind == "PersistentVolumeClaim" {
      CopyClaimInto(from, to);
    } else if kind == "Secret" {
      to.SetField(Field("type"), OrNull(from.content, "type"));
    } else if kind == "CustomResourceDefinition" {
      var webhook := Get(from.content, WEBHOOK);
      if webhook.Some? && webhook.value.Obj? {
        to.SetField(WEBHOOK, webhook.value);
      }
    }
  }

  method CopyAnnotationsInto(from: Unstructured, to: Unstructured, immutables: seq<string>)
    requires from != to
    modifies to
    ensures to.content == CopyAnnotations(from.content, old(to.content), immutables)
  {
    for i := 0 to |immutables|
      invariant to.content == CopyAnnotations(from.content, old(to.content), immutables[..i])
    {
      assert immutables[..i + 1][..i] == immutables[..i];
      if CarriesAnnotation(from.content, immutables[i]) {
        to.SetAnnotation(immutables[i], TextAt(from.content, AnnotationPath(immutables[i])));
      }
    }
    assert immutables[..|immutables|] == immutables;
  }

  /** Carries the immutable fields over. */
  method CopyImmutableInto(from: Unstructured?, to: Unstructured, immutables: seq<string>) returns (panicked: bool)
    requires from != to
    modifies to, if from == null then {} else {from}
    ensures var r := Copied(if from == null then None else Some(old(from.content)), old(to.content), immutables);
            && (panicked <==> r.None?)
            && (!panicked ==> to.content == r.value.to && (from != null ==> from.content == r.value.from))
    ensures from != null && !panicked && HasMetadata(old(to.content)) ==> CarriesIdentity(from.content, to.content)
  {
    if from == null {
      return false;
    }
    panicked := CopyKindInto(from, to);
    if panicked {
      return;
    }
    ghost var copied := to.content;
    CopyAnnotationsInto(from, to, immutables);
    if HasMetadata(old(to.content)) {
      CopyTheorems.KindKeepsMetadata(old(from.content), old(to.content));
      AnnotationsCarried(from.content, copied, immutables, "");
      IdentityCarried(from.content, to.content);
    }
    to.SetIdentifiers(
      NonEmptyText(from.content, MetadataPath("resourceVersion")),
      NonEmptyText(from.content, MetadataPath("selfLink")),
      NonEmptyText(from.content, MetadataPath("uid")),
      NonEmptyText(from.content, MetadataPath("creationTimestamp")),
      NonZeroNumber(from.content, MetadataPath("generation")));
    to.SetOrRemove(FINALIZERS, TextList(from.content, FINALIZERS));
  }

  /** Compares deep copies after sanitising them; printing is taken to be injective. */
  method HasChanges(from: Unstructured, to: Unstructured) returns (changed: bool)
    ensures changed <==> Sanitized(from.content) != Sanitized(to.content)
  {
    var a := new Unstructured(from.content);
    var b := new Unstructured(to.content);
    a.Sanitize();
    b.Sanitize();
    changed := a.content != b.content;
  }

  // ----- The server -----

  datatype Id = Id(kind: string, namespace: string, name: string)

  datatype Existing = Found(obj: Object) | Unavailable | ResourceMissing(appeared: bool)

  /** The API server: a store whose calls may fail without effect. `fails` and `lookup` say which
      calls fail and how; `admit` is what the server makes of an object it accepts. */
  class ApiServer {
    var store: map<Id, Object>
    var calls: nat
    var writes: nat
    const fails: nat -> Option<string>
    const unanswered: nat -> Option<Existing>
    const admit: (nat, Object) -> Object

    constructor (store: map<Id, Object>, fails: nat -> Option<string>, unanswered: nat -> Option<Existing>,
                 admit: (nat, Object) -> Object)
      ensures this.store == store && writes == 0
    {
      this.store, this.calls, this.writes := store, 0, 0;
      this.fails, this.unanswered, this.admit := fails, unanswered, admit;
    }

    ghost predicate Admits(sent: Object, stored: Object) {
      exists n: nat :: admit(n, sent) == stored
    }

    ghost predicate AlwaysAnswers() {
      forall n: nat :: unanswered(n).None?
    }

    ghost predicate NeverRefuses() {
      forall n: nat :: fails(n).None?
    }

    method Get(id: Id) returns (r: Existing)
      modifies this`calls
      ensures r.Found? ==> id in store && r.obj == store[id]
      ensures AlwaysAnswers() ==> (id in store <==> r.Found?) && !r.ResourceMissing?
      ensures forall later ::
                r == ResourceMissing(later) <==> unanswered(old(calls) + 1) == Some(ResourceMissing(later))
    {
      calls := calls + 1;
      var failure := unanswered(calls);
      if failure.Some? && !failure.value.Found? {
        return failure.value;
      }
      return if id in store then Found(store[id]) else Unavailable;
    }

    method Create(id: Id, o: Object) returns (err: Option<string>)
      modifies this
      ensures err.Some? ==> store == old(store)
      ensures err.None? ==> id !in old(store) && exists stored :: Admits(o, stored) && store == old(store)[id := stored]
      ensures err == if id in old(store) then Some("already exists") else fails(old(calls) + 1)
      ensures calls == old(calls) + 1
      ensures writes == old(writes) + 1
    {
      calls, writes := calls + 1, writes + 1;
      if id in store {
        return Some("already exists");
      }
      err := fails(calls);
      if err.None? {
        assert Admits(o, admit(calls, o));
        store := store[id := admit(calls, o)];
      }
    }

    /** What refuses an update sent now, if anything does. */
    function Refusal(id: Id): Option<string>
      reads this
    {
      if id in store then fails(calls + 1) else Some("not found")
    }

    method Update(id: Id, o: Object) returns (err: Option<string>)
      modifies this
      ensures err == old(Refusal(id)) && calls == old(calls) + 1
      ensures err.Some? ==> store == old(store)
      ensures err.None? ==> id in old(store) && exists stored :: Admits(o, stored) && store == old(store)[id := stored]
      ensures writes == old(writes) + 1
    {
      calls, writes := calls + 1, writes + 1;
      if id !in store {
        return Some("not found");
      }
      err := fails(calls);
      if err.None? {
        assert Admits(o, admit(calls, o));
        store := store[id := admit(calls, o)];
      }
    }

    method Delete(id: Id) returns (err: Option<string>)
      modifies this
      ensures err.Some? ==> store == old(store)
      ensures err.None? ==> store == old(store) - {id}
      ensures err == fails(old(calls) + 1) && calls == old(calls) + 1
      ensures writes == old(writes) + 1
    {
      calls, writes := calls + 1, writes + 1;
      err := fails(calls);
      if err.None? {
        store := store - {id};
      }
    }
  }

  // ----- Apply -----

  predicate RequiresReplacement(kind: string, err: string) {
    || (kind in {"Deployment", "DaemonSet"} && Contains(err, "field is immutable"))
    || (kind in {"RoleBinding", "ClusterRoleBinding"} && Contains(err, "cannot change roleRef"))
  }

  datatype ApplyError =
    | PrepareFailed
    | WaitFailed(id: Id)
    | Panicked(id: Id)
    | CreateFailed(id: Id)
    | UpdateFailed(id: Id)
    | DeleteFailed(id: Id)
    | RecreateFailed(id: Id)

  function Lookup(store: map<Id, Object>, id: Id): Option<Object> {
    if id in store then Some(store[id]) else None
  }

  ghost predicate SameElsewhere(a: map<Id, Object>, b: map<Id, Object>, ids: set<Id>) {
    forall id | id !in ids :: Lookup(a, id) == Lookup(b, id)
  }

  /** The copy of an object with nothing left to change: applying it again would be skipped. */
  predicate Settled(stored: Object, d: Object, immutables: seq<string>) {
    var r := CopiedFrom(stored, d, immutables);
    r.Some? && Sanitized(r.value.from) == Sanitized(r.value.to)
  }

  /** How the stored object came about: left alone because nothing differed, or admitted from what
      was sent, which is the copy or the copy without its identifiers. */
  ghost predicate Reached(server: ApiServer, before: Option<Object>, d: Object, immutables: seq<string>,
                          after: Object) {
    var r := Copied(before, d, immutables);
    && r.Some?
    && if before.Some? && Sanitized(r.value.from) == Sanitized(r.value.to) then after == before.value
       else server.Admits(r.value.to, after) || (before.Some? && server.Admits(Stripped(r.value.to), after))
  }

  /** Deletes the object and creates the given one in its place. */
  method Replace(server: ApiServer, id: Id, o: Object) returns (err: Option<ApplyError>)
    modifies server
    ensures SameElsewhere(server.store, old(server.store), {id})
    ensures err.None? ==> id in server.store && server.Admits(o, server.store[id])
    ensures err.Some? && err != Some(RecreateFailed(id)) ==> server.store == old(server.store)
    ensures var sent := server.writes - old(server.writes);
            if server.fails(old(server.calls) + 1).Some? then err == Some(DeleteFailed(id)) && sent == 1
            else
              && sent == 2
              && err == if server.fails(old(server.calls) + 2).Some? then Some(RecreateFailed(id)) else None
  {
    var failure := server.Delete(id);
    if failure.Some? {
      return Some(DeleteFailed(id));
    }
    failure := server.Create(id, o);
    return if failure.Some? then Some(RecreateFailed(id)) else None;
  }

  /** Updates the object; an immutable-field refusal leads to a deletion and a fresh creation. */
  method UpdateOrReplace(server: ApiServer, id: Id, obj: Unstructured) returns (err: Option<ApplyError>)
    modifies server
    ensures SameElsewhere(server.store, old(server.store), {id})
    ensures err.None? ==>
              && id in server.store
              && (|| server.Admits(obj.content, server.store[id])
                  || server.Admits(Stripped(obj.content), server.store[id]))
    ensures err.Some? && err != Some(RecreateFailed(id)) ==> server.store == old(server.store)
    ensures var refusal, sent := old(server.Refusal(id)), server.writes - old(server.writes);
            if refusal.None? then err.None? && sent == 1
            else if !RequiresReplacement(KindOf(obj.content), refusal.value) then
              err == Some(UpdateFailed(id)) && sent == 1
            else if server.fails(old(server.calls) + 2).Some? then err == Some(DeleteFailed(id)) && sent == 2
            else
              && sent == 3
              && err == if server.fails(old(server.calls) + 3).Some? then Some(RecreateFailed(id)) else None
  {
    var newObject := new Unstructured(obj.content);
    var failure := server.Update(id, obj.content);
    if failure.None? {
      return None;
    }
    if !RequiresReplacement(KindOf(obj.content), failure.value) {
      return Some(UpdateFailed(id));
    }
    newObject.StripIdentifiers();
    err := Replace(server, id, newObject.content);
  }

  method ApplyOne(server: ApiServer, id: Id, desired: Object, immutables: seq<string>) returns (err: Option<ApplyError>)
    modifies server
    ensures SameElsewhere(server.store, old(server.store), {id})
    ensures err.None? ==>
              id in server.store
              && Reached(server, Lookup(old(server.store), id), desired, immutables, server.store[id])
    ensures err.Some? && err != Some(RecreateFailed(id)) ==> server.store == old(server.store)
    ensures server.AlwaysAnswers() && id in old(server.store) && Settled(old(server.store)[id], desired, immutables) ==>
              err.None? && server.store == old(server.store) && server.writes == old(server.writes)
    ensures server.writes >= old(server.writes)
    ensures err.None? && server.writes == old(server.writes) ==>
              && server.store == old(server.store)
              && id in server.store && Settled(server.store[id], desired, immutables)
    ensures server.AlwaysAnswers() && server.NeverRefuses()
            && Copied(Lookup(old(server.store), id), desired, immutables).Some? ==>
              err.None?
    ensures err == Some(WaitFailed(id)) <==> server.unanswered(old(server.calls) + 1) == Some(ResourceMissing(false))
    ensures err == Some(WaitFailed(id)) ==> server.writes == old(server.writes)
  {
    var obj := new Unstructured(desired);
    var reply := server.Get(id);
    var existing: Unstructured? := null;
    if reply.ResourceMissing? && !reply.appeared {
      return Some(WaitFailed(id));
    }
    if reply.Found? {
      existing := new Unstructured(reply.obj);
    }
    var panicked := CopyImmutableInto(existing, obj, immutables);
    if panicked {
      return Some(Panicked(id));
    }
    if existing == null {
      var failure := server.Create(id, obj.content);
      return if failure.Some? then Some(CreateFailed(id)) else None;
    }
    var changed := HasChanges(existing, obj);
    if !changed {
      return None;
    }
    err := UpdateOrReplace(server, id, obj);
  }

  /** Which refusals lead to a deletion. */
  lemma ReplacementExamples()
    ensures RequiresReplacement("Deployment", "field is immutable")
    ensures RequiresReplacement("DaemonSet", "field is immutable")
    ensures RequiresReplacement("RoleBinding", "cannot change roleRef")
    ensures RequiresReplacement("ClusterRoleBinding", "cannot change roleRef")
    ensures !RequiresReplacement("StatefulSet", "field is immutable")
    ensures !RequiresReplacement("Service", "field is immutable")
    ensures !RequiresReplacement("Deployment", "cannot change roleRef")
    ensures !RequiresReplacement("Deployment", "conflict")
    ensures !RequiresReplacement("RoleBinding", "field is immutable") && !RequiresReplacement("DaemonSet", "conflict")
  {
    assert HasAt("field is immutable", "field is immutable", 0);
    assert HasAt("cannot change roleRef", "cannot change roleRef", 0);
    var other := "cannot change roleRef";
    forall i
      ensures !HasAt(other, "field is immutable", i)
    {
      assert 0 <= i <= |other| - 18 ==> other[i..i + 18][0] == other[i] != 'f';
    }
  }
}

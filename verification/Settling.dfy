/** When exactly an object on the server is left alone, for all kinds but claims that declare
    requests, which `ClaimTheorems` deals with. */
module Settling {
  import opened Kube
  import opened Nested
  import opened Sanitizing
  import opened CopyImmutable
  import opened CopyTheorems
  import opened Apply
  import opened RuntimeFields

  // ----- Fields that must be present -----

  /** A top-level field that the copy always writes is there afterwards, so a server's copy without it
      always differs. */
  lemma SettledHoldsField(s: Object, t: Object, immutables: seq<string>, k: string)
    requires k == "secrets" || k == "type"
    requires k in t && Sanitized(s) == Sanitized(CopyMetadata(s, CopyAnnotations(s, t, immutables)))
    ensures k in s
  {
    var x := CopyMetadata(s, CopyAnnotations(s, t, immutables));
    AnnotationsKeep(s, t, immutables, k);
    MetadataKeeps(s, CopyAnnotations(s, t, immutables), k);
    OtherPathsOutside();
    SanitizeAfterPut(x, Field(k), None);
    SanitizeAfterPut(s, Field(k), None);
  }

  lemma SpecValueSanitizes(s: Object, x: Object, field: string)
    requires Sanitized(s) == Sanitized(x) && field != "template" && SpecIsMap(s) && SpecIsMap(x)
    ensures SpecValue(s, field) == SpecValue(x, field)
  {
    SpecPathOutside(field);
    SanitizeAfterPut(x, SpecPath(field), None);
    SanitizeAfterPut(s, SpecPath(field), None);
    assert SpecPath(field)[1..] == [field];
    if field in x["spec"].fields {
      SpecGet(x, field);
    }
    if field in s["spec"].fields {
      SpecGet(s, field);
    }
  }

  predicate GoodFinalizers(o: Object) {
    Get(o, FINALIZERS).None? || TextList(o, FINALIZERS).Some?
  }

  /** The copy leaves the server's side alone, except for claims that declare requests. */
  lemma LeavesFrom(s: Object, d: Object)
    requires (!SharesSpec(d) || !SpecIsMap(s)) && CopyKindFields(s, d).Some?
    ensures CopyKindFields(s, d).value.from == s
  {}

  lemma SettledService(s: Object, d: Object, immutables: seq<string>)
    requires KindOf(d) == "Service" && HasMetadata(s) && GoodFinalizers(s)
    requires CopiedFrom(s, d, immutables).Some?
    requires Sanitized(s) == Sanitized(CopiedFrom(s, d, immutables).value.to)
    ensures Holds("Service", s) && PortsSettle(s, d)
  {
    PortsSent(s, d, immutables);
    forall f | f in ServiceFields(s)
      ensures f in s["spec"].fields
    {
      SettledServiceHoldsFields(s, d, immutables, f);
    }
    SpecValueSanitizes(s, CopiedFrom(s, d, immutables).value.to, "ports");
  }

  lemma SettledHolds(s: Object, d: Object, immutables: seq<string>)
    requires HasMetadata(s) && !SharesSpec(d) && GoodFinalizers(s) && CopiedFrom(s, d, immutables).Some?
    requires Settled(s, d, immutables)
    ensures Holds(KindOf(d), s) && PortsSettle(s, d)
  {
    LeavesFrom(s, d);
    var t := CopyKindFields(s, d).value.to;
    if KindOf(d) == "Service" {
      SettledService(s, d, immutables);
    } else if KindOf(d) == "ServiceAccount" {
      SettledHoldsField(s, t, immutables, "secrets");
    } else if KindOf(d) == "Secret" {
      SettledHoldsField(s, t, immutables, "type");
    }
  }

  /** The server's object is left alone exactly when it holds every field that is always copied, its
      load balancer ports are what merging gives, and all other fields agree. */
  lemma SettledIff(s: Object, d: Object, immutables: seq<string>)
    requires HasMetadata(s) && HasMetadata(d) && !SharesSpec(d) && GoodFinalizers(s)
    requires CopiedFrom(s, d, immutables).Some?
    ensures Settled(s, d, immutables)
       <==> Holds(KindOf(d), s) && PortsSettle(s, d) && Agrees(s, d, immutables)
  {
    LeavesFrom(s, d);
    if Settled(s, d, immutables) {
      SettledHolds(s, d, immutables);
      NoDiffIffAgrees(s, d, immutables);
    } else if Holds(KindOf(d), s) && PortsSettle(s, d) {
      NoDiffIffAgrees(s, d, immutables);
    }
  }

  // ----- Ports of other services -----

  /** Ports are copied for load balancers only, so any other service whose ports the server completed,
      with node ports say, always differs. */
  lemma OtherPortsNeverSettle(s: Object, d: Object, immutables: seq<string>)
    requires KindOf(d) == "Service" && CopiedFrom(s, d, immutables).Some?
    requires SpecIsMap(s) && SpecIsMap(d) && !IsLoadBalancer(s) && SpecValue(s, "ports") != SpecValue(d, "ports")
    ensures !Settled(s, d, immutables)
  {
    PortsSent(s, d, immutables);
    var x := CopiedFrom(s, d, immutables).value.to;
    if Sanitized(s) == Sanitized(x) {
      SpecValueSanitizes(s, x, "ports");
    }
  }

  function NodePortService(ports: seq<Value>): Object {
    map["kind" := Text("Service"),
        "metadata" := Obj(map[]),
        "spec" := Obj(map["type" := Text("NodePort"), "ports" := List(ports)])]
  }

  /** Concretely: one port, to which the server assigned a node port. */
  lemma AssignedNodePortDiffers()
    ensures var asked := Obj(map["port" := Number(80)]);
            var stored := Obj(map["port" := Number(80), "nodePort" := Number(30080)]);
            !Settled(NodePortService([stored]), NodePortService([asked]), [])
  {
    var asked := Obj(map["port" := Number(80)]);
    var stored := Obj(map["port" := Number(80), "nodePort" := Number(30080)]);
    var s, d := NodePortService([stored]), NodePortService([asked]);
    assert "nodePort" in stored.fields && "nodePort" !in asked.fields;
    assert SpecValue(s, "ports") == List([stored]) && SpecValue(d, "ports") == List([asked]);
    OtherPortsNeverSettle(s, d, []);
  }

  // ----- The status -----

  lemma {:induction false} SpecFieldsRead(s: Object, s': Object, d: Object, fields: seq<string>)
    requires SpecIsMap(s) && SpecIsMap(s') && s["spec"] == s'["spec"]
    ensures CopySpecFields(s', d, fields) == CopySpecFields(s, d, fields)
  {
    if fields != [] {
      SpecFieldsRead(s, s', d, fields[..|fields| - 1]);
    }
  }

  lemma {:induction false} AnnotationsRead(s: Object, s': Object, t: Object, immutables: seq<string>)
    requires SameAt(s, s', "metadata")
    ensures CopyAnnotations(s', t, immutables) == CopyAnnotations(s, t, immutables)
  {
    if immutables != [] {
      AnnotationsRead(s, s', t, immutables[..|immutables| - 1]);
    }
  }

  lemma MetadataRead(s: Object, s': Object, t: Object)
    requires SameAt(s, s', "metadata")
    ensures CopyMetadata(s', t) == CopyMetadata(s, t)
  {
    forall p: Path | p[0] == "metadata"
      ensures Get(s', p) == Get(s, p)
    {}
    assert NonEmptyText(s', MetadataPath("resourceVersion")) == NonEmptyText(s, MetadataPath("resourceVersion"));
    assert NonEmptyText(s', MetadataPath("selfLink")) == NonEmptyText(s, MetadataPath("selfLink"));
    assert NonEmptyText(s', MetadataPath("uid")) == NonEmptyText(s, MetadataPath("uid"));
    assert NonEmptyText(s', MetadataPath("creationTimestamp")) == NonEmptyText(s, MetadataPath("creationTimestamp"));
    assert NonZeroNumber(s', MetadataPath("generation")) == NonZeroNumber(s, MetadataPath("generation"));
    assert TextList(s', FINALIZERS) == TextList(s, FINALIZERS);
  }

  lemma KindRead(s: Object, s': Object, d: Object)
    requires forall k | k in {"spec", "secrets", "type", "metadata"} :: SameAt(s, s', k)
    ensures CopyKindFields(s', d).Some? <==> CopyKindFields(s, d).Some?
    ensures CopyKindFields(s, d).Some? ==> CopyKindFields(s', d).value.to == CopyKindFields(s, d).value.to
  {
    assert SameAt(s, s', "spec") && SameAt(s, s', "secrets") && SameAt(s, s', "type");
    if KindOf(d) == "Service" && SpecIsMap(s) {
      SpecFieldsRead(s, s', d, ServiceFields(s));
    }
  }

  /** The copy does not depend on the status of the server's object, which is compared with itself. */
  lemma StatusUnread(s: Object, v: Value, d: Object, immutables: seq<string>)
    ensures var r, r' := CopiedFrom(s, d, immutables), CopiedFrom(s["status" := v], d, immutables);
            && (r'.Some? <==> r.Some?)
            && (r.Some? ==> r'.value.to == r.value.to && r'.value.from == r.value.from["status" := v])
  {
    var s' := s["status" := v];
    assert forall k | k in {"spec", "secrets", "type", "metadata"} :: SameAt(s, s', k);
    KindRead(s, s', d);
    if CopyKindFields(s, d).Some? {
      FromEdited(s, v, d);
      var from, from' := CopyKindFields(s, d).value.from, CopyKindFields(s', d).value.from;
      var t := CopyKindFields(s, d).value.to;
      AnnotationsRead(from, from', t, immutables);
      MetadataRead(from, from', CopyAnnotations(from, t, immutables));
    }
  }

  lemma FromEdited(s: Object, v: Value, d: Object)
    requires CopyKindFields(s, d).Some? && CopyKindFields(s["status" := v], d).Some?
    ensures CopyKindFields(s["status" := v], d).value.from == CopyKindFields(s, d).value.from["status" := v]
  {
    var s' := s["status" := v];
    if SharesSpec(d) && SpecIsMap(s) {
      var r := CopyClaim(s, d);
      assert CopyClaim(s', d).to == r.to;
      assert s'["spec" := r.to["spec"]] == s["spec" := r.to["spec"]]["status" := v];
    } else {
      LeavesFrom(s, d);
      LeavesFrom(s', d);
    }
  }

  /** Whatever status the server's object carries, it is left alone or not just the same. */
  lemma StatusIgnored(s: Object, v: Value, d: Object, immutables: seq<string>)
    ensures Settled(s["status" := v], d, immutables) <==> Settled(s, d, immutables)
  {
    StatusUnread(s, v, d, immutables);
    if CopiedFrom(s, d, immutables).Some? {
      var from := CopiedFrom(s, d, immutables).value.from;
      RuntimeEditsForgotten(from, ["status"], Some(v));
      assert Put(from, ["status"], Some(v)) == from["status" := v];
    }
  }
}

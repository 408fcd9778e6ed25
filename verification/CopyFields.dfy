/** What the copy leaves in each field of the object that is sent, read off the two objects. */
module CopyFields {
  import opened Kube
  import opened Nested
  import opened Sanitizing
  import opened CopyImmutable
  import opened CopyTheorems
  import opened CopyCases

  predicate IsKind(o: Object, kind: string) {
    "kind" in o && o["kind"] == Text(kind)
  }

  lemma KindIs(o: Object, kind: string)
    requires IsKind(o, kind)
    ensures KindOf(o) == kind
  {}

  // ----- Metadata -----

  function NumberAt(o: Object, p: Path): int {
    var v := Get(o, p);
    if v.Some? && v.value.Number? then v.value.number else 0
  }

  /** A text field of `to` holds what the getter reads from `from`, and is absent if that is empty. */
  predicate TextCarried(from: Object, to: Object, p: Path) {
    Get(to, p) == if TextAt(from, p) == "" then None else Some(Text(TextAt(from, p)))
  }

  predicate NumberCarried(from: Object, to: Object, p: Path) {
    Get(to, p) == if NumberAt(from, p) == 0 then None else Some(Number(NumberAt(from, p)))
  }

  /** The identity of `from`, as its getters read it, and its finalizers. */
  ghost predicate CarriesIdentity(from: Object, to: Object) {
    && TextCarried(from, to, ["metadata", "resourceVersion"])
    && TextCarried(from, to, ["metadata", "selfLink"])
    && TextCarried(from, to, ["metadata", "uid"])
    && TextCarried(from, to, ["metadata", "creationTimestamp"])
    && NumberCarried(from, to, ["metadata", "generation"])
    && (TextList(from, FINALIZERS).Some? || Get(from, FINALIZERS).None? ==>
          Get(to, ["metadata", "finalizers"]) == Get(from, ["metadata", "finalizers"]))
  }

  lemma MetadataGet(o: Object, f: string)
    requires HasMetadata(o)
    ensures Get(o, MetadataPath(f)) == if f in o["metadata"].fields then Some(o["metadata"].fields[f]) else None
  {
    assert MetadataPath(f)[1..] == [f];
  }

  lemma MetadataPut(o: Object, f: string, v: Option<Value>)
    requires HasMetadata(o)
    ensures var m := o["metadata"].fields;
            Put(o, MetadataPath(f), v) == o["metadata" := Obj(if v.Some? then m[f := v.value] else m - {f})]
  {
    assert MetadataPath(f)[1..] == [f];
    var m := o["metadata"].fields;
    assert f !in m ==> m - {f} == m;
    assert Remove(m, [f]) == m - {f};
    assert v.Some? ==> Set(m, [f], v.value) == m[f := v.value];
  }

  /** What an edit of one metadata field leaves there and in the others. */
  lemma MetadataEdit(o: Object, f: string, v: Option<Value>)
    requires HasMetadata(o)
    ensures HasMetadata(Put(o, MetadataPath(f), v)) && Get(Put(o, MetadataPath(f), v), MetadataPath(f)) == v
    ensures forall g | g != f :: Get(Put(o, MetadataPath(f), v), MetadataPath(g)) == Get(o, MetadataPath(g))
  {
    MetadataPut(o, f, v);
    MetadataGet(Put(o, MetadataPath(f), v), f);
    forall g | g != f
      ensures Get(Put(o, MetadataPath(f), v), MetadataPath(g)) == Get(o, MetadataPath(g))
    {
      MetadataGet(o, g);
      MetadataGet(Put(o, MetadataPath(f), v), g);
    }
  }

  lemma IdentifiersWritten(o: Object, version: Option<Value>, link: Option<Value>, uid: Option<Value>,
                           created: Option<Value>, generation: Option<Value>)
    requires HasMetadata(o)
    ensures var t := WithIdentifiers(o, version, link, uid, created, generation);
            && HasMetadata(t)
            && Get(t, MetadataPath("resourceVersion")) == version && Get(t, MetadataPath("selfLink")) == link
            && Get(t, MetadataPath("uid")) == uid && Get(t, MetadataPath("creationTimestamp")) == created
            && Get(t, MetadataPath("generation")) == generation
  {
    var t1 := Put(o, MetadataPath("resourceVersion"), version);
    var t2 := Put(t1, MetadataPath("selfLink"), link);
    var t3 := Put(t2, MetadataPath("uid"), uid);
    var t4 := Put(t3, MetadataPath("creationTimestamp"), created);
    MetadataEdit(o, "resourceVersion", version);
    MetadataEdit(t1, "selfLink", link);
    MetadataEdit(t2, "uid", uid);
    MetadataEdit(t3, "creationTimestamp", created);
    MetadataEdit(t4, "generation", generation);
  }

  lemma IdentityCarried(from: Object, to: Object)
    requires HasMetadata(to)
    ensures CarriesIdentity(from, CopyMetadata(from, to)) && HasMetadata(CopyMetadata(from, to))
  {
    var version := NonEmptyText(from, MetadataPath("resourceVersion"));
    var link := NonEmptyText(from, MetadataPath("selfLink"));
    var uid := NonEmptyText(from, MetadataPath("uid"));
    var created := NonEmptyText(from, MetadataPath("creationTimestamp"));
    var generation := NonZeroNumber(from, MetadataPath("generation"));
    IdentifiersWritten(to, version, link, uid, created, generation);
    var t := WithIdentifiers(to, version, link, uid, created, generation);
    MetadataEdit(t, "finalizers", TextList(from, FINALIZERS));
  }

  /** Finalizers are taken over when they are a list of texts, and cleared otherwise. */
  lemma FinalizersAre(o: Object, items: seq<Value>)
    requires Get(o, ["metadata", "finalizers"]) == Some(List(items))
    ensures TextList(o, FINALIZERS) == if forall x | x in items :: x.Text? then Some(List(items)) else None
  {}

  // ----- Identifiers stripped -----

  predicate IsIdentifier(f: string) {
    f == "resourceVersion" || f == "selfLink" || f == "uid" || f == "creationTimestamp" || f == "generation"
  }

  lemma EditElsewhere(o: Object, f: string, p: Path)
    requires Unrelated(p, ["metadata", f])
    ensures Get(Put(o, MetadataPath(f), None), p) == Get(o, p)
  {
    GetAfterRemove(o, p, MetadataPath(f));
  }

  /** The five identifiers are gone and every path unrelated to them is as before. */
  ghost predicate IsStripped(before: Object, after: Object) {
    && (forall f {:trigger IsIdentifier(f)} | IsIdentifier(f) :: Get(after, ["metadata", f]).None?)
    && (forall p: Path {:trigger Elsewhere(p)} | Elsewhere(p) :: Get(after, p) == Get(before, p))
  }

  /** The path does not run through an identifier. */
  ghost predicate Elsewhere(p: Path) {
    forall f | IsIdentifier(f) :: Unrelated(p, ["metadata", f])
  }

  /** Stripping removes the five identifiers and leaves every other path alone. */
  lemma StrippedFields(o: Object)
    ensures IsStripped(o, Stripped(o))
  {
    var t1 := Put(o, MetadataPath("resourceVersion"), None);
    var t2 := Put(t1, MetadataPath("selfLink"), None);
    var t3 := Put(t2, MetadataPath("uid"), None);
    var t4 := Put(t3, MetadataPath("creationTimestamp"), None);
    if HasMetadata(o) {
      IdentifiersWritten(o, None, None, None, None, None);
    } else {
      assert t1 == o;
    }
    forall p: Path | Elsewhere(p)
      ensures Get(Stripped(o), p) == Get(o, p)
    {
      assert IsIdentifier("resourceVersion") && IsIdentifier("selfLink") && IsIdentifier("uid");
      assert IsIdentifier("creationTimestamp") && IsIdentifier("generation");
      EditElsewhere(o, "resourceVersion", p);
      EditElsewhere(t1, "selfLink", p);
      EditElsewhere(t2, "uid", p);
      EditElsewhere(t3, "creationTimestamp", p);
      EditElsewhere(t4, "generation", p);
    }
  }

  // ----- Annotations -----

  lemma MetadataEditElsewhere(o: Object, f: string, v: Option<Value>, p: Path)
    requires Unrelated(p, ["metadata", f])
    ensures Get(Put(o, MetadataPath(f), v), p) == Get(o, p)
  {
    if v.Some? {
      GetAfterSet(o, p, MetadataPath(f), v.value);
    } else {
      GetAfterRemove(o, p, MetadataPath(f));
    }
  }

  /** Copying identifiers and finalizers touches no annotation. */
  lemma IdentityLeavesAnnotations(from: Object, to: Object, key: string)
    ensures Get(CopyMetadata(from, to), AnnotationPath(key)) == Get(to, AnnotationPath(key))
  {
    var p := AnnotationPath(key);
    assert p[1..] == ["annotations", key];
    var version := NonEmptyText(from, MetadataPath("resourceVersion"));
    var link := NonEmptyText(from, MetadataPath("selfLink"));
    var uid := NonEmptyText(from, MetadataPath("uid"));
    var created := NonEmptyText(from, MetadataPath("creationTimestamp"));
    var generation := NonZeroNumber(from, MetadataPath("generation"));
    var t1 := Put(to, MetadataPath("resourceVersion"), version);
    var t2 := Put(t1, MetadataPath("selfLink"), link);
    var t3 := Put(t2, MetadataPath("uid"), uid);
    var t4 := Put(t3, MetadataPath("creationTimestamp"), created);
    var t5 := Put(t4, MetadataPath("generation"), generation);
    forall f | f != "annotations"
      ensures Unrelated(p, MetadataPath(f))
    {
      assert MetadataPath(f)[1..] == [f];
    }
    MetadataEditElsewhere(to, "resourceVersion", version, p);
    MetadataEditElsewhere(t1, "selfLink", link, p);
    MetadataEditElsewhere(t2, "uid", uid, p);
    MetadataEditElsewhere(t3, "creationTimestamp", created, p);
    MetadataEditElsewhere(t4, "generation", generation, p);
    MetadataEditElsewhere(t5, "finalizers", TextList(from, FINALIZERS), p);
  }

  /** The server's copy has a string map of annotations with this key. */
  predicate Annotated(o: Object, key: string) {
    HasAnnotations(o) && Get(o, ["metadata", "annotations", key]).Some?
  }

  lemma AnnotatedCarries(o: Object, key: string)
    ensures CarriesAnnotation(o, key) <==> Annotated(o, key)
  {
    if HasAnnotations(o) {
      AnnotationAccess(o, key, Null);
    }
  }

  /** Each immutable annotation of the server's copy is carried over, and no other annotation changes. */
  lemma {:induction false} AnnotationsCarried(s: Object, t: Object, immutables: seq<string>, key: string)
    requires HasMetadata(t)
    ensures var y, p := CopyAnnotations(s, t, immutables), AnnotationPath(key);
            && HasMetadata(y) && (HasAnnotations(t) ==> HasAnnotations(y))
            && (key in immutables && Annotated(s, key) ==> HasAnnotations(y) && Get(y, p) == Get(s, p))
            && (!(key in immutables && Annotated(s, key)) && HasAnnotations(t) ==> Get(y, p) == Get(t, p))
            && (!HasAnnotations(s) ==> y == t)
  {
    if immutables != [] {
      var n := |immutables| - 1;
      AnnotationsCarried(s, t, immutables[..n], key);
      AnnotatedCarries(s, immutables[n]);
      if Annotated(s, immutables[n]) {
        AnnotationAccess(s, immutables[n], Null);
        OneAnnotationSet(CopyAnnotations(s, t, immutables[..n]), immutables[n],
                         TextAt(s, AnnotationPath(immutables[n])), key);
      }
    }
  }

  lemma OneAnnotationSet(o: Object, key: string, value: string, other: string)
    requires HasMetadata(o)
    ensures var y := WithAnnotation(o, key, value);
            && HasMetadata(y) && HasAnnotations(y)
            && Get(y, AnnotationPath(key)) == Some(Text(value))
            && (other != key && HasAnnotations(o) ==> Get(y, AnnotationPath(other)) == Get(o, AnnotationPath(other)))
  {
    var n := Normalized(o);
    assert HasAnnotations(n) by {
      StringMapAfterReset(o);
    }
    var y := WithAnnotation(o, key, value);
    AnnotationAccess(n, key, Text(value));
    AnnotationAccess(n, other, Null);
    assert HasAnnotations(y);
    AnnotationAccess(y, key, Null);
    AnnotationAccess(y, other, Null);
  }

  lemma StringMapAfterReset(o: Object)
    requires HasMetadata(o)
    ensures HasAnnotations(Normalized(o))
  {
    assert ANNOTATIONS[1..] == ["annotations"];
  }

  // ----- Services -----

  lemma {:induction false} SpecFieldsCopied(s: Object, d: Object, fields: seq<string>, f: string)
    requires SpecIsMap(s) && SpecIsMap(d)
    ensures var t := CopySpecFields(s, d, fields);
            && SpecIsMap(t)
            && (f in fields ==> f in t["spec"].fields && SpecValue(t, f) == SpecValue(s, f))
            && (f !in fields ==> SameAt(t["spec"].fields, d["spec"].fields, f))
  {
    if fields != [] {
      var n := |fields| - 1;
      SpecFieldsCopied(s, d, fields[..n], f);
      SetSpecField(CopySpecFields(s, d, fields[..n]), fields[n], SpecValue(s, fields[n]));
    }
  }

  /** One port of a load balancer: the desired one, with the server's node port if that is set. */
  predicate PortCarried(desired: Value, stored: Value, sent: Value) {
    && stored.Obj?
    && if "nodePort" in stored.fields && stored.fields["nodePort"] != Null
       then desired.Obj? && sent == Obj(desired.fields["nodePort" := stored.fields["nodePort"]])
       else sent == desired
  }

  predicate IsCopiedSpecField(s: Object, f: string)
    requires SpecIsMap(s)
  {
    || f == "clusterIP" || f == "type" || f == "sessionAffinity" || f == "clusterIPs"
    || (f == "healthCheckNodePort" && SpecValue(s, "healthCheckNodePort") != Null)
  }

  lemma CopiedFieldsListed(s: Object, f: string)
    requires SpecIsMap(s)
    ensures f in ServiceFields(s) <==> IsCopiedSpecField(s, f)
  {
    var fields := ServiceFields(s);
    assert fields[0] == "clusterIP" && fields[1] == "type" && fields[2] == "sessionAffinity";
    assert |fields| == 5 ==> fields[3] == "healthCheckNodePort" && fields[4] == "clusterIPs";
    assert |fields| == 4 ==> fields[3] == "clusterIPs";
  }

  /** A service takes these spec fields from the server's copy, its ports too when that is a load
      balancer, and keeps all others. */
  lemma ServiceCopied(s: Object, d: Object, immutables: seq<string>, f: string)
    requires IsKind(d, "Service") && CopiedFrom(s, d, immutables).Some?
    ensures var x := CopiedFrom(s, d, immutables).value.to;
            && SpecIsMap(s) && SpecIsMap(d) && SpecIsMap(x)
            && (IsCopiedSpecField(s, f) ==> f in x["spec"].fields && SpecValue(x, f) == SpecValue(s, f))
            && (!IsCopiedSpecField(s, f) && f != "ports" ==> SameAt(x["spec"].fields, d["spec"].fields, f))
            && (SpecValue(s, "type") != Text("LoadBalancer") ==> SpecValue(x, "ports") == SpecValue(d, "ports"))
  {
    KindIs(d, "Service");
    ServiceSpecSent(s, d, immutables);
    var base := CopySpecFields(s, d, ServiceFields(s));
    CopiedFieldsListed(s, f);
    CopiedFieldsListed(s, "ports");
    SpecFieldsCopied(s, d, ServiceFields(s), f);
    SpecFieldsCopied(s, d, ServiceFields(s), "ports");
    if IsLoadBalancer(s) {
      SetSpecField(base, "ports", List(MergePorts(SpecValue(d, "ports").items, SpecValue(s, "ports").items).value));
    }
  }

  lemma LoadBalancerPortsCopied(s: Object, d: Object, immutables: seq<string>)
    requires IsKind(d, "Service") && CopiedFrom(s, d, immutables).Some?
    requires SpecIsMap(s) && SpecValue(s, "type") == Text("LoadBalancer")
    ensures var x := CopiedFrom(s, d, immutables).value.to;
            && SpecIsMap(d) && SpecIsMap(x)
            && SpecValue(d, "ports").List? && SpecValue(s, "ports").List? && SpecValue(x, "ports").List?
            && var desired, stored := SpecValue(d, "ports").items, SpecValue(s, "ports").items;
               var sent := SpecValue(x, "ports").items;
               && |sent| == |desired| <= |stored|
               && forall i | 0 <= i < |desired| :: PortCarried(desired[i], stored[i], sent[i])
  {
    KindIs(d, "Service");
    PortsSent(s, d, immutables);
    var desired, stored := SpecValue(d, "ports").items, SpecValue(s, "ports").items;
    MergePanicsIff(desired, stored);
    var sent := MergePorts(desired, stored).value;
    forall i | 0 <= i < |desired|
      ensures PortCarried(desired[i], stored[i], sent[i])
    {
      assert MergePort(desired[i], stored[i]) == Some(sent[i]);
    }
  }

  // ----- Other kinds -----

  lemma CarryKeeps(s: Object, t: Object, immutables: seq<string>, k: string)
    requires k != "metadata"
    ensures SameAt(CopyMetadata(s, CopyAnnotations(s, t, immutables)), t, k)
  {
    AnnotationsKeep(s, t, immutables, k);
    MetadataKeeps(s, CopyAnnotations(s, t, immutables), k);
  }

  lemma ServiceAccountCopied(s: Object, d: Object, immutables: seq<string>, k: string)
    requires IsKind(d, "ServiceAccount") && k != "metadata"
    ensures CopiedFrom(s, d, immutables).Some?
    ensures var x := CopiedFrom(s, d, immutables).value.to;
            && (k == "secrets" ==> k in x && x[k] == OrNull(s, k))
            && (k != "secrets" ==> SameAt(x, d, k))
  {
    KindIs(d, "ServiceAccount");
    CarryKeeps(s, d["secrets" := OrNull(s, "secrets")], immutables, k);
  }

  lemma SecretCopied(s: Object, d: Object, immutables: seq<string>, k: string)
    requires IsKind(d, "Secret") && k != "metadata"
    ensures CopiedFrom(s, d, immutables).Some?
    ensures var x := CopiedFrom(s, d, immutables).value.to;
            && (k == "type" ==> k in x && x[k] == OrNull(s, k))
            && (k != "type" ==> SameAt(x, d, k))
  {
    KindIs(d, "Secret");
    CarryKeeps(s, d["type" := OrNull(s, "type")], immutables, k);
  }

  lemma SpecKept(a: Object, b: Object, p: Path)
    requires p[0] == "spec" && SameAt(a, b, "spec")
    ensures Get(a, p) == Get(b, p)
  {}

  /** A resource definition takes over the server's conversion webhook, if that is a map. */
  lemma DefinitionCopied(s: Object, d: Object, immutables: seq<string>, k: string)
    requires IsKind(d, "CustomResourceDefinition") && k != "metadata"
    ensures CopiedFrom(s, d, immutables).Some?
    ensures var x, p: Path := CopiedFrom(s, d, immutables).value.to, ["spec", "conversion", "webhook"];
            var found := Get(s, p).Some? && Get(s, p).value.Obj?;
            && (found && Writable(d, p) ==> Get(x, p) == Get(s, p))
            && (!found || k != "spec" ==> SameAt(x, d, k))
  {
    KindIs(d, "CustomResourceDefinition");
    var found := Get(s, WEBHOOK).Some? && Get(s, WEBHOOK).value.Obj?;
    var t := if found then Set(d, WEBHOOK, Get(s, WEBHOOK).value) else d;
    assert CopyKindFields(s, d) == Some(Pair(s, t));
    var x := CopiedFrom(s, d, immutables).value.to;
    CarryKeeps(s, t, immutables, k);
    CarryKeeps(s, t, immutables, "spec");
    SpecKept(x, t, WEBHOOK);
    if found {
      SetTouchesOneKey(d, WEBHOOK, Get(s, WEBHOOK).value);
      if Writable(d, WEBHOOK) {
        GetAfterSetSame(d, WEBHOOK, Get(s, WEBHOOK).value);
      }
    }
  }

  /** A claim that declares requests takes over the rest of the server's spec. */
  lemma ClaimCopied(s: Object, d: Object, immutables: seq<string>, f: string)
    requires IsKind(d, "PersistentVolumeClaim") && Get(d, ["spec", "resources", "requests"]).Some? && SpecIsMap(s)
    ensures CopiedFrom(s, d, immutables).Some?
    ensures var x, p: Path := CopiedFrom(s, d, immutables).value.to, ["spec", "resources", "requests"];
            && SpecIsMap(x)
            && (Writable(s, p) ==> Get(x, p) == Get(d, p))
            && (f != "resources" ==> SameAt(x["spec"].fields, s["spec"].fields, f))
  {
    KindIs(d, "PersistentVolumeClaim");
    var v := Get(d, REQUESTS).value;
    var t := d["spec" := s["spec"]];
    var y := Set(t, REQUESTS, v);
    CarryKeeps(CopyClaim(s, d).from, y, immutables, "spec");
    assert REQUESTS[1..][0] == "resources";
    if Writable(s, REQUESTS) {
      assert Writable(t, REQUESTS);
      GetAfterSetSame(t, REQUESTS, v);
    }
  }

  /** Every other object, and a claim that declares none, keeps all but its metadata. */
  lemma OthersKeep(s: Object, d: Object, immutables: seq<string>, k: string)
    requires forall kind | kind in {"Service", "ServiceAccount", "Secret", "CustomResourceDefinition"} ::
               !IsKind(d, kind)
    requires IsKind(d, "PersistentVolumeClaim") ==> Get(d, ["spec", "resources", "requests"]).None?
    requires k != "metadata"
    ensures CopiedFrom(s, d, immutables).Some? && SameAt(CopiedFrom(s, d, immutables).value.to, d, k)
  {
    assert !IsKind(d, "Service") && !IsKind(d, "ServiceAccount") && !IsKind(d, "Secret");
    assert !IsKind(d, "CustomResourceDefinition");
    CarryKeeps(s, d, immutables, k);
  }
}

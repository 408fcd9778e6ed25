/** The copy, seen after sanitising, takes over the server's values at the copied paths and nothing
    else; hence it settles. */
module CopyTheorems {
  import opened Kube
  import opened Nested
  import opened Sanitizing
  import opened CopyImmutable

  lemma {:induction false} PutAllSplit(m: Object, ps: seq<Path>, qs: seq<Path>, source: Object)
    ensures PutAll(m, ps + qs, source) == PutAll(PutAll(m, ps, source), qs, source)
    decreases |ps|
  {
    if ps == [] {
      assert ps + qs == qs;
    } else {
      assert (ps + qs)[1..] == ps[1..] + qs;
      PutAllSplit(Put(m, ps[0], Get(source, ps[0])), ps[1..], qs, source);
    }
  }

  /** One field taken over: sanitising before or after makes no difference. */
  lemma TakeOver(m: Object, p: Path, s: Object, v: Value)
    requires Outside(p) && Get(s, p) == Some(v)
    ensures Sanitized(Set(m, p, v)) == PutAll(Sanitized(m), [p], Sanitized(s))
  {
    SanitizeAfterPut(m, p, Some(v));
    SanitizeAfterPut(s, p, None);
    var next := Put(Sanitized(m), p, Get(Sanitized(s), p));
    assert PutAll(Sanitized(m), [p], Sanitized(s)) == PutAll(next, [], Sanitized(s));
  }

  /** A further field after others have been taken over. */
  lemma TakeOverNext(m: Object, t: Object, ps: seq<Path>, p: Path, s: Object, v: Value)
    requires Sanitized(t) == PutAll(Sanitized(m), ps, Sanitized(s))
    requires Outside(p) && Get(s, p) == Some(v)
    ensures Sanitized(Set(t, p, v)) == PutAll(Sanitized(m), ps + [p], Sanitized(s))
  {
    TakeOver(t, p, s, v);
    PutAllSplit(Sanitized(m), ps, [p], Sanitized(s));
  }

  lemma SpecPathOutside(field: string)
    requires field != "template"
    ensures Outside(SpecPath(field))
  {
    var p := SpecPath(field);
    assert p[1..] == [field];
    forall i | 0 <= i < |RUNTIME_PATHS|
      ensures Unrelated(p, RUNTIME_PATHS[i])
    {
      if RUNTIME_PATHS[i][0] == "spec" {
        assert RUNTIME_PATHS[i][1..][0] == "template";
      }
    }
  }

  lemma OtherPathsOutside()
    ensures Outside(Field("secrets")) && Outside(Field("type")) && Outside(WEBHOOK) && Outside(FINALIZERS)
  {
    assert WEBHOOK[1..][0] == "conversion" && TEMPLATE_CREATION[1..][0] == "template";
    assert FINALIZERS[1..] == ["finalizers"];
  }

  lemma SpecGet(o: Object, field: string)
    requires SpecIsMap(o) && field in o["spec"].fields
    ensures Get(o, SpecPath(field)) == Some(SpecValue(o, field))
  {
    assert SpecPath(field)[1..] == [field];
  }

  lemma {:induction false} FieldsTakeOver(s: Object, d: Object, fields: seq<string>)
    requires SpecIsMap(s) && forall i | 0 <= i < |fields| :: fields[i] != "template" && fields[i] in s["spec"].fields
    ensures Sanitized(CopySpecFields(s, d, fields)) == PutAll(Sanitized(d), SpecPaths(fields), Sanitized(s))
  {
    if fields != [] {
      var n := |fields| - 1;
      FieldsTakeOver(s, d, fields[..n]);
      SpecPathOutside(fields[n]);
      SpecGet(s, fields[n]);
      TakeOverNext(d, CopySpecFields(s, d, fields[..n]), SpecPaths(fields[..n]), SpecPath(fields[n]), s,
                   SpecValue(s, fields[n]));
    }
  }

  lemma ServiceTakesOver(s: Object, d: Object)
    requires KindOf(d) == "Service" && Holds("Service", s) && PortsSettle(s, d) && CopyService(s, d).Some?
    ensures Sanitized(CopyService(s, d).value) == PutAll(Sanitized(d), ServicePaths(s), Sanitized(s))
  {
    var fields := ServiceFields(s);
    forall i | 0 <= i < |fields|
      ensures fields[i] in s["spec"].fields
    {
      assert fields[i] in fields;
    }
    FieldsTakeOver(s, d, fields);
    if IsLoadBalancer(s) {
      SpecPathOutside("ports");
      SpecGet(s, "ports");
      TakeOverNext(d, CopySpecFields(s, d, fields), SpecPaths(fields), SpecPath("ports"), s, SpecValue(s, "ports"));
    } else {
      assert ServicePaths(s) == SpecPaths(fields);
    }
  }

  lemma KindTakesOver(s: Object, d: Object)
    requires Holds(KindOf(d), s) && !SharesSpec(d) && PortsSettle(s, d) && CopyKindFields(s, d).Some?
    ensures var r := CopyKindFields(s, d).value;
            && r.from == s
            && Sanitized(r.to) == PutAll(Sanitized(d), KindPaths(KindOf(d), s), Sanitized(s))
  {
    OtherPathsOutside();
    assert PutAll(Sanitized(d), [], Sanitized(s)) == Sanitized(d);
    match KindOf(d) {
      case "Service" => ServiceTakesOver(s, d);
      case "ServiceAccount" => TakeOver(d, Field("secrets"), s, s["secrets"]);
      case "Secret" => TakeOver(d, Field("type"), s, s["type"]);
      case "CustomResourceDefinition" =>
        if Get(s, WEBHOOK).Some? && Get(s, WEBHOOK).value.Obj? {
          TakeOver(d, WEBHOOK, s, Get(s, WEBHOOK).value);
        }
      case _ =>
    }
  }

  lemma {:induction false} AnnotationsTakeOver(s: Object, m: Object, immutables: seq<string>)
    requires HasMetadata(m)
    ensures var t := CopyAnnotations(s, m, immutables);
            && HasMetadata(t)
            && Sanitized(t) == PutAll(Sanitized(m), AnnotationPaths(s, immutables), Sanitized(s))
  {
    if immutables != [] {
      var n := |immutables| - 1;
      AnnotationsTakeOver(s, m, immutables[..n]);
      var t := CopyAnnotations(s, m, immutables[..n]);
      if CarriesAnnotation(s, immutables[n]) {
        var p := AnnotationPath(immutables[n]);
        SanitizeAnnotation(t, immutables[n], s);
        PutAllSplit(Sanitized(m), AnnotationPaths(s, immutables[..n]), [p], Sanitized(s));
        var next := Put(Sanitized(t), p, Get(Sanitized(s), p));
        assert PutAll(Sanitized(t), [p], Sanitized(s)) == PutAll(next, [], Sanitized(s));
      } else {
        assert AnnotationPaths(s, immutables) == AnnotationPaths(s, immutables[..n]);
      }
    }
  }

  lemma MetadataTakesOver(s: Object, m: Object)
    requires HasMetadata(m) && (Get(s, FINALIZERS).None? || TextList(s, FINALIZERS).Some?)
    ensures Sanitized(CopyMetadata(s, m)) == PutAll(Sanitized(m), [FINALIZERS], Sanitized(s))
  {
    var t := WithIdentifiers(m,
      NonEmptyText(s, MetadataPath("resourceVersion")),
      NonEmptyText(s, MetadataPath("selfLink")),
      NonEmptyText(s, MetadataPath("uid")),
      NonEmptyText(s, MetadataPath("creationTimestamp")),
      NonZeroNumber(s, MetadataPath("generation")));
    SanitizeForgetsIdentifiers(m,
      NonEmptyText(s, MetadataPath("resourceVersion")),
      NonEmptyText(s, MetadataPath("selfLink")),
      NonEmptyText(s, MetadataPath("uid")),
      NonEmptyText(s, MetadataPath("creationTimestamp")),
      NonZeroNumber(s, MetadataPath("generation")));
    OtherPathsOutside();
    SanitizeAfterPut(t, FINALIZERS, TextList(s, FINALIZERS));
    SanitizeAfterPut(s, FINALIZERS, None);
    var next := Put(Sanitized(m), FINALIZERS, Get(Sanitized(s), FINALIZERS));
    assert PutAll(Sanitized(m), [FINALIZERS], Sanitized(s)) == PutAll(next, [], Sanitized(s));
  }

  /** Sanitised, the copy is the desired object with the server's values at the copied paths. */
  lemma CopyTakesOver(s: Object, d: Object, immutables: seq<string>)
    requires Holds(KindOf(d), s) && HasMetadata(d) && !SharesSpec(d) && PortsSettle(s, d)
    requires Copied(Some(s), d, immutables).Some?
    ensures var r := Copied(Some(s), d, immutables).value;
            && r.from == s
            && Sanitized(r.to) == PutAll(Sanitized(d), CopiedPaths(KindOf(d), s, immutables), Sanitized(s))
  {
    KindTakesOver(s, d);
    var t1 := CopyKindFields(s, d).value.to;
    KindKeepsMetadata(s, d);
    AnnotationsTakeOver(s, t1, immutables);
    MetadataTakesOver(s, CopyAnnotations(s, t1, immutables));
    var ks, as_ := KindPaths(KindOf(d), s), AnnotationPaths(s, immutables);
    PutAllSplit(Sanitized(d), ks, as_, Sanitized(s));
    PutAllSplit(Sanitized(d), ks + as_, [FINALIZERS], Sanitized(s));
  }

  lemma KindKeepsMetadata(s: Object, d: Object)
    requires HasMetadata(d) && CopyKindFields(s, d).Some?
    ensures HasMetadata(CopyKindFields(s, d).value.to)
  {
    if KindOf(d) == "Service" && SpecIsMap(s) {
      SpecFieldsKeepMetadata(s, d, ServiceFields(s));
    }
  }

  lemma {:induction false} SpecFieldsKeepMetadata(s: Object, d: Object, fields: seq<string>)
    requires HasMetadata(d) && SpecIsMap(s)
    ensures HasMetadata(CopySpecFields(s, d, fields))
  {
    if fields != [] {
      SpecFieldsKeepMetadata(s, d, fields[..|fields| - 1]);
    }
  }

  // ----- When the copy changes nothing -----

  predicate CopyShaped(p: Path) {
    || (|p| == 2 && p[0] == "spec" && p[1] !in {"conversion", "template"})
    || p == Field("secrets") || p == Field("type") || p == WEBHOOK || p == FINALIZERS
    || (|p| == 3 && p[0] == "metadata" && p[1] == "annotations")
  }

  lemma CopyShapedUnrelated(p: Path, q: Path)
    requires CopyShaped(p) && CopyShaped(q) && p != q
    ensures Unrelated(p, q)
  {
    if p[0] == q[0] && |p| > 1 && |q| > 1 {
      assert p[1..][0] == p[1] && q[1..][0] == q[1];
      assert |p| == 2 && |q| == 2 && p[1] == q[1] ==> p == q;
      assert |p| == 3 && |q| == 3 && p[1] == q[1] && p[2] == q[2] ==> p == q;
      if |p| == 3 && |q| == 3 {
        assert p[1..][1..] == [p[2]] && q[1..][1..] == [q[2]];
      }
    }
  }

  lemma {:induction false} SpecPathsShaped(fields: seq<string>)
    requires forall i | 0 <= i < |fields| :: fields[i] !in {"conversion", "template"}
    ensures forall p | p in SpecPaths(fields) :: CopyShaped(p) && |p| == 2 && p[1] in fields && p == SpecPath(p[1])
  {
    if fields != [] {
      SpecPathsShaped(fields[..|fields| - 1]);
    }
  }

  lemma {:induction false} AnnotationPathsShaped(s: Object, immutables: seq<string>)
    ensures forall p | p in AnnotationPaths(s, immutables) ::
              CopyShaped(p) && |p| == 3 && p == AnnotationPath(p[2]) && HasAnnotations(s)
  {
    if immutables != [] {
      AnnotationPathsShaped(s, immutables[..|immutables| - 1]);
    }
  }

  lemma KindPathsShaped(kind: string, s: Object)
    ensures forall p | p in KindPaths(kind, s) :: CopyShaped(p)
  {
    if SpecIsMap(s) {
      SpecPathsShaped(ServiceFields(s));
    }
  }

  lemma ShapedIsFlat(ps: seq<Path>)
    requires forall p | p in ps :: CopyShaped(p)
    ensures Flat(ps)
  {
    forall i, j | 0 <= i < |ps| && 0 <= j < |ps|
      ensures ps[i] == ps[j] || Unrelated(ps[i], ps[j])
    {
      if ps[i] != ps[j] {
        CopyShapedUnrelated(ps[i], ps[j]);
      }
    }
  }

  lemma CopiedPathsFlat(kind: string, s: Object, immutables: seq<string>)
    ensures Flat(CopiedPaths(kind, s, immutables))
  {
    KindPathsShaped(kind, s);
    AnnotationPathsShaped(s, immutables);
    ShapedIsFlat(CopiedPaths(kind, s, immutables));
  }

  /** Both objects have the maps the copied paths run through; the server's values are there. */
  lemma CopiedPathsHaveParents(kind: string, s: Object, d: Object, immutables: seq<string>)
    requires Holds(kind, s) && HasMetadata(d)
    requires kind == "Service" && IsLoadBalancer(s) ==> "ports" in s["spec"].fields
    ensures forall p | p in CopiedPaths(kind, s, immutables) ::
              HasParent(Sanitized(s), p) && (Get(Sanitized(s), p).None? ==> HasParent(Sanitized(d), p))
  {
    SanitizedHasMetadata(s);
    SanitizedHasMetadata(d);
    AnnotationPathsShaped(s, immutables);
    OtherPathsOutside();
    forall p | p in CopiedPaths(kind, s, immutables)
      ensures HasParent(Sanitized(s), p) && (Get(Sanitized(s), p).None? ==> HasParent(Sanitized(d), p))
    {
      if p in KindPaths(kind, s) {
        KindPathHeld(kind, s, p);
        SanitizeAfterPut(s, p, None);
        SetWhatIsThere(Sanitized(s), p);
      } else if p in AnnotationPaths(s, immutables) {
        AnnotationAccess(Sanitized(s), p[2], Null);
        AnnotationAccess(Sanitized(d), p[2], Null);
      } else {
        assert p[1..] == ["finalizers"];
      }
    }
  }

  lemma KindPathHeld(kind: string, s: Object, p: Path)
    requires Holds(kind, s) && p in KindPaths(kind, s)
    requires kind == "Service" && IsLoadBalancer(s) ==> "ports" in s["spec"].fields
    ensures Outside(p) && Get(s, p).Some?
  {
    OtherPathsOutside();
    if kind == "Service" {
      SpecPathsShaped(ServiceFields(s));
      assert p == SpecPath(p[1]);
      SpecPathOutside(p[1]);
      SpecGet(s, p[1]);
    }
  }

  /** Outside the copied fields and the runtime fields, the two objects are equal. */
  ghost predicate Agrees(s: Object, d: Object, immutables: seq<string>) {
    var ps := CopiedPaths(KindOf(d), s, immutables);
    Blank(Sanitized(s), ps) == Blank(Sanitized(d), ps)
  }

  /** After the copy there is no difference left exactly when the objects agree outside the copied fields. */
  lemma NoDiffIffAgrees(s: Object, d: Object, immutables: seq<string>)
    requires Holds(KindOf(d), s) && HasMetadata(d) && !SharesSpec(d) && PortsSettle(s, d)
    requires Copied(Some(s), d, immutables).Some?
    ensures var r := Copied(Some(s), d, immutables).value;
            r.from == s && (Sanitized(s) == Sanitized(r.to) <==> Agrees(s, d, immutables))
  {
    var ps := CopiedPaths(KindOf(d), s, immutables);
    CopyTakesOver(s, d, immutables);
    CopiedPathsFlat(KindOf(d), s, immutables);
    PutAllIsBlanked(Sanitized(d), ps, Sanitized(s), ps);
    if Agrees(s, d, immutables) {
      CopiedPathsHaveParents(KindOf(d), s, d, immutables);
      RestoreAll(Sanitized(d), Sanitized(s), ps);
    }
  }

  /** What a well-behaved server may do with what it is sent: change runtime fields and copied
      fields, and keep holding the fields that were copied before. */
  ghost predicate Keeps(kind: string, before: Option<Object>, sent: Object, stored: Object, immutables: seq<string>) {
    var ps := CopiedPaths(kind, stored, immutables);
    && Holds(kind, stored)
    && Blank(Sanitized(stored), ps) == Blank(Sanitized(sent), ps)
    && (before.Some? ==> forall p | p in CopiedPaths(kind, before.value, immutables) :: p in ps)
  }

  lemma ServiceIsBlanked(s: Object, d: Object, ps: seq<Path>)
    requires KindOf(d) == "Service" && Holds("Service", s) && CopyService(s, d).Some?
    requires Flat(ps) && forall p | p in ServicePaths(s) :: p in ps
    ensures Blank(Sanitized(CopyService(s, d).value), ps) == Blank(Sanitized(d), ps)
  {
    var fields := ServiceFields(s);
    forall i | 0 <= i < |fields|
      ensures fields[i] in s["spec"].fields
    {
      assert fields[i] in fields;
    }
    FieldsTakeOver(s, d, fields);
    PutAllIsBlanked(Sanitized(d), SpecPaths(fields), Sanitized(s), ps);
    if IsLoadBalancer(s) {
      SpecPathOutside("ports");
      var t := CopySpecFields(s, d, fields);
      var merged := MergePorts(SpecValue(d, "ports").items, SpecValue(s, "ports").items).value;
      SanitizeAfterPut(t, SpecPath("ports"), Some(List(merged)));
      PutIsBlanked(Sanitized(t), ps, SpecPath("ports"), Some(List(merged)));
    }
  }

  lemma KindIsBlanked(s: Object, d: Object, ps: seq<Path>)
    requires Holds(KindOf(d), s) && !SharesSpec(d) && CopyKindFields(s, d).Some?
    requires Flat(ps) && forall p | p in KindPaths(KindOf(d), s) :: p in ps
    ensures CopyKindFields(s, d).value.from == s
    ensures Blank(Sanitized(CopyKindFields(s, d).value.to), ps) == Blank(Sanitized(d), ps)
  {
    if KindOf(d) == "Service" {
      ServiceIsBlanked(s, d, ps);
    } else {
      KindTakesOver(s, d);
      PutAllIsBlanked(Sanitized(d), KindPaths(KindOf(d), s), Sanitized(s), ps);
    }
  }

  /** The copy and the desired object agree outside the copied paths, whatever the ports. */
  lemma CopyIsBlanked(s: Object, d: Object, immutables: seq<string>, ps: seq<Path>)
    requires Holds(KindOf(d), s) && HasMetadata(d) && !SharesSpec(d) && CopiedFrom(s, d, immutables).Some?
    requires Flat(ps) && forall p | p in CopiedPaths(KindOf(d), s, immutables) :: p in ps
    ensures Blank(Sanitized(CopiedFrom(s, d, immutables).value.to), ps) == Blank(Sanitized(d), ps)
  {
    KindIsBlanked(s, d, ps);
    KindKeepsMetadata(s, d);
    var t1 := CopyKindFields(s, d).value.to;
    var t2 := CopyAnnotations(s, t1, immutables);
    AnnotationsTakeOver(s, t1, immutables);
    PutAllIsBlanked(Sanitized(t1), AnnotationPaths(s, immutables), Sanitized(s), ps);
    MetadataTakesOver(s, t2);
    PutAllIsBlanked(Sanitized(t2), [FINALIZERS], Sanitized(s), ps);
  }

  /** Whatever was sent for `d`, the stored copy agrees with `d` afterwards. */
  lemma StoredAgrees(before: Option<Object>, d: Object, sent: Object, stored: Object, immutables: seq<string>)
    requires HasMetadata(d) && !SharesSpec(d) && Copied(before, d, immutables).Some?
    requires before.Some? ==> Holds(KindOf(d), before.value)
    requires Sanitized(sent) == Sanitized(Copied(before, d, immutables).value.to)
    requires Keeps(KindOf(d), before, sent, stored, immutables)
    ensures Agrees(stored, d, immutables)
  {
    if before.Some? {
      CopiedPathsFlat(KindOf(d), stored, immutables);
      CopyIsBlanked(before.value, d, immutables, CopiedPaths(KindOf(d), stored, immutables));
    }
  }

  lemma CopyKeepsMetadata(s: Object, d: Object, immutables: seq<string>)
    requires HasMetadata(d) && CopiedFrom(s, d, immutables).Some?
    ensures HasMetadata(CopiedFrom(s, d, immutables).value.to)
  {
    KindKeepsMetadata(s, d);
    var k := CopyKindFields(s, d).value;
    AnnotationsTakeOver(k.from, k.to, immutables);
    SanitizeForgetsIdentifiers(CopyAnnotations(k.from, k.to, immutables),
      NonEmptyText(k.from, MetadataPath("resourceVersion")),
      NonEmptyText(k.from, MetadataPath("selfLink")),
      NonEmptyText(k.from, MetadataPath("uid")),
      NonEmptyText(k.from, MetadataPath("creationTimestamp")),
      NonZeroNumber(k.from, MetadataPath("generation")));
  }

  // ----- The ports that are sent -----

  lemma SetSpecField(m: Object, field: string, v: Value)
    requires SpecIsMap(m)
    ensures Set(m, SpecPath(field), v) == m["spec" := Obj(m["spec"].fields[field := v])]
  {
    assert SpecPath(field)[1..] == [field];
  }

  lemma {:induction false} SpecFieldsKeepPorts(s: Object, d: Object, fields: seq<string>)
    requires SpecIsMap(s) && SpecIsMap(d) && "ports" !in fields
    ensures SpecIsMap(CopySpecFields(s, d, fields))
    ensures SpecValue(CopySpecFields(s, d, fields), "ports") == SpecValue(d, "ports")
  {
    if fields != [] {
      var n := |fields| - 1;
      SpecFieldsKeepPorts(s, d, fields[..n]);
      SetSpecField(CopySpecFields(s, d, fields[..n]), fields[n], SpecValue(s, fields[n]));
    }
  }

  lemma ServicePortsSent(s: Object, d: Object)
    requires CopyService(s, d).Some?
    ensures SpecIsMap(s) && SpecIsMap(d) && SpecIsMap(CopyService(s, d).value)
    ensures PortsAsSent(s, d, CopyService(s, d).value)
  {
    var t := CopySpecFields(s, d, ServiceFields(s));
    SpecFieldsKeepPorts(s, d, ServiceFields(s));
    if IsLoadBalancer(s) {
      SetSpecField(t, "ports", List(MergePorts(SpecValue(d, "ports").items, SpecValue(s, "ports").items).value));
    }
  }

  /** The merged ports go to a load balancer, the desired ones otherwise. */
  predicate PortsAsSent(s: Object, d: Object, sent: Object)
    requires SpecIsMap(s) && SpecIsMap(d) && SpecIsMap(sent)
  {
    if IsLoadBalancer(s) then
      && SpecValue(d, "ports").List? && SpecValue(s, "ports").List?
      && var merged := MergePorts(SpecValue(d, "ports").items, SpecValue(s, "ports").items);
         merged.Some? && SpecValue(sent, "ports") == List(merged.value)
    else SpecValue(sent, "ports") == SpecValue(d, "ports")
  }

  // ----- The copy of annotations and metadata leaves all else alone -----

  lemma MetadataEditKeeps(o: Object, p: Path, v: Option<Value>, k: string)
    requires p[0] == "metadata" && k != "metadata"
    ensures SameAt(Put(o, p, v), o, k)
  {}

  lemma {:induction false} AnnotationsKeep(s: Object, t: Object, immutables: seq<string>, k: string)
    requires k != "metadata"
    ensures SameAt(CopyAnnotations(s, t, immutables), t, k)
  {
    if immutables != [] {
      var n := |immutables| - 1;
      var m := CopyAnnotations(s, t, immutables[..n]);
      var key := immutables[n];
      AnnotationsKeep(s, t, immutables[..n], k);
      MetadataEditKeeps(m, ANNOTATIONS, Some(Obj(map[])), k);
      MetadataEditKeeps(Normalized(m), AnnotationPath(key), Some(Text(TextAt(s, AnnotationPath(key)))), k);
    }
  }

  lemma IdentifiersKeep(o: Object, version: Option<Value>, link: Option<Value>, uid: Option<Value>,
                        created: Option<Value>, generation: Option<Value>, k: string)
    requires k != "metadata"
    ensures SameAt(WithIdentifiers(o, version, link, uid, created, generation), o, k)
  {
    var t1 := Put(o, MetadataPath("resourceVersion"), version);
    var t2 := Put(t1, MetadataPath("selfLink"), link);
    var t3 := Put(t2, MetadataPath("uid"), uid);
    var t4 := Put(t3, MetadataPath("creationTimestamp"), created);
    MetadataEditKeeps(o, MetadataPath("resourceVersion"), version, k);
    MetadataEditKeeps(t1, MetadataPath("selfLink"), link, k);
    MetadataEditKeeps(t2, MetadataPath("uid"), uid, k);
    MetadataEditKeeps(t3, MetadataPath("creationTimestamp"), created, k);
    MetadataEditKeeps(t4, MetadataPath("generation"), generation, k);
  }

  lemma MetadataKeeps(s: Object, t: Object, k: string)
    requires k != "metadata"
    ensures SameAt(CopyMetadata(s, t), t, k)
  {
    var version, link := NonEmptyText(s, MetadataPath("resourceVersion")), NonEmptyText(s, MetadataPath("selfLink"));
    var uid, created := NonEmptyText(s, MetadataPath("uid")), NonEmptyText(s, MetadataPath("creationTimestamp"));
    var generation := NonZeroNumber(s, MetadataPath("generation"));
    IdentifiersKeep(t, version, link, uid, created, generation, k);
    MetadataEditKeeps(WithIdentifiers(t, version, link, uid, created, generation), FINALIZERS,
                      TextList(s, FINALIZERS), k);
  }

  lemma AnnotationsKeepSpec(s: Object, m: Object, immutables: seq<string>)
    requires SpecIsMap(m)
    ensures SpecIsMap(CopyAnnotations(s, m, immutables)) && CopyAnnotations(s, m, immutables)["spec"] == m["spec"]
  {
    AnnotationsKeep(s, m, immutables, "spec");
  }

  predicate SameSpec(m: Object, t: Object) {
    SpecIsMap(m) && "spec" in t && t["spec"] == m["spec"]
  }

  lemma MetadataKeepsSpec(s: Object, m: Object)
    requires SpecIsMap(m)
    ensures SameSpec(m, CopyMetadata(s, m)) && SameSpec(m, Stripped(CopyMetadata(s, m)))
  {
    MetadataKeeps(s, m, "spec");
    IdentifiersKeep(CopyMetadata(s, m), None, None, None, None, None, "spec");
  }

  /** The spec that is sent is the one the service copy left. */
  lemma ServiceSpecSent(s: Object, d: Object, immutables: seq<string>)
    requires KindOf(d) == "Service" && CopiedFrom(s, d, immutables).Some?
    ensures CopyService(s, d).Some? && SpecIsMap(s) && SpecIsMap(d)
    ensures var t, x := CopyService(s, d).value, CopiedFrom(s, d, immutables).value.to;
            SpecIsMap(t) && SameSpec(t, x) && SameSpec(x, Stripped(x))
  {
    ServicePortsSent(s, d);
    var t := CopyService(s, d).value;
    AnnotationsKeepSpec(s, t, immutables);
    MetadataKeepsSpec(s, CopyAnnotations(s, t, immutables));
  }

  lemma PortsSent(s: Object, d: Object, immutables: seq<string>)
    requires KindOf(d) == "Service" && CopiedFrom(s, d, immutables).Some?
    ensures var x := CopiedFrom(s, d, immutables).value.to;
            && SpecIsMap(s) && SpecIsMap(d) && SpecIsMap(x) && PortsAsSent(s, d, x)
            && SameSpec(x, Stripped(x))
  {
    ServicePortsSent(s, d);
    ServiceSpecSent(s, d, immutables);
  }

  // ----- Missing fields -----

  lemma {:induction false} SpecFieldsAreSet(s: Object, d: Object, fields: seq<string>)
    requires SpecIsMap(s) && SpecIsMap(d)
    ensures SpecIsMap(CopySpecFields(s, d, fields))
    ensures forall f | f in fields :: f in CopySpecFields(s, d, fields)["spec"].fields
  {
    if fields != [] {
      var n := |fields| - 1;
      SpecFieldsAreSet(s, d, fields[..n]);
      SetSpecField(CopySpecFields(s, d, fields[..n]), fields[n], SpecValue(s, fields[n]));
    }
  }

  lemma ServiceFieldSent(s: Object, d: Object, field: string)
    requires CopyService(s, d).Some? && SpecIsMap(s) && SpecIsMap(d) && field in ServiceFields(s)
    ensures SpecIsMap(CopyService(s, d).value) && field in CopyService(s, d).value["spec"].fields
  {
    var base := CopySpecFields(s, d, ServiceFields(s));
    SpecFieldsAreSet(s, d, ServiceFields(s));
    if IsLoadBalancer(s) {
      SetSpecField(base, "ports", List(MergePorts(SpecValue(d, "ports").items, SpecValue(s, "ports").items).value));
    }
  }

  /** Two objects with the same sanitised form hold the same spec fields. */
  lemma SpecFieldSanitizes(s: Object, x: Object, field: string)
    requires Sanitized(s) == Sanitized(x) && field != "template"
    requires SpecIsMap(s) && SpecIsMap(x) && field in x["spec"].fields
    ensures field in s["spec"].fields
  {
    SpecGet(x, field);
    SpecPathOutside(field);
    SanitizeAfterPut(x, SpecPath(field), None);
    SanitizeAfterPut(s, SpecPath(field), None);
    assert SpecPath(field)[1..] == [field];
  }

  /** A field that is copied although the server's copy lacks it arrives as a null and remains a
      difference for ever: no difference is left only if the server's service holds them all. */
  lemma SettledServiceHoldsFields(s: Object, d: Object, immutables: seq<string>, field: string)
    requires KindOf(d) == "Service" && CopiedFrom(s, d, immutables).Some?
    requires SpecIsMap(s) && field in ServiceFields(s)
    requires Sanitized(s) == Sanitized(CopiedFrom(s, d, immutables).value.to)
    ensures field in s["spec"].fields
  {
    ServiceSpecSent(s, d, immutables);
    ServiceFieldSent(s, d, field);
    SpecFieldSanitizes(s, CopiedFrom(s, d, immutables).value.to, field);
  }
}

/** Removing runtime fields before two objects are compared. */
module Sanitizing {
  import opened Kube
  import opened Nested

  function MetadataPath(field: string): Path {
    ["metadata", field]
  }

  function AnnotationPath(key: string): Path {
    ["metadata", "annotations", key]
  }

  function Field(name: string): Path {
    [name]
  }

  const ANNOTATIONS: Path := MetadataPath("annotations")

  const TEMPLATE_CREATION: Path := ["spec", "template", "metadata", "creationTimestamp"]

  const RUNTIME_PATHS: seq<Path> := [
    MetadataPath("creationTimestamp"),
    Field("creationTimestamp"),
    MetadataPath("managedFields"),
    MetadataPath("ownerReferences"),
    MetadataPath("generation"),
    MetadataPath("uid"),
    MetadataPath("selfLink"),
    MetadataPath("resourceVersion"),
    AnnotationPath("deprecated.daemonset.template.generation"),
    AnnotationPath("template-operator-owner-ref"),
    AnnotationPath("deployment.kubernetes.io/revision"),
    Field("status"),
    TEMPLATE_CREATION]

  /** The annotations read as a string map: absent unless every value is text. */
  predicate HasAnnotations(o: Object) {
    var a := Get(o, ANNOTATIONS);
    a.Some? && a.value.Obj? && forall k | k in a.value.fields :: a.value.fields[k].Text?
  }

  function Normalized(o: Object): Object {
    if HasAnnotations(o) then o else Set(o, ANNOTATIONS, Obj(map[]))
  }

  function Sanitized(o: Object): Object {
    RemoveAll(Normalized(o), RUNTIME_PATHS)
  }

  /** A named object: its metadata is a map. */
  predicate HasMetadata(o: Object) {
    "metadata" in o && o["metadata"].Obj?
  }

  /** Setting one annotation through the string-map accessors. */
  function WithAnnotation(o: Object, key: string, value: string): Object {
    Set(Normalized(o), AnnotationPath(key), Text(value))
  }

  // ----- Laws -----

  lemma RuntimePathsFlat()
    ensures Flat(RUNTIME_PATHS)
  {}

  lemma RuntimePathShape(i: nat)
    requires i < |RUNTIME_PATHS|
    ensures var q := RUNTIME_PATHS[i];
            || q[0] != "metadata"
            || (|q| == 2 && q[1] != "annotations")
            || (|q| == 3 && q == AnnotationPath(q[2]))
  {}

  /** A removal of a runtime path keeps a good annotation map good and, without a metadata map,
      changes nothing there. */
  lemma RemovalKeepsNormal(o: Object, p: Path)
    requires p in RUNTIME_PATHS && Normalized(o) == o
    ensures Normalized(Remove(o, p)) == Remove(o, p)
  {
    var i: nat :| i < |RUNTIME_PATHS| && RUNTIME_PATHS[i] == p;
    RuntimePathShape(i);
    if p[0] != "metadata" {
      RemoveTouchesOneKey(o, p, "metadata");
    } else if |p| == 2 {
      assert p[1..] == [p[1]];
    } else {
      assert p[1..] == ["annotations", p[2]] && p[1..][1..] == [p[2]];
    }
  }

  lemma NormalizedIsNormal(o: Object)
    ensures Normalized(Normalized(o)) == Normalized(o)
  {}

  lemma {:induction false} RemovalsKeepNormal(o: Object, ps: seq<Path>)
    requires Normalized(o) == o && forall p | p in ps :: p in RUNTIME_PATHS
    ensures Normalized(RemoveAll(o, ps)) == RemoveAll(o, ps)
    decreases |ps|
  {
    if ps != [] {
      RemovalKeepsNormal(o, ps[0]);
      RemovalsKeepNormal(Remove(o, ps[0]), ps[1..]);
    }
  }

  lemma SanitizeIdempotent(o: Object)
    ensures Sanitized(Sanitized(o)) == Sanitized(o)
  {
    NormalizedIsNormal(o);
    RemovalsKeepNormal(Normalized(o), RUNTIME_PATHS);
    RemoveAllAgain(Normalized(o), RUNTIME_PATHS);
  }

  /** Paths that sanitising neither reads nor removes. */
  predicate Outside(p: Path) {
    UnrelatedToAll(p, RUNTIME_PATHS) && Unrelated(p, ANNOTATIONS)
  }

  lemma NormalizeAfterPut(o: Object, p: Path, v: Option<Value>)
    requires Unrelated(p, ANNOTATIONS)
    ensures Normalized(Put(o, p, v)) == Put(Normalized(o), p, v)
    ensures Get(Normalized(o), p) == Get(o, p)
  {
    UnrelatedSymmetric(p, ANNOTATIONS);
    var empty := Obj(map[]);
    GetAfterSet(o, p, ANNOTATIONS, empty);
    if v.Some? {
      GetAfterSet(o, ANNOTATIONS, p, v.value);
      SetsCommute(o, p, v.value, ANNOTATIONS, empty);
    } else {
      GetAfterRemove(o, ANNOTATIONS, p);
      RemoveAfterSet(o, p, ANNOTATIONS, empty);
    }
  }

  /** An edit outside the runtime fields survives sanitising unchanged. */
  lemma SanitizeAfterPut(o: Object, p: Path, v: Option<Value>)
    requires Outside(p)
    ensures Sanitized(Put(o, p, v)) == Put(Sanitized(o), p, v)
    ensures Get(Sanitized(o), p) == Get(o, p)
  {
    NormalizeAfterPut(o, p, v);
    PutBeforeRemoveAll(Normalized(o), RUNTIME_PATHS, p, v);
  }

  /** An edit of a runtime metadata field disappears. */
  lemma SanitizeDropsRuntime(o: Object, p: Path, v: Option<Value>)
    requires HasMetadata(o) && p in RUNTIME_PATHS && |p| == 2 && p[0] == "metadata"
    ensures Sanitized(Put(o, p, v)) == Sanitized(o) && HasMetadata(Put(o, p, v))
  {
    RuntimePathsFlat();
    NormalizeAfterPut(o, p, v);
    PutIsRemoved(Normalized(o), RUNTIME_PATHS, p, v);
  }

  lemma SanitizedHasMetadata(o: Object)
    requires HasMetadata(o)
    ensures HasMetadata(Sanitized(o)) && HasAnnotations(Normalized(o))
    ensures HasAnnotations(Sanitized(o))
  {
    MetadataSurvives(Normalized(o), RUNTIME_PATHS);
  }

  lemma RemovalKeepsMetadata(o: Object, p: Path)
    requires HasMetadata(o) && HasAnnotations(o) && p in RUNTIME_PATHS
    ensures HasMetadata(Remove(o, p)) && HasAnnotations(Remove(o, p))
  {
    if |p| == 3 {
      AnnotationAccess(o, p[2], Null);
      assert p == AnnotationPath(p[2]);
    }
  }

  lemma {:induction false} MetadataSurvives(o: Object, ps: seq<Path>)
    requires HasMetadata(o) && HasAnnotations(o) && forall p | p in ps :: p in RUNTIME_PATHS
    ensures HasMetadata(RemoveAll(o, ps)) && HasAnnotations(RemoveAll(o, ps))
    decreases |ps|
  {
    if ps != [] {
      RemovalKeepsMetadata(o, ps[0]);
      MetadataSurvives(Remove(o, ps[0]), ps[1..]);
    }
  }

  /** What reading, writing and removing one annotation comes to on a good annotation map. */
  lemma AnnotationAccess(o: Object, key: string, v: Value)
    requires HasAnnotations(o)
    ensures HasMetadata(o) && "annotations" in o["metadata"].fields && o["metadata"].fields["annotations"].Obj?
    ensures var meta := o["metadata"].fields;
            var a, p := meta["annotations"].fields, AnnotationPath(key);
            && Get(o, p) == (if key in a then Some(a[key]) else None)
            && Set(o, p, v) == o["metadata" := Obj(meta["annotations" := Obj(a[key := v])])]
            && Remove(o, p) == o["metadata" := Obj(meta["annotations" := Obj(a - {key})])]
            && HasParent(o, p)
  {
    var p := AnnotationPath(key);
    assert p[1..] == ["annotations", key] && p[1..][1..] == [key];
    assert ANNOTATIONS[1..] == ["annotations"];
    var meta := o["metadata"].fields;
    var a := meta["annotations"].fields;
    assert Get(meta, p[1..]) == Get(a, [key]);
    assert Set(meta, p[1..], v) == meta["annotations" := Obj(a[key := v])];
    assert Remove(a, [key]) == a - {key};
    assert Remove(meta, p[1..]) == meta["annotations" := Obj(a - {key})];
  }

  lemma AnnotationPathPlace(key: string)
    ensures AnnotationPath(key) in RUNTIME_PATHS || UnrelatedToAll(AnnotationPath(key), RUNTIME_PATHS)
  {
    var p := AnnotationPath(key);
    assert p[1..] == ["annotations", key] && p[1..][1..] == [key];
    forall i | 0 <= i < |RUNTIME_PATHS|
      ensures p == RUNTIME_PATHS[i] || Unrelated(p, RUNTIME_PATHS[i])
    {
      RuntimePathShape(i);
      var q := RUNTIME_PATHS[i];
      if q[0] == "metadata" {
        if |q| == 3 {
          assert q[1..] == ["annotations", q[2]] && q[1..][1..] == [q[2]];
          assert key == q[2] || Unrelated(p[1..][1..], q[1..][1..]);
        } else {
          assert q[1..] == [q[1]];
        }
      }
    }
  }

  /** Setting an annotation to the value another object carries is taking over that object's
      sanitised value, also when sanitising drops the annotation. */
  lemma SanitizeAnnotation(o: Object, key: string, source: Object)
    requires HasMetadata(o) && HasAnnotations(source)
    requires Get(source, AnnotationPath(key)).Some? && Get(source, AnnotationPath(key)).value.Text?
    ensures var p := AnnotationPath(key);
            var set_ := WithAnnotation(o, key, Get(source, p).value.text);
            Sanitized(set_) == Put(Sanitized(o), p, Get(Sanitized(source), p)) && HasMetadata(set_)
  {
    var p := AnnotationPath(key);
    var v := Get(source, p).value;
    var n := Normalized(o);
    SanitizedHasMetadata(o);
    var set_ := Set(n, p, v);
    AnnotationAccess(n, key, v);
    assert HasAnnotations(set_);
    AnnotationPathPlace(key);
    if p in RUNTIME_PATHS {
      RuntimePathsFlat();
      PutIsRemoved(n, RUNTIME_PATHS, p, Some(v));
      RemoveAllAbsent(n, RUNTIME_PATHS, p);
      RemoveAllAbsent(source, RUNTIME_PATHS, p);
      RemoveAbsent(Sanitized(o), p);
    } else {
      PutBeforeRemoveAll(n, RUNTIME_PATHS, p, Some(v));
      PutBeforeRemoveAll(source, RUNTIME_PATHS, p, None);
    }
  }
}

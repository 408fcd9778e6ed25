/** Which fields sanitising removes, field by field. */
module RuntimeFields {
  import opened Kube
  import opened Nested
  import opened Sanitizing

  /** The annotations written by controllers. */
  predicate IsRuntimeAnnotation(key: string) {
    || key == "deprecated.daemonset.template.generation"
    || key == "template-operator-owner-ref"
    || key == "deployment.kubernetes.io/revision"
  }

  /** The fields written by the server and its controllers. */
  predicate IsRuntimeField(p: Path) {
    || p == ["metadata", "creationTimestamp"]
    || p == ["creationTimestamp"]
    || p == ["metadata", "managedFields"]
    || p == ["metadata", "ownerReferences"]
    || p == ["metadata", "generation"]
    || p == ["metadata", "uid"]
    || p == ["metadata", "selfLink"]
    || p == ["metadata", "resourceVersion"]
    || p == ["metadata", "annotations", "deprecated.daemonset.template.generation"]
    || p == ["metadata", "annotations", "template-operator-owner-ref"]
    || p == ["metadata", "annotations", "deployment.kubernetes.io/revision"]
    || p == ["status"]
    || p == ["spec", "template", "metadata", "creationTimestamp"]
  }

  lemma RuntimeFieldsListed(p: Path)
    ensures p in RUNTIME_PATHS <==> IsRuntimeField(p)
  {
    assert RUNTIME_PATHS[0] == ["metadata", "creationTimestamp"] && RUNTIME_PATHS[1] == ["creationTimestamp"];
    assert RUNTIME_PATHS[2] == ["metadata", "managedFields"] && RUNTIME_PATHS[3] == ["metadata", "ownerReferences"];
    assert RUNTIME_PATHS[4] == ["metadata", "generation"] && RUNTIME_PATHS[5] == ["metadata", "uid"];
    assert RUNTIME_PATHS[6] == ["metadata", "selfLink"] && RUNTIME_PATHS[7] == ["metadata", "resourceVersion"];
    assert RUNTIME_PATHS[8] == ["metadata", "annotations", "deprecated.daemonset.template.generation"];
    assert RUNTIME_PATHS[9] == ["metadata", "annotations", "template-operator-owner-ref"];
    assert RUNTIME_PATHS[10] == ["metadata", "annotations", "deployment.kubernetes.io/revision"];
    assert RUNTIME_PATHS[11] == ["status"];
    assert RUNTIME_PATHS[12] == ["spec", "template", "metadata", "creationTimestamp"];
  }

  /** After sanitising none of these fields is there. */
  lemma RuntimeFieldsGone(o: Object, p: Path)
    requires IsRuntimeField(p)
    ensures Get(Sanitized(o), p).None?
  {
    RuntimeFieldsListed(p);
    RemoveAllAbsent(Normalized(o), RUNTIME_PATHS, p);
  }

  /** An edit of such a field is not seen, if there is a map that can hold it; an annotation is edited
      in a string map. */
  lemma RuntimeEditsForgotten(o: Object, p: Path, v: Option<Value>)
    requires IsRuntimeField(p) && HasParent(o, p)
    requires |p| == 3 ==> HasAnnotations(o) && (v.Some? ==> v.value.Text?)
    ensures Sanitized(Put(o, p, v)) == Sanitized(o)
  {
    RuntimeFieldsListed(p);
    RuntimePathsFlat();
    if |p| == 3 {
      AnnotationEditKeeps(o, p[2], v);
      PutIsRemoved(o, RUNTIME_PATHS, p, v);
    } else {
      var i: nat :| i < |RUNTIME_PATHS| && RUNTIME_PATHS[i] == p;
      assert p[0] == "metadata" && |p| > 1 ==> p[1..][0] == p[1];
      NormalizeAfterPut(o, p, v);
      NormalizedParent(o, p);
      PutIsRemoved(Normalized(o), RUNTIME_PATHS, p, v);
    }
  }

  lemma AnnotationEditKeeps(o: Object, key: string, v: Option<Value>)
    requires HasAnnotations(o) && (v.Some? ==> v.value.Text?)
    ensures Normalized(Put(o, AnnotationPath(key), v)) == Put(o, AnnotationPath(key), v)
    ensures HasParent(o, AnnotationPath(key))
  {
    AnnotationAccess(o, key, if v.Some? then v.value else Null);
  }

  lemma NormalizedParent(o: Object, p: Path)
    requires HasParent(o, p) && Unrelated(p, ANNOTATIONS)
    ensures HasParent(Normalized(o), p)
  {
    if !HasAnnotations(o) {
      ParentAfterEdit(o, p, ANNOTATIONS, Some(Obj(map[])));
    }
  }

  /** A field apart from these and from the annotations is kept. */
  lemma OtherFieldsKept(o: Object, p: Path)
    requires forall q: Path | IsRuntimeField(q) :: Unrelated(p, q)
    requires Unrelated(p, ["metadata", "annotations"])
    ensures Get(Sanitized(o), p) == Get(o, p)
  {
    forall i | 0 <= i < |RUNTIME_PATHS|
      ensures Unrelated(p, RUNTIME_PATHS[i])
    {
      RuntimeFieldsListed(RUNTIME_PATHS[i]);
    }
    SanitizeAfterPut(o, p, None);
  }

  /** Of a string map of annotations all but the runtime ones are kept; anything else found there is
      replaced by an empty map. */
  lemma AnnotationsKept(o: Object, key: string)
    requires HasMetadata(o)
    ensures var p: Path := ["metadata", "annotations", key];
            Get(Sanitized(o), p) == if IsRuntimeAnnotation(key) || !HasAnnotations(o) then None else Get(o, p)
  {
    var p := AnnotationPath(key);
    var n := Normalized(o);
    RuntimeFieldsListed(p);
    assert IsRuntimeField(p) <==> IsRuntimeAnnotation(key) by {
      assert p[2] == key;
    }
    if p in RUNTIME_PATHS {
      RemoveAllAbsent(n, RUNTIME_PATHS, p);
    } else {
      AnnotationPathPlace(key);
      PutBeforeRemoveAll(n, RUNTIME_PATHS, p, None);
      AnnotationAccess(n, key, Null);
    }
  }

  /** The annotations read as a string map exactly when there is a map of texts only. */
  lemma StringMapIff(o: Object)
    requires HasMetadata(o)
    ensures var meta := o["metadata"].fields;
            HasAnnotations(o) <==>
              && "annotations" in meta && meta["annotations"].Obj?
              && forall k | k in meta["annotations"].fields :: meta["annotations"].fields[k].Text?
  {
    assert ANNOTATIONS[1..] == ["annotations"];
  }
}

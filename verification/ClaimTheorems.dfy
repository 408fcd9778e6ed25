/** Claims that declare requests: the copy makes both objects share one spec, so nothing in the spec
    can ever show as a difference; everything else behaves as for other objects. */
module ClaimTheorems {
  import opened Kube
  import opened Nested
  import opened Sanitizing
  import opened CopyImmutable
  import opened CopyTheorems
  import opened Apply

  const CLAIM := "PersistentVolumeClaim"

  // ----- Objects compared with and without their spec -----

  ghost predicate SameButSpec(a: Object, b: Object) {
    forall k | k != "spec" :: SameAt(a, b, k)
  }

  lemma SameBoth(a: Object, b: Object)
    requires SameAt(a, b, "spec")
    ensures SameButSpec(a, b) <==> a == b
  {
    if SameButSpec(a, b) {
      forall k
        ensures SameAt(a, b, k)
        ensures k in a <==> k in b
      {
        assert k == "spec" || SameAt(a, b, k);
      }
    } else {
      var k :| k != "spec" && !SameAt(a, b, k);
    }
  }

  lemma SameTransfers(a': Object, b': Object, a: Object, b: Object)
    requires SameButSpec(a', a) && SameButSpec(b', b)
    ensures SameButSpec(a', b') <==> SameButSpec(a, b)
  {
    forall k | k != "spec"
      ensures SameAt(a', b', k) <==> SameAt(a, b, k)
    {
      assert SameAt(a', a, k) && SameAt(b', b, k);
    }
  }

  lemma EditsKeep(a: Object, b: Object, p: Path, v: Value)
    ensures SameButSpec(a, b) ==> SameButSpec(Remove(a, p), Remove(b, p)) && SameButSpec(Set(a, p, v), Set(b, p, v))
    ensures SameAt(a, b, "spec") ==>
              SameAt(Remove(a, p), Remove(b, p), "spec") && SameAt(Set(a, p, v), Set(b, p, v), "spec")
  {
    forall k | SameAt(a, b, k)
      ensures SameAt(Remove(a, p), Remove(b, p), k) && SameAt(Set(a, p, v), Set(b, p, v), k)
    {
      SetAt(a, b, p, v, k);
      RemoveAt(a, b, p, k);
    }
  }

  lemma {:induction false} RemoveAllKeeps(a: Object, b: Object, ps: seq<Path>)
    ensures SameButSpec(a, b) ==> SameButSpec(RemoveAll(a, ps), RemoveAll(b, ps))
    ensures SameAt(a, b, "spec") ==> SameAt(RemoveAll(a, ps), RemoveAll(b, ps), "spec")
    decreases |ps|
  {
    if ps != [] {
      EditsKeep(a, b, ps[0], Null);
      RemoveAllKeeps(Remove(a, ps[0]), Remove(b, ps[0]), ps[1..]);
    }
  }

  lemma {:induction false} BlankKeeps(a: Object, b: Object, ps: seq<Path>)
    ensures SameButSpec(a, b) ==> SameButSpec(Blank(a, ps), Blank(b, ps))
    ensures SameAt(a, b, "spec") ==> SameAt(Blank(a, ps), Blank(b, ps), "spec")
    decreases |ps|
  {
    if ps != [] {
      EditsKeep(a, b, ps[0], Null);
      BlankKeeps(Set(a, ps[0], Null), Set(b, ps[0], Null), ps[1..]);
    }
  }

  lemma SameAnnotations(a: Object, b: Object)
    requires SameButSpec(a, b)
    ensures Get(a, ANNOTATIONS) == Get(b, ANNOTATIONS) && Get(a, FINALIZERS) == Get(b, FINALIZERS)
    ensures forall key :: Get(a, AnnotationPath(key)) == Get(b, AnnotationPath(key))
  {
    assert SameAt(a, b, "metadata");
  }

  lemma NormalizedKeeps(a: Object, b: Object)
    ensures SameButSpec(a, b) ==> SameButSpec(Normalized(a), Normalized(b))
    ensures SameAt(a, b, "spec") ==> SameAt(Normalized(a), Normalized(b), "spec")
  {
    if SameButSpec(a, b) {
      SameAnnotations(a, b);
    }
    EditsKeep(a, b, ANNOTATIONS, Obj(map[]));
  }

  /** Sanitised and blanked: what is compared outside the copied fields. */
  function Bared(o: Object, ps: seq<Path>): Object {
    Blank(Sanitized(o), ps)
  }

  lemma BaredKeeps(a: Object, b: Object, ps: seq<Path>)
    ensures SameButSpec(a, b) ==> SameButSpec(Bared(a, ps), Bared(b, ps))
    ensures SameAt(a, b, "spec") ==> SameAt(Bared(a, ps), Bared(b, ps), "spec")
  {
    NormalizedKeeps(a, b);
    RemoveAllKeeps(Normalized(a), Normalized(b), RUNTIME_PATHS);
    BlankKeeps(Sanitized(a), Sanitized(b), ps);
  }

  lemma {:induction false} SameAnnotationPaths(a: Object, b: Object, immutables: seq<string>)
    requires SameButSpec(a, b)
    ensures AnnotationPaths(a, immutables) == AnnotationPaths(b, immutables)
  {
    SameAnnotations(a, b);
    if immutables != [] {
      SameAnnotationPaths(a, b, immutables[..|immutables| - 1]);
    }
  }

  // ----- The copy without its kind-specific part -----

  function Carried(s: Object, t: Object, immutables: seq<string>): Object {
    CopyMetadata(s, CopyAnnotations(s, t, immutables))
  }

  lemma CarriedTakesOver(s: Object, t: Object, immutables: seq<string>)
    requires Holds(CLAIM, s) && HasMetadata(t)
    ensures Sanitized(Carried(s, t, immutables))
         == PutAll(Sanitized(t), CopiedPaths(CLAIM, s, immutables), Sanitized(s))
  {
    var paths := AnnotationPaths(s, immutables);
    AnnotationsTakeOver(s, t, immutables);
    MetadataTakesOver(s, CopyAnnotations(s, t, immutables));
    PutAllSplit(Sanitized(t), paths, [FINALIZERS], Sanitized(s));
    assert CopiedPaths(CLAIM, s, immutables) == paths + [FINALIZERS];
  }

  lemma CarriedIsBlanked(s: Object, t: Object, immutables: seq<string>, ps: seq<Path>)
    requires Holds(CLAIM, s) && HasMetadata(t)
    requires Flat(ps) && forall p | p in CopiedPaths(CLAIM, s, immutables) :: p in ps
    ensures Bared(Carried(s, t, immutables), ps) == Bared(t, ps)
  {
    CarriedTakesOver(s, t, immutables);
    PutAllIsBlanked(Sanitized(t), CopiedPaths(CLAIM, s, immutables), Sanitized(s), ps);
  }

  lemma CarriedSettlesIff(s: Object, t: Object, immutables: seq<string>)
    requires Holds(CLAIM, s) && HasMetadata(t)
    ensures var ps := CopiedPaths(CLAIM, s, immutables);
            Sanitized(s) == Sanitized(Carried(s, t, immutables)) <==> Bared(s, ps) == Bared(t, ps)
  {
    var ps := CopiedPaths(CLAIM, s, immutables);
    CopiedPathsFlat(CLAIM, s, immutables);
    CarriedIsBlanked(s, t, immutables, ps);
    if Bared(s, ps) == Bared(t, ps) {
      CarriedTakesOver(s, t, immutables);
      CopiedPathsHaveParents(CLAIM, s, t, immutables);
      RestoreAll(Sanitized(t), Sanitized(s), ps);
    }
  }

  // ----- The shared spec -----

  function Requests(d: Object): Value
    requires SharesSpec(d)
  {
    Get(d, REQUESTS).value
  }

  /** The server's copy with the desired requests written into it. */
  function ServerSide(s: Object, d: Object): Object
    requires SharesSpec(d)
  {
    Set(s, REQUESTS, Requests(d))
  }

  /** The desired claim with that very spec. */
  function DesiredSide(s: Object, d: Object): Object
    requires SharesSpec(d) && SpecIsMap(s)
  {
    d["spec" := ServerSide(s, d)["spec"]]
  }

  lemma ClaimCopy(s: Object, d: Object, immutables: seq<string>)
    requires SharesSpec(d) && SpecIsMap(s)
    ensures "spec" in ServerSide(s, d)
    ensures var s', d' := ServerSide(s, d), DesiredSide(s, d);
            && CopiedFrom(s, d, immutables) == Some(Pair(s', Carried(s', d', immutables)))
            && SameButSpec(s', s) && SameButSpec(d', d) && SameAt(s', d', "spec")
  {
    var v := Requests(d);
    var t := d["spec" := s["spec"]];
    assert Set(t, REQUESTS, v)["spec"] == Set(s, REQUESTS, v)["spec"];
    assert Set(t, REQUESTS, v) == DesiredSide(s, d);
    assert s["spec" := Set(s, REQUESTS, v)["spec"]] == Set(s, REQUESTS, v);
    assert CopyClaim(s, d) == Pair(ServerSide(s, d), DesiredSide(s, d));
  }

  lemma ServerSideHolds(s: Object, d: Object, immutables: seq<string>)
    requires SharesSpec(d) && SpecIsMap(s) && Holds(CLAIM, s)
    ensures Holds(CLAIM, ServerSide(s, d))
    ensures CopiedPaths(CLAIM, ServerSide(s, d), immutables) == CopiedPaths(CLAIM, s, immutables)
  {
    ClaimCopy(s, d, immutables);
    SameAnnotations(ServerSide(s, d), s);
    SameAnnotationPaths(ServerSide(s, d), s, immutables);
  }

  /** Such a claim is left alone exactly when all but the spec and the copied fields agree: no change
      of the spec, requests included, makes a difference. */
  lemma ClaimSettledIff(s: Object, d: Object, immutables: seq<string>)
    requires SharesSpec(d) && SpecIsMap(s) && Holds(CLAIM, s) && HasMetadata(d)
    ensures var ps := CopiedPaths(CLAIM, s, immutables);
            Settled(s, d, immutables) <==> SameButSpec(Bared(s, ps), Bared(d, ps))
  {
    var ps := CopiedPaths(CLAIM, s, immutables);
    ClaimCopy(s, d, immutables);
    ServerSideHolds(s, d, immutables);
    var s', d' := ServerSide(s, d), DesiredSide(s, d);
    CarriedSettlesIff(s', d', immutables);
    BaredKeeps(s', d', ps);
    SameBoth(Bared(s', ps), Bared(d', ps));
    BaredKeeps(s', s, ps);
    BaredKeeps(d', d, ps);
    SameTransfers(Bared(s', ps), Bared(d', ps), Bared(s, ps), Bared(d, ps));
  }

  lemma ClaimCopyBared(s: Object, d: Object, immutables: seq<string>, ps: seq<Path>)
    requires SharesSpec(d) && HasMetadata(d) && SpecIsMap(s) && Holds(CLAIM, s)
    requires Flat(ps) && forall p | p in CopiedPaths(CLAIM, s, immutables) :: p in ps
    ensures CopiedFrom(s, d, immutables).Some?
    ensures SameButSpec(Bared(CopiedFrom(s, d, immutables).value.to, ps), Bared(d, ps))
  {
    ClaimCopy(s, d, immutables);
    ServerSideHolds(s, d, immutables);
    CarriedIsBlanked(ServerSide(s, d), DesiredSide(s, d), immutables, ps);
    BaredKeeps(DesiredSide(s, d), d, ps);
  }

  /** Whatever was sent for such a claim, the stored copy is left alone the next time. */
  lemma StoredClaimSettles(before: Option<Object>, d: Object, sent: Object, stored: Object, immutables: seq<string>)
    requires SharesSpec(d) && HasMetadata(d) && SpecIsMap(stored)
    requires before.Some? ==> SpecIsMap(before.value) && Holds(CLAIM, before.value)
    requires Copied(before, d, immutables).Some?
    requires Sanitized(sent) == Sanitized(Copied(before, d, immutables).value.to)
    requires Keeps(CLAIM, before, sent, stored, immutables)
    ensures Settled(stored, d, immutables)
  {
    var ps := CopiedPaths(CLAIM, stored, immutables);
    CopiedPathsFlat(CLAIM, stored, immutables);
    ClaimSettledIff(stored, d, immutables);
    if before.Some? {
      ClaimCopyBared(before.value, d, immutables, ps);
    }
  }
}

/** The two special cases of the copy: the ports of a load balancer, and claims, whose spec map ends
    up shared between the server's copy and the desired object. */
module CopyCases {
  import opened Kube
  import opened Nested
  import opened Sanitizing
  import opened CopyImmutable
  import opened CopyTheorems

  // ----- Ports -----

  predicate HasNodePort(port: Value) {
    port.Obj? && OrNull(port.fields, "nodePort") != Null
  }

  /** The merge panics exactly when a port has no counterpart on the server, or one of the two that
      must be read or written is not a map; so a port added to a load balancer always panics. */
  lemma {:induction false} MergePanicsIff(ports: seq<Value>, from: seq<Value>)
    ensures MergePorts(ports, from).Some?
       <==> |ports| <= |from|
            && forall i | 0 <= i < |ports| :: from[i].Obj? && (HasNodePort(from[i]) ==> ports[i].Obj?)
    ensures MergePorts(ports, from).Some? ==>
              && |MergePorts(ports, from).value| == |ports|
              && forall i | 0 <= i < |ports| :: MergePort(ports[i], from[i]) == Some(MergePorts(ports, from).value[i])
  {
    if ports != [] {
      var n := |ports| - 1;
      MergePanicsIff(ports[..n], from);
      assert forall i | 0 <= i < n :: ports[..n][i] == ports[i];
    }
  }

  /** The whole copy panics exactly for services of which one has no spec map, or whose server copy is
      a load balancer while a list of ports is missing or too short or ports are ill-shaped. */
  lemma CopyPanicsIff(s: Object, d: Object, immutables: seq<string>)
    ensures CopiedFrom(s, d, immutables).None?
       <==> && KindOf(d) == "Service"
            && (|| !SpecIsMap(d) || !SpecIsMap(s)
                || (IsLoadBalancer(s) && !PortsFit(SpecValue(d, "ports"), SpecValue(s, "ports"))))
  {
    if SpecIsMap(s) && SpecIsMap(d) && SpecValue(d, "ports").List? && SpecValue(s, "ports").List? {
      MergePanicsIff(SpecValue(d, "ports").items, SpecValue(s, "ports").items);
    }
  }

  /** Both are lists, every desired port has a counterpart, and what is read or written is a map. */
  ghost predicate PortsFit(ports: Value, from: Value) {
    && ports.List? && from.List? && |ports.items| <= |from.items|
    && forall i | 0 <= i < |ports.items| ::
         from.items[i].Obj? && (HasNodePort(from.items[i]) ==> ports.items[i].Obj?)
  }

  function LoadBalancer(ports: seq<Value>): Object {
    map["kind" := Text("Service"),
        "metadata" := Obj(map[]),
        "spec" := Obj(map["type" := Text("LoadBalancer"), "ports" := List(ports)])]
  }

  /** Concretely: adding a second port to a load balancer that has one. */
  lemma AddedPortPanics(immutables: seq<string>)
    ensures var http, https := Obj(map["port" := Number(80)]), Obj(map["port" := Number(443)]);
            CopiedFrom(LoadBalancer([http]), LoadBalancer([http, https]), immutables).None?
  {
    var http, https := Obj(map["port" := Number(80)]), Obj(map["port" := Number(443)]);
    var s, d := LoadBalancer([http]), LoadBalancer([http, https]);
    assert SpecValue(s, "ports") == List([http]) && SpecValue(d, "ports") == List([http, https]);
    CopyPanicsIff(s, d, immutables);
  }

  /** The server's port is what merging into the desired one gives. */
  ghost predicate PortFixed(port: Value, stored: Value) {
    && stored.Obj?
    && if HasNodePort(stored) then port.Obj? && port.fields - {"nodePort"} == stored.fields - {"nodePort"}
       else port == stored
  }

  lemma MergeFixes(port: Value, stored: Value)
    ensures MergePort(port, stored) == Some(stored) <==> PortFixed(port, stored)
  {
    if stored.Obj? && HasNodePort(stored) && port.Obj? {
      var np := stored.fields["nodePort"];
      var merged := port.fields["nodePort" := np];
      assert merged - {"nodePort"} == port.fields - {"nodePort"};
      if merged - {"nodePort"} == stored.fields - {"nodePort"} {
        assert forall k | k != "nodePort" :: (k in merged <==> k in merged - {"nodePort"});
        assert forall k | k != "nodePort" :: (k in stored.fields <==> k in stored.fields - {"nodePort"});
        assert forall k | k in merged && k != "nodePort" :: merged[k] == (merged - {"nodePort"})[k];
        assert forall k | k in merged && k != "nodePort" :: stored.fields[k] == (stored.fields - {"nodePort"})[k];
        assert merged == stored.fields;
      }
    }
  }

  lemma MergePointwise(ports: seq<Value>, stored: seq<Value>)
    ensures MergePorts(ports, stored) == Some(stored)
       <==> |ports| == |stored| && forall i | 0 <= i < |ports| :: MergePort(ports[i], stored[i]) == Some(stored[i])
  {
    MergePanicsIff(ports, stored);
    if |ports| == |stored| && forall i | 0 <= i < |ports| :: MergePort(ports[i], stored[i]) == Some(stored[i]) {
      forall i | 0 <= i < |ports|
        ensures stored[i].Obj? && (HasNodePort(stored[i]) ==> ports[i].Obj?)
      {
        assert MergePort(ports[i], stored[i]).Some?;
      }
      assert MergePorts(ports, stored).value == stored;
    }
  }

  /** Merging settles exactly when the lists match port by port, node ports aside. */
  lemma MergeSettlesIff(ports: seq<Value>, stored: seq<Value>)
    ensures MergePorts(ports, stored) == Some(stored)
       <==> |ports| == |stored| && forall i | 0 <= i < |ports| :: PortFixed(ports[i], stored[i])
  {
    MergePointwise(ports, stored);
    if |ports| == |stored| {
      forall i | 0 <= i < |ports|
        ensures MergePort(ports[i], stored[i]) == Some(stored[i]) <==> PortFixed(ports[i], stored[i])
      {
        MergeFixes(ports[i], stored[i]);
      }
    }
  }

  /** A server that stores each sent port, at most filling in its node port and never clearing one,
      leaves a list that merging settles on, for ports merged with whatever it held before. */
  lemma StoredPortsSettle(ports: seq<Value>, before: seq<Value>, stored: seq<Value>)
    requires MergePorts(ports, before).Some? && |stored| == |ports|
    requires forall i | 0 <= i < |ports| ::
               var sent := MergePorts(ports, before).value;
               |sent| == |ports| ==> PortFixed(sent[i], stored[i]) && (HasNodePort(sent[i]) ==> HasNodePort(stored[i]))
    ensures MergePorts(ports, stored) == Some(stored)
  {
    MergePanicsIff(ports, before);
    MergeSettlesIff(ports, stored);
    forall i | 0 <= i < |ports|
      ensures PortFixed(ports[i], stored[i])
    {
      var sent := MergePorts(ports, before).value[i];
      assert MergePort(ports[i], before[i]) == Some(sent);
      if HasNodePort(before[i]) {
        assert HasNodePort(sent);
        assert sent.fields - {"nodePort"} == ports[i].fields - {"nodePort"};
      }
    }
  }

  // ----- Claims -----

  /** Every step towards the path is a map or missing, so a write there takes effect. */
  predicate Writable(m: Object, p: Path)
    decreases |p|
  {
    |p| == 1 || p[0] !in m || (m[p[0]].Obj? && Writable(m[p[0]].fields, p[1..]))
  }

  lemma {:induction false} SetChangesIff(m: Object, p: Path, v: Value)
    ensures Set(m, p, v) == m <==> !Writable(m, p) || Get(m, p) == Some(v)
    decreases |p|
  {
    if |p| > 1 && p[0] in m && m[p[0]].Obj? {
      SetChangesIff(m[p[0]].fields, p[1..], v);
    }
  }

  lemma {:induction false} GetAfterSetSame(m: Object, p: Path, v: Value)
    requires Writable(m, p)
    ensures Get(Set(m, p, v), p) == Some(v)
    decreases |p|
  {
    if |p| > 1 {
      if p[0] !in m {
        GetAfterSetSame(map[], p[1..], v);
      } else {
        GetAfterSetSame(m[p[0]].fields, p[1..], v);
      }
    }
  }

  lemma RequestsOutside()
    ensures Outside(REQUESTS)
  {
    assert REQUESTS[1..][0] == "resources";
    forall i | 0 <= i < |RUNTIME_PATHS|
      ensures Unrelated(REQUESTS, RUNTIME_PATHS[i])
    {
      if RUNTIME_PATHS[i][0] == "spec" {
        assert RUNTIME_PATHS[i][1..][0] == "template";
      }
    }
  }

  /** Copying into a claim that declares requests writes those requests into the server's copy too. */
  lemma ClaimCopyEditsServerCopy(s: Object, d: Object, immutables: seq<string>)
    requires SharesSpec(d) && SpecIsMap(s)
    ensures var r := CopiedFrom(s, d, immutables);
            && r.Some?
            && r.value.from == Set(s, REQUESTS, Get(d, REQUESTS).value)
  {
    var v := Get(d, REQUESTS).value;
    var t := d["spec" := s["spec"]];
    assert Set(t, REQUESTS, v)["spec"] == Set(s, REQUESTS, v)["spec"];
    assert s["spec" := Set(s, REQUESTS, v)["spec"]] == Set(s, REQUESTS, v);
  }

  /** When no difference is found for such a claim, the server's copy meets the desired claim exactly
      if it already asked for those very requests, or cannot hold any: a changed request is never
      noticed. */
  lemma ClaimConvergesIff(s: Object, d: Object, immutables: seq<string>)
    requires SharesSpec(d) && SpecIsMap(s)
    ensures CopiedFrom(s, d, immutables).Some?
    ensures var r := CopiedFrom(s, d, immutables).value;
            Sanitized(r.from) == Sanitized(r.to) ==>
              (Sanitized(s) == Sanitized(r.to) <==> !Writable(s, REQUESTS) || Get(s, REQUESTS) == Get(d, REQUESTS))
  {
    var v := Get(d, REQUESTS).value;
    ClaimCopyEditsServerCopy(s, d, immutables);
    SetChangesIff(s, REQUESTS, v);
    if Writable(s, REQUESTS) {
      RequestsOutside();
      SanitizeAfterPut(s, REQUESTS, Some(v));
      GetAfterSetSame(s, REQUESTS, v);
      SanitizeAfterPut(Set(s, REQUESTS, v), REQUESTS, None);
    }
  }

  /** Asking for a different size and nothing else: no difference is found, although there is one. */
  lemma ResizeGoesUnnoticed(s: Object, immutables: seq<string>, wanted: Value)
    requires KindOf(s) == "PersistentVolumeClaim" && HasMetadata(s) && SpecIsMap(s) && Writable(s, REQUESTS)
    requires Get(s, FINALIZERS).None? || TextList(s, FINALIZERS).Some?
    requires Get(s, REQUESTS) != Some(wanted)
    ensures var d := Set(s, REQUESTS, wanted);
            && CopiedFrom(s, d, immutables).Some?
            && var r := CopiedFrom(s, d, immutables).value;
               Sanitized(r.from) == Sanitized(r.to) && Sanitized(s) != Sanitized(d)
  {
    var d := Set(s, REQUESTS, wanted);
    GetAfterSetSame(s, REQUESTS, wanted);
    ClaimCopyEditsServerCopy(s, d, immutables);
    assert KindOf(d) == KindOf(s);
    assert d["spec" := s["spec"]] == s;
    assert CopyKindFields(s, d) == Some(Pair(d, d));
    CopyOntoItself(d, immutables);
    RequestsOutside();
    SanitizeAfterPut(s, REQUESTS, Some(wanted));
    SanitizeAfterPut(d, REQUESTS, None);
  }

  /** An object that carries its own immutable fields already. */
  lemma CopyOntoItself(o: Object, immutables: seq<string>)
    requires HasMetadata(o) && (Get(o, FINALIZERS).None? || TextList(o, FINALIZERS).Some?)
    ensures Sanitized(CopyMetadata(o, CopyAnnotations(o, o, immutables))) == Sanitized(o)
  {
    AnnotationsTakeOver(o, o, immutables);
    MetadataTakesOver(o, CopyAnnotations(o, o, immutables));
    OwnValues(Sanitized(o), AnnotationPaths(o, immutables));
    OwnValues(Sanitized(o), [FINALIZERS]);
  }

  lemma {:induction false} OwnValues(m: Object, ps: seq<Path>)
    ensures PutAll(m, ps, m) == m
    decreases |ps|
  {
    if ps != [] {
      if Get(m, ps[0]).Some? {
        SetWhatIsThere(m, ps[0]);
      } else {
        RemoveAbsent(m, ps[0]);
      }
      OwnValues(m, ps[1..]);
    }
  }
}

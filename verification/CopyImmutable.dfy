/** Carrying immutable fields from the server's copy over to the desired object. */
module CopyImmutable {
  import opened Kube
  import opened Nested
  import opened Sanitizing

  function SpecPath(field: string): Path {
    ["spec", field]
  }

  const REQUESTS: Path := ["spec", "resources", "requests"]
  const WEBHOOK: Path := ["spec", "conversion", "webhook"]
  const FINALIZERS: Path := MetadataPath("finalizers")

  function TextAt(o: Object, p: Path): string {
    var v := Get(o, p);
    if v.Some? && v.value.Text? then v.value.text else ""
  }

  function KindOf(o: Object): string {
    TextAt(o, Field("kind"))
  }

  /** Reading a missing key of a map yields nil. */
  function OrNull(m: Object, key: string): Value {
    if key in m then m[key] else Null
  }

  predicate SpecIsMap(o: Object) {
    "spec" in o && o["spec"].Obj?
  }

  function SpecValue(o: Object, field: string): Value
    requires SpecIsMap(o)
  {
    OrNull(o["spec"].fields, field)
  }

  predicate IsLoadBalancer(o: Object)
    requires SpecIsMap(o)
  {
    SpecValue(o, "type") == Text("LoadBalancer")
  }

  // ----- The copy as a function; None where the source's type assertions or index panic -----

  /** One port takes over the server's node port when that is set. */
  function MergePort(port: Value, from: Value): Option<Value> {
    if !from.Obj? then None
    else if OrNull(from.fields, "nodePort") == Null then Some(port)
    else if !port.Obj? then None
    else Some(Obj(port.fields["nodePort" := OrNull(from.fields, "nodePort")]))
  }

  function MergePorts(ports: seq<Value>, from: seq<Value>): Option<seq<Value>> {
    if ports == [] then Some([])
    else
      var n := |ports| - 1;
      var init := MergePorts(ports[..n], from);
      if init.None? || n >= |from| || MergePort(ports[n], from[n]).None? then None
      else Some(init.value + [MergePort(ports[n], from[n]).value])
  }

  /** The spec fields of a service that are copied, in the order of the assignments. */
  function ServiceFields(from: Object): seq<string>
    requires SpecIsMap(from)
  {
    if SpecValue(from, "healthCheckNodePort") == Null
    then ["clusterIP", "type", "sessionAffinity", "clusterIPs"]
    else ["clusterIP", "type", "sessionAffinity", "healthCheckNodePort", "clusterIPs"]
  }

  function CopySpecFields(from: Object, to: Object, fields: seq<string>): Object
    requires SpecIsMap(from)
  {
    if fields == [] then to
    else
      var n := |fields| - 1;
      Set(CopySpecFields(from, to, fields[..n]), SpecPath(fields[n]), SpecValue(from, fields[n]))
  }

  function CopyService(from: Object, to: Object): Option<Object> {
    if !SpecIsMap(to) || !SpecIsMap(from) then None
    else
      var t := CopySpecFields(from, to, ServiceFields(from));
      if !IsLoadBalancer(from) then Some(t)
      else
        var ports, fromPorts := SpecValue(to, "ports"), SpecValue(from, "ports");
        if !ports.List? || !fromPorts.List? then None
        else
          var merged := MergePorts(ports.items, fromPorts.items);
          if merged.None? then None else Some(Set(t, SpecPath("ports"), List(merged.value)))
  }

  /** Both objects afterwards: for a claim that declares requests they share one spec map. */
  datatype Pair = Pair(from: Object, to: Object)

  function CopyClaim(from: Object, to: Object): Pair {
    var requests := Get(to, REQUESTS);
    if requests.None? then Pair(from, to)
    else
      var t := Set(to["spec" := OrNull(from, "spec")], REQUESTS, requests.value);
      Pair(if SpecIsMap(from) then from["spec" := t["spec"]] else from, t)
  }

  function CopyKindFields(from: Object, to: Object): Option<Pair> {
    var kind := KindOf(to);
    if kind == "Service" then
      var t := CopyService(from, to);
      if t.None? then None else Some(Pair(from, t.value))
    else if kind == "ServiceAccount" then
      Some(Pair(from, Set(to, Field("secrets"), OrNull(from, "secrets"))))
    else if kind == "PersistentVolumeClaim" then Some(CopyClaim(from, to))
    else if kind == "Secret" then Some(Pair(from, Set(to, Field("type"), OrNull(from, "type"))))
    else if kind == "CustomResourceDefinition" then
      var webhook := Get(from, WEBHOOK);
      Some(Pair(from, if webhook.Some? && webhook.value.Obj? then Set(to, WEBHOOK, webhook.value) else to))
    else Some(Pair(from, to))
  }

  predicate CarriesAnnotation(o: Object, key: string) {
    HasAnnotations(o) && Get(o, AnnotationPath(key)).Some? && Get(o, AnnotationPath(key)).value.Text?
  }

  function CopyAnnotations(from: Object, to: Object, immutables: seq<string>): Object {
    if immutables == [] then to
    else
      var n := |immutables| - 1;
      var t := CopyAnnotations(from, to, immutables[..n]);
      if CarriesAnnotation(from, immutables[n])
      then WithAnnotation(t, immutables[n], TextAt(from, AnnotationPath(immutables[n])))
      else t
  }

  /** Empty strings, zero and ill-typed values are what the getters report as unset. */
  function NonEmptyText(o: Object, p: Path): Option<Value> {
    if TextAt(o, p) == "" then None else Some(Text(TextAt(o, p)))
  }

  function NonZeroNumber(o: Object, p: Path): Option<Value> {
    var v := Get(o, p);
    if v.Some? && v.value.Number? && v.value.number != 0 then v else None
  }

  function TextList(o: Object, p: Path): Option<Value> {
    var v := Get(o, p);
    if v.Some? && v.value.List? && forall x | x in v.value.items :: x.Text? then v else None
  }

  /** Writes or clears the five identifying runtime fields. */
  function WithIdentifiers(o: Object, version: Option<Value>, link: Option<Value>, uid: Option<Value>,
                           created: Option<Value>, generation: Option<Value>): Object
  {
    var t := Put(o, MetadataPath("resourceVersion"), version);
    var t := Put(t, MetadataPath("selfLink"), link);
    var t := Put(t, MetadataPath("uid"), uid);
    var t := Put(t, MetadataPath("creationTimestamp"), created);
    Put(t, MetadataPath("generation"), generation)
  }

  function CopyMetadata(from: Object, to: Object): Object {
    var t := WithIdentifiers(to,
      NonEmptyText(from, MetadataPath("resourceVersion")),
      NonEmptyText(from, MetadataPath("selfLink")),
      NonEmptyText(from, MetadataPath("uid")),
      NonEmptyText(from, MetadataPath("creationTimestamp")),
      NonZeroNumber(from, MetadataPath("generation")));
    Put(t, FINALIZERS, TextList(from, FINALIZERS))
  }

  /** Without a server copy nothing is copied. */
  function Copied(from: Option<Object>, to: Object, immutables: seq<string>): Option<Pair> {
    if from.None? then Some(Pair(map[], to))
    else CopiedFrom(from.value, to, immutables)
  }

  function CopiedFrom(from: Object, to: Object, immutables: seq<string>): Option<Pair> {
    var p := CopyKindFields(from, to);
    if p.None? then None
    else Some(Pair(p.value.from, CopyMetadata(p.value.from, CopyAnnotations(p.value.from, p.value.to, immutables))))
  }

  /** Clears the identifiers a new object must not carry. */
  function Stripped(o: Object): Object {
    WithIdentifiers(o, None, None, None, None, None)
  }

  lemma IdentifiersAreRuntime()
    ensures forall f | f in ["resourceVersion", "selfLink", "uid", "creationTimestamp", "generation"] ::
              MetadataPath(f) in RUNTIME_PATHS
  {
    assert RUNTIME_PATHS[0] == MetadataPath("creationTimestamp") && RUNTIME_PATHS[4] == MetadataPath("generation");
    assert RUNTIME_PATHS[5] == MetadataPath("uid") && RUNTIME_PATHS[6] == MetadataPath("selfLink");
    assert RUNTIME_PATHS[7] == MetadataPath("resourceVersion");
  }

  lemma SanitizeForgetsIdentifiers(o: Object, version: Option<Value>, link: Option<Value>, uid: Option<Value>,
                                   created: Option<Value>, generation: Option<Value>)
    requires HasMetadata(o)
    ensures Sanitized(WithIdentifiers(o, version, link, uid, created, generation)) == Sanitized(o)
    ensures HasMetadata(WithIdentifiers(o, version, link, uid, created, generation))
  {
    IdentifiersAreRuntime();
    var t1 := Put(o, MetadataPath("resourceVersion"), version);
    SanitizeDropsRuntime(o, MetadataPath("resourceVersion"), version);
    var t2 := Put(t1, MetadataPath("selfLink"), link);
    SanitizeDropsRuntime(t1, MetadataPath("selfLink"), link);
    var t3 := Put(t2, MetadataPath("uid"), uid);
    SanitizeDropsRuntime(t2, MetadataPath("uid"), uid);
    var t4 := Put(t3, MetadataPath("creationTimestamp"), created);
    SanitizeDropsRuntime(t3, MetadataPath("creationTimestamp"), created);
    SanitizeDropsRuntime(t4, MetadataPath("generation"), generation);
  }

  // ----- Which fields are taken over -----

  function SpecPaths(fields: seq<string>): seq<Path> {
    if fields == [] then []
    else SpecPaths(fields[..|fields| - 1]) + [SpecPath(fields[|fields| - 1])]
  }

  /** The copied service fields, with the ports of a load balancer. */
  function ServicePaths(s: Object): seq<Path>
    requires SpecIsMap(s)
  {
    SpecPaths(ServiceFields(s)) + (if IsLoadBalancer(s) then [SpecPath("ports")] else [])
  }

  function KindPaths(kind: string, s: Object): seq<Path> {
    if kind == "Service" then if SpecIsMap(s) then ServicePaths(s) else []
    else if kind == "ServiceAccount" then [Field("secrets")]
    else if kind == "Secret" then [Field("type")]
    else if kind == "CustomResourceDefinition" then
      if Get(s, WEBHOOK).Some? && Get(s, WEBHOOK).value.Obj? then [WEBHOOK] else []
    else []
  }

  function AnnotationPaths(s: Object, immutables: seq<string>): seq<Path> {
    if immutables == [] then []
    else
      var n := |immutables| - 1;
      AnnotationPaths(s, immutables[..n]) +
      if CarriesAnnotation(s, immutables[n]) then [AnnotationPath(immutables[n])] else []
  }

  /** The paths at which the copy takes the server's value. */
  function CopiedPaths(kind: string, s: Object, immutables: seq<string>): seq<Path> {
    KindPaths(kind, s) + AnnotationPaths(s, immutables) + [FINALIZERS]
  }

  /** The server copy holds every field that is copied unconditionally, with the expected shape. */
  predicate Holds(kind: string, s: Object) {
    && HasMetadata(s)
    && (Get(s, FINALIZERS).None? || TextList(s, FINALIZERS).Some?)
    && (kind == "Service" ==> SpecIsMap(s) && forall f | f in ServiceFields(s) :: f in s["spec"].fields)
    && (kind == "ServiceAccount" ==> "secrets" in s)
    && (kind == "Secret" ==> "type" in s)
  }

  /** Claims that declare requests are set apart: there the copy edits the server's copy as well. */
  predicate SharesSpec(d: Object) {
    KindOf(d) == "PersistentVolumeClaim" && Get(d, REQUESTS).Some?
  }

  /** Merging the desired ports with the server's leaves the server's list. */
  predicate PortsSettle(s: Object, d: Object) {
    KindOf(d) == "Service" && SpecIsMap(s) && IsLoadBalancer(s) ==>
      && SpecIsMap(d)
      && SpecValue(d, "ports").List? && SpecValue(s, "ports").List?
      && MergePorts(SpecValue(d, "ports").items, SpecValue(s, "ports").items) == Some(SpecValue(s, "ports").items)
  }
}

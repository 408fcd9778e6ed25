/** Environment values behind a cache whose key joins names without a separator. */
module EnvCache {
  import opened Kube

  datatype Selector = Selector(name: string, key: string)

  datatype Source = Source(secret: Option<Selector>, configMap: Option<Selector>)

  datatype EnvVar = EnvVar(name: string, value: string, valueFrom: Option<Source>)

  /** The data of secrets and config maps by namespace and name; absent when it cannot be read. */
  datatype Snapshot = Snapshot(
    secrets: map<(string, string), map<string, string>>,
    configMaps: map<(string, string), map<string, string>>)

  function CacheKey(e: EnvVar): string {
    if e.valueFrom.None? then e.name
    else if e.valueFrom.value.secret.Some? then
      e.name + e.valueFrom.value.secret.value.name + e.valueFrom.value.secret.value.key
    else if e.valueFrom.value.configMap.Some? then
      e.name + e.valueFrom.value.configMap.value.name + e.valueFrom.value.configMap.value.key
    else e.name
  }

  function ReadKey(data: map<(string, string), map<string, string>>, namespace: string, s: Selector): Option<string> {
    if (namespace, s.name) in data && s.key in data[(namespace, s.name)]
    then Some(data[(namespace, s.name)][s.key])
    else None
  }

  /** The value read straight from the cluster; None for an error. */
  function Direct(snap: Snapshot, e: EnvVar, namespace: string): Option<string> {
    if e.value != "" then Some(e.value)
    else if e.valueFrom.None? then None
    else if e.valueFrom.value.secret.Some? then ReadKey(snap.secrets, namespace, e.valueFrom.value.secret.value)
    else if e.valueFrom.value.configMap.Some? then
      ReadKey(snap.configMaps, namespace, e.valueFrom.value.configMap.value)
    else None
  }

  // ----- The cache -----

  const DEFAULT_EXPIRY := 300

  datatype Call = Call(input: EnvVar, namespace: string, expiry: int, now: int)

  /** No limit means the entry never expires. */
  datatype Entry = Entry(value: string, limit: Option<int>)

  /** The last moment at which what this call stores may be used. */
  function Limit(c: Call): Option<int> {
    if c.expiry == 0 then Some(c.now + DEFAULT_EXPIRY)
    else if c.expiry > 0 then Some(c.now + c.expiry)
    else None
  }

  predicate Within(limit: Option<int>, now: int) {
    limit.None? || now <= limit.value
  }

  function Cached(entries: map<string, Entry>, key: string, now: int): Option<string> {
    if key in entries && Within(entries[key].limit, now) then Some(entries[key].value) else None
  }

  /** What a call answers and leaves in the cache. */
  datatype Effect = Effect(entries: map<string, Entry>, answer: Option<string>)

  function Step(at: int -> Snapshot, entries: map<string, Entry>, c: Call): Effect {
    var key := CacheKey(c.input);
    if c.input.valueFrom.None? then Effect(entries, Some(c.input.value))
    else if Cached(entries, key, c.now).Some? then Effect(entries, Cached(entries, key, c.now))
    else
      var value := Direct(at(c.now), c.input, c.namespace);
      if value.None? then Effect(entries, None)
      else Effect(entries[key := Entry(value.value, Limit(c))], value)
  }

  class Cache {
    var entries: map<string, Entry>

    constructor ()
      ensures entries == map[]
    {
      entries := map[];
    }

    method GetEnvValueFromCache(at: int -> Snapshot, c: Call) returns (r: Option<string>)
      modifies this
      ensures Effect(entries, r) == Step(at, old(entries), c)
      ensures r.None? ==> entries == old(entries)
    {
      if c.input.valueFrom.None? {
        return Some(c.input.value);
      }
      var key := CacheKey(c.input);
      var hit := Cached(entries, key, c.now);
      if hit.Some? {
        return hit;
      }
      r := Direct(at(c.now), c.input, c.namespace);
      if r.Some? {
        entries := entries[key := Entry(r.value, Limit(c))];
      }
    }
  }

  // ----- Histories -----

  /** The cache after a history that starts with an empty one. */
  function After(at: int -> Snapshot, calls: seq<Call>): map<string, Entry> {
    if calls == [] then map[]
    else Step(at, After(at, calls[..|calls| - 1]), calls[|calls| - 1]).entries
  }

  function Answer(at: int -> Snapshot, calls: seq<Call>, i: nat): Option<string>
    requires i < |calls|
  {
    Step(at, After(at, calls[..i]), calls[i]).answer
  }

  /** Call `j` has the given key, read the value from the cluster and may still be used at `now`. */
  predicate Fetched(at: int -> Snapshot, c: Call, key: string, value: string, now: int) {
    && c.input.valueFrom.Some? && CacheKey(c.input) == key
    && Direct(at(c.now), c.input, c.namespace) == Some(value)
    && Within(Limit(c), now)
  }

  lemma {:induction false} EntriesWereFetched(at: int -> Snapshot, calls: seq<Call>, key: string, now: int)
    requires Cached(After(at, calls), key, now).Some?
    ensures exists j | 0 <= j < |calls| :: Fetched(at, calls[j], key, Cached(After(at, calls), key, now).value, now)
  {
    var n := |calls| - 1;
    var before := After(at, calls[..n]);
    if Cached(before, key, now) == Cached(After(at, calls), key, now) {
      EntriesWereFetched(at, calls[..n], key, now);
      var j :| 0 <= j < n && Fetched(at, calls[..n][j], key, Cached(before, key, now).value, now);
      assert calls[j] == calls[..n][j];
    } else {
      assert Fetched(at, calls[n], key, Cached(After(at, calls), key, now).value, now);
    }
  }

  /** Every answer to a call with a reference was read by this call or an earlier one with the same
      key, and is used within the time that call allowed. */
  lemma AnswersWereFetched(at: int -> Snapshot, calls: seq<Call>, i: nat)
    requires i < |calls| && calls[i].input.valueFrom.Some? && Answer(at, calls, i).Some?
    ensures exists j | 0 <= j <= i ::
              Fetched(at, calls[j], CacheKey(calls[i].input), Answer(at, calls, i).value, calls[i].now)
  {
    var key, now := CacheKey(calls[i].input), calls[i].now;
    var before := After(at, calls[..i]);
    if Cached(before, key, now).Some? {
      EntriesWereFetched(at, calls[..i], key, now);
      var j :| 0 <= j < i && Fetched(at, calls[..i][j], key, Cached(before, key, now).value, now);
      assert calls[j] == calls[..i][j];
    } else {
      assert Fetched(at, calls[i], key, Answer(at, calls, i).value, now);
    }
  }

  // ----- A cluster that does not change -----

  /** What a call may ask for. */
  type Request = (EnvVar, string)

  ghost predicate Allowed(calls: seq<Call>, requests: set<Request>) {
    forall c | c in calls :: (c.input, c.namespace) in requests
  }

  /** In every history of such calls each referenced answer is the direct one. */
  ghost predicate AlwaysDirect(snap: Snapshot, requests: set<Request>) {
    forall calls: seq<Call>, i: nat | Allowed(calls, requests) && i < |calls| && calls[i].input.valueFrom.Some? ::
      Answer(t => snap, calls, i) == Direct(snap, calls[i].input, calls[i].namespace)
  }

  /** Requests that share a key agree on the value, as soon as one of them has one. */
  ghost predicate KeysSeparate(snap: Snapshot, requests: set<Request>) {
    forall a, b | a in requests && b in requests ::
      a.0.valueFrom.Some? && b.0.valueFrom.Some? && CacheKey(a.0) == CacheKey(b.0) && Direct(snap, a.0, a.1).Some? ==>
        Direct(snap, b.0, b.1) == Direct(snap, a.0, a.1)
  }

  lemma DirectIfSeparate(snap: Snapshot, requests: set<Request>, calls: seq<Call>, i: nat)
    requires KeysSeparate(snap, requests) && Allowed(calls, requests)
    requires i < |calls| && calls[i].input.valueFrom.Some?
    ensures Answer(t => snap, calls, i) == Direct(snap, calls[i].input, calls[i].namespace)
  {
    var at := (t: int) => snap;
    if Answer(at, calls, i).Some? {
      AnswersWereFetched(at, calls, i);
      var j :| 0 <= j <= i && Fetched(at, calls[j], CacheKey(calls[i].input), Answer(at, calls, i).value, calls[i].now);
      var a, b := (calls[j].input, calls[j].namespace), (calls[i].input, calls[i].namespace);
      assert calls[j] in calls && calls[i] in calls;
      assert a in requests && b in requests;
    }
  }

  /** Cached answers are the direct ones in every history exactly when no two requests that share a
      key have different values. */
  lemma AlwaysDirectIff(snap: Snapshot, requests: set<Request>)
    ensures AlwaysDirect(snap, requests) <==> KeysSeparate(snap, requests)
  {
    if KeysSeparate(snap, requests) {
      forall calls: seq<Call>, i: nat | Allowed(calls, requests) && i < |calls| && calls[i].input.valueFrom.Some?
        ensures Answer(t => snap, calls, i) == Direct(snap, calls[i].input, calls[i].namespace)
      {
        DirectIfSeparate(snap, requests, calls, i);
      }
    }
    if AlwaysDirect(snap, requests) {
      forall a, b | a in requests && b in requests && a.0.valueFrom.Some? && b.0.valueFrom.Some?
                    && CacheKey(a.0) == CacheKey(b.0) && Direct(snap, a.0, a.1).Some?
        ensures Direct(snap, b.0, b.1) == Direct(snap, a.0, a.1)
      {
        SecondSeesFirst(snap, a, b);
        var calls := [Call(a.0, a.1, 0, 0), Call(b.0, b.1, 0, 0)];
        assert Allowed(calls, requests);
        assert Answer(t => snap, calls, 1) == Direct(snap, calls[1].input, calls[1].namespace);
      }
    }
  }

  /** Of two calls with the same key, the second gets the first one's value. */
  lemma SecondSeesFirst(snap: Snapshot, a: Request, b: Request)
    requires a.0.valueFrom.Some? && b.0.valueFrom.Some?
    requires CacheKey(a.0) == CacheKey(b.0) && Direct(snap, a.0, a.1).Some?
    ensures Answer(t => snap, [Call(a.0, a.1, 0, 0), Call(b.0, b.1, 0, 0)], 1) == Direct(snap, a.0, a.1)
  {
    var at := (t: int) => snap;
    var first, second := Call(a.0, a.1, 0, 0), Call(b.0, b.1, 0, 0);
    assert [first, second][..1] == [first] && [first][..0] == [];
    assert After(at, []) == map[];
    assert After(at, [first])[CacheKey(a.0)] == Entry(Direct(snap, a.0, a.1).value, Some(DEFAULT_EXPIRY));
  }

  // ----- Said of the requests alone -----

  /** What a request reads, whatever the cluster holds. */
  datatype Reference =
    | Fixed(value: string)
    | SecretKey(namespace: string, selector: Selector)
    | ConfigMapKey(namespace: string, selector: Selector)
    | Nothing

  function RefOf(r: Request): Reference {
    if r.0.value != "" then Fixed(r.0.value)
    else if r.0.valueFrom.None? then Nothing
    else if r.0.valueFrom.value.secret.Some? then SecretKey(r.1, r.0.valueFrom.value.secret.value)
    else if r.0.valueFrom.value.configMap.Some? then ConfigMapKey(r.1, r.0.valueFrom.value.configMap.value)
    else Nothing
  }

  function ValueOf(snap: Snapshot, ref: Reference): Option<string> {
    match ref
    case Fixed(v) => Some(v)
    case SecretKey(n, s) => ReadKey(snap.secrets, n, s)
    case ConfigMapKey(n, s) => ReadKey(snap.configMaps, n, s)
    case Nothing => None
  }

  lemma DirectIsValueOf(snap: Snapshot, r: Request)
    ensures Direct(snap, r.0, r.1) == ValueOf(snap, RefOf(r))
  {}

  function OneKey(namespace: string, s: Selector, v: string): map<(string, string), map<string, string>> {
    map[(namespace, s.name) := map[s.key := v]]
  }

  /** A cluster in which this reference has a value and no other one to the same kind of object has. */
  function ClusterFor(ref: Reference): Snapshot {
    match ref
    case SecretKey(n, s) => Snapshot(OneKey(n, s, "x"), map[])
    case ConfigMapKey(n, s) => Snapshot(map[], OneKey(n, s, "x"))
    case _ => Snapshot(map[], map[])
  }

  /** Different references are told apart by some cluster. */
  lemma ReferencesDiffer(a: Reference, b: Reference) returns (snap: Snapshot)
    requires a != b
    ensures ValueOf(snap, a) != ValueOf(snap, b)
  {
    if a.Fixed? || b.Fixed? {
      snap := Snapshot(map[], map[]);
    } else {
      snap := ClusterFor(if a.Nothing? then b else a);
    }
  }

  /** Requests with a reference that share a key name the same thing. */
  ghost predicate KeysIdentify(requests: set<Request>) {
    forall a, b | a in requests && b in requests ::
      a.0.valueFrom.Some? && b.0.valueFrom.Some? && CacheKey(a.0) == CacheKey(b.0) ==> RefOf(a) == RefOf(b)
  }

  /** Whatever the cluster holds, cached answers are the direct ones in every history: exactly when
      requests that share a key name the same value, the same key of one secret, or the same key of
      one config map, each in one namespace. */
  lemma SafeIffKeysIdentify(requests: set<Request>)
    ensures (forall snap :: AlwaysDirect(snap, requests)) <==> KeysIdentify(requests)
  {
    if KeysIdentify(requests) {
      forall snap
        ensures AlwaysDirect(snap, requests)
      {
        IdentifiedSeparate(snap, requests);
        AlwaysDirectIff(snap, requests);
      }
    } else {
      var a, b :| a in requests && b in requests && a.0.valueFrom.Some? && b.0.valueFrom.Some?
               && CacheKey(a.0) == CacheKey(b.0) && RefOf(a) != RefOf(b);
      var snap := ReferencesDiffer(RefOf(a), RefOf(b));
      DirectIsValueOf(snap, a);
      DirectIsValueOf(snap, b);
      assert !KeysSeparate(snap, requests);
      AlwaysDirectIff(snap, requests);
    }
  }

  lemma IdentifiedSeparate(snap: Snapshot, requests: set<Request>)
    requires KeysIdentify(requests)
    ensures KeysSeparate(snap, requests)
  {
    forall a, b | a in requests && b in requests && a.0.valueFrom.Some? && b.0.valueFrom.Some?
                  && CacheKey(a.0) == CacheKey(b.0)
      ensures Direct(snap, b.0, b.1) == Direct(snap, a.0, a.1)
    {
      DirectIsValueOf(snap, a);
      DirectIsValueOf(snap, b);
    }
  }

  lemma SharedKeyCollides(snap: Snapshot, a: Request, b: Request)
    requires a.0.valueFrom.Some? && b.0.valueFrom.Some? && CacheKey(a.0) == CacheKey(b.0)
    requires Direct(snap, a.0, a.1).Some? && Direct(snap, b.0, b.1) != Direct(snap, a.0, a.1)
    ensures !AlwaysDirect(snap, {a, b})
  {
    AlwaysDirectIff(snap, {a, b});
    assert a in {a, b} && b in {a, b};
  }

  function FromSecret(name: string, s: Selector): EnvVar {
    EnvVar(name, "", Some(Source(Some(s), None)))
  }

  /** The key holds no namespace: the same variable read in a second namespace gets the value of the
      first. It holds no separators either: so does a different secret whose name and key join to the
      same text. */
  lemma KeysCollide(snap: Snapshot, name: string, one: Selector, two: Selector, a: string, b: string)
    requires ReadKey(snap.secrets, a, one).Some?
    ensures ReadKey(snap.secrets, b, one) != ReadKey(snap.secrets, a, one) ==>
              !AlwaysDirect(snap, {(FromSecret(name, one), a), (FromSecret(name, one), b)})
    ensures && one.name + one.key == two.name + two.key
            && ReadKey(snap.secrets, a, two) != ReadKey(snap.secrets, a, one) ==>
              !AlwaysDirect(snap, {(FromSecret(name, one), a), (FromSecret(name, two), a)})
  {
    if ReadKey(snap.secrets, b, one) != ReadKey(snap.secrets, a, one) {
      SharedKeyCollides(snap, (FromSecret(name, one), a), (FromSecret(name, one), b));
    }
    if one.name + one.key == two.name + two.key && ReadKey(snap.secrets, a, two) != ReadKey(snap.secrets, a, one) {
      assert name + one.name + one.key == name + (one.name + one.key);
      assert name + two.name + two.key == name + (two.name + two.key);
      SharedKeyCollides(snap, (FromSecret(name, one), a), (FromSecret(name, two), a));
    }
  }

  /** Such references exist: the key "pass" of "db" and the key "ass" of "dbp". */
  lemma ReferencesThatCollide() returns (snap: Snapshot, one: Selector, two: Selector)
    ensures one != two
    ensures ReadKey(snap.secrets, "a", one) == Some("x") && ReadKey(snap.secrets, "a", two) == Some("y")
    ensures !AlwaysDirect(snap, {(FromSecret("V", one), "a"), (FromSecret("V", two), "a")})
  {
    one, two := Selector("db", "pass"), Selector("dbp", "ass");
    snap := Snapshot(map[("a", "db") := map["pass" := "x"], ("a", "dbp") := map["ass" := "y"]], map[]);
    assert one.name + one.key == two.name + two.key;
    KeysCollide(snap, "V", one, two, "a", "a");
  }

  // ----- How long an answer lasts -----

  /** Until when a call's value may be used: five minutes by default, the caller's own time if that is
      positive, and for ever if it is negative. */
  predicate Lasts(expiry: int, elapsed: int) {
    expiry < 0 || (expiry == 0 && elapsed <= 300) || (expiry > 0 && elapsed <= expiry)
  }

  /** The same call again, some time later, in a cluster that has changed meanwhile: it gets the first
      value exactly while that lasts, and otherwise the new one. */
  lemma SecondCallAnswers(at: int -> Snapshot, e: EnvVar, namespace: string, expiry: int, now: int, later: int)
    requires e.valueFrom.Some? && Direct(at(now), e, namespace).Some?
    ensures Answer(at, [Call(e, namespace, expiry, now), Call(e, namespace, expiry, later)], 1)
         == Direct(at(if Lasts(expiry, later - now) then now else later), e, namespace)
  {
    var first, second := Call(e, namespace, expiry, now), Call(e, namespace, expiry, later);
    assert [first, second][..1] == [first] && [first][..0] == [];
    assert After(at, []) == map[];
    assert After(at, [first])[CacheKey(e)] == Entry(Direct(at(now), e, namespace).value, Limit(first));
  }

  /** What is read: a literal value first, then a secret's key, then a config map's key. */
  lemma DirectExamples()
    ensures var snap := Snapshot(map[("ns", "s") := map["k" := "x"]], map[("ns", "c") := map["k" := "y"]]);
            var s, c := Selector("s", "k"), Selector("c", "k");
            && Direct(snap, EnvVar("V", "v", Some(Source(Some(s), None))), "ns") == Some("v")
            && Direct(snap, EnvVar("V", "", Some(Source(Some(s), Some(c)))), "ns") == Some("x")
            && Direct(snap, EnvVar("V", "", Some(Source(None, Some(c)))), "ns") == Some("y")
            && Direct(snap, EnvVar("V", "", Some(Source(None, None))), "ns") == None
            && Direct(snap, EnvVar("V", "", None), "ns") == None
            && Direct(snap, EnvVar("V", "", Some(Source(Some(s), None))), "other") == None
            && Direct(snap, EnvVar("V", "", Some(Source(Some(Selector("s", "q")), None))), "ns") == None
  {}

  /** The key joins the variable's name with the name and key of what it refers to. */
  lemma KeyExamples()
    ensures CacheKey(EnvVar("V", "", Some(Source(Some(Selector("db", "pass")), None)))) == "Vdbpass"
    ensures CacheKey(EnvVar("V", "", Some(Source(None, Some(Selector("cfg", "port")))))) == "Vcfgport"
    ensures var both := Source(Some(Selector("db", "pass")), Some(Selector("cfg", "port")));
            CacheKey(EnvVar("V", "", Some(both))) == "Vdbpass"
    ensures CacheKey(EnvVar("V", "", Some(Source(None, None)))) == "V"
  {}

  /** Two keys of one secret whose names begin differently do not disturb each other. */
  lemma TwoKeysAreSafe(snap: Snapshot, one: Selector, two: Selector)
    requires one.name == two.name && one.key != "" && two.key != "" && one.key[0] != two.key[0]
    ensures AlwaysDirect(snap, {(FromSecret("V", one), "ns"), (FromSecret("V", two), "ns")})
  {
    var a, b := (FromSecret("V", one), "ns"), (FromSecret("V", two), "ns");
    var n := 1 + |one.name|;
    assert CacheKey(a.0)[n] == one.key[0] && CacheKey(b.0)[n] == two.key[0];
    assert KeysIdentify({a, b});
    SafeIffKeysIdentify({a, b});
  }
}

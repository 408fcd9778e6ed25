/** Unstructured objects: nested maps addressed by paths, and the laws of reading, writing and
    removing at a path. */
module Nested {
  import opened Kube

  datatype Value =
    | Null
    | Text(text: string)
    | Number(number: int)
    | Flag(flag: bool)
    | List(items: seq<Value>)
    | Obj(fields: Object)

  type Object = map<string, Value>

  type Path = p: seq<string> | p != [] witness ["metadata"]

  // ----- Operations -----

  /** The value at a path; absent when a step is missing or is not a map. */
  function Get(m: Object, p: Path): Option<Value>
    decreases |p|
  {
    if p[0] !in m then None
    else if |p| == 1 then Some(m[p[0]])
    else if m[p[0]].Obj? then Get(m[p[0]].fields, p[1..])
    else None
  }

  /** Writes at a path, making missing maps on the way; nothing happens if a step is not a map. */
  function Set(m: Object, p: Path, v: Value): Object
    decreases |p|
  {
    if |p| == 1 then m[p[0] := v]
    else if p[0] !in m then m[p[0] := Obj(Set(map[], p[1..], v))]
    else if m[p[0]].Obj? then m[p[0] := Obj(Set(m[p[0]].fields, p[1..], v))]
    else m
  }

  function Remove(m: Object, p: Path): Object
    decreases |p|
  {
    if p[0] !in m then m
    else if |p| == 1 then m - {p[0]}
    else if m[p[0]].Obj? then m[p[0] := Obj(Remove(m[p[0]].fields, p[1..]))]
    else m
  }

  /** Writes a value, or removes it when there is none. */
  function Put(m: Object, p: Path, v: Option<Value>): Object {
    if v.Some? then Set(m, p, v.value) else Remove(m, p)
  }

  predicate HasParent(m: Object, p: Path)
    decreases |p|
  {
    |p| == 1 || (p[0] in m && m[p[0]].Obj? && HasParent(m[p[0]].fields, p[1..]))
  }

  /** Neither path leads to or through the other. */
  predicate Unrelated(p: Path, q: Path)
    decreases |p|
  {
    p[0] != q[0] || (|p| > 1 && |q| > 1 && Unrelated(p[1..], q[1..]))
  }

  /** Two maps hold the same, or nothing, under a key. */
  predicate SameAt(a: Object, b: Object, k: string) {
    (k in a <==> k in b) && (k in a ==> a[k] == b[k])
  }

  // ----- Laws for one or two paths -----

  lemma {:induction false} RemovesCommute(m: Object, p: Path, q: Path)
    ensures Remove(Remove(m, p), q) == Remove(Remove(m, q), p)
    decreases |p|
  {
    if p[0] == q[0] && |p| > 1 && |q| > 1 && p[0] in m && m[p[0]].Obj? {
      RemovesCommute(m[p[0]].fields, p[1..], q[1..]);
    }
  }

  lemma {:induction false} RemoveAgain(m: Object, p: Path)
    ensures Remove(Remove(m, p), p) == Remove(m, p) && Get(Remove(m, p), p).None?
    decreases |p|
  {
    if |p| > 1 && p[0] in m && m[p[0]].Obj? {
      RemoveAgain(m[p[0]].fields, p[1..]);
    }
  }

  lemma {:induction false} RemoveAbsent(m: Object, p: Path)
    requires Get(m, p).None?
    ensures Remove(m, p) == m
    decreases |p|
  {
    if |p| > 1 && p[0] in m && m[p[0]].Obj? {
      RemoveAbsent(m[p[0]].fields, p[1..]);
    }
  }

  lemma {:induction false} GetAfterRemove(m: Object, p: Path, q: Path)
    requires Unrelated(p, q)
    ensures Get(Remove(m, q), p) == Get(m, p)
    decreases |p|
  {
    if p[0] == q[0] && p[0] in m && m[p[0]].Obj? {
      GetAfterRemove(m[p[0]].fields, p[1..], q[1..]);
    }
  }

  lemma {:induction false} GetAfterSet(m: Object, p: Path, q: Path, v: Value)
    requires Unrelated(p, q)
    ensures Get(Set(m, q, v), p) == Get(m, p)
    decreases |p|
  {
    if p[0] == q[0] {
      if p[0] !in m {
        GetAfterSet(map[], p[1..], q[1..], v);
      } else if m[p[0]].Obj? {
        GetAfterSet(m[p[0]].fields, p[1..], q[1..], v);
      }
    }
  }

  lemma {:induction false} RemoveAfterSet(m: Object, p: Path, q: Path, v: Value)
    requires Unrelated(p, q)
    ensures Remove(Set(m, q, v), p) == Set(Remove(m, p), q, v)
    decreases |p|
  {
    if p[0] != q[0] {
      RemoveSetApart(m, p, q, v);
    } else if p[0] !in m {
      RemoveAfterSet(map[], p[1..], q[1..], v);
      var n := m[p[0] := Obj(Set(map[], q[1..], v))];
      assert Remove(n, p) == n;
    } else if m[p[0]].Obj? {
      var f := m[p[0]].fields;
      RemoveAfterSet(f, p[1..], q[1..], v);
      var n := m[p[0] := Obj(Set(f, q[1..], v))];
      assert Remove(n, p) == n[p[0] := Obj(Remove(Set(f, q[1..], v), p[1..]))];
      var l := m[p[0] := Obj(Remove(f, p[1..]))];
      assert Set(l, q, v) == l[p[0] := Obj(Set(Remove(f, p[1..]), q[1..], v))];
    }
  }

  /** An edit touches the value under the first step, and only that one. */
  lemma SetAt(a: Object, b: Object, p: Path, v: Value, k: string)
    requires SameAt(a, b, k)
    ensures SameAt(Set(a, p, v), Set(b, p, v), k)
  {
    SetTouchesOneKey(a, p, v);
    SetTouchesOneKey(b, p, v);
    if k == p[0] {
      SetReadsOneKey(a, b, p, v);
    }
  }

  lemma RemoveAt(a: Object, b: Object, p: Path, k: string)
    requires SameAt(a, b, k)
    ensures SameAt(Remove(a, p), Remove(b, p), k)
  {}

  lemma RemoveTouchesOneKey(m: Object, p: Path, k: string)
    requires k != p[0]
    ensures SameAt(Remove(m, p), m, k)
  {}

  lemma RemoveSetApart(m: Object, p: Path, q: Path, v: Value)
    requires p[0] != q[0]
    ensures Remove(Set(m, q, v), p) == Set(Remove(m, p), q, v)
  {
    var set_, removed := Set(m, q, v), Remove(m, p);
    var a, b := Remove(set_, p), Set(removed, q, v);
    SetTouchesOneKey(m, q, v);
    SetTouchesOneKey(removed, q, v);
    forall k
      ensures SameAt(a, b, k)
      ensures k in a <==> k in b
    {
      if k == p[0] {
        RemoveAt(set_, m, p, k);
      } else {
        RemoveTouchesOneKey(set_, p, k);
        RemoveTouchesOneKey(m, p, k);
        SetAt(m, removed, q, v, k);
      }
    }
  }

  lemma {:induction false} SetsCommute(m: Object, p: Path, v: Value, q: Path, w: Value)
    requires Unrelated(p, q)
    ensures Set(Set(m, p, v), q, w) == Set(Set(m, q, w), p, v)
    decreases |p|
  {
    if p[0] != q[0] {
      SetsApart(m, p, v, q, w);
    } else {
      var f := if p[0] !in m then map[] else if m[p[0]].Obj? then m[p[0]].fields else map[];
      SetsCommute(f, p[1..], v, q[1..], w);
      if p[0] !in m || m[p[0]].Obj? {
        SetsBelow(m, f, p, v, q, w);
        SetsBelow(m, f, q, w, p, v);
      }
    }
  }

  /** Two writes under the same first step act on the map found there, or on an empty one. */
  lemma SetsBelow(m: Object, f: Object, p: Path, v: Value, q: Path, w: Value)
    requires p[0] == q[0] && |p| > 1 && |q| > 1
    requires if p[0] in m then m[p[0]] == Obj(f) else f == map[]
    ensures Set(Set(m, p, v), q, w) == m[p[0] := Obj(Set(Set(f, p[1..], v), q[1..], w))]
  {
    assert Set(m, p, v) == m[p[0] := Obj(Set(f, p[1..], v))];
  }

  lemma SetsApart(m: Object, p: Path, v: Value, q: Path, w: Value)
    requires p[0] != q[0]
    ensures Set(Set(m, p, v), q, w) == Set(Set(m, q, w), p, v)
  {
    var a, b := Set(m, p, v), Set(m, q, w);
    SetTouchesOneKey(m, p, v);
    SetTouchesOneKey(m, q, w);
    SetTouchesOneKey(a, q, w);
    SetTouchesOneKey(b, p, v);
    SetReadsOneKey(m, a, q, w);
    SetReadsOneKey(m, b, p, v);
    assert Set(a, q, w).Keys == Set(b, p, v).Keys;
  }

  lemma SetTouchesOneKey(m: Object, p: Path, v: Value)
    ensures Set(m, p, v).Keys == m.Keys + {p[0]}
    ensures forall k | k in m && k != p[0] :: Set(m, p, v)[k] == m[k]
  {}

  lemma SetReadsOneKey(m: Object, n: Object, p: Path, v: Value)
    requires p[0] in m <==> p[0] in n
    requires p[0] in m ==> m[p[0]] == n[p[0]]
    ensures Set(m, p, v)[p[0]] == Set(n, p, v)[p[0]]
  {}

  lemma {:induction false} SetAgain(m: Object, p: Path, v: Value, w: Value)
    ensures Set(Set(m, p, v), p, w) == Set(m, p, w)
    decreases |p|
  {
    if |p| > 1 && (p[0] !in m || m[p[0]].Obj?) {
      var f := if p[0] in m then m[p[0]].fields else map[];
      SetAgain(f, p[1..], v, w);
      SetsBelow(m, f, p, v, p, w);
    }
  }

  lemma {:induction false} SetWhatIsThere(m: Object, p: Path)
    requires Get(m, p).Some?
    ensures Set(m, p, Get(m, p).value) == m && HasParent(m, p)
    decreases |p|
  {
    if |p| > 1 {
      SetWhatIsThere(m[p[0]].fields, p[1..]);
    }
  }

  lemma {:induction false} SetThenRemove(m: Object, p: Path, v: Value)
    requires HasParent(m, p)
    ensures Remove(Set(m, p, v), p) == Remove(m, p)
    ensures Get(Set(m, p, v), p) == Some(v)
    decreases |p|
  {
    if |p| > 1 {
      SetThenRemove(m[p[0]].fields, p[1..], v);
    }
  }

  lemma {:induction false} UnrelatedSymmetric(p: Path, q: Path)
    ensures Unrelated(p, q) == Unrelated(q, p)
    decreases |p|
  {
    if p[0] == q[0] && |p| > 1 && |q| > 1 {
      UnrelatedSymmetric(p[1..], q[1..]);
    }
  }

  lemma {:induction false} SetAfterRemove(m: Object, p: Path, v: Value)
    ensures Set(Remove(m, p), p, v) == Set(m, p, v)
    decreases |p|
  {
    if |p| > 1 && p[0] in m && m[p[0]].Obj? {
      SetAfterRemove(m[p[0]].fields, p[1..], v);
    }
  }

  lemma {:induction false} ParentAfterEdit(m: Object, p: Path, q: Path, v: Option<Value>)
    requires Unrelated(p, q) && HasParent(m, p)
    ensures HasParent(Put(m, q, v), p)
    decreases |p|
  {
    if p[0] == q[0] {
      ParentAfterEdit(m[p[0]].fields, p[1..], q[1..], v);
    }
  }

  /** Two maps that agree once a path is blanked become equal when one takes the other's value there. */
  lemma RestoreOne(x: Object, y: Object, p: Path)
    requires Set(x, p, Null) == Set(y, p, Null) && HasParent(y, p)
    requires Get(y, p).None? ==> HasParent(x, p)
    ensures Put(x, p, Get(y, p)) == y
  {
    if Get(y, p).Some? {
      var v := Get(y, p).value;
      SetAgain(x, p, Null, v);
      SetAgain(y, p, Null, v);
      SetWhatIsThere(y, p);
    } else {
      SetThenRemove(x, p, Null);
      SetThenRemove(y, p, Null);
      RemoveAbsent(y, p);
    }
  }

  // ----- Laws for lists of paths -----

  function RemoveAll(m: Object, ps: seq<Path>): Object {
    if ps == [] then m else RemoveAll(Remove(m, ps[0]), ps[1..])
  }

  /** Takes over the source's value, or its absence, at each path. */
  function PutAll(m: Object, ps: seq<Path>, source: Object): Object
    decreases |ps|
  {
    if ps == [] then m else PutAll(Put(m, ps[0], Get(source, ps[0])), ps[1..], source)
  }

  /** Blanks each path. */
  function Blank(m: Object, ps: seq<Path>): Object
    decreases |ps|
  {
    if ps == [] then m else Blank(Set(m, ps[0], Null), ps[1..])
  }

  predicate UnrelatedToAll(p: Path, ps: seq<Path>) {
    forall i | 0 <= i < |ps| :: Unrelated(p, ps[i])
  }

  /** Equal paths may repeat; different ones never run through each other. */
  predicate Flat(ps: seq<Path>) {
    forall i, j | 0 <= i < |ps| && 0 <= j < |ps| :: ps[i] == ps[j] || Unrelated(ps[i], ps[j])
  }

  lemma {:induction false} RemoveAllCommutes(m: Object, ps: seq<Path>, q: Path)
    ensures RemoveAll(Remove(m, q), ps) == Remove(RemoveAll(m, ps), q)
  {
    if ps != [] {
      RemovesCommute(m, ps[0], q);
      RemoveAllCommutes(Remove(m, ps[0]), ps[1..], q);
    }
  }

  lemma {:induction false} RemoveAllAgain(m: Object, ps: seq<Path>)
    ensures RemoveAll(RemoveAll(m, ps), ps) == RemoveAll(m, ps)
  {
    if ps != [] {
      var m1 := Remove(m, ps[0]);
      RemoveAllCommutes(RemoveAll(m1, ps[1..]), ps[1..], ps[0]);
      RemoveAllAgain(m1, ps[1..]);
      RemoveAllCommutes(m1, ps[1..], ps[0]);
      RemoveAgain(m, ps[0]);
    }
  }

  lemma {:induction false} RemoveAllAbsent(m: Object, ps: seq<Path>, p: Path)
    requires p in ps
    ensures Get(RemoveAll(m, ps), p).None?
  {
    if p == ps[0] {
      RemoveAllCommutes(m, ps[1..], p);
      RemoveAgain(RemoveAll(m, ps[1..]), p);
    } else {
      RemoveAllAbsent(Remove(m, ps[0]), ps[1..], p);
    }
  }

  lemma {:induction false} PutBeforeRemoveAll(m: Object, ps: seq<Path>, p: Path, v: Option<Value>)
    requires UnrelatedToAll(p, ps)
    ensures RemoveAll(Put(m, p, v), ps) == Put(RemoveAll(m, ps), p, v)
    ensures Get(RemoveAll(m, ps), p) == Get(m, p)
    ensures HasParent(m, p) ==> HasParent(RemoveAll(m, ps), p)
  {
    if ps != [] {
      UnrelatedSymmetric(p, ps[0]);
      if v.Some? {
        RemoveAfterSet(m, ps[0], p, v.value);
      } else {
        RemovesCommute(m, ps[0], p);
      }
      GetAfterRemove(m, p, ps[0]);
      if HasParent(m, p) {
        ParentAfterEdit(m, p, ps[0], None);
      }
      PutBeforeRemoveAll(Remove(m, ps[0]), ps[1..], p, v);
    }
  }

  /** An edit at a path that is removed anyway leaves no trace. */
  lemma {:induction false} PutIsRemoved(m: Object, ps: seq<Path>, p: Path, v: Option<Value>)
    requires p in ps && Flat(ps) && HasParent(m, p)
    ensures RemoveAll(Put(m, p, v), ps) == RemoveAll(m, ps)
  {
    if p == ps[0] {
      if v.Some? {
        SetThenRemove(m, p, v.value);
      } else {
        RemoveAgain(m, p);
      }
    } else {
      UnrelatedSymmetric(p, ps[0]);
      if v.Some? {
        RemoveAfterSet(m, ps[0], p, v.value);
      } else {
        RemovesCommute(m, ps[0], p);
      }
      ParentAfterEdit(m, p, ps[0], None);
      PutIsRemoved(Remove(m, ps[0]), ps[1..], p, v);
    }
  }

  lemma {:induction false} PutBeforeBlank(m: Object, ps: seq<Path>, p: Path, v: Option<Value>)
    requires UnrelatedToAll(p, ps)
    ensures Blank(Put(m, p, v), ps) == Put(Blank(m, ps), p, v)
    ensures Get(Blank(m, ps), p) == Get(m, p)
    ensures HasParent(m, p) ==> HasParent(Blank(m, ps), p)
    decreases |ps|
  {
    if ps != [] {
      if v.Some? {
        SetsCommute(m, p, v.value, ps[0], Null);
      } else {
        RemoveAfterSet(m, p, ps[0], Null);
      }
      GetAfterSet(m, p, ps[0], Null);
      if HasParent(m, p) {
        ParentAfterEdit(m, p, ps[0], Some(Null));
      }
      PutBeforeBlank(Set(m, ps[0], Null), ps[1..], p, v);
    }
  }

  /** An edit at a path that is blanked anyway leaves no trace. */
  lemma {:induction false} PutIsBlanked(m: Object, ps: seq<Path>, p: Path, v: Option<Value>)
    requires p in ps && Flat(ps)
    ensures Blank(Put(m, p, v), ps) == Blank(m, ps)
    decreases |ps|
  {
    if p == ps[0] {
      if v.Some? {
        SetAgain(m, p, v.value, Null);
      } else {
        SetAfterRemove(m, p, Null);
      }
    } else {
      if v.Some? {
        SetsCommute(m, p, v.value, ps[0], Null);
      } else {
        RemoveAfterSet(m, p, ps[0], Null);
      }
      PutIsBlanked(Set(m, ps[0], Null), ps[1..], p, v);
    }
  }

  lemma {:induction false} PutAllIsBlanked(m: Object, qs: seq<Path>, source: Object, ps: seq<Path>)
    requires Flat(ps) && forall q | q in qs :: q in ps
    ensures Blank(PutAll(m, qs, source), ps) == Blank(m, ps)
    decreases |qs|
  {
    if qs != [] {
      PutIsBlanked(m, ps, qs[0], Get(source, qs[0]));
      PutAllIsBlanked(Put(m, qs[0], Get(source, qs[0])), qs[1..], source, ps);
    }
  }

  /** Two maps that agree outside the given paths become equal when one takes the other's values there. */
  lemma {:induction false} RestoreAll(x: Object, y: Object, ps: seq<Path>)
    requires Flat(ps) && Blank(x, ps) == Blank(y, ps)
    requires forall p | p in ps :: HasParent(y, p) && (Get(y, p).None? ==> HasParent(x, p))
    ensures PutAll(x, ps, y) == y
    decreases |ps|
  {
    if ps != [] {
      var p, rest := ps[0], ps[1..];
      var x1 := Put(x, p, Get(y, p));
      if p in rest {
        PutIsBlanked(x, rest, p, Some(Null));
        PutIsBlanked(y, rest, p, Some(Null));
        PutIsBlanked(x, rest, p, Get(y, p));
      } else {
        assert UnrelatedToAll(p, rest);
        PutBeforeBlank(x, rest, p, Some(Null));
        PutBeforeBlank(y, rest, p, Some(Null));
        PutBeforeBlank(x, rest, p, Get(y, p));
        RestoreOne(Blank(x, rest), Blank(y, rest), p);
      }
      forall q | q in rest && Get(y, q).None?
        ensures HasParent(x1, q)
      {
        if q == p {
          ParentStays(x, p);
        } else {
          UnrelatedSymmetric(p, q);
          ParentAfterEdit(x, q, p, Get(y, p));
        }
      }
      RestoreAll(x1, y, rest);
    }
  }

  lemma {:induction false} ParentStays(m: Object, p: Path)
    requires HasParent(m, p)
    ensures HasParent(Remove(m, p), p)
    decreases |p|
  {
    if |p| > 1 {
      ParentStays(m[p[0]].fields, p[1..]);
    }
  }
}

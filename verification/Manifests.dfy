/** Reading the objects of a manifest stream, directly and after line-break normalisation. */
module Manifests {
  import opened Kube
  import opened Documents

  /** What the decoder makes of one chunk. */
  datatype Decoded<+T> = Malformed | NoObject | Object(value: T)

  predicate IsSpace(c: char) {
    || '\t' <= c <= '\r' || c == ' ' || c == '\U{0085}' || c == '\U{00A0}' || c == '\U{1680}'
    || '\U{2000}' <= c <= '\U{200A}' || c == '\U{2028}' || c == '\U{2029}' || c == '\U{202F}'
    || c == '\U{205F}' || c == '\U{3000}'
  }

  predicate IsBlank(chunk: string) {
    forall i | 0 <= i < |chunk| :: IsSpace(chunk[i])
  }

  /** The objects of the chunks that are not blank, in order; None once a chunk is malformed. */
  ghost function ObjectsIn<T>(chunks: seq<string>, decode: string -> Decoded<T>): Option<seq<T>> {
    if chunks == [] then Some([])
    else
      var n := |chunks| - 1;
      var init := ObjectsIn(chunks[..n], decode);
      if init.None? || IsBlank(chunks[n]) then init
      else
        match decode(chunks[n])
        case Malformed => None
        case NoObject => init
        case Object(v) => Some(init.value + [v])
  }

  lemma {:induction false} ErrorStays<T>(chunks: seq<string>, i: nat, decode: string -> Decoded<T>)
    requires i <= |chunks| && ObjectsIn(chunks[..i], decode).None?
    ensures ObjectsIn(chunks, decode).None?
  {
    if i < |chunks| {
      assert chunks[..|chunks| - 1][..i] == chunks[..i];
      ErrorStays(chunks[..|chunks| - 1], i, decode);
    } else {
      assert chunks[..i] == chunks;
    }
  }

  method GetUnstructuredObjects<T>(data: string, decode: string -> Decoded<T>) returns (r: Option<seq<T>>)
    ensures r == ObjectsIn(Split(data), decode)
  {
    var items: seq<T> := [];
    var chunks := Split(data);
    for i := 0 to |chunks|
      invariant ObjectsIn(chunks[..i], decode) == Some(items)
    {
      assert chunks[..i + 1][..i] == chunks[..i];
      if !IsBlank(chunks[i]) {
        var decoded := decode(chunks[i]);
        if decoded.Malformed? {
          ErrorStays(chunks, i + 1, decode);
          return None;
        }
        if decoded.Object? {
          items := items + [decoded.value];
        }
      }
    }
    assert chunks[..|chunks|] == chunks;
    return Some(items);
  }

  method GetKustomizeObjects<T>(data: string, decode: string -> Decoded<T>) returns (r: Option<seq<T>>)
    ensures r == ObjectsIn(Split(ToLf(data)), decode)
  {
    var utfData := BytesToUtf8Lf(data);
    r := GetUnstructuredObjects(utfData, decode);
  }

  /** On the Windows form of a text the kustomize reader sees what the plain reader sees on the text. */
  lemma SameObjects<T>(t: string, decode: string -> Decoded<T>)
    requires '\r' !in t
    ensures Split(ToLf(Crlf(t))) == Split(t)
    ensures ObjectsIn(Split(ToLf(Crlf(t))), decode) == ObjectsIn(Split(t), decode)
  {
    CrlfRoundTrip(t);
  }

  lemma {:induction false} ObjectsInAppends<T>(a: seq<string>, b: seq<string>, decode: string -> Decoded<T>)
    ensures ObjectsIn(a + b, decode) ==
            if ObjectsIn(a, decode).None? || ObjectsIn(b, decode).None? then None
            else Some(ObjectsIn(a, decode).value + ObjectsIn(b, decode).value)
  {
    if b == [] {
      assert a + b == a;
      assert ObjectsIn(a, decode).Some? ==> ObjectsIn(a, decode).value + [] == ObjectsIn(a, decode).value;
    } else {
      var n := |b| - 1;
      ObjectsInAppends(a, b[..n], decode);
      assert (a + b)[..|a + b| - 1] == a + b[..n] && (a + b)[|a + b| - 1] == b[n];
      var x, y := ObjectsIn(a, decode), ObjectsIn(b[..n], decode);
      if x.Some? && y.Some? && decode(b[n]).Object? {
        assert (x.value + y.value) + [decode(b[n]).value] == x.value + (y.value + [decode(b[n]).value]);
      }
    }
  }

  /** What one chunk gives: nothing if it is blank, and otherwise what the decoder makes of it. */
  lemma ObjectsInOne<T>(chunk: string, decode: string -> Decoded<T>)
    ensures (forall i | 0 <= i < |chunk| :: IsSpace(chunk[i])) ==> ObjectsIn([chunk], decode) == Some([])
    ensures (exists i | 0 <= i < |chunk| :: !IsSpace(chunk[i])) ==>
              ObjectsIn([chunk], decode) == match decode(chunk)
                                            case Malformed => None
                                            case NoObject => Some([])
                                            case Object(v) => Some([v])
  {
    assert [chunk][..0] == [];
    assert ObjectsIn([], decode) == Some([]);
    if decode(chunk).Object? {
      assert [] + [decode(chunk).value] == [decode(chunk).value];
    }
  }

  /** Blank chunks may stand anywhere. */
  lemma BlankBetween<T>(a: string, blank: string, b: string, decode: string -> Decoded<T>)
    requires IsBlank(blank) && !IsBlank(a) && !IsBlank(b) && decode(a).Object? && decode(b).Object?
    ensures ObjectsIn([a, blank, b], decode) == Some([decode(a).value, decode(b).value])
  {
    ObjectsInOne(a, decode);
    ObjectsInOne(blank, decode);
    ObjectsInOne(b, decode);
    ObjectsInAppends([a], [blank], decode);
    ObjectsInAppends([a] + [blank], [b], decode);
    assert [a] + [blank] + [b] == [a, blank, b];
    assert [decode(a).value] + [] + [decode(b).value] == [decode(a).value, decode(b).value];
  }

  /** One malformed chunk spoils all. */
  lemma MalformedSpoils<T>(before: seq<string>, chunk: string, after: seq<string>, decode: string -> Decoded<T>)
    requires !IsBlank(chunk) && decode(chunk).Malformed?
    ensures ObjectsIn(before + [chunk] + after, decode).None?
  {
    ObjectsInOne(chunk, decode);
    ObjectsInAppends(before, [chunk], decode);
    ObjectsInAppends(before + [chunk], after, decode);
  }

  /** The white space of the Unicode standard, by code point. */
  lemma SpacesAre(c: char)
    ensures IsSpace(c) <==>
              || 0x9 <= c as int <= 0xD || c as int in {0x20, 0x85, 0xA0, 0x1680}
              || 0x2000 <= c as int <= 0x200A || c as int in {0x2028, 0x2029, 0x202F, 0x205F, 0x3000}
  {}
}

/** Templatising a patch stream document by document: a loop that does not always end. */
module Templatize {
  import opened Kube
  import Yaml = Documents

  // ----- Splitting at the first marker -----

  predicate MarkerAt(s: string, i: int) {
    0 <= i <= |s| - 3 && s[i..i + 3] == "---"
  }

  function Index(s: string, i: nat): (r: int)
    requires i <= |s|
    ensures r == -1 ==> forall k | i <= k :: !MarkerAt(s, k)
    ensures r != -1 ==> i <= r && MarkerAt(s, r) && forall k | i <= k < r :: !MarkerAt(s, k)
    decreases |s| - i
  {
    if MarkerAt(s, i) then i else if i == |s| then -1 else Index(s, i + 1)
  }

  /** The first document and the rest of the stream. */
  function FirstDocument(s: string): (string, string) {
    var end := Index(s, 0);
    if end == -1 then (s, "") else (s[..end], s[end + 3..])
  }

  /** The leftmost split of the stream at the markers. */
  function Documents(s: string): (ds: seq<string>)
    ensures ds != []
    decreases |s|
  {
    var end := Index(s, 0);
    if end == -1 then [s] else [s[..end]] + Documents(s[end + 3..])
  }

  // ----- The loop as a machine -----

  datatype Template = Templated(text: string) | BadDocument

  /** What the loop holds between two turns, or how it ended. */
  datatype State = Looping(remaining: string, result: string) | Finished(result: string) | Failed

  function Append(result: string, doc: string): string {
    (if |result| > 0 then result + "---\n" else result) + doc
  }

  function Turn(template: string -> Template, s: State): State {
    if !s.Looping? then s
    else
      var (first, rest) := FirstDocument(s.remaining);
      if |first| == 0 then Looping(rest, s.result)
      else
        match template(first)
        case BadDocument => Failed
        case Templated(doc) =>
          if |rest| == 0 then Finished(Append(s.result, doc)) else Looping(rest, Append(s.result, doc))
  }

  function Turns(template: string -> Template, s: State, n: nat): State
    decreases n
  {
    if n == 0 then s else Turns(template, Turn(template, s), n - 1)
  }

  ghost predicate Ends(template: string -> Template, s: State) {
    exists n: nat :: !Turns(template, s, n).Looping?
  }

  // ----- When it ends, and with what -----

  predicate IsBad(template: string -> Template, d: string) {
    d != "" && template(d).BadDocument?
  }

  /** Some non-empty document cannot be templated. */
  ghost predicate HasBad(template: string -> Template, ds: seq<string>) {
    exists i | 0 <= i < |ds| :: IsBad(template, ds[i])
  }

  /** The last document, or the one before it when the last is empty, is not empty. */
  predicate EndsNonEmpty(ds: seq<string>)
    requires ds != []
  {
    ds[|ds| - 1] != "" || (|ds| >= 2 && ds[|ds| - 2] != "")
  }

  /** The left-to-right fold over the non-empty documents; None at the first bad one. */
  function Fold(template: string -> Template, ds: seq<string>, result: string): Option<string> {
    if ds == [] then Some(result)
    else if ds[0] == "" then Fold(template, ds[1..], result)
    else
      match template(ds[0])
      case BadDocument => None
      case Templated(doc) => Fold(template, ds[1..], Append(result, doc))
  }

  /** What one turn does, told by the documents that remain. */
  lemma TurnOnDocuments(template: string -> Template, remaining: string, result: string)
    ensures var ds, (first, rest) := Documents(remaining), FirstDocument(remaining);
            && ds[0] == first
            && (if |ds| == 1 then rest == "" else Documents(rest) == ds[1..])
            && (rest == "" <==> |ds| == 1 || ds[1..] == [""])
  {
    var end := Index(remaining, 0);
    if end != -1 {
      var rest := remaining[end + 3..];
      assert Documents(remaining) == [remaining[..end]] + Documents(rest);
      if Documents(rest) == [""] {
        assert rest == "";
      }
    }
  }

  /** Once nothing remains the loop turns for ever. */
  lemma {:induction false} EmptyForever(template: string -> Template, result: string, n: nat)
    ensures Turns(template, Looping("", result), n) == Looping("", result)
  {
    if n > 0 {
      EmptyForever(template, result, n - 1);
    }
  }

  lemma EndsAfterTurn(template: string -> Template, s: State)
    ensures Ends(template, s) <==> Ends(template, Turn(template, s))
  {
    if Ends(template, s) {
      var n: nat :| !Turns(template, s, n).Looping?;
      if n == 0 {
        assert !Turns(template, Turn(template, s), 0).Looping?;
      } else {
        assert !Turns(template, Turn(template, s), n - 1).Looping?;
      }
    }
    if Ends(template, Turn(template, s)) {
      var n: nat :| !Turns(template, Turn(template, s), n).Looping?;
      assert !Turns(template, s, n + 1).Looping?;
    }
  }

  lemma StoppedEnds(template: string -> Template, s: State)
    requires !s.Looping?
    ensures Ends(template, s)
  {
    assert !Turns(template, s, 0).Looping?;
  }

  lemma EmptyNeverEnds(template: string -> Template, result: string)
    ensures !Ends(template, Looping("", result))
  {
    forall n: nat
      ensures Turns(template, Looping("", result), n).Looping?
    {
      EmptyForever(template, result, n);
    }
  }

  lemma HasBadSplits(template: string -> Template, ds: seq<string>)
    requires ds != []
    ensures HasBad(template, ds) <==> IsBad(template, ds[0]) || HasBad(template, ds[1..])
  {
    assert forall i | 1 <= i < |ds| :: ds[i] == ds[1..][i - 1];
    if HasBad(template, ds[1..]) {
      var i :| 0 <= i < |ds| - 1 && IsBad(template, ds[1..][i]);
      assert IsBad(template, ds[i + 1]);
    }
  }

  lemma EndsNonEmptySplits(ds: seq<string>)
    requires |ds| >= 2 && ds[1..] != [""]
    ensures EndsNonEmpty(ds) <==> EndsNonEmpty(ds[1..])
  {
    var tail := ds[1..];
    assert tail[|tail| - 1] == ds[|ds| - 1];
    if |ds| == 2 {
      assert tail == [ds[1]];
    } else {
      assert tail[|tail| - 2] == ds[|ds| - 2];
    }
  }

  /** The loop ends exactly when a document is bad or the stream does not tail off in emptiness. */
  lemma {:induction false} EndsIff(template: string -> Template, remaining: string, result: string)
    ensures Ends(template, Looping(remaining, result))
       <==> HasBad(template, Documents(remaining)) || EndsNonEmpty(Documents(remaining))
    decreases |remaining|
  {
    var s := Looping(remaining, result);
    var ds := Documents(remaining);
    var (first, rest) := FirstDocument(remaining);
    TurnOnDocuments(template, remaining, result);
    EndsAfterTurn(template, s);
    HasBadSplits(template, ds);
    var next := Turn(template, s);
    if !next.Looping? {
      StoppedEnds(template, next);
      if next.Finished? && |ds| > 1 {
        assert ds == [first, ""];
      }
    } else if rest == "" {
      EmptyNeverEnds(template, next.result);
      assert ds == [""] || ds == ["", ""];
      assert !HasBad(template, [""]) && !HasBad(template, []);
    } else {
      EndsIff(template, rest, next.result);
      EndsNonEmptySplits(ds);
    }
  }

  /** The loop, for the streams on which it ends. */
  method TemplatizePatch(patch: string, template: string -> Template) returns (r: Option<string>)
    requires HasBad(template, Documents(patch)) || EndsNonEmpty(Documents(patch))
    ensures r == Fold(template, Documents(patch), "")
  {
    EndsIff(template, patch, "");
    var remaining, result := patch, "";
    while true
      invariant Ends(template, Looping(remaining, result))
      invariant Fold(template, Documents(remaining), result) == Fold(template, Documents(patch), "")
      decreases |remaining|
    {
      var (first, rest) := FirstDocument(remaining);
      TurnOnDocuments(template, remaining, result);
      EndsAfterTurn(template, Looping(remaining, result));
      ghost var ds := Documents(remaining);
      if |remaining| == 0 {
        EmptyNeverEnds(template, result);
      }
      remaining := rest;
      if |first| == 0 {
        if rest == "" {
          EmptyNeverEnds(template, result);
        }
        continue;
      }
      match template(first) {
        case BadDocument =>
          return None;
        case Templated(doc) =>
          result := Append(result, doc);
          if |rest| == 0 {
            assert ds[1..] == [] || ds[1..] == [""];
            assert Fold(template, ds[1..], result) == Some(result);
            return Some(result);
          }
      }
    }
  }

  /** Concretely: an empty stream, and one whose last two documents are empty, never end. */
  lemma NeverEnds(template: string -> Template)
    ensures !Ends(template, Looping("", ""))
    ensures !Ends(template, Looping("---", ""))
  {
    EmptyNeverEnds(template, "");
    EndsIff(template, "---", "");
    assert MarkerAt("---", 0);
    assert "---"[3..] == "" && Documents("") == [""];
    assert Documents("---") == ["", ""];
  }

  // ----- What the result is made of -----

  /** Every document is not empty and comes out as the given text, which is not empty either. */
  ghost predicate TemplatedAs(template: string -> Template, ds: seq<string>, texts: seq<string>) {
    && |ds| == |texts|
    && forall i | 0 <= i < |ds| :: ds[i] != "" && texts[i] != "" && template(ds[i]) == Templated(texts[i])
  }

  /** The texts are joined by separator lines, in the order of their documents. */
  lemma {:induction false} FoldJoins(template: string -> Template, ds: seq<string>, texts: seq<string>, result: string)
    requires TemplatedAs(template, ds, texts) && ds != [] && result != ""
    ensures Fold(template, ds, result) == Some(result + "---\n" + Yaml.Join(texts))
  {
    var next := result + "---\n" + texts[0];
    assert Append(result, texts[0]) == next;
    if |ds| > 1 {
      FoldJoins(template, ds[1..], texts[1..], next);
      assert next + "---\n" + Yaml.Join(texts[1..]) == result + "---\n" + (texts[0] + "---\n" + Yaml.Join(texts[1..]));
    }
  }

  lemma ResultIsJoin(template: string -> Template, ds: seq<string>, texts: seq<string>)
    requires TemplatedAs(template, ds, texts) && ds != []
    ensures Fold(template, ds, "") == Some(Yaml.Join(texts))
  {
    assert Append("", texts[0]) == texts[0];
    if |ds| > 1 {
      FoldJoins(template, ds[1..], texts[1..], texts[0]);
    }
  }

  /** Blank documents leave no trace. */
  lemma EmptySkipped(template: string -> Template, ds: seq<string>, result: string)
    ensures Fold(template, [""] + ds, result) == Fold(template, ds, result)
  {
    assert ([""] + ds)[1..] == ds;
  }

  /** Concretely: two documents, unchanged by templating. */
  lemma TwoDocuments(template: string -> Template)
    requires forall d :: template(d) == Templated(d)
    ensures Documents("a---b") == ["a", "b"]
    ensures Fold(template, Documents("a---b"), "") == Some("a---\nb")
  {
    var s := "a---b";
    assert s[0..3][0] == 'a';
    assert MarkerAt(s, 1) && !MarkerAt(s, 0);
    assert Index(s, 0) == 1 && s[..1] == "a" && s[4..] == "b";
    assert Documents("b") == ["b"];
    ResultIsJoin(template, ["a", "b"], ["a", "b"]);
    assert ["a", "b"][1..] == ["b"] && Yaml.Join(["b"]) == "b";
    assert "a" + "---\n" + "b" == "a---\nb";
  }
}

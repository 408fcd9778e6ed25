/** Splitting a stream into YAML documents and normalising its line breaks. */
module Documents {
  const SEPARATOR := "---\n"

  // ----- Splitting at separator lines -----

  /** A separator that begins a line. */
  predicate SeparatorAt(t: string, i: int) {
    0 <= i <= |t| - 4 && t[i..i + 4] == SEPARATOR && (i == 0 || t[i - 1] == '\n')
  }

  /** The first separator at or after `i`, or the length of the text. */
  function NextSeparator(t: string, i: nat): (r: nat)
    requires i <= |t|
    ensures i <= r <= |t|
    ensures r < |t| ==> SeparatorAt(t, r)
    ensures forall k | i <= k < r :: !SeparatorAt(t, k)
    decreases |t| - i
  {
    if i == |t| || SeparatorAt(t, i) then i else NextSeparator(t, i + 1)
  }

  /** The text between the separator lines; what follows a separator begins a line. */
  function Split(t: string): (chunks: seq<string>)
    ensures chunks != []
    decreases |t|
  {
    var i := NextSeparator(t, 0);
    if i == |t| then [t] else [t[..i]] + Split(t[i + 4..])
  }

  function Join(chunks: seq<string>): string {
    if chunks == [] then ""
    else if |chunks| == 1 then chunks[0]
    else chunks[0] + SEPARATOR + Join(chunks[1..])
  }

  lemma JoinCons(d: string, rest: seq<string>)
    requires rest != []
    ensures Join([d] + rest) == d + SEPARATOR + Join(rest)
  {
    assert ([d] + rest)[1..] == rest;
  }

  lemma {:induction false} SplitIsLossless(t: string)
    ensures Join(Split(t)) == t
    decreases |t|
  {
    var i := NextSeparator(t, 0);
    if i < |t| {
      var rest := t[i + 4..];
      SplitIsLossless(rest);
      JoinCons(t[..i], Split(rest));
      assert t == t[..i] + t[i..i + 4] + rest;
    }
  }

  ghost predicate HasNoSeparator(d: string) {
    forall i :: !SeparatorAt(d, i)
  }

  predicate EndsLine(d: string) {
    d == "" || d[|d| - 1] == '\n'
  }

  /** Documents without separator lines, all but the last ending a line. */
  ghost predicate ProperDocuments(ds: seq<string>) {
    && ds != []
    && (forall i | 0 <= i < |ds| :: HasNoSeparator(ds[i]))
    && (forall i | 0 <= i < |ds| - 1 :: EndsLine(ds[i]))
  }

  /** In a text that starts with such a document and a separator, that separator comes first. */
  lemma FirstSeparator(d: string, rest: string)
    requires HasNoSeparator(d) && EndsLine(d)
    ensures NextSeparator(d + SEPARATOR + rest, 0) == |d|
  {
    var t := d + SEPARATOR + rest;
    assert t[|d|..|d| + 4] == SEPARATOR;
    assert SeparatorAt(t, |d|);
    forall k | 0 <= k < |d|
      ensures !SeparatorAt(t, k)
    {
      if k + 4 <= |d| {
        assert t[k..k + 4] == d[k..k + 4];
        assert !SeparatorAt(d, k);
      } else {
        assert t[k..k + 4][|d| - 1 - k] == '\n';
      }
    }
  }

  lemma {:induction false} ChunksAreProper(t: string)
    ensures ProperDocuments(Split(t))
    decreases |t|
  {
    var i := NextSeparator(t, 0);
    if i < |t| {
      ChunksAreProper(t[i + 4..]);
      forall k
        ensures !SeparatorAt(t[..i], k)
      {
        if 0 <= k <= i - 4 {
          assert t[..i][k..k + 4] == t[k..k + 4];
          assert !SeparatorAt(t, k);
        }
      }
      assert EndsLine(t[..i]);
      assert forall k | 1 <= k < |Split(t)| :: Split(t)[k] == Split(t[i + 4..])[k - 1];
    }
  }

  lemma Pieces(d: string, rest: string)
    ensures (d + SEPARATOR + rest)[..|d|] == d && (d + SEPARATOR + rest)[|d| + 4..] == rest
  {}

  lemma {:induction false} SplitAfterJoin(ds: seq<string>)
    requires ProperDocuments(ds)
    ensures Split(Join(ds)) == ds
  {
    if |ds| == 1 {
      assert HasNoSeparator(ds[0]);
    } else {
      var d, rest := ds[0], Join(ds[1..]);
      SplitAfterJoin(ds[1..]);
      FirstSeparator(d, rest);
      Pieces(d, rest);
      assert ds == [d] + ds[1..];
    }
  }

  /** Joining and splitting again gives the documents back exactly when they are proper ones. */
  lemma RoundTripIff(ds: seq<string>)
    ensures Split(Join(ds)) == ds <==> ProperDocuments(ds)
  {
    ChunksAreProper(Join(ds));
    if ProperDocuments(ds) {
      SplitAfterJoin(ds);
    }
  }

  // ----- Line breaks -----

  /** Replaces the occurrences of `old_`, left to right and without overlap. */
  function ReplaceAll(s: string, old_: string, new_: string): string
    requires old_ != ""
    decreases |s|
  {
    if s == "" then ""
    else if old_ <= s then new_ + ReplaceAll(s[|old_|..], old_, new_)
    else [s[0]] + ReplaceAll(s[1..], old_, new_)
  }

  /** Replaces each pair of line feeds by one. */
  function Collapse(s: string): string {
    ReplaceAll(s, "\n\n", "\n")
  }

  function CrToLf(s: string): string {
    ReplaceAll(s, "\r", "\n")
  }

  function ToLf(s: string): string {
    Collapse(CrToLf(s))
  }

  /** The same text with Windows line ends. */
  function Crlf(t: string): string {
    ReplaceAll(t, "\n", "\r\n")
  }

  lemma {:induction false} CrlfRoundTrip(t: string)
    requires '\r' !in t
    ensures ToLf(Crlf(t)) == t
    decreases |t|
  {
    if t != "" {
      CrlfRoundTrip(t[1..]);
      var rest := Crlf(t[1..]);
      if t[0] == '\n' {
        assert Crlf(t) == "\r\n" + rest;
        CrFirst(rest, "\n" + rest, "\r\n" + rest);
        PairFirst(ReplaceAll(rest, "\r", "\n"));
      } else {
        assert Crlf(t) == [t[0]] + rest;
        assert ([t[0]] + rest)[1..] == rest;
        var m := ReplaceAll(rest, "\r", "\n");
        assert ReplaceAll([t[0]] + rest, "\r", "\n") == [t[0]] + m;
        assert ([t[0]] + m)[1..] == m;
      }
    }
  }

  lemma CrFirst(rest: string, tail: string, whole: string)
    requires tail == "\n" + rest && whole == "\r\n" + rest
    ensures ReplaceAll(whole, "\r", "\n") == "\n\n" + ReplaceAll(rest, "\r", "\n")
  {
    assert whole[1..] == tail && tail[1..] == rest;
    assert whole[0] == '\r' && tail[0] == '\n';
    assert "\r" <= whole;
    assert ReplaceAll(tail, "\r", "\n") == "\n" + ReplaceAll(rest, "\r", "\n");
  }

  lemma PairFirst(m: string)
    ensures Collapse("\n\n" + m) == "\n" + Collapse(m)
  {
    assert ("\n\n" + m)[2..] == m;
    assert "\n\n" <= "\n\n" + m;
  }

  function Newlines(n: nat): string {
    seq(n, i => '\n')
  }

  /** One step of collapsing. */
  lemma CollapseStep(t: string)
    ensures t == "" ==> Collapse(t) == ""
    ensures |t| >= 2 && t[0] == '\n' && t[1] == '\n' ==> Collapse(t) == "\n" + Collapse(t[2..])
    ensures t != "" && (|t| < 2 || t[0] != '\n' || t[1] != '\n') ==> Collapse(t) == [t[0]] + Collapse(t[1..])
  {
    assert "\n\n" <= t <==> |t| >= 2 && t[0] == '\n' && t[1] == '\n';
  }

  lemma {:induction false} LeadingRunHalves(n: nat, after: string)
    requires after == "" || after[0] != '\n'
    ensures Collapse(Newlines(n) + after)
         == Newlines((n + 1) / 2) + Collapse(after)
  {
    var whole := Newlines(n) + after;
    if n == 0 {
      assert whole == after;
    } else if n == 1 {
      assert whole == "\n" + after && whole[1..] == after;
      CollapseStep(whole);
    } else {
      var k, rest := (n - 1) / 2, Newlines(n - 2) + after;
      LeadingRunHalves(n - 2, after);
      NewlinesCons(n - 1);
      NewlinesCons(n - 2);
      NewlinesCons(k);
      assert whole == "\n\n" + rest;
      PairFirst(rest);
      Associative("\n", Newlines(k), Collapse(after));
    }
  }

  lemma NewlinesCons(n: nat)
    ensures Newlines(n + 1) == "\n" + Newlines(n)
  {}

  lemma Associative(a: string, b: string, c: string)
    ensures a + (b + c) == (a + b) + c
  {}

  /** Text that does not end in a line break is collapsed independently of what follows it. */
  lemma {:induction false} CollapseSplits(before: string, rest: string)
    requires before == "" || before[|before| - 1] != '\n'
    ensures Collapse(before + rest) == Collapse(before) + Collapse(rest)
    decreases |before|
  {
    var whole := before + rest;
    CollapseStep(before);
    CollapseStep(whole);
    if before == "" {
      assert whole == rest;
    } else if |before| >= 2 && before[0] == '\n' && before[1] == '\n' {
      CollapseSplits(before[2..], rest);
      assert whole[2..] == before[2..] + rest;
      Associative("\n", Collapse(before[2..]), Collapse(rest));
    } else {
      CollapseSplits(before[1..], rest);
      assert whole[1..] == before[1..] + rest;
      Associative([before[0]], Collapse(before[1..]), Collapse(rest));
    }
  }

  /** A maximal run of n line feeds shrinks to half, rounded up, wherever it stands. */
  lemma CollapseRun(before: string, n: nat, after: string)
    requires before == "" || before[|before| - 1] != '\n'
    requires after == "" || after[0] != '\n'
    ensures Collapse(before + Newlines(n) + after)
         == Collapse(before) + Newlines((n + 1) / 2) + Collapse(after)
  {
    CollapseSplits(before, Newlines(n) + after);
    LeadingRunHalves(n, after);
    assert before + Newlines(n) + after == before + (Newlines(n) + after);
  }

  predicate DoubleAt(t: string, i: int) {
    0 <= i < |t| - 1 && t[i] == '\n' && t[i + 1] == '\n'
  }

  ghost predicate HasDoubleBreak(t: string) {
    exists i :: DoubleAt(t, i)
  }

  lemma {:induction false} CollapseShortens(t: string)
    ensures |Collapse(t)| <= |t|
    ensures Collapse(t) == t <==> !HasDoubleBreak(t)
    decreases |t|
  {
    CollapseStep(t);
    if DoubleAt(t, 0) {
      CollapseShortens(t[2..]);
    } else if t != "" {
      CollapseShortens(t[1..]);
      var r := Collapse(t[1..]);
      assert t == [t[0]] + t[1..] && ([t[0]] + r)[1..] == r;
      assert forall i :: DoubleAt(t[1..], i) ==> DoubleAt(t, i + 1);
      assert forall i :: DoubleAt(t, i) ==> i == 0 || DoubleAt(t[1..], i - 1);
    }
  }

  lemma {:induction false} CrRemoved(t: string)
    ensures |ReplaceAll(t, "\r", "\n")| == |t|
    ensures forall i | 0 <= i < |t| :: ReplaceAll(t, "\r", "\n")[i] == if t[i] == '\r' then '\n' else t[i]
    decreases |t|
  {
    if t != "" {
      CrRemoved(t[1..]);
      assert "\r" <= t <==> t[0] == '\r';
    }
  }

  lemma CrToLfSplits(a: string, b: string)
    ensures CrToLf(a + b) == CrToLf(a) + CrToLf(b)
  {
    CrRemoved(a);
    CrRemoved(b);
    CrRemoved(a + b);
  }

  predicate IsBreak(c: char) {
    c == '\r' || c == '\n'
  }

  /** A maximal run of n line breaks of any kind becomes n/2 line feeds, rounded up, wherever it
      stands. */
  lemma RunHalves(before: string, run: string, after: string)
    requires forall i | 0 <= i < |run| :: IsBreak(run[i])
    requires before == "" || !IsBreak(before[|before| - 1])
    requires after == "" || !IsBreak(after[0])
    ensures ToLf(before + run + after) == ToLf(before) + Newlines((|run| + 1) / 2) + ToLf(after)
  {
    CrToLfSplits(before + run, after);
    CrToLfSplits(before, run);
    CrRemoved(before);
    CrRemoved(run);
    CrRemoved(after);
    assert CrToLf(run) == Newlines(|run|);
    CollapseRun(CrToLf(before), |run|, CrToLf(after));
  }

  /** Normalising is harmless exactly for texts without carriage returns and without blank lines:
      every blank line of a text with plain line feeds is lost. */
  lemma UnchangedIff(t: string)
    ensures ToLf(t) == t <==> '\r' !in t && !HasDoubleBreak(t)
  {
    CrRemoved(t);
    var u := ReplaceAll(t, "\r", "\n");
    CollapseShortens(u);
    if '\r' !in t {
      assert u == t;
    } else {
      NoCrLeft(u);
    }
  }

  lemma {:induction false} NoCrLeft(u: string)
    requires '\r' !in u
    ensures '\r' !in Collapse(u)
    decreases |u|
  {
    if u != "" {
      if "\n\n" <= u {
        NoCrLeft(u[2..]);
      } else {
        NoCrLeft(u[1..]);
      }
    }
  }

  /** No carriage return is left; a text without one and without blank lines stays as it is, and only
      such a text; the CRLF form of any text without a carriage return gives that text. */
  method BytesToUtf8Lf(file: string) returns (val: string)
    ensures val == ToLf(file)
    ensures '\r' !in val
    ensures val == file <==> '\r' !in file && !HasDoubleBreak(file)
    ensures forall t | '\r' !in t && file == Crlf(t) :: val == t
  {
    val := file;
    val := ReplaceAll(val, "\r", "\n");
    CrRemoved(file);
    NoCrLeft(val);
    val := ReplaceAll(val, "\n\n", "\n");
    UnchangedIff(file);
    forall t | '\r' !in t && file == Crlf(t)
      ensures ToLf(file) == t
    {
      CrlfRoundTrip(t);
    }
  }
}

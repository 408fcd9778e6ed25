/** Turning a name into a DNS-compatible slug of bounded length. */
module DnsName {
  import opened Manifests

  const MAX_LENGTH := 40

  // ----- The cleaning pipeline -----

  /** Case folding as far as it matters here: two letters outside ASCII fold to ASCII ones, and all
      others outside ASCII stay outside. */
  function ToLower(c: char): char {
    if 'A' <= c <= 'Z' then c - 'A' + 'a'
    else if c == '\U{0130}' then 'i'
    else if c == '\U{212A}' then 'k'
    else c
  }

  predicate Authorized(c: char) {
    'a' <= c <= 'z' || 'A' <= c <= 'Z' || '0' <= c <= '9' || c == '-' || c == '.'
  }

  function TrimLeft(s: string, cut: char -> bool): string {
    if s != "" && cut(s[0]) then TrimLeft(s[1..], cut) else s
  }

  function TrimRight(s: string, cut: char -> bool): string {
    if s != "" && cut(s[|s| - 1]) then TrimRight(s[..|s| - 1], cut) else s
  }

  function Trim(s: string, cut: char -> bool): string {
    TrimRight(TrimLeft(s, cut), cut)
  }

  function MapChars(s: string, f: char -> char): string {
    seq(|s|, i requires 0 <= i < |s| => f(s[i]))
  }

  function DashUnlessAuthorized(c: char): char {
    if Authorized(c) then c else '-'
  }

  /** Runs of dashes become one dash. */
  function Squeeze(s: string): string {
    if s == "" then ""
    else
      var n := |s| - 1;
      var init := Squeeze(s[..n]);
      if s[n] == '-' && init != "" && init[|init| - 1] == '-' then init else init + [s[n]]
  }

  predicate DashOrUnderscore(c: char) {
    c == '-' || c == '_'
  }

  predicate Dash(c: char) {
    c == '-'
  }

  function Cleaned(s: string): string {
    Trim(Squeeze(MapChars(MapChars(Trim(s, IsSpace), ToLower), DashUnlessAuthorized)), DashOrUnderscore)
  }

  // ----- What cleaning guarantees -----

  predicate SlugChar(c: char) {
    'a' <= c <= 'z' || '0' <= c <= '9' || c == '-' || c == '.'
  }

  predicate DoubleDashAt(s: string, i: int) {
    0 <= i < |s| - 1 && s[i] == '-' && s[i + 1] == '-'
  }

  predicate SingleDashes(s: string) {
    forall i | 0 <= i < |s| :: !DoubleDashAt(s, i)
  }

  predicate SlugChars(s: string) {
    forall i | 0 <= i < |s| :: SlugChar(s[i])
  }

  /** Lower-case slug characters, single dashes, none at either end. */
  predicate Clean(s: string) {
    && SlugChars(s) && SingleDashes(s)
    && (s != "" ==> s[0] != '-' && s[|s| - 1] != '-')
  }

  lemma {:induction false} TrimLeftFacts(s: string, cut: char -> bool)
    ensures var r := TrimLeft(s, cut); |r| <= |s| && r == s[|s| - |r|..]
    ensures TrimLeft(s, cut) != "" ==> !cut(TrimLeft(s, cut)[0])
    ensures s == "" || !cut(s[0]) ==> TrimLeft(s, cut) == s
  {
    if s != "" && cut(s[0]) {
      TrimLeftFacts(s[1..], cut);
    }
  }

  lemma {:induction false} TrimRightFacts(s: string, cut: char -> bool)
    ensures var r := TrimRight(s, cut); |r| <= |s| && r == s[..|r|]
    ensures TrimRight(s, cut) != "" ==> !cut(TrimRight(s, cut)[|TrimRight(s, cut)| - 1])
    ensures s == "" || !cut(s[|s| - 1]) ==> TrimRight(s, cut) == s
  {
    if s != "" && cut(s[|s| - 1]) {
      TrimRightFacts(s[..|s| - 1], cut);
    }
  }

  /** Trimming yields a slice whose ends are not cut characters. */
  lemma TrimFacts(s: string, cut: char -> bool) returns (i: nat, j: nat)
    ensures i <= j <= |s| && Trim(s, cut) == s[i..j]
    ensures i < j ==> !cut(s[i]) && !cut(s[j - 1])
  {
    TrimLeftFacts(s, cut);
    var l := TrimLeft(s, cut);
    TrimRightFacts(l, cut);
    i := |s| - |l|;
    j := i + |Trim(s, cut)|;
    assert l[..j - i] == s[i..j];
    if i < j {
      assert l[0] == s[i] && l[..j - i][j - i - 1] == s[j - 1];
    }
  }

  lemma TrimNothing(s: string, cut: char -> bool)
    requires s != "" ==> !cut(s[0]) && !cut(s[|s| - 1])
    ensures Trim(s, cut) == s
  {
    TrimLeftFacts(s, cut);
    TrimRightFacts(s, cut);
  }

  lemma SliceStays(s: string, i: nat, j: nat)
    requires i <= j <= |s| && SlugChars(s) && SingleDashes(s)
    ensures SlugChars(s[i..j]) && SingleDashes(s[i..j])
  {
    forall k | 0 <= k < j - i
      ensures !DoubleDashAt(s[i..j], k)
    {
      assert !DoubleDashAt(s, i + k);
    }
  }

  lemma SingleDashesAppend(s: string, c: char)
    requires SingleDashes(s) && (c != '-' || s == "" || s[|s| - 1] != '-')
    ensures SingleDashes(s + [c])
  {
    forall k | 0 <= k < |s + [c]|
      ensures !DoubleDashAt(s + [c], k)
    {
      if k < |s| {
        assert !DoubleDashAt(s, k);
      }
    }
  }

  lemma {:induction false} SqueezeFacts(s: string)
    requires SlugChars(s)
    ensures SlugChars(Squeeze(s)) && SingleDashes(Squeeze(s))
  {
    if s != "" {
      var n := |s| - 1;
      SqueezeFacts(s[..n]);
      var init := Squeeze(s[..n]);
      if s[n] != '-' || init == "" || init[|init| - 1] != '-' {
        SingleDashesAppend(init, s[n]);
      }
    }
  }

  lemma {:induction false} SqueezeNothing(s: string)
    requires SlugChars(s) && SingleDashes(s)
    ensures Squeeze(s) == s
  {
    if s != "" {
      var n := |s| - 1;
      SliceStays(s, 0, n);
      assert s[0..n] == s[..n];
      SqueezeNothing(s[..n]);
      assert n == 0 || !DoubleDashAt(s, n - 1);
      assert s == s[..n] + [s[n]];
    }
  }

  lemma FoldedChar(c: char)
    ensures SlugChar(DashUnlessAuthorized(ToLower(c)))
    ensures SlugChar(c) ==> ToLower(c) == c && DashUnlessAuthorized(c) == c && !IsSpace(c)
  {}

  lemma FoldedChars(s: string)
    ensures SlugChars(MapChars(MapChars(s, ToLower), DashUnlessAuthorized))
    ensures SlugChars(s) ==> MapChars(MapChars(s, ToLower), DashUnlessAuthorized) == s
  {
    forall i | 0 <= i < |s|
      ensures SlugChar(DashUnlessAuthorized(ToLower(s[i])))
      ensures SlugChar(s[i]) ==> DashUnlessAuthorized(ToLower(s[i])) == s[i]
    {
      FoldedChar(s[i]);
    }
  }

  lemma CleanedIsClean(s: string)
    ensures Clean(Cleaned(s))
  {
    var trimmed := Trim(s, IsSpace);
    var dashed := MapChars(MapChars(trimmed, ToLower), DashUnlessAuthorized);
    FoldedChars(trimmed);
    SqueezeFacts(dashed);
    var i, j := TrimFacts(Squeeze(dashed), DashOrUnderscore);
    SliceStays(Squeeze(dashed), i, j);
  }

  lemma CleanStays(s: string)
    requires Clean(s)
    ensures Cleaned(s) == s
  {
    forall i | 0 <= i < |s|
      ensures !IsSpace(s[i]) && s[i] != '_'
    {
      FoldedChar(s[i]);
    }
    TrimNothing(s, IsSpace);
    FoldedChars(s);
    SqueezeNothing(s);
    TrimNothing(s, DashOrUnderscore);
  }

  // ----- Truncation -----

  /** The position of the last dash at or before `i`, or -1. */
  function LastDash(s: string, i: int): (r: int)
    requires -1 <= i < |s|
    ensures -1 <= r <= i && (r >= 0 ==> s[r] == '-')
    ensures forall k | r < k <= i :: s[k] != '-'
  {
    if i == -1 || s[i] == '-' then i else LastDash(s, i - 1)
  }

  /** What an over-long clean slug becomes: itself at 41 bytes with a dash, else everything before
      the last dash that leaves at most 40 bytes, else its first 40 bytes. */
  function Truncated(slug: string): string
    requires |slug| > MAX_LENGTH
  {
    if |slug| == MAX_LENGTH + 1 && '-' in slug then slug
    else
      var cut := LastDash(slug, MAX_LENGTH);
      if cut == -1 then slug[..MAX_LENGTH] else slug[..cut]
  }

  function Name(s: string): string {
    var slug := Cleaned(s);
    if |slug| > MAX_LENGTH then Truncated(slug) else slug
  }

  // ----- The word loop -----

  /** Where the word that starts at `i` ends: just after the next dash, or at the end of the text. */
  function WordEnd(s: string, i: nat): (r: nat)
    requires i < |s|
    ensures i < r <= |s|
    ensures forall k | i <= k < r - 1 :: s[k] != '-'
    ensures r < |s| ==> s[r - 1] == '-'
    decreases |s| - i
  {
    if s[i] == '-' || i + 1 == |s| then i + 1 else WordEnd(s, i + 1)
  }

  /** Splits after each dash. */
  function SplitAfterDash(s: string, i: nat): (words: seq<string>)
    requires i < |s|
    ensures words != [] && words[0] == s[i..WordEnd(s, i)]
    decreases |s| - i
  {
    var r := WordEnd(s, i);
    if r == |s| then [s[i..r]] else [s[i..r]] + SplitAfterDash(s, r)
  }

  /** The first `k` words make up the first `at` characters. */
  ghost predicate WordsUpTo(s: string, words: seq<string>, k: nat, at: nat) {
    && k <= |words| && at <= |s|
    && (k < |words| <==> at < |s|)
    && (k < |words| ==> words[k..] == SplitAfterDash(s, at))
    && (k > 0 ==> at > 0)
    && (0 < at < |s| ==> s[at - 1] == '-')
  }

  /** Taking the next word moves to where it ends. */
  lemma WordsNext(s: string, words: seq<string>, k: nat, at: nat) returns (next: nat)
    requires WordsUpTo(s, words, k, at) && k < |words|
    ensures next == WordEnd(s, at) == at + |words[k]| && WordsUpTo(s, words, k + 1, next)
    ensures s[..at] + words[k] == s[..next]
  {
    next := WordEnd(s, at);
    assert words[k..][0] == words[k] && words[k..][1..] == words[k + 1..];
    if next < |s| {
      assert SplitAfterDash(s, at)[1..] == SplitAfterDash(s, next);
    }
  }

  /** The first word alone decides whether any dash comes early enough. */
  lemma FirstWord(slug: string)
    requires Clean(slug) && |slug| > MAX_LENGTH
    ensures WordEnd(slug, 0) > MAX_LENGTH ==> Truncated(slug) == slug[..WordEnd(slug, 0)][..MAX_LENGTH]
    ensures WordEnd(slug, 0) <= MAX_LENGTH ==> '-' in slug
  {
    var r := WordEnd(slug, 0);
    if r > MAX_LENGTH {
      assert slug[..r][..MAX_LENGTH] == slug[..MAX_LENGTH];
      assert |slug| == MAX_LENGTH + 1 ==> '-' !in slug;
    } else {
      assert slug[r - 1] == '-';
    }
  }

  /** Keeps whole words while they fit. */
  method TruncateAtWords(slug: string) returns (name: string)
    requires Clean(slug) && |slug| > MAX_LENGTH
    ensures name == Truncated(slug)
  {
    var truncated := "";
    var words := SplitAfterDash(slug, 0);
    FirstWord(slug);
    if |words[0]| > MAX_LENGTH {
      return words[0][..MAX_LENGTH];
    }
    var k: nat := 0;
    ghost var at: nat := 0;
    while k < |words|
      invariant WordsUpTo(slug, words, k, at)
      invariant truncated == slug[..at] && at <= MAX_LENGTH + 1
    {
      var word := words[k];
      ghost var next := WordsNext(slug, words, k, at);
      if |truncated| + |word| - 1 > MAX_LENGTH {
        break;
      }
      truncated := truncated + word;
      at := next;
      k := k + 1;
    }
    TruncatedHere(slug, at);
    name := Trim(truncated, Dash);
  }

  method GetDNS1192Name(s: string) returns (name: string)
    ensures name == Name(s)
  {
    var slug := Trim(s, IsSpace);
    slug := MapChars(slug, ToLower);
    slug := MapChars(slug, DashUnlessAuthorized);
    slug := Squeeze(slug);
    slug := Trim(slug, DashOrUnderscore);
    CleanedIsClean(s);
    if |slug| <= MAX_LENGTH {
      return slug;
    }
    name := TruncateAtWords(slug);
  }

  lemma TruncatedHere(slug: string, at: nat)
    requires Clean(slug) && |slug| > MAX_LENGTH && 0 < at <= |slug| && at <= MAX_LENGTH + 1
    requires at < |slug| ==> slug[at - 1] == '-' && WordEnd(slug, at) - 1 > MAX_LENGTH
    requires at == |slug| ==> '-' in slug
    ensures Trim(slug[..at], Dash) == Truncated(slug)
  {
    if at == |slug| {
      assert slug[..at] == slug;
      TrimNothing(slug, Dash);
    } else {
      assert !DoubleDashAt(slug, at - 2);
      assert slug[at - 2] != '-';
      assert Trim(slug[..at], Dash) == slug[..at - 1] by {
        TrimLeftFacts(slug[..at], Dash);
        assert slug[..at][..at - 1] == slug[..at - 1];
        TrimRightFacts(slug[..at - 1], Dash);
      }
    }
  }

  // ----- The guarantees -----

  /** Only slug characters, no double dash, no dash at either end. */
  lemma NameIsClean(s: string)
    ensures Clean(Name(s))
  {
    CleanedIsClean(s);
    var slug := Cleaned(s);
    if |slug| > MAX_LENGTH && Name(s) != slug {
      var cut := LastDash(slug, MAX_LENGTH);
      var n := if cut == -1 then MAX_LENGTH else cut;
      SliceStays(slug, 0, n);
      assert slug[0..n] == slug[..n];
      if cut > 0 {
        assert !DoubleDashAt(slug, cut - 1);
      }
    }
  }

  /** At most 40 bytes, except exactly for cleaned slugs of 41 bytes that contain a dash. */
  lemma LengthIff(s: string)
    ensures |Name(s)| <= MAX_LENGTH <==> !(|Cleaned(s)| == MAX_LENGTH + 1 && '-' in Cleaned(s))
    ensures |Name(s)| <= MAX_LENGTH + 1
  {}

  /** Concretely: 39 letters, a dash and a letter are returned whole. */
  lemma FortyOneBytes()
    ensures var s := seq(39, i => 'a') + "-b"; Name(s) == s && |Name(s)| == MAX_LENGTH + 1
  {
    var s := seq(39, i => 'a') + "-b";
    assert s[39] == '-' && s[40] == 'b';
    assert forall i | 0 <= i < 39 :: s[i] == 'a';
    CleanStays(s);
  }

  lemma Idempotent(s: string)
    ensures Name(Name(s)) == Name(s)
  {
    NameIsClean(s);
    CleanStays(Name(s));
    LengthIff(s);
  }

  /** A shortened name is the longest prefix of whole words that fits, if the first word fits, and
      the first 40 bytes of that word otherwise. */
  lemma LongestWholeWords(s: string)
    requires |Name(s)| < |Cleaned(s)|
    ensures var slug, n := Cleaned(s), |Name(s)|;
            && Name(s) == slug[..n] && n <= MAX_LENGTH
            && (forall k | n < k <= MAX_LENGTH :: slug[k] != '-')
            && (slug[n] == '-' || (n == MAX_LENGTH && forall k | 0 <= k <= n :: slug[k] != '-'))
  {}

  /** The small letter of a capital one: the thirty-second character after it. */
  predicate Folds(c: char, d: char) {
    if 'A' <= c <= 'Z' then d as int == c as int + 32 else d == c
  }

  predicate LetterOrDigit(c: char) {
    'a' <= c <= 'z' || 'A' <= c <= 'Z' || '0' <= c <= '9'
  }

  /** A word of letters and digits keeps its length, digits and small letters; capitals become small. */
  lemma WordFolds(s: string)
    requires s != "" && |s| <= MAX_LENGTH && forall i | 0 <= i < |s| :: LetterOrDigit(s[i])
    ensures |Name(s)| == |s| && forall i | 0 <= i < |s| :: Folds(s[i], Name(s)[i])
  {
    TrimNothing(s, IsSpace);
    var mapped := MapChars(MapChars(s, ToLower), DashUnlessAuthorized);
    forall i | 0 <= i < |s|
      ensures Folds(s[i], mapped[i]) && SlugChar(mapped[i]) && mapped[i] != '-' && mapped[i] != '_'
    {}
    SqueezeNothing(mapped);
    TrimNothing(mapped, DashOrUnderscore);
  }

  lemma SqueezeSnoc(s: string, c: char)
    ensures Squeeze(s + [c]) ==
            if c == '-' && Squeeze(s) != "" && Squeeze(s)[|Squeeze(s)| - 1] == '-' then Squeeze(s) else Squeeze(s) + [c]
  {
    assert (s + [c])[..|s|] == s;
  }

  lemma TrimExample()
    ensures Trim(" A__b ", IsSpace) == "A__b"
  {
    var s := " A__b ";
    assert TrimLeft(s[1..], IsSpace) == s[1..] == "A__b ";
    assert TrimRight("A__b", IsSpace) == "A__b" && "A__b "[..4] == "A__b";
  }

  lemma MapExample()
    ensures MapChars(MapChars("A__b", ToLower), DashUnlessAuthorized) == "a--b"
  {
    assert ToLower('A') == 'a' && ToLower('_') == '_' && ToLower('b') == 'b';
    assert MapChars("A__b", ToLower) == "a__b";
    assert DashUnlessAuthorized('a') == 'a' && DashUnlessAuthorized('_') == '-' && DashUnlessAuthorized('b') == 'b';
  }

  lemma SqueezeExample()
    ensures Squeeze("a--b") == "a-b"
  {
    SqueezeSnoc("", 'a');
    SqueezeSnoc("a", '-');
    SqueezeSnoc("a-", '-');
    SqueezeSnoc("a--", 'b');
    assert "" + ['a'] == "a" && "a" + ['-'] == "a-" && "a-" + ['-'] == "a--" && "a--" + ['b'] == "a--b";
  }

  /** Concretely: a capital, spaces around, and two characters in a row that are not allowed. */
  lemma NameExample()
    ensures Name(" A__b ") == "a-b"
  {
    TrimExample();
    MapExample();
    SqueezeExample();
    TrimNothing("a-b", DashOrUnderscore);
  }

  /** A dash that is left at an end goes, and so does an underscore, which has become one. */
  lemma EndsTrimmed()
    ensures Name("_a") == "a"
  {
    TrimNothing("_a", IsSpace);
    assert MapChars(MapChars("_a", ToLower), DashUnlessAuthorized) == "-a";
    SqueezeSnoc("", '-');
    SqueezeSnoc("-", 'a');
    assert "" + ['-'] == "-" && "-" + ['a'] == "-a";
    assert TrimLeft("-a", DashOrUnderscore) == TrimLeft("a", DashOrUnderscore) == "a";
  }

  /** The two signs outside ASCII whose small letters are inside. */
  lemma ForeignCapitals()
    ensures ToLower('\U{0130}') == 'i' && ToLower('\U{212A}') == 'k'
    ensures forall c: char | 'Z' < c && c != '\U{0130}' && c != '\U{212A}' :: ToLower(c) == c
  {}
}

/**
 * The keyword router that decides whether a question is about one of the two
 * products and so worth answering with retrieved context. The six regular
 * expressions are modelled as an explicit matcher over the lowered text, and
 * proved equal to the regular-expression reading of the patterns.
 */
module Routing {
  import opened Wrappers
  import opened Text

  /** A keyword pattern: `head\s*tail`, or a literal word (`.` escaped to a plain dot). */
  datatype Pattern = Spaced(head: string, tail: string) | Literal(word: string)

  /** The patterns in the order the router tries them. */
  const KeywordPatterns: seq<Pattern> := [
    Spaced("platform", "ai"),
    Spaced("token", "ai"),
    Literal("platform.ai"),
    Literal("token.ai"),
    Literal("platformai"),
    Literal("tokenai")
  ]

  /** The first letters of a pattern: every match of it starts with these. */
  function Lead(p: Pattern): string {
    match p
    case Spaced(a, _) => a
    case Literal(w) => w
  }

  /** Patterns whose greedy matching of `\s*` loses no match: the tail does not start with whitespace. */
  predicate WellFormed(p: Pattern) {
    match p
    case Spaced(_, b) => b != [] && !IsSpace(b[0])
    case Literal(_) => true
  }

  // ---------------------------------------------------------------- the matcher

  /** Does `p` match at the very start of `s`? The gap `\s*` takes every whitespace code point there is. */
  predicate MatchesAt(p: Pattern, s: string) {
    match p
    case Literal(w) => StartsWith(s, w)
    case Spaced(a, b) =>
      StartsWith(s, a) && var rest := s[|a|..]; StartsWith(rest[LeadingSpaces(rest)..], b)
  }

  /** Python's `re.search`: does `p` match at some position of `s`? */
  predicate Search(p: Pattern, s: string)
    decreases |s|
  {
    MatchesAt(p, s) || (s != [] && Search(p, s[1..]))
  }

  /** Does any of `patterns` occur in `text`? */
  predicate AnyMatch(patterns: seq<Pattern>, text: string) {
    exists p | p in patterns :: Search(p, text)
  }

  /**
   * `should_use_rag`: lower the question (None counting as empty) and look for any keyword pattern.
   * The answer is the regular-expression reading of the keyword list on the lowered question.
   */
  predicate ShouldUseRag(question: Option<string>)
    ensures ShouldUseRag(question) <==> MentionsProduct(Lower(question.GetOr("")))
  {
    KeywordsMeaning(Lower(question.GetOr("")));
    AnyMatch(KeywordPatterns, Lower(question.GetOr("")))
  }

  // ---------------------------------------------------------------- regular-expression reading

  /** The whole of `u` is a match of `p`: for `head\s*tail`, the head, only whitespace, then the tail. */
  ghost predicate FullMatch(p: Pattern, u: string) {
    match p
    case Literal(w) => u == w
    case Spaced(a, b) =>
      |a| + |b| <= |u| && u[..|a|] == a && u[|u| - |b|..] == b && AllSpace(u[|a|..|u| - |b|])
  }

  /** Some slice of `t` is a match of `p`: what `re.search` is defined to find. */
  ghost predicate RegexSearch(p: Pattern, t: string) {
    exists i, j :: 0 <= i <= j <= |t| && FullMatch(p, t[i..j])
  }

  /**
   * The router's meaning: the lowered text holds `platform` or `token`, any
   * run of whitespace, then `ai`; or it holds `platform.ai` or `token.ai`.
   */
  ghost predicate MentionsProduct(t: string) {
    || RegexSearch(Spaced("platform", "ai"), t)
    || RegexSearch(Spaced("token", "ai"), t)
    || RegexSearch(Literal("platform.ai"), t)
    || RegexSearch(Literal("token.ai"), t)
  }

  /** A match at the start of `s` covers a prefix of `s` that is a full match; `j` is its length. */
  lemma MatchesAtSound(p: Pattern, s: string) returns (j: nat)
    requires MatchesAt(p, s)
    ensures j <= |s| && FullMatch(p, s[..j])
  {
    match p
    case Literal(w) =>
      j := |w|;
    case Spaced(a, b) =>
      var k := LeadingSpaces(s[|a|..]);
      j := |a| + k + |b|;
      SpacedPrefix(a, b, s, k);
  }

  /** The prefix of `s` that the matcher accepts for `a\s*b`: `a`, the `k` spaces after it, then `b`. */
  lemma SpacedPrefix(a: string, b: string, s: string, k: nat)
    requires StartsWith(s, a) && k == LeadingSpaces(s[|a|..]) && StartsWith(s[|a|..][k..], b)
    ensures |a| + k + |b| <= |s| && FullMatch(Spaced(a, b), s[..|a| + k + |b|])
  {
    var rest := s[|a|..];
    var u := s[..|a| + k + |b|];
    LeadingSpacesPrefix(rest);
    assert u[..|a|] == a by {
      assert u[..|a|] == s[..|a|];
    }
    assert u[|u| - |b|..] == b by {
      assert |u| - |b| == |a| + k;
      assert u[|a| + k..] == s[|a| + k..|a| + k + |b|];
      assert s[|a| + k..|a| + k + |b|] == rest[k..][..|b|];
    }
    assert u[|a|..|u| - |b|] == rest[..k];
  }

  /** A prefix of `s` that fully matches a well-formed pattern is found by the matcher. */
  lemma MatchesAtComplete(p: Pattern, s: string, j: nat)
    requires WellFormed(p) && j <= |s| && FullMatch(p, s[..j])
    ensures MatchesAt(p, s)
  {
    match p
    case Literal(w) =>
      assert s[..|w|] == s[..j];
    case Spaced(a, b) =>
      var u := s[..j];
      var rest := s[|a|..];
      var m := |u| - |b| - |a|;
      var gap := u[|a|..|u| - |b|];
      assert s[..|a|] == u[..|a|];
      forall t | 0 <= t < m ensures IsSpace(rest[t]) {
        assert rest[t] == gap[t];
      }
      assert rest[m] == u[|u| - |b|..][0];
      LeadingSpacesUnique(rest, m);
      assert rest[m..][..|b|] == u[|u| - |b|..];
  }

  /** A full match at `t[i..j]` is a match of the regular expression in `t`. */
  lemma Found(p: Pattern, t: string, i: nat, j: nat)
    requires i <= j <= |t| && FullMatch(p, t[i..j])
    ensures RegexSearch(p, t)
  {
  }

  /** The position of some match of the regular expression in `t`. */
  lemma Witness(p: Pattern, t: string) returns (i: nat, j: nat)
    requires RegexSearch(p, t)
    ensures i <= j <= |t| && FullMatch(p, t[i..j])
  {
    i, j :| 0 <= i <= j <= |t| && FullMatch(p, t[i..j]);
  }

  /** A full match of a prefix is a match in `t`. */
  lemma FoundAtStart(p: Pattern, t: string, j: nat)
    requires j <= |t| && FullMatch(p, t[..j])
    ensures RegexSearch(p, t)
  {
    assert t[0..j] == t[..j];
    Found(p, t, 0, j);
  }

  /** A match in the tail of `t` is a match in `t`. */
  lemma FoundInTail(p: Pattern, t: string)
    requires t != [] && RegexSearch(p, t[1..])
    ensures RegexSearch(p, t)
  {
    var i, j := Witness(p, t[1..]);
    TailSlice(t, i + 1, j + 1);
    Found(p, t, i + 1, j + 1);
  }

  /** Whatever the matcher finds, the regular expression finds. */
  lemma {:induction false} SearchSound(p: Pattern, t: string)
    requires Search(p, t)
    ensures RegexSearch(p, t)
    decreases |t|
  {
    if MatchesAt(p, t) {
      var j := MatchesAtSound(p, t);
      FoundAtStart(p, t, j);
    } else {
      assert t != [] && Search(p, t[1..]);
      SearchSound(p, t[1..]);
      FoundInTail(p, t);
    }
  }

  /** A slice of the tail of `t` is the slice of `t` one further on. */
  lemma TailSlice(t: string, i: nat, j: nat)
    requires 1 <= i <= j <= |t|
    ensures t[1..][i - 1..j - 1] == t[i..j]
  {
    forall k | 0 <= k < j - i ensures t[1..][i - 1..j - 1][k] == t[i..j][k] {
      assert t[1..][i - 1..j - 1][k] == t[i + k];
    }
  }

  /** Whatever the regular expression finds at `t[i..j]`, the matcher finds. */
  lemma {:induction false} SearchComplete(p: Pattern, t: string, i: nat, j: nat)
    requires WellFormed(p) && i <= j <= |t| && FullMatch(p, t[i..j])
    ensures Search(p, t)
    decreases i
  {
    if i == 0 {
      assert t[..j] == t[i..j];
      MatchesAtComplete(p, t, j);
    } else {
      TailSlice(t, i, j);
      SearchComplete(p, t[1..], i - 1, j - 1);
    }
  }

  /** The matcher finds exactly what the regular expression finds. */
  lemma SearchIff(p: Pattern, t: string)
    requires WellFormed(p)
    ensures Search(p, t) <==> RegexSearch(p, t)
  {
    if Search(p, t) {
      SearchSound(p, t);
    }
    if RegexSearch(p, t) {
      var i, j := Witness(p, t);
      SearchComplete(p, t, i, j);
    }
  }

  /** A literal `head + tail` is also a `head\s*tail` with an empty gap. */
  lemma JoinedIsSpaced(a: string, b: string, t: string)
    requires RegexSearch(Literal(a + b), t)
    ensures RegexSearch(Spaced(a, b), t)
  {
    var i, j := Witness(Literal(a + b), t);
    var u := t[i..j];
    assert u[..|a|] == a && u[|u| - |b|..] == b && u[|a|..|u| - |b|] == [];
    assert FullMatch(Spaced(a, b), u);
    Found(Spaced(a, b), t, i, j);
  }

  // ---------------------------------------------------------------- properties

  /** `AnyMatch` over the keyword list, and over its first four patterns, spelled out. */
  lemma KeywordCases(t: string)
    ensures AnyMatch(KeywordPatterns[..4], t) <==>
      Search(Spaced("platform", "ai"), t) || Search(Spaced("token", "ai"), t) ||
      Search(Literal("platform.ai"), t) || Search(Literal("token.ai"), t)
    ensures AnyMatch(KeywordPatterns, t) <==>
      AnyMatch(KeywordPatterns[..4], t) || Search(Literal("platformai"), t) || Search(Literal("tokenai"), t)
  {
    assert KeywordPatterns[..4] == [Spaced("platform", "ai"), Spaced("token", "ai"), Literal("platform.ai"), Literal("token.ai")];
    assert KeywordPatterns == KeywordPatterns[..4] + [Literal("platformai"), Literal("tokenai")];
  }

  /** `platformai` and `tokenai` add nothing: `\s*` already matches zero whitespace. */
  lemma RedundantPatterns(t: string)
    ensures AnyMatch(KeywordPatterns, t) <==> AnyMatch(KeywordPatterns[..4], t)
  {
    KeywordCases(t);
    if Search(Literal("platformai"), t) {
      SearchIff(Literal("platformai"), t);
      assert "platformai" == "platform" + "ai";
      JoinedIsSpaced("platform", "ai", t);
      SearchIff(Spaced("platform", "ai"), t);
    }
    if Search(Literal("tokenai"), t) {
      SearchIff(Literal("tokenai"), t);
      assert "tokenai" == "token" + "ai";
      JoinedIsSpaced("token", "ai", t);
      SearchIff(Spaced("token", "ai"), t);
    }
  }

  /** The router answers yes exactly when the lowered question mentions a product. */
  lemma ShouldUseRagMeaning(question: Option<string>)
    ensures ShouldUseRag(question) <==> MentionsProduct(Lower(question.GetOr("")))
  {
    KeywordsMeaning(Lower(question.GetOr("")));
  }

  /** The keyword list finds a match in `t` exactly when `t` mentions a product. */
  lemma KeywordsMeaning(t: string)
    ensures AnyMatch(KeywordPatterns, t) <==> MentionsProduct(t)
  {
    KeywordCases(t);
    RedundantPatterns(t);
    SearchIff(Spaced("platform", "ai"), t);
    SearchIff(Spaced("token", "ai"), t);
    SearchIff(Literal("platform.ai"), t);
    SearchIff(Literal("token.ai"), t);
  }

  /** No question, or an empty one, never triggers retrieval. */
  lemma NoQuestionNoRag()
    ensures !ShouldUseRag(None)
    ensures !ShouldUseRag(Some(""))
  {
    assert Lower("") == "";
    forall p | p in KeywordPatterns ensures !Search(p, "") {
    }
  }

  /** Upper and lower case make no difference. */
  lemma CaseInsensitive(q: string)
    ensures ShouldUseRag(Some(q)) == ShouldUseRag(Some(Lower(q)))
  {
    LowerIdempotent(q);
  }

  /** A match anywhere in `t` is still a match once text is put around `t`. */
  lemma RegexSearchExtends(p: Pattern, t: string, x: string, y: string)
    requires RegexSearch(p, t)
    ensures RegexSearch(p, x + t + y)
  {
    var i, j := Witness(p, t);
    assert (x + t + y)[i + |x|..j + |x|] == t[i..j];
    Found(p, x + t + y, i + |x|, j + |x|);
  }

  /** The search is not anchored: surrounding a routed question with more text keeps it routed. */
  lemma RagUnanchored(q: string, a: string, b: string)
    ensures ShouldUseRag(Some(q)) ==> ShouldUseRag(Some(a + q + b))
  {
    ShouldUseRagMeaning(Some(q));
    ShouldUseRagMeaning(Some(a + q + b));
    LowerAppend(a + q, b);
    LowerAppend(a, q);
    var t := Lower(q);
    if RegexSearch(Spaced("platform", "ai"), t) { RegexSearchExtends(Spaced("platform", "ai"), t, Lower(a), Lower(b)); }
    if RegexSearch(Spaced("token", "ai"), t) { RegexSearchExtends(Spaced("token", "ai"), t, Lower(a), Lower(b)); }
    if RegexSearch(Literal("platform.ai"), t) { RegexSearchExtends(Literal("platform.ai"), t, Lower(a), Lower(b)); }
    if RegexSearch(Literal("token.ai"), t) { RegexSearchExtends(Literal("token.ai"), t, Lower(a), Lower(b)); }
  }

  /** Every match of a pattern begins with the pattern's lead word. */
  lemma MatchHasLead(p: Pattern, t: string)
    requires RegexSearch(p, t)
    ensures RegexSearch(Literal(Lead(p)), t)
  {
    var i, j := Witness(p, t);
    var w := Lead(p);
    match p
    case Spaced(a, b) =>
      assert t[i..i + |a|] == t[i..j][..|a|];
      Found(Literal(w), t, i, i + |w|);
    case Literal(_) =>
      Found(Literal(w), t, i, j);
  }

  /** A question that mentions neither `platform` nor `token`, in any case, is never routed. */
  lemma NeedsKeyword(q: string)
    requires !RegexSearch(Literal("platform"), Lower(q))
    requires !RegexSearch(Literal("token"), Lower(q))
    ensures !ShouldUseRag(Some(q))
  {
    var t := Lower(q);
    ShouldUseRagMeaning(Some(q));
    LeadAbsent("platform", t);
    LeadAbsent("token", t);
    assert "platform" + ".ai" == "platform.ai";
    assert "token" + ".ai" == "token.ai";
  }

  /** Where the word `w` does not occur, neither `w\s*ai` nor `w.ai` does. */
  lemma LeadAbsent(w: string, t: string)
    requires !RegexSearch(Literal(w), t)
    ensures !RegexSearch(Spaced(w, "ai"), t) && !RegexSearch(Literal(w + ".ai"), t)
  {
    if RegexSearch(Spaced(w, "ai"), t) {
      MatchHasLead(Spaced(w, "ai"), t);
    }
    if RegexSearch(Literal(w + ".ai"), t) {
      LiteralPrefix(w, ".ai", t);
    }
  }

  /** Where `a + b` occurs, `a` occurs. */
  lemma LiteralPrefix(a: string, b: string, t: string)
    requires RegexSearch(Literal(a + b), t)
    ensures RegexSearch(Literal(a), t)
  {
    var i, j := Witness(Literal(a + b), t);
    assert t[i..j] == a + b;
    assert t[i..i + |a|] == t[i..j][..|a|];
    assert (a + b)[..|a|] == a;
    Found(Literal(a), t, i, i + |a|);
  }

  /** Where a word occurs, each of its letters occurs. */
  lemma LettersOccur(w: string, t: string, c: char)
    requires RegexSearch(Literal(w), t) && c in w
    ensures c in t
  {
    var i, j := Witness(Literal(w), t);
    var k :| 0 <= k < |w| && w[k] == c;
    assert t[i + k] == t[i..j][k];
  }

  // ---------------------------------------------------------------- examples

  /** A full match of one of the keyword patterns in the lowered question routes it. */
  lemma RoutedBy(q: string, p: Pattern, i: nat, j: nat)
    requires p in KeywordPatterns
    requires i <= j <= |q| && FullMatch(p, Lower(q)[i..j])
    ensures ShouldUseRag(Some(q))
  {
    SearchComplete(p, Lower(q), i, j);
  }

  /** `a`, one space, then `b` is a full match of `a\s*b`. */
  lemma SpacedOnce(a: string, b: string, u: string)
    requires u == a + " " + b
    ensures FullMatch(Spaced(a, b), u)
  {
    assert u[..|a|] == a;
    assert u[|u| - |b|..] == b;
    assert u[|a|..|u| - |b|] == " ";
  }

  lemma RoutesPlatformAi()
    ensures ShouldUseRag(Some("platformai"))
  {
    var t := Lower("platformai");
    assert t == "platformai";
    assert t[0..10] == "platformai";
    RoutedBy("platformai", Literal("platformai"), 0, 10);
  }

  lemma RoutesPlatformSpaceAi()
    ensures ShouldUseRag(Some("platform ai"))
  {
    var t := Lower("platform ai");
    assert t == "platform ai";
    assert t[0..11] == "platform ai";
    SpacedOnce("platform", "ai", t[0..11]);
    RoutedBy("platform ai", Spaced("platform", "ai"), 0, 11);
  }

  lemma RoutesPlatformDotAi()
    ensures ShouldUseRag(Some("platform.ai"))
  {
    var t := Lower("platform.ai");
    assert t == "platform.ai";
    assert t[0..11] == "platform.ai";
    RoutedBy("platform.ai", Literal("platform.ai"), 0, 11);
  }

  lemma RoutesTokenAi()
    ensures ShouldUseRag(Some("tokenai"))
  {
    var t := Lower("tokenai");
    assert t == "tokenai";
    assert t[0..7] == "tokenai";
    RoutedBy("tokenai", Literal("tokenai"), 0, 7);
  }

  lemma RoutesTokenSpaceAi()
    ensures ShouldUseRag(Some("token ai"))
  {
    var t := Lower("token ai");
    assert t == "token ai";
    assert t[0..8] == "token ai";
    SpacedOnce("token", "ai", t[0..8]);
    RoutedBy("token ai", Spaced("token", "ai"), 0, 8);
  }

  lemma RoutesTokenDotAi()
    ensures ShouldUseRag(Some("token.ai"))
  {
    var t := Lower("token.ai");
    assert t == "token.ai";
    assert t[0..8] == "token.ai";
    RoutedBy("token.ai", Literal("token.ai"), 0, 8);
  }

  lemma RoutesMixedCase()
    ensures ShouldUseRag(Some("What is PlatformAI?"))
  {
    var t := Lower("What is PlatformAI?");
    assert t == "what is platformai?";
    assert t[8..18] == "platformai";
    RoutedBy("What is PlatformAI?", Literal("platformai"), 8, 18);
  }

  lemma RoutesMixedCaseSpaced()
    ensures ShouldUseRag(Some("Platform AI roadmap"))
  {
    var t := Lower("Platform AI roadmap");
    assert t == "platform ai roadmap";
    assert t[0..11] == "platform ai";
    SpacedOnce("platform", "ai", t[0..11]);
    RoutedBy("Platform AI roadmap", Spaced("platform", "ai"), 0, 11);
  }

  lemma RoutesTrailingWords()
    ensures ShouldUseRag(Some("tokenai pricing"))
  {
    var t := Lower("tokenai pricing");
    assert t == "tokenai pricing";
    assert t[0..7] == "tokenai";
    RoutedBy("tokenai pricing", Literal("tokenai"), 0, 7);
  }

  lemma RoutesDottedWords()
    ensures ShouldUseRag(Some("token.ai docs"))
  {
    var t := Lower("token.ai docs");
    assert t == "token.ai docs";
    assert t[0..8] == "token.ai";
    RoutedBy("token.ai docs", Literal("token.ai"), 0, 8);
  }

  /** The six spellings the router is meant to accept. */
  lemma DocumentedVariants()
    ensures ShouldUseRag(Some("platformai"))
    ensures ShouldUseRag(Some("platform ai"))
    ensures ShouldUseRag(Some("platform.ai"))
    ensures ShouldUseRag(Some("tokenai"))
    ensures ShouldUseRag(Some("token ai"))
    ensures ShouldUseRag(Some("token.ai"))
  {
    RoutesPlatformAi();
    RoutesPlatformSpaceAi();
    RoutesPlatformDotAi();
    RoutesTokenAi();
    RoutesTokenSpaceAi();
    RoutesTokenDotAi();
  }

  /** Mixed-case questions about the products, with other words around the keyword, are routed. */
  lemma RoutedExamples()
    ensures ShouldUseRag(Some("What is PlatformAI?"))
    ensures ShouldUseRag(Some("Platform AI roadmap"))
    ensures ShouldUseRag(Some("tokenai pricing"))
    ensures ShouldUseRag(Some("token.ai docs"))
  {
    RoutesMixedCase();
    RoutesMixedCaseSpaced();
    RoutesTrailingWords();
    RoutesDottedWords();
  }

  /** The weather question has no `p` and no `k` in it, in either case. */
  lemma WeatherLetters()
    ensures var q := "What's the weather today?"; 'p' !in q && 'P' !in q && 'k' !in q && 'K' !in q
  {
  }

  /** A question about the weather is not routed. */
  lemma UnroutedExample()
    ensures !ShouldUseRag(Some("What's the weather today?"))
  {
    var weather := "What's the weather today?";
    WeatherLetters();
    LowerAvoids(weather, 'p');
    LowerAvoids(weather, 'k');
    if RegexSearch(Literal("platform"), Lower(weather)) {
      LettersOccur("platform", Lower(weather), 'p');
    }
    if RegexSearch(Literal("token"), Lower(weather)) {
      LettersOccur("token", Lower(weather), 'k');
    }
    NeedsKeyword(weather);
  }
}

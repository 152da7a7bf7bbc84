/**
 * Segments of three or more stars: the matcher may read one as spanning directories, conflict
 * detection never does. Where that happens the overlap test misses paths.
 */
module WideStars {
  import opened Options
  import opened Text
  import opened ScopePatterns
  import opened ScopeSegments
  import opened ScopeGlob
  import opened ScopeSafety

  lemma {:induction false} AcceptsOneEach(segments: seq<Segment>, words: seq<string>)
    requires Accepts(segments, words) && Multi !in segments
    ensures |words| == |segments|
    decreases |segments|
  {
    if segments != [] {
      AcceptsOneEach(segments[1..], words[1..]);
    }
  }

  /** The first token of an ordinary segment is no wide star, fits some character, and stays within the segment. */
  lemma OrdinaryPiece(segment: string, tail: string, atStart: bool) returns (first: Piece)
    requires segment != "" && '/' !in segment && IsTail(tail) && !SpansDirectories(segment, atStart)
    ensures first == FirstPiece(segment + tail, atStart) && first.length <= |segment|
    ensures first.token in {Star, One, Chr(segment[0])}
    ensures TokensOf(segment + tail, atStart) == [first.token] + TokensOf(segment[first.length..] + tail, false)
    ensures NoWideStars(segment + tail, atStart) == NoWideStars(segment[first.length..] + tail, false)
    ensures !SpansDirectories(segment[first.length..], false)
  {
    var p := segment + tail;
    LeadingStarsBeforeTail(segment, tail);
    first := FirstPiece(p, atStart);
    hide LeadingStars, Matches;
    assert p[first.length..] == segment[first.length..] + tail;
  }

  /** An ordinary segment holds no wide star of its own. */
  lemma {:induction false} OrdinarySegmentIsPlain(segment: string, tail: string, atStart: bool)
    requires '/' !in segment && IsTail(tail) && !SpansDirectories(segment, atStart) && NoWideStars(tail, false)
    ensures NoWideStars(segment + tail, atStart)
    decreases |segment|
  {
    hide TokensOf, Matches;
    if segment == "" {
      TailTokens(tail, atStart);
    } else {
      var first := OrdinaryPiece(segment, tail, atStart);
      hide FirstPiece, LeadingStars, SpansDirectories;
      OrdinarySegmentIsPlain(segment[first.length..], tail, false);
    }
  }

  /** A token within a segment reads a fitting character. */
  lemma TokenReadsOne(t: Token, rest: seq<Token>, c: char, s: string)
    requires t == Star || t == One || t == Chr(c)
    requires c != '/' && Matches(rest, s)
    ensures Matches([t] + rest, [c] + s)
  {
    assert ([t] + rest)[1..] == rest && ([c] + s)[1..] == s;
    if t == Star {
      assert Matches([t] + rest, s);
    }
  }

  /** An ordinary segment matches some name, in front of whatever its tail matches. */
  lemma {:induction false} SegmentName(segment: string, tail: string, atStart: bool, s: string) returns (name: string)
    requires '/' !in segment && IsTail(tail) && !SpansDirectories(segment, atStart)
    requires Matches(TokensOf(tail, false), s)
    ensures '/' !in name && (segment != "" ==> name != "")
    ensures Matches(TokensOf(segment + tail, atStart), name + s)
    decreases |segment|
  {
    hide Matches, TokensOf, FirstPiece, SpansDirectories;
    if segment == "" {
      TailTokens(tail, atStart);
      name := "";
      assert name + s == s;
    } else {
      var first := OrdinaryPiece(segment, tail, atStart);
      var rest := SegmentName(segment[first.length..], tail, false, s);
      var c := if first.token.Chr? then first.token.c else 'x';
      name := [c] + rest;
      TokenReadsOne(first.token, TokensOf(segment[first.length..] + tail, false), c, rest + s);
      assert name + s == [c] + (rest + s);
    }
  }

  lemma SpanningTokens(segment: string, rest: string, atStart: bool)
    requires '/' !in segment && SpansDirectories(segment, atStart)
    ensures TokensOf(segment + ("/" + rest), atStart) == [Dirs] + TokensOf(rest, false)
  {
    var p := segment + ("/" + rest);
    LeadingStarsBeforeTail(segment, "/" + rest);
    assert p[|segment| + 1..] == rest;
  }

  lemma AfterSlash(rest: string)
    ensures TokensOf("/" + rest, false) == [Chr('/')] + TokensOf(rest, true)
    ensures NoWideStars("/" + rest, false) == NoWideStars(rest, true)
  {
    assert ("/" + rest)[1..] == rest;
  }

  lemma PathCons(name: string, rest: string)
    requires IsName(name) && IsPath(rest)
    ensures IsPath(name + "/" + rest) && |Split(name + "/" + rest, '/')| == 1 + |Split(rest, '/')|
  {
    SplitConcat(name, rest, '/');
  }

  /** A name in front of a path matched below an ordinary segment. */
  lemma BelowOrdinary(segment: string, rest: string, atStart: bool, below: string) returns (s: string)
    requires IsName(segment) && !SpansDirectories(segment, atStart)
    requires Matches(TokensOf(rest, true), below) && IsPath(below)
    ensures Matches(TokensOf(segment + ("/" + rest), atStart), s) && IsPath(s)
    ensures |Split(s, '/')| == 1 + |Split(below, '/')|
  {
    AfterSlash(rest);
    assert ([Chr('/')] + TokensOf(rest, true))[1..] == TokensOf(rest, true);
    assert ("/" + below)[1..] == below;
    var name := SegmentName(segment, "/" + rest, atStart, "/" + below);
    s := name + "/" + below;
    assert name + ("/" + below) == s;
    PathCons(name, below);
  }

  /** Every pattern text without empty segments matches some path of as many names. */
  lemma {:induction false} MatchablePath(p: string, atStart: bool) returns (s: string)
    requires "" !in Split(p, '/')
    ensures Matches(TokensOf(p, atStart), s) && IsPath(s) && |Split(s, '/')| == |Split(p, '/')|
    decreases |p|
  {
    if '/' in p {
      var segment, rest := FirstSegment(p);
      if SpansDirectories(segment, atStart) {
        SpanningTokens(segment, rest, atStart);
        s := MatchablePath(rest, false);
        s := DirsReadName(TokensOf(rest, false), s);
      } else {
        s := MatchablePath(rest, true);
        s := BelowOrdinary(segment, rest, atStart, s);
      }
    } else if SpansDirectories(p, atStart) {
      s := "x";
      SpanningRest(p, atStart);
      RestReads(s);
    } else {
      var name := SegmentName(p, "", atStart, "");
      assert p + "" == p && name + "" == name;
      s := name;
    }
  }

  lemma FirstSegment(p: string) returns (segment: string, rest: string)
    requires '/' in p
    ensures '/' !in segment && p == segment + ("/" + rest)
    ensures Split(p, '/') == [segment] + Split(rest, '/')
  {
    rest := AfterDirectory(p);
    segment := p[..|p| - |rest| - 1];
    SplitConcat(segment, rest, '/');
  }

  lemma SpanningRest(p: string, atStart: bool)
    requires SpansDirectories(p, atStart)
    ensures TokensOf(p, atStart) == [Rest]
  {
    assert p[|p|..] == "";
  }

  lemma {:induction false} RestReads(s: string)
    requires forall i :: 0 <= i < |s| ==> !IsLineTerminator(s[i])
    ensures Matches([Rest], s)
  {
    if s != "" {
      RestReads(s[1..]);
    }
  }

  lemma DirsReadNothing(rest: seq<Token>, s: string)
    requires Matches(rest, s)
    ensures Matches([Dirs] + rest, s)
  {
    assert ([Dirs] + rest)[1..] == rest;
  }

  /** A directory token reads a name. */
  lemma DirsReadName(rest: seq<Token>, below: string) returns (s: string)
    requires Matches(rest, below) || Matches([Dirs] + rest, below)
    requires IsPath(below)
    ensures Matches([Dirs] + rest, s) && IsPath(s) && |Split(s, '/')| == 1 + |Split(below, '/')|
  {
    s := "x" + "/" + below;
    PathCons("x", below);
    hide Split, IsPath;
    if Matches(rest, below) {
      DirsReadNothing(rest, below);
    }
    assert s[1..] == "/" + below && s[1..][1..] == below;
    assert AfterDirectory(s) == below;
  }

  /** A pattern text with a wide star, and without any `**`, matches a path with one more name. */
  lemma {:induction false} WidePath(p: string, atStart: bool) returns (s: string)
    requires "" !in Split(p, '/') && "**" !in Split(p, '/') && !NoWideStars(p, atStart)
    ensures Matches(TokensOf(p, atStart), s) && IsPath(s)
    ensures |Split(s, '/')| == |Split(p, '/')| + 1
    decreases |p|
  {
    hide Matches, TokensOf, AfterDirectory;
    if '/' in p {
      var segment, rest := FirstSegment(p);
      if SpansDirectories(segment, atStart) {
        SpanningTokens(segment, rest, atStart);
        s := MatchablePath(rest, false);
        s := DirsReadName(TokensOf(rest, false), s);
        s := DirsReadName(TokensOf(rest, false), s);
      } else {
        AfterSlash(rest);
        if NoWideStars(rest, true) {
          OrdinarySegmentIsPlain(segment, "/" + rest, atStart);
        }
        s := WidePath(rest, true);
        s := BelowOrdinary(segment, rest, atStart, s);
      }
    } else if SpansDirectories(p, atStart) {
      s := "x" + "/" + "x";
      PathCons("x", "x");
      SpanningRest(p, atStart);
      RestReads(s);
    } else {
      assert p + "" == p;
      OrdinarySegmentIsPlain(p, "", atStart);
      assert false;
    }
  }

  /** The parts of a pattern text accept every path the text matches. */
  ghost predicate PartsCover(p: string) {
    forall path :: IsPath(path) && Matches(TokensOf(p, true), path) ==> Accepts(ClassifyAll(Split(p, '/')), Split(path, '/'))
  }

  lemma PartsCoverPlainTexts(p: string)
    requires "" !in Split(p, '/') && "**" !in Split(p, '/')
    ensures PartsCover(p) <==> NoWideStars(p, true)
  {
    if NoWideStars(p, true) {
      forall path | IsPath(path) && Matches(TokensOf(p, true), path)
        ensures Accepts(ClassifyAll(Split(p, '/')), Split(path, '/'))
      {
        MatchedIsAccepted(p, true, path);
      }
    } else {
      var path := WidePath(p, true);
      if Accepts(ClassifyAll(Split(p, '/')), Split(path, '/')) {
        AcceptsOneEach(ClassifyAll(Split(p, '/')), Split(path, '/'));
      }
    }
  }

  ghost predicate SegmentsCover(raw: string) {
    forall path :: IsPath(path) && ExpressionOf(raw).Some? && Matches(ExpressionOf(raw).value, path) ==>
      SegmentsOf(raw).Some? && Accepts(SegmentsOf(raw).value, Split(path, '/'))
  }

  /**
   * For a pattern with a slash, without a trailing slash and without empty and `**` segments, the
   * compiled segments accept every path the matcher accepts exactly when no run of stars is read
   * as spanning directories.
   */
  lemma CoverageNeedsPlainGlobs(raw: string)
    requires '/' in AnchoredPattern(raw) && !IsDirectoryPattern(raw)
    requires "" !in Split(AnchoredPattern(raw), '/') && "**" !in Split(AnchoredPattern(raw), '/')
    ensures SegmentsCover(raw) <==> IsPlainGlob(raw)
  {
    var p := AnchoredPattern(raw);
    PartsCoverPlainTexts(p);
    assert ExpressionOf(raw) == Some(TokensOf(p, true));
    assert SegmentsOf(raw).value == ClassifyAll(Split(p, '/'));
    assert SegmentsCover(raw) <==> PartsCover(p);
  }

  /** A text without anything to strip is its own anchored pattern. */
  lemma NothingToStrip(t: string)
    requires t != "" && '\\' !in t && t[0] != '.' && t[0] != '/' && t[|t| - 1] != '/'
    requires !IsSpace(t[0]) && !IsSpace(t[|t| - 1])
    ensures AnchoredPattern(t) == t && !IsDirectoryPattern(t)
  {
    assert Replace(t, '\\', '/') == t;
    assert Trim(t) == t;
  }

  lemma {:induction false} LiteralMatchesItself(p: string, atStart: bool)
    requires '*' !in p && '?' !in p
    ensures Matches(TokensOf(p, atStart), p)
    decreases |p|
  {
    if p != "" {
      LiteralMatchesItself(p[1..], p[0] == '/');
      var rest := TokensOf(p[1..], p[0] == '/');
      assert TokensOf(p, atStart) == [Chr(p[0])] + rest && ([Chr(p[0])] + rest)[1..] == rest;
    }
  }

  /** A plain path text that compiles to itself. */
  predicate IsPlainText(t: string) {
    && t != "" && '\\' !in t && '*' !in t && '?' !in t && t[0] != '.' && t[0] != '/' && t[|t| - 1] != '/'
    && !IsSpace(t[0]) && !IsSpace(t[|t| - 1])
    && '/' in t && "" !in Split(t, '/')
  }

  lemma NoMultiIn(parts: seq<string>)
    requires "**" !in parts
    ensures Multi !in ClassifyAll(parts)
  {
  }

  lemma {:induction false} PartsWithoutStars(t: string)
    requires '*' !in t
    ensures "**" !in Split(t, '/')
  {
    if t != "" {
      PartsWithoutStars(t[1..]);
      var rest := Split(t[1..], '/');
      if t[0] != '/' {
        assert ([t[0]] + rest[0])[0] != '*';
      }
    }
  }

  lemma StarsStripNothing(stars: string, t: string)
    requires |stars| >= 3 && LeadingStars(stars) == |stars| && IsPlainText(t)
    ensures AnchoredPattern(stars + "/" + t) == stars + "/" + t && !IsDirectoryPattern(stars + "/" + t)
  {
    hide Split, LeadingStars, AnchoredPattern, IsDirectoryPattern;
    var raw := stars + "/" + t;
    assert raw[0] == stars[0] == '*' && raw[|raw| - 1] == t[|t| - 1];
    assert '\\' !in stars;
    NothingToStrip(raw);
  }

  lemma StarsStillMatch(stars: string, t: string)
    requires |stars| >= 3 && LeadingStars(stars) == |stars| && IsPlainText(t)
    ensures PatternMatches(t, t) && PatternMatches(t, stars + "/" + t)
  {
    hide Split, AnchoredPattern, IsDirectoryPattern, TokensOf, LeadingStars, IsSpace;
    NothingToStrip(t);
    StarsStripNothing(stars, t);
    LiteralMatchesItself(t, true);
    LiteralMatchesItself(t, false);
    assert stars + "/" + t == stars + ("/" + t);
    SpanningTokens(stars, t, true);
    assert ([Dirs] + TokensOf(t, false))[1..] == TokensOf(t, false);
  }

  lemma LengthsDiffer(a: seq<Segment>, b: seq<Segment>)
    requires |a| != |b| && Multi !in a && Multi !in b
    ensures !Overlap(a, b)
  {
    OverlapIsExact(a, b);
    forall words ensures !BothAccept(a, b, words) {
      if BothAccept(a, b, words) {
        AcceptsOneEach(a, words);
        AcceptsOneEach(b, words);
      }
    }
  }

  /** A pattern with a slash and without anything to strip compiles to its own parts. */
  lemma PlainSegments(raw: string)
    requires AnchoredPattern(raw) == raw && !IsDirectoryPattern(raw) && '/' in raw && "" !in Split(raw, '/')
    ensures SegmentsOf(raw) == Some(ClassifyAll(Split(raw, '/')))
  {
    hide AnchoredPattern, IsDirectoryPattern, Split, Classify;
    var segments := ClassifyAll(Split(raw, '/'));
    assert [] + segments + [] == segments;
  }

  /** The pattern with a question mark for every character of a path. */
  function Questions(s: string): (t: string)
    ensures '*' !in t && '\\' !in t && |t| == |s|
    ensures forall i :: 0 <= i < |s| ==> t[i] == if s[i] == '/' then '/' else '?'
  {
    if s == "" then "" else [if s[0] == '/' then '/' else '?'] + Questions(s[1..])
  }

  lemma {:induction false} QuestionsMatch(s: string, atStart: bool)
    ensures Matches(TokensOf(Questions(s), atStart), s) && NoWideStars(Questions(s), atStart)
    decreases |s|
  {
    if s != "" {
      var first, rest := Questions(s)[0], Questions(s[1..]);
      assert Questions(s)[1..] == rest;
      QuestionsMatch(s[1..], first == '/');
      var token := FirstPiece(Questions(s), atStart).token;
      assert ([token] + TokensOf(rest, first == '/'))[1..] == TokensOf(rest, first == '/');
    }
  }

  /** The same number of parts, each as long as its counterpart. */
  ghost predicate SameLengths(a: seq<string>, b: seq<string>) {
    |a| == |b| && forall i :: 0 <= i < |a| ==> |a[i]| == |b[i]|
  }

  lemma LongerHead(c: char, d: char, a: seq<string>, b: seq<string>)
    requires SameLengths(a, b) && a != []
    ensures SameLengths([[c] + a[0]] + a[1..], [[d] + b[0]] + b[1..]) && SameLengths([""] + a, [""] + b)
  {
  }

  lemma {:induction false} QuestionsSplit(s: string)
    ensures SameLengths(Split(Questions(s), '/'), Split(s, '/'))
  {
    if s != "" {
      var q, rest := Questions(s), Questions(s[1..]);
      assert q[1..] == rest;
      QuestionsSplit(s[1..]);
      LongerHead(q[0], s[0], Split(rest, '/'), Split(s[1..], '/'));
      hide Questions, SameLengths;
    }
  }

  lemma SlashAtEnd(s: string)
    requires s != "" && s[|s| - 1] == '/'
    ensures "" in Split(s, '/')
  {
    var u := s[..|s| - 1];
    assert u + ['/'] + "" == s;
    SplitConcat(u, "", '/');
  }

  lemma PathEnds(s: string)
    requires IsPath(s)
    ensures s != "" && s[0] != '/' && s[|s| - 1] != '/' && ProbedPath(s) == s
  {
    assert Split(s, '/')[0] in Split(s, '/');
    assert "" !in Split(s, '/');
    if s != "" && s[|s| - 1] == '/' {
      SlashAtEnd(s);
    }
  }

  lemma QuestionNames(s: string)
    requires IsPath(s)
    ensures "" !in Split(Questions(s), '/') && Multi !in ClassifyAll(Split(Questions(s), '/'))
  {
    QuestionsSplit(s);
    PartsWithoutStars(Questions(s));
    NoMultiIn(Split(Questions(s), '/'));
    forall i | 0 <= i < |Split(s, '/')| ensures Split(Questions(s), '/')[i] != "" {
      assert Split(s, '/')[i] in Split(s, '/');
    }
  }

  lemma QuestionsStripNothing(s: string)
    requires IsPath(s) && '/' in s
    ensures AnchoredPattern(Questions(s)) == Questions(s) && !IsDirectoryPattern(Questions(s)) && '/' in Questions(s)
  {
    PathEnds(s);
    var q := Questions(s);
    hide Split, IsPath;
    assert q[0] == '?' && q[|q| - 1] == '?';
    assert exists i :: 0 <= i < |s| && s[i] == '/' && q[i] == '/';
    NothingToStrip(q);
  }

  /** A path of several names is matched by its question marks. */
  lemma PathMatchesQuestions(s: string)
    requires IsPath(s) && '/' in s
    ensures IsPlainGlob(Questions(s)) && PatternMatches(s, Questions(s)) && ProbedPath(s) == s
  {
    PathEnds(s);
    QuestionsMatch(s, true);
    QuestionsStripNothing(s);
    var q := Questions(s);
    hide Split, Matches, TokensOf, NoWideStars, Questions, AnchoredPattern, IsDirectoryPattern, IsPath;
    assert CompiledText(q) == q;
    assert q != "" && ExpressionOf(q) == Some(TokensOf(q, true));
  }

  /** They compile to as many wildcards. */
  lemma QuestionsSegments(s: string)
    requires IsPath(s) && '/' in s
    ensures SegmentsOf(Questions(s)).Some? && Multi !in SegmentsOf(Questions(s)).value
    ensures |SegmentsOf(Questions(s)).value| == |Split(s, '/')|
  {
    QuestionsSplit(s);
    QuestionNames(s);
    QuestionsStripNothing(s);
    hide Split, Questions, AnchoredPattern, IsDirectoryPattern, IsPath, SegmentsOf;
    PlainSegments(Questions(s));
  }

  /** The promise of conflict detection for one pattern: a path it shares with any plain pattern makes the two overlap. */
  ghost predicate OverlapIsSeen(raw: string) {
    forall other: string, path: string ::
      IsPlainGlob(other) && IsPath(ProbedPath(path)) && PatternMatches(path, raw) && PatternMatches(path, other) ==>
      PatternsOverlap(raw, other)
  }

  lemma AnyDepthPiece(p: string)
    ensures FirstPiece("**/" + p, true) == Piece(Dirs, 3)
  {
    LeadingStarsBeforeTail("**", "/" + p);
    LeadingStarsOf("**");
    assert "**/" + p == "**" + ("/" + p);
    hide LeadingStars;
  }

  lemma WithoutSlashIsPlain(raw: string)
    requires '/' !in AnchoredPattern(raw)
    ensures IsPlainGlob(raw)
  {
    var p := AnchoredPattern(raw);
    AnyDepthPiece(p);
    OrdinarySegmentIsPlain(p, "", false);
    hide AnchoredPattern, FirstPiece;
    assert p + "" == p;
    assert ("**/" + p)[3..] == p;
  }

  /** A wide star hides the overlap with the question marks of a path that has one name more than the pattern. */
  lemma WideStarsHideSomePath(raw: string)
    requires '/' in AnchoredPattern(raw) && !IsDirectoryPattern(raw)
    requires "" !in Split(AnchoredPattern(raw), '/') && "**" !in Split(AnchoredPattern(raw), '/')
    requires !IsPlainGlob(raw)
    ensures !OverlapIsSeen(raw)
  {
    var p := AnchoredPattern(raw);
    var s := WidePath(p, true);
    CompiledTextSegments(raw);
    NoMultiIn(Split(p, '/'));
    assert ExpressionOf(raw) == Some(TokensOf(p, true));
    hide Matches, TokensOf, NoWideStars, AnchoredPattern, IsDirectoryPattern, ExpressionOf, SegmentsOf, IsPath, ClassifyAll;
    PathMatchesQuestions(s);
    QuestionsSegments(s);
    LengthsDiffer(SegmentsOf(raw).value, SegmentsOf(Questions(s)).value);
  }

  /**
   * Overlaps are seen exactly when no run of stars is read as spanning directories, for every pattern
   * without a slash, and every one without a trailing slash and without empty and `**` segments.
   */
  lemma OverlapNeedsPlainGlobs(raw: string)
    requires '/' in AnchoredPattern(raw) ==>
               !IsDirectoryPattern(raw) && "" !in Split(AnchoredPattern(raw), '/') && "**" !in Split(AnchoredPattern(raw), '/')
    ensures OverlapIsSeen(raw) <==> IsPlainGlob(raw)
  {
    if '/' !in AnchoredPattern(raw) {
      WithoutSlashIsPlain(raw);
    } else if !IsPlainGlob(raw) {
      WideStarsHideSomePath(raw);
    }
    hide AnchoredPattern, IsDirectoryPattern, Split, IsPlainGlob, PatternMatches;
    if IsPlainGlob(raw) {
      forall other, path | IsPlainGlob(other) && IsPath(ProbedPath(path)) && PatternMatches(path, raw) && PatternMatches(path, other)
        ensures PatternsOverlap(raw, other)
      {
        MatchedByBothOverlaps(raw, other, path);
      }
    }
  }

  lemma StarsAddASegment(stars: string, t: string)
    requires |stars| >= 3 && LeadingStars(stars) == |stars| && IsPlainText(t)
    ensures SegmentsOf(t) == Some(ClassifyAll(Split(t, '/')))
    ensures SegmentsOf(stars + "/" + t) == Some(ClassifyAll([stars] + Split(t, '/')))
  {
    hide AnchoredPattern, IsDirectoryPattern, LeadingStars, IsSpace, Split, SegmentsOf, Classify;
    NothingToStrip(t);
    StarsStripNothing(stars, t);
    SplitConcat(stars, t, '/');
    assert Split(stars + "/" + t, '/') == [stars] + Split(t, '/');
    PlainSegments(t);
    PlainSegments(stars + "/" + t);
  }

  /**
   * Three or more stars in front of any plain path text: both patterns match the path, and the
   * overlap test still calls them disjoint.
   */
  lemma WideStarsHideAnOverlap(stars: string, t: string)
    requires |stars| >= 3 && LeadingStars(stars) == |stars| && IsPlainText(t)
    ensures PatternMatches(t, t) && PatternMatches(t, stars + "/" + t)
    ensures !PatternsOverlap(t, stars + "/" + t)
  {
    StarsStillMatch(stars, t);
    StarsAddASegment(stars, t);
    PartsWithoutStars(t);
    var parts := Split(t, '/');
    NoMultiIn(parts);
    NoMultiIn([stars] + parts);
    LengthsDiffer(ClassifyAll(parts), ClassifyAll([stars] + parts));
  }

  lemma ExampleText()
    ensures Split("a/b", '/') == ["a", "b"] && IsPlainText("a/b")
  {
    SplitConcat("a", "b", '/');
    assert "a" + ['/'] + "b" == "a/b";
    assert Split("a", '/') == ["a"] && Split("b", '/') == ["b"];
  }

  lemma {:induction false} LeadingStarsOf(stars: string)
    requires forall i :: 0 <= i < |stars| ==> stars[i] == '*'
    ensures LeadingStars(stars) == |stars|
  {
    if stars != "" {
      LeadingStarsOf(stars[1..]);
    }
  }

  /** For example, a/b is matched both by itself and behind three stars. */
  lemma WideStarsExample()
    ensures PatternMatches("a/b", "***/a/b") && PatternMatches("a/b", "a/b") && !PatternsOverlap("a/b", "***/a/b")
  {
    ExampleText();
    hide IsPlainText, PatternMatches, PatternsOverlap, Split, IsSpace;
    var stars := "***";
    LeadingStarsOf(stars);
    WideStarsHideAnOverlap(stars, "a/b");
    assert stars + "/" + "a/b" == "***/a/b";
  }
}

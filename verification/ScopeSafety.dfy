/**
 * The segment-level overlap test over-approximates the character-level matcher: what two patterns
 * both match, the overlap test of their segments sees.
 */
module ScopeSafety {
  import opened Options
  import opened Text
  import opened ScopePatterns
  import opened ScopeSegments
  import opened ScopeGlob

  /** No run of three or more stars is read as spanning directories. */
  predicate NoWideStars(p: string, atStart: bool)
    decreases |p|
  {
    p != "" ==>
      var first := FirstPiece(p, atStart);
      && !(first.token.Dirs? && first.length > 3) && !(first.token.Rest? && first.length > 2)
      && NoWideStars(p[first.length..], first.token == Chr('/'))
  }

  /** The pattern text that is compiled: one without a slash applies at every depth. */
  function CompiledText(raw: string): string {
    var pattern := AnchoredPattern(raw);
    if '/' in pattern then pattern else "**/" + pattern
  }

  predicate IsPlainGlob(raw: string) {
    NoWideStars(CompiledText(raw), true)
  }

  /** Whether a segment is read as spanning directories. */
  predicate SpansDirectories(segment: string, atStart: bool) {
    atStart && |segment| >= 2 && LeadingStars(segment) == |segment|
  }

  predicate IsTail(tail: string) {
    tail == "" || tail[0] == '/'
  }

  lemma {:induction false} LeadingStarsBeforeTail(segment: string, tail: string)
    requires IsTail(tail)
    ensures LeadingStars(segment + tail) == LeadingStars(segment)
  {
    if segment != "" {
      assert (segment + tail)[1..] == segment[1..] + tail;
      LeadingStarsBeforeTail(segment[1..], tail);
    } else {
      assert segment + tail == tail;
    }
  }

  /** Reading two stretches one after the other. */
  lemma Glue(s: string, read: nat, k: nat)
    requires read + k <= |s|
    ensures s[..read + k] == s[..read] + s[read..][..k] && s[read + k..] == s[read..][k..]
  {
  }

  /** A star reads a stretch without slashes. */
  lemma {:induction false} StarReads(rest: seq<Token>, s: string) returns (k: nat)
    requires Matches([Star] + rest, s)
    ensures k <= |s| && '/' !in s[..k] && Matches(rest, s[k..])
    decreases |s|
  {
    assert ([Star] + rest)[1..] == rest;
    if Matches(rest, s) {
      k := 0;
      assert s[0..] == s;
    } else {
      k := StarReads(rest, s[1..]);
      k := k + 1;
      assert s[..k] == [s[0]] + s[1..][..k - 1];
      assert s[k..] == s[1..][k - 1..];
    }
  }

  /** The first token of an ordinary segment reads a stretch without slashes and leaves the rest of the segment. */
  lemma FirstPieceReads(segment: string, tail: string, atStart: bool, s: string) returns (n: nat, read: nat)
    requires segment != "" && '/' !in segment && IsTail(tail) && !SpansDirectories(segment, atStart)
    requires Matches(TokensOf(segment + tail, atStart), s) && NoWideStars(segment + tail, atStart)
    ensures 1 <= n <= |segment| && read <= |s| && '/' !in s[..read] && !SpansDirectories(segment[n..], false)
    ensures Matches(TokensOf(segment[n..] + tail, false), s[read..]) && NoWideStars(segment[n..] + tail, false)
    ensures segment[0] != '*' && segment[0] != '?' ==> n == read == 1 && s[0] == segment[0]
  {
    var p := segment + tail;
    LeadingStarsBeforeTail(segment, tail);
    var first := FirstPiece(p, atStart);
    n, read := first.length, 1;
    assert p[n..] == segment[n..] + tail;
    var rest := TokensOf(p[n..], false);
    assert TokensOf(p, atStart) == [first.token] + rest;
    assert ([first.token] + rest)[1..] == rest;
    if first.token.Star? {
      read := StarReads(rest, s);
    }
  }

  /** At the end of a segment it does not matter how the segment began. */
  lemma TailTokens(tail: string, atStart: bool)
    requires IsTail(tail)
    ensures TokensOf("" + tail, atStart) == TokensOf(tail, false)
    ensures NoWideStars("" + tail, atStart) == NoWideStars(tail, false)
  {
    assert "" + tail == tail;
  }

  /** An ordinary segment reads a stretch without slashes, and a segment without wildcards reads itself. */
  lemma {:induction false} SegmentReads(segment: string, tail: string, atStart: bool, s: string) returns (k: nat)
    requires '/' !in segment && IsTail(tail) && !SpansDirectories(segment, atStart)
    requires Matches(TokensOf(segment + tail, atStart), s) && NoWideStars(segment + tail, atStart)
    ensures k <= |s| && '/' !in s[..k]
    ensures Matches(TokensOf(tail, false), s[k..]) && NoWideStars(tail, false)
    ensures '*' !in segment && '?' !in segment ==> s[..k] == segment
    decreases |segment|
  {
    hide Matches, TokensOf, NoWideStars, SpansDirectories;
    if segment == "" {
      TailTokens(tail, atStart);
      k := 0;
      assert s[0..] == s;
    } else {
      var n, read := FirstPieceReads(segment, tail, atStart, s);
      var next := SegmentReads(segment[n..], tail, false, s[read..]);
      Glue(s, read, next);
      k := read + next;
      if '*' !in segment && '?' !in segment {
        assert segment == [segment[0]] + segment[1..];
      }
    }
  }

  /** The same for a segment that a slash follows. */
  lemma DirectoryReads(segment: string, rest: string, atStart: bool, s: string) returns (k: nat)
    requires '/' !in segment && !SpansDirectories(segment, atStart)
    requires Matches(TokensOf(segment + ("/" + rest), atStart), s) && NoWideStars(segment + ("/" + rest), atStart)
    ensures k < |s| && '/' !in s[..k] && s == s[..k] + "/" + s[k + 1..]
    ensures Matches(TokensOf(rest, true), s[k + 1..]) && NoWideStars(rest, true)
    ensures '*' !in segment && '?' !in segment ==> s[..k] == segment
  {
    k := SegmentReads(segment, "/" + rest, atStart, s);
    assert ("/" + rest)[1..] == rest;
    assert TokensOf("/" + rest, false) == [Chr('/')] + TokensOf(rest, true);
    assert TokensOf("/" + rest, false)[1..] == TokensOf(rest, true);
    assert s[k..][1..] == s[k + 1..];
  }

  /** A segment of two stars that spans directories becomes a directory token. */
  lemma SpanningReads(segment: string, rest: string, atStart: bool)
    requires '/' !in segment && SpansDirectories(segment, atStart) && NoWideStars(segment + ("/" + rest), atStart)
    ensures segment == "**" && NoWideStars(rest, false)
    ensures TokensOf(segment + ("/" + rest), atStart) == [Dirs] + TokensOf(rest, false)
  {
    var p := segment + ("/" + rest);
    LeadingStarsBeforeTail(segment, "/" + rest);
    assert FirstPiece(p, atStart) == Piece(Dirs, |segment| + 1);
    assert p[|segment| + 1..] == rest;
  }

  lemma DirsRead(rest: seq<Token>, s: string)
    requires Matches([Dirs] + rest, s)
    ensures Matches(rest, s) || (StartsWithDirectory(s) && Matches([Dirs] + rest, AfterDirectory(s)))
  {
    assert ([Dirs] + rest)[1..] == rest;
  }

  lemma {:induction false} MultiAcceptsAll(words: seq<string>)
    ensures Accepts([Multi], words)
  {
    if words != [] {
      MultiAcceptsAll(words[1..]);
    }
  }

  /** The segment of a part accepts one name in front of what the other parts accept. */
  lemma AcceptsFirst(part: string, parts: seq<string>, word: string, words: seq<string>)
    requires '*' !in part && '?' !in part ==> word == part
    requires Accepts(ClassifyAll(parts), words) || (part == "**" && Accepts(ClassifyAll([part] + parts), words))
    ensures Accepts(ClassifyAll([part] + parts), [word] + words)
  {
    var segments := ClassifyAll([part] + parts);
    assert segments[0] == Classify(part) && segments[1..] == ClassifyAll(parts);
    assert ([word] + words)[1..] == words;
  }

  lemma AcceptsSkipping(parts: seq<string>, words: seq<string>)
    requires Accepts(ClassifyAll(parts), words)
    ensures Accepts(ClassifyAll(["**"] + parts), words)
  {
    assert ClassifyAll(["**"] + parts)[1..] == ClassifyAll(parts);
  }

  /** Removing a first name leaves a path. */
  lemma PathTail(name: string, rest: string)
    requires IsPath(name + "/" + rest) && '/' !in name
    ensures Split(name + "/" + rest, '/') == [name] + Split(rest, '/')
    ensures IsName(name) && IsPath(rest)
  {
    SplitConcat(name, rest, '/');
    var words := Split(name + "/" + rest, '/');
    assert name in words;
    assert forall w :: w in Split(rest, '/') ==> w in words;
  }

  /** The last part of a pattern text accepts the path that it matches. */
  lemma LastPartAccepts(p: string, atStart: bool, s: string)
    requires '/' !in p && NoWideStars(p, atStart) && Matches(TokensOf(p, atStart), s) && IsPath(s)
    ensures p != "" && Accepts(ClassifyAll([p]), Split(s, '/'))
  {
    if SpansDirectories(p, atStart) {
      assert p == "**" && ClassifyAll(["**"]) == [Multi];
      hide Matches, NoWideStars, Split;
      MultiAcceptsAll(Split(s, '/'));
    } else {
      LastNameAccepts(p, atStart, s);
    }
  }

  lemma LastNameAccepts(p: string, atStart: bool, s: string)
    requires '/' !in p && !SpansDirectories(p, atStart) && NoWideStars(p, atStart) && Matches(TokensOf(p, atStart), s) && IsPath(s)
    ensures p != "" && Accepts(ClassifyAll([p]), Split(s, '/'))
  {
    assert p + "" == p;
    EmptyTail(s);
    hide NoWideStars, SpansDirectories, Classify, Matches, TokensOf, Accepts, Split;
    var k := SegmentReads(p, "", atStart, s);
    assert s[..k] == s by {
      NothingLeft(s[k..]);
    }
    assert s in Split(s, '/');
    AcceptsFirst(p, [], s, []);
    assert [p] + [] == [p];
  }

  lemma EmptyTail(s: string)
    ensures Accepts(ClassifyAll([]), [])
    ensures '/' !in s ==> Split(s, '/') == [s]
  {
  }

  lemma NothingLeft(s: string)
    requires Matches(TokensOf("", false), s)
    ensures s == ""
  {
  }

  /** What the matcher accepts, the segments accept. */
  lemma {:induction false} MatchedIsAccepted(p: string, atStart: bool, s: string)
    requires NoWideStars(p, atStart) && Matches(TokensOf(p, atStart), s) && IsPath(s)
    ensures "" !in Split(p, '/') && Accepts(ClassifyAll(Split(p, '/')), Split(s, '/'))
    decreases |p|, |s|
  {
    hide NoWideStars, TokensOf, Matches, Accepts, Classify;
    if '/' in p {
      var rest := AfterDirectory(p);
      var segment := p[..|p| - |rest| - 1];
      hide AfterDirectory, Split;
      assert p == segment + ("/" + rest) == segment + "/" + rest;
      MatchedDirectory(segment, rest, atStart, s);
    } else {
      LastPartAccepts(p, atStart, s);
    }
  }

  lemma {:induction false} MatchedDirectory(segment: string, rest: string, atStart: bool, s: string)
    requires '/' !in segment && NoWideStars(segment + ("/" + rest), atStart)
    requires Matches(TokensOf(segment + ("/" + rest), atStart), s) && IsPath(s)
    ensures var parts := Split(segment + "/" + rest, '/');
            "" !in parts && Accepts(ClassifyAll(parts), Split(s, '/'))
    decreases |segment| + 1 + |rest|, |s|, 0
  {
    hide NoWideStars, TokensOf, FirstPiece, SpansDirectories, Matches, Accepts, Classify;
    SplitConcat(segment, rest, '/');
    hide Split;
    var parts := Split(rest, '/');
    if SpansDirectories(segment, atStart) {
      SpanningReads(segment, rest, atStart);
      DirsRead(TokensOf(rest, false), s);
      if Matches(TokensOf(rest, false), s) {
        MatchedIsAccepted(rest, false, s);
        AcceptsSkipping(parts, Split(s, '/'));
      } else {
        var below := AfterDirectory(s);
        var name := s[..|s| - |below| - 1];
        PathTail(name, below);
        MatchedDirectory(segment, rest, atStart, below);
        AcceptsFirst(segment, parts, name, Split(below, '/'));
      }
    } else {
      var k := DirectoryReads(segment, rest, atStart, s);
      PathTail(s[..k], s[k + 1..]);
      MatchedIsAccepted(rest, true, s[k + 1..]);
      AcceptsFirst(segment, parts, s[..k], Split(s[k + 1..], '/'));
    }
  }

  /** A concatenation of tokens matches a concatenation of strings. */
  lemma {:induction false} MatchSplits(left: seq<Token>, right: seq<Token>, s: string) returns (k: nat)
    requires Matches(left + right, s)
    ensures k <= |s| && Matches(left, s[..k]) && Matches(right, s[k..])
    decreases |left| + 2 * |s|
  {
    if left == [] {
      k := 0;
      assert left + right == right && s[0..] == s;
    } else {
      hide AfterDirectory;
      var t, rest := left[0], left[1..];
      assert (left + right)[1..] == rest + right;
      if (t.Star? || t.Dirs? || t.Rest?) && Matches(rest + right, s) {
        k := MatchSplits(rest, right, s);
      } else {
        var read := if t.Dirs? then |s| - |AfterDirectory(s)| else 1;
        if t.NonEmptyRest? {
          assert [Rest] + (left + right)[1..] == ([Rest] + rest) + right;
          k := MatchSplits([Rest] + rest, right, s[1..]);
        } else if t.Chr? || t.One? {
          k := MatchSplits(rest, right, s[1..]);
        } else {
          k := MatchSplits(left, right, s[read..]);
        }
        k := read + k;
        assert s[..k][read..] == s[read..][..k - read];
        assert s[k..] == s[read..][k - read..];
        if t.Dirs? {
          DirectoryPrefix(s, k);
        }
      }
    }
  }

  lemma {:induction false} DirectoryPrefix(s: string, k: nat)
    requires '/' in s && |s| - |AfterDirectory(s)| <= k <= |s|
    ensures '/' in s[..k] && AfterDirectory(s[..k]) == s[|s| - |AfterDirectory(s)|..k]
  {
    if s[0] != '/' {
      DirectoryPrefix(s[1..], k - 1);
      assert s[..k][1..] == s[1..][..k - 1];
    } else {
      assert s[..k][0] == '/';
    }
  }

  /** A final Multi accepts anything after what is already accepted. */
  lemma {:induction false} AcceptsMore(segments: seq<Segment>, words: seq<string>, more: seq<string>)
    requires Accepts(segments, words)
    ensures Accepts(segments + [Multi], words + more)
    decreases |segments| + |words|
  {
    var wider := segments + [Multi];
    if segments == [] {
      assert wider == [Multi] && words + more == more;
      MultiAcceptsAll(more);
    } else {
      assert wider[1..] == segments[1..] + [Multi];
      if segments[0].Multi? && Accepts(segments[1..], words) {
        AcceptsMore(segments[1..], words, more);
      } else {
        assert (words + more)[1..] == words[1..] + more;
        AcceptsMore(if segments[0].Multi? then segments else segments[1..], words[1..], more);
      }
    }
  }

  /** A directory pattern matches a path below a path that its text matches; another pattern matches as its text does. */
  lemma ExpressionReads(raw: string, s: string) returns (k: nat)
    requires ExpressionOf(raw).Some? && Matches(ExpressionOf(raw).value, s) && IsPath(s)
    ensures k <= |s| && Matches(TokensOf(CompiledText(raw), true), s[..k]) && IsPath(s[..k])
    ensures Split(s[..k], '/') <= Split(s, '/')
    ensures IsDirectoryPattern(raw) || k == |s|
  {
    var tokens := TokensOf(CompiledText(raw), true);
    if ExpressionOf(raw).value == tokens {
      k := |s|;
      assert s[..k] == s;
    } else {
      k := MatchSplits(tokens, [Chr('/'), NonEmptyRest], s);
      assert [Chr('/'), NonEmptyRest][1..] == [NonEmptyRest];
      assert s == s[..k] + "/" + s[k + 1..];
      SplitConcat(s[..k], s[k + 1..], '/');
      assert forall w :: w in Split(s[..k], '/') ==> w in Split(s, '/');
    }
  }

  lemma CompiledTextSegments(raw: string)
    requires AnchoredPattern(raw) != "" && "" !in Split(CompiledText(raw), '/')
    ensures SegmentsOf(raw) == Some(ClassifyAll(Split(CompiledText(raw), '/'))
                                    + if IsDirectoryPattern(raw) then [Multi] else [])
  {
    var pattern, text := AnchoredPattern(raw), CompiledText(raw);
    if '/' !in pattern {
      SplitConcat("**", pattern, '/');
      assert "**" + ['/'] + pattern == text;
      assert Split(text, '/') == ["**", pattern];
      assert ClassifyAll(Split(text, '/')) == [Multi] + ClassifyAll(Split(pattern, '/'));
      assert pattern in Split(text, '/');
    } else {
      assert text == pattern;
      assert [] + ClassifyAll(Split(pattern, '/')) == ClassifyAll(Split(text, '/'));
    }
  }

  /** Every path a pattern matches is accepted by the segments it compiles to. */
  lemma PatternMatchIsAccepted(raw: string, path: string)
    requires IsPlainGlob(raw) && PatternMatches(path, raw) && IsPath(ProbedPath(path))
    ensures SegmentsOf(raw).Some? && Accepts(SegmentsOf(raw).value, Split(ProbedPath(path), '/'))
  {
    ExpressionMatchIsAccepted(raw, ProbedPath(path));
  }

  lemma ExpressionMatchIsAccepted(raw: string, s: string)
    requires IsPlainGlob(raw) && IsPath(s) && ExpressionOf(raw).Some? && Matches(ExpressionOf(raw).value, s)
    ensures SegmentsOf(raw).Some? && Accepts(SegmentsOf(raw).value, Split(s, '/'))
  {
    hide Matches, TokensOf, NoWideStars, Split, Accepts, AnchoredPattern, IsDirectoryPattern, CompiledText, SegmentsOf, Classify;
    assert AnchoredPattern(raw) != "";
    var k := ExpressionReads(raw, s);
    hide ExpressionOf;
    var text := CompiledText(raw);
    MatchedIsAccepted(text, true, s[..k]);
    CompiledTextSegments(raw);
    var words, front := Split(s, '/'), Split(s[..k], '/');
    if IsDirectoryPattern(raw) {
      AcceptsMore(ClassifyAll(Split(text, '/')), front, words[|front|..]);
      assert front + words[|front|..] == words;
    } else {
      assert s[..k] == s;
      assert SegmentsOf(raw).value == ClassifyAll(Split(text, '/'));
    }
  }

  /** Two patterns that match the same path overlap. */
  lemma MatchedByBothOverlaps(rawA: string, rawB: string, path: string)
    requires IsPlainGlob(rawA) && IsPlainGlob(rawB) && IsPath(ProbedPath(path))
    requires PatternMatches(path, rawA) && PatternMatches(path, rawB)
    ensures SegmentsOf(rawA).Some? && SegmentsOf(rawB).Some?
    ensures Overlap(SegmentsOf(rawA).value, SegmentsOf(rawB).value)
  {
    PatternMatchIsAccepted(rawA, path);
    PatternMatchIsAccepted(rawB, path);
    AcceptedByBothOverlaps(SegmentsOf(rawA).value, SegmentsOf(rawB).value, Split(ProbedPath(path), '/'));
  }
}

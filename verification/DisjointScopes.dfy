/**
 * When conflict detection may call two patterns disjoint: plain path texts stand for exactly one path, and
 * different plain names at the same place exclude an overlap (packages/core/src/domain/task-conflicts.ts).
 */
module DisjointScopes {
  import opened Options
  import opened Text
  import opened ScopePatterns
  import opened ScopeSegments
  import opened ScopeGlob
  import opened ScopeSafety
  import opened WideStars

  /** A part that stands for itself. */
  predicate IsPlainPart(part: string) {
    '*' !in part && '?' !in part
  }

  /** A pattern with a slash, without trailing slash, empty parts, stars and question marks. */
  predicate IsPlainPattern(raw: string) {
    var p := AnchoredPattern(raw);
    '/' in p && !IsDirectoryPattern(raw) && "" !in Split(p, '/') && IsPlainPart(p)
  }

  lemma {:induction false} PlainParts(p: string)
    requires IsPlainPart(p)
    ensures forall i :: 0 <= i < |Split(p, '/')| ==> IsPlainPart(Split(p, '/')[i])
  {
    if p != "" {
      PlainParts(p[1..]);
      if p[0] != '/' {
        var rest := Split(p[1..], '/');
        assert IsPlainPart([p[0]] + rest[0]);
      }
    }
  }

  /** Names tell paths apart. */
  lemma {:induction false} SplitInjective(s: string, t: string)
    requires Split(s, '/') == Split(t, '/')
    ensures s == t
    decreases |s|
  {
    if '/' in s {
      var a, b := FirstSegment(s);
      var c, d := FirstSegment(t);
      assert Split(s, '/')[0] == a && Split(t, '/')[0] == c && Split(s, '/')[1..] == Split(b, '/') && Split(t, '/')[1..] == Split(d, '/');
      SplitInjective(b, d);
    } else {
      assert '/' !in t;
      assert Split(s, '/')[0] == s && Split(t, '/')[0] == t;
    }
  }

  /** Plain parts accept themselves and nothing else. */
  lemma {:induction false} PlainPartsAccept(parts: seq<string>, words: seq<string>)
    requires forall i :: 0 <= i < |parts| ==> IsPlainPart(parts[i])
    ensures Accepts(ClassifyAll(parts), words) <==> words == parts
  {
    if parts != [] {
      var segments := ClassifyAll(parts);
      assert segments[1..] == ClassifyAll(parts[1..]) && segments[0] == Literal(parts[0]);
      if words != [] {
        PlainPartsAccept(parts[1..], words[1..]);
        assert parts == [parts[0]] + parts[1..] && words == [words[0]] + words[1..];
      }
    }
  }

  lemma PlainPatternCompiles(raw: string)
    requires IsPlainPattern(raw)
    ensures SegmentsOf(raw) == Some(ClassifyAll(Split(AnchoredPattern(raw), '/')))
  {
    CompiledTextSegments(raw);
    hide AnchoredPattern, IsDirectoryPattern, Split, SegmentsOf;
    var segments := ClassifyAll(Split(AnchoredPattern(raw), '/'));
    assert segments + [] == segments;
  }

  /** The segments of a plain pattern accept the path it spells, and no other. */
  lemma PlainPatternAcceptsItself(raw: string, path: string)
    requires IsPlainPattern(raw)
    ensures SegmentsOf(raw).Some?
    ensures Accepts(SegmentsOf(raw).value, Split(path, '/')) <==> path == AnchoredPattern(raw)
  {
    var p := AnchoredPattern(raw);
    PlainPatternCompiles(raw);
    PlainParts(p);
    hide AnchoredPattern, IsDirectoryPattern, Split, SegmentsOf;
    PlainPartsAccept(Split(p, '/'), Split(path, '/'));
    if Split(path, '/') == Split(p, '/') {
      SplitInjective(path, p);
    }
  }

  /** A plain text matches itself and nothing else. */
  lemma {:induction false} PlainTextMatches(p: string, atStart: bool, s: string)
    requires IsPlainPart(p)
    ensures Matches(TokensOf(p, atStart), s) <==> s == p
    decreases |p|
  {
    if p != "" {
      var rest := TokensOf(p[1..], p[0] == '/');
      assert TokensOf(p, atStart) == [Chr(p[0])] + rest && ([Chr(p[0])] + rest)[1..] == rest;
      if s != "" {
        PlainTextMatches(p[1..], p[0] == '/', s[1..]);
        assert s == [s[0]] + s[1..] && p == [p[0]] + p[1..];
      }
    }
  }

  /** Two plain patterns overlap exactly when some path matches both, which is when they spell the same path. */
  lemma PlainOverlapIsExact(a: string, b: string)
    requires IsPlainPattern(a) && IsPlainPattern(b)
    ensures PatternsOverlap(a, b) <==> AnchoredPattern(a) == AnchoredPattern(b)
    ensures PatternsOverlap(a, b) <==> exists path :: PatternMatches(path, a) && PatternMatches(path, b)
  {
    var p, q := AnchoredPattern(a), AnchoredPattern(b);
    PlainPatternAcceptsItself(a, p);
    PlainPatternAcceptsItself(b, q);
    PlainPatternAcceptsItself(b, p);
    PlainMatches(a);
    PlainMatches(b);
    PlainOverlap(a, b);
    PlainEnds(p);
    hide AnchoredPattern, IsDirectoryPattern, Split, SegmentsOf, PatternMatches, PatternsOverlap, IsPlainPattern, ProbedPath;
    if p == q {
      assert PatternMatches(p, a) && PatternMatches(p, b);
    }
  }

  lemma PlainEnds(p: string)
    requires "" !in Split(p, '/') && '/' in p
    ensures ProbedPath(p) == p
  {
    if p[|p| - 1] == '/' {
      SlashAtEnd(p);
    }
  }

  lemma PlainMatches(raw: string)
    requires IsPlainPattern(raw)
    ensures forall path :: PatternMatches(path, raw) <==> ProbedPath(path) == AnchoredPattern(raw)
  {
    var p := AnchoredPattern(raw);
    hide AnchoredPattern, IsDirectoryPattern, Split, ProbedPath;
    assert ExpressionOf(raw) == Some(TokensOf(p, true));
    hide ExpressionOf;
    forall path ensures PatternMatches(path, raw) <==> ProbedPath(path) == p {
      PlainTextMatches(p, true, ProbedPath(path));
    }
  }

  /** The overlap of plain patterns has a common path, which both spell. */
  lemma PlainOverlap(a: string, b: string)
    requires IsPlainPattern(a) && IsPlainPattern(b)
    ensures PatternsOverlap(a, b) <==> AnchoredPattern(a) == AnchoredPattern(b)
  {
    var p, q := AnchoredPattern(a), AnchoredPattern(b);
    PlainPatternCompiles(a);
    PlainPatternCompiles(b);
    PlainParts(p);
    PlainParts(q);
    hide AnchoredPattern, IsDirectoryPattern, Split, SegmentsOf;
    var x, y := ClassifyAll(Split(p, '/')), ClassifyAll(Split(q, '/'));
    OverlapIsExact(x, y);
    if p == q {
      PlainPartsAccept(Split(p, '/'), Split(p, '/'));
      assert BothAccept(x, y, Split(p, '/'));
    }
    if Overlap(x, y) {
      var words :| BothAccept(x, y, words);
      PlainPartsAccept(Split(p, '/'), words);
      PlainPartsAccept(Split(q, '/'), words);
      SplitInjective(p, q);
    }
  }

  /** Plain parts with a tail of any depth accept exactly what begins with them. */
  lemma {:induction false} PlainPartsBegin(parts: seq<string>, words: seq<string>)
    requires forall i :: 0 <= i < |parts| ==> IsPlainPart(parts[i])
    ensures Accepts(ClassifyAll(parts) + [Multi], words) <==> parts <= words
  {
    var segments := ClassifyAll(parts) + [Multi];
    if parts == [] {
      assert segments == [Multi];
      MultiAcceptsAll(words);
    } else {
      assert segments[1..] == ClassifyAll(parts[1..]) + [Multi] && segments[0] == Literal(parts[0]);
      if words != [] {
        PlainPartsBegin(parts[1..], words[1..]);
        assert parts == [parts[0]] + parts[1..] && words == [words[0]] + words[1..];
      }
    }
  }

  /** A plain directory pattern covers exactly the paths that begin with its names. */
  lemma DirectoryAcceptsBelow(raw: string, path: string)
    requires '/' in AnchoredPattern(raw) && IsDirectoryPattern(raw) && IsPlainPart(AnchoredPattern(raw))
    requires "" !in Split(AnchoredPattern(raw), '/')
    ensures SegmentsOf(raw).Some?
    ensures Accepts(SegmentsOf(raw).value, Split(path, '/')) <==> Split(AnchoredPattern(raw), '/') <= Split(path, '/')
  {
    CompiledTextSegments(raw);
    PlainParts(AnchoredPattern(raw));
    hide AnchoredPattern, IsDirectoryPattern, Split, SegmentsOf, Accepts;
    PlainPartsBegin(Split(AnchoredPattern(raw), '/'), Split(path, '/'));
  }

  lemma {:induction false} AnyDepthAccepts(name: string, words: seq<string>)
    ensures Accepts([Multi, Literal(name)], words) <==> words != [] && words[|words| - 1] == name
  {
    var segments := [Multi, Literal(name)];
    assert segments[1..] == [Literal(name)] && [Literal(name)][1..] == [];
    if words != [] {
      assert Accepts([], words[1..]) <==> |words| == 1;
      assert Accepts([Literal(name)], words) <==> words[0] == name && |words| == 1;
      AnyDepthAccepts(name, words[1..]);
    }
  }

  /** A plain name without a slash covers exactly the paths that end with it, at any depth. */
  lemma NameAcceptsAtAnyDepth(raw: string, path: string)
    requires '/' !in AnchoredPattern(raw) && !IsDirectoryPattern(raw) && IsPlainPart(AnchoredPattern(raw)) && AnchoredPattern(raw) != ""
    ensures SegmentsOf(raw).Some?
    ensures Accepts(SegmentsOf(raw).value, Split(path, '/')) <==> Split(path, '/')[|Split(path, '/')| - 1] == AnchoredPattern(raw)
  {
    var p := AnchoredPattern(raw);
    assert Split(p, '/') == [p];
    hide AnchoredPattern, IsDirectoryPattern;
    assert ClassifyAll([p]) == [Literal(p)];
    assert [Multi] + [Literal(p)] + [] == [Multi, Literal(p)];
    AnyDepthAccepts(p, Split(path, '/'));
  }

  // --- Patterns with stars ---

  /** No part up to this one spans directories. */
  predicate OneNameEach(parts: seq<string>, i: nat) {
    i < |parts| && forall k :: 0 <= k <= i ==> parts[k] != "**"
  }

  /** Before any `**`, a plain part fixes the name at its place. */
  lemma {:induction false} PlainPartFixes(parts: seq<string>, more: seq<Segment>, words: seq<string>, i: nat)
    requires OneNameEach(parts, i) && IsPlainPart(parts[i]) && Accepts(ClassifyAll(parts) + more, words)
    ensures i < |words| && words[i] == parts[i]
  {
    var segments := ClassifyAll(parts) + more;
    assert segments[1..] == ClassifyAll(parts[1..]) + more;
    assert segments[0] == Classify(parts[0]);
    if i > 0 {
      PlainPartFixes(parts[1..], more, words[1..], i - 1);
    }
  }

  /** Different plain names at the same place, before any `**`, exclude an overlap. */
  lemma DifferentNamesExclude(a: string, b: string, i: nat)
    requires '/' in AnchoredPattern(a) && '/' in AnchoredPattern(b)
    requires OneNameEach(Split(AnchoredPattern(a), '/'), i) && OneNameEach(Split(AnchoredPattern(b), '/'), i)
    requires IsPlainPart(Split(AnchoredPattern(a), '/')[i]) && IsPlainPart(Split(AnchoredPattern(b), '/')[i])
    requires Split(AnchoredPattern(a), '/')[i] != Split(AnchoredPattern(b), '/')[i]
    ensures !PatternsOverlap(a, b)
  {
    if PatternsOverlap(a, b) {
      CompiledTextSegments(a);
      CompiledTextSegments(b);
      var p, q := Split(AnchoredPattern(a), '/'), Split(AnchoredPattern(b), '/');
      var x, y := if IsDirectoryPattern(a) then [Multi] else [], if IsDirectoryPattern(b) then [Multi] else [];
      assert SegmentsOf(a).value == ClassifyAll(p) + x && SegmentsOf(b).value == ClassifyAll(q) + y;
      hide AnchoredPattern, IsDirectoryPattern, Split, SegmentsOf;
      OverlapIsExact(ClassifyAll(p) + x, ClassifyAll(q) + y);
      var words :| BothAccept(ClassifyAll(p) + x, ClassifyAll(q) + y, words);
      PlainPartFixes(p, x, words, i);
      PlainPartFixes(q, y, words, i);
    }
  }
}

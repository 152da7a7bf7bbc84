/** Segment-level overlap of two scope patterns (packages/core/src/domain/task-conflicts.ts). */
module ScopeSegments {
  import opened Options
  import opened Text
  import opened ScopePatterns

  datatype Segment = Literal(value: string) | Wildcard | Multi

  function Classify(raw: string): Segment {
    if raw == "**" then Multi
    else if '*' in raw || '?' in raw then Wildcard
    else Literal(raw)
  }

  function ClassifyAll(parts: seq<string>): (segments: seq<Segment>)
    ensures |segments| == |parts|
    ensures forall i :: 0 <= i < |parts| ==> segments[i] == Classify(parts[i])
  {
    seq(|parts|, i requires 0 <= i < |parts| => Classify(parts[i]))
  }

  /** The segments of a pattern; None when it is empty or has an empty segment. */
  function SegmentsOf(raw: string): Option<seq<Segment>> {
    var pattern := AnchoredPattern(raw);
    var parts := Split(pattern, '/');
    if pattern == "" || "" in parts then None
    else Some((if '/' in pattern then [] else [Multi]) + ClassifyAll(parts)
              + (if IsDirectoryPattern(raw) then [Multi] else []))
  }

  method CompileScopeSegments(raw: string) returns (r: Option<seq<Segment>>)
    ensures r == SegmentsOf(raw)
  {
    var pattern, directoryAnchored := Anchor(raw);
    if |pattern| == 0 {
      return None;
    }
    var segments: seq<Segment> := [];
    if '/' !in pattern {
      segments := segments + [Multi];
    }
    ghost var anchor := segments;
    var parts := Split(pattern, '/');
    for i := 0 to |parts|
      invariant "" !in parts[..i]
      invariant segments == anchor + ClassifyAll(parts)[..i]
    {
      var part := parts[i];
      if |part| == 0 {
        return None;
      }
      segments := segments + [Classify(part)];
    }
    assert parts[..|parts|] == parts;
    assert segments == anchor + ClassifyAll(parts);
    if directoryAnchored {
      segments := segments + [Multi];
    }
    assert anchor == if '/' in pattern then [] else [Multi];
    assert segments == anchor + ClassifyAll(parts) + (if directoryAnchored then [Multi] else []);
    assert SegmentsOf(raw).Some?;
    assert SegmentsOf(raw).value == segments;
    return Some(segments);
  }

  /** Whether a segment list accepts a path, given as its names. */
  predicate Accepts(segments: seq<Segment>, words: seq<string>)
    decreases |segments| + |words|
  {
    if segments == [] then words == []
    else match segments[0]
      case Multi => Accepts(segments[1..], words) || (words != [] && Accepts(segments, words[1..]))
      case Wildcard => words != [] && Accepts(segments[1..], words[1..])
      case Literal(value) => words != [] && words[0] == value && Accepts(segments[1..], words[1..])
  }

  predicate BothAccept(a: seq<Segment>, b: seq<Segment>, words: seq<string>) {
    Accepts(a, words) && Accepts(b, words)
  }

  predicate CanShareSegment(a: Segment, b: Segment) {
    a.Literal? && b.Literal? ==> a.value == b.value
  }

  /** The plain recursion of the overlap test, on the unread parts of the two lists. */
  predicate Overlap(a: seq<Segment>, b: seq<Segment>)
    decreases |a| + |b|
  {
    if a == [] && b == [] then true
    else if a != [] && a[0].Multi? then Overlap(a[1..], b) || (b != [] && Overlap(a, b[1..]))
    else if b != [] && b[0].Multi? then Overlap(a, b[1..]) || (a != [] && Overlap(a[1..], b))
    else a != [] && b != [] && CanShareSegment(a[0], b[0]) && Overlap(a[1..], b[1..])
  }

  /** Whether two raw patterns are reported as overlapping. */
  predicate PatternsOverlap(a: string, b: string) {
    SegmentsOf(a).Some? && SegmentsOf(b).Some? && Overlap(SegmentsOf(a).value, SegmentsOf(b).value)
  }

  /** The memoised overlap test: one entry per pair of positions already decided. */
  class OverlapTest {
    const a: seq<Segment>
    const b: seq<Segment>
    var memo: map<(nat, nat), bool>

    constructor (a: seq<Segment>, b: seq<Segment>)
      ensures this.a == a && this.b == b && Valid()
    {
      this.a, this.b, memo := a, b, map[];
    }

    ghost predicate Valid()
      reads this
    {
      forall key :: key in memo ==>
        key.0 <= |a| && key.1 <= |b| && memo[key] == Overlap(a[key.0..], b[key.1..])
    }

    method Match(i: nat, j: nat) returns (result: bool)
      requires Valid() && i <= |a| && j <= |b|
      modifies this
      ensures Valid() && result == Overlap(a[i..], b[j..])
      decreases |a| - i + |b| - j, 1
    {
      if (i, j) in memo {
        return memo[(i, j)];
      }
      result := MatchUncached(i, j);
      memo := memo[(i, j) := result];
    }

    method MatchUncached(i: nat, j: nat) returns (result: bool)
      requires Valid() && i <= |a| && j <= |b|
      modifies this
      ensures Valid() && result == Overlap(a[i..], b[j..])
      decreases |a| - i + |b| - j, 0
    {
      if i == |a| && j == |b| {
        return true;
      }
      if i < |a| && a[i].Multi? {
        result := Match(i + 1, j);
        if !result && j < |b| {
          result := Match(i, j + 1);
        }
        return;
      }
      if j < |b| && b[j].Multi? {
        result := Match(i, j + 1);
        if !result && i < |a| {
          result := Match(i + 1, j);
        }
        return;
      }
      if i == |a| || j == |b| {
        return false;
      }
      if !CanShareSegment(a[i], b[j]) {
        return false;
      }
      result := Match(i + 1, j + 1);
    }
  }

  method SegmentsOverlap(a: seq<Segment>, b: seq<Segment>) returns (r: bool)
    ensures r <==> exists words :: BothAccept(a, b, words)
  {
    var test := new OverlapTest(a, b);
    r := test.Match(0, 0);
    assert a[0..] == a && b[0..] == b;
    OverlapIsExact(a, b);
  }

  /** Whatever two lists both accept, the overlap test sees. */
  lemma {:induction false} AcceptedByBothOverlaps(a: seq<Segment>, b: seq<Segment>, words: seq<string>)
    requires Accepts(a, words) && Accepts(b, words)
    ensures Overlap(a, b)
    decreases |a| + |b| + |words|
  {
    if a != [] && a[0].Multi? {
      if Accepts(a[1..], words) {
        AcceptedByBothOverlaps(a[1..], b, words);
      } else if b[0].Multi? && Accepts(b[1..], words) {
        AcceptedByBothOverlaps(a, b[1..], words);
      } else if b[0].Multi? {
        AcceptedByBothOverlaps(a, b, words[1..]);
      } else {
        AcceptedByBothOverlaps(a, b[1..], words[1..]);
      }
    } else if b != [] && b[0].Multi? {
      if Accepts(b[1..], words) {
        AcceptedByBothOverlaps(a, b[1..], words);
      } else {
        AcceptedByBothOverlaps(a[1..], b, words[1..]);
      }
    } else if words != [] {
      AcceptedByBothOverlaps(a[1..], b[1..], words[1..]);
    }
  }

  /** The literals of a list are names, as they are in every compiled pattern. */
  ghost predicate LiteralsAreNames(segments: seq<Segment>) {
    forall s :: s in segments && s.Literal? ==> IsName(s.value)
  }

  /** A name that both heads accept. */
  function SharedName(a: Segment, b: Segment): string {
    if a.Literal? then a.value else if b.Literal? then b.value else "x"
  }

  /** An overlap is witnessed by names that both lists accept, even when all of them have to be path names. */
  lemma {:induction false} OverlapWitness(a: seq<Segment>, b: seq<Segment>) returns (words: seq<string>)
    requires Overlap(a, b)
    ensures Accepts(a, words) && Accepts(b, words)
    ensures LiteralsAreNames(a) && LiteralsAreNames(b) ==> AllNames(words)
    decreases |a| + |b|
  {
    if a == [] && b == [] {
      words := [];
    } else if a != [] && a[0].Multi? {
      if Overlap(a[1..], b) {
        words := OverlapWitness(a[1..], b);
      } else {
        words := OverlapWitness(a, b[1..]);
        words := Extend(a[0], b[0], a, b, words);
      }
    } else if b != [] && b[0].Multi? {
      if Overlap(a, b[1..]) {
        words := OverlapWitness(a, b[1..]);
      } else {
        words := OverlapWitness(a[1..], b);
        words := Extend(a[0], b[0], a, b, words);
      }
    } else {
      words := OverlapWitness(a[1..], b[1..]);
      words := Extend(a[0], b[0], a, b, words);
    }
  }

  /** Puts a shared name in front of a witness; a Multi head may stay to read the rest. */
  lemma Extend(x: Segment, y: Segment, a: seq<Segment>, b: seq<Segment>, rest: seq<string>) returns (words: seq<string>)
    requires a != [] && b != [] && a[0] == x && b[0] == y && CanShareSegment(x, y)
    requires Accepts(a[1..], rest) || (x.Multi? && Accepts(a, rest))
    requires Accepts(b[1..], rest) || (y.Multi? && Accepts(b, rest))
    ensures Accepts(a, words) && Accepts(b, words)
    ensures AllNames(rest) && LiteralsAreNames(a) && LiteralsAreNames(b) ==> AllNames(words)
  {
    words := [SharedName(x, y)] + rest;
    assert words[1..] == rest;
  }

  /** The overlap test is exact: it answers true if and only if some path is accepted by both lists. */
  lemma OverlapIsExact(a: seq<Segment>, b: seq<Segment>)
    ensures Overlap(a, b) <==> exists words :: BothAccept(a, b, words)
    ensures LiteralsAreNames(a) && LiteralsAreNames(b) ==>
              (Overlap(a, b) <==> exists words :: AllNames(words) && BothAccept(a, b, words))
  {
    forall words | BothAccept(a, b, words) ensures Overlap(a, b) {
      AcceptedByBothOverlaps(a, b, words);
    }
    if Overlap(a, b) {
      var words := OverlapWitness(a, b);
      assert BothAccept(a, b, words);
    }
  }

  lemma OverlapIsSymmetric(a: seq<Segment>, b: seq<Segment>)
    ensures Overlap(a, b) == Overlap(b, a)
  {
    OverlapIsExact(a, b);
    OverlapIsExact(b, a);
  }

  /** Compiled patterns hold no literal that could not be a path name. */
  lemma CompiledLiteralsAreNames(raw: string)
    requires SegmentsOf(raw).Some?
    ensures LiteralsAreNames(SegmentsOf(raw).value)
  {
    var parts := Split(AnchoredPattern(raw), '/');
    forall s | s in SegmentsOf(raw).value && s.Literal? ensures IsName(s.value) {
      assert s in ClassifyAll(parts);
    }
  }
}

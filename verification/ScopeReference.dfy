/**
 * What a scope pattern means, name by name, and that the compiled matcher means exactly that
 * (packages/orchestrator/src/task-scope.ts).
 */
module ScopeReference {
  import opened Options
  import opened Text
  import opened ScopePatterns
  import opened ScopeGlob
  import opened ScopeSafety
  import opened WideStars

  // --- The meaning of a pattern ---

  /** A part of a pattern fits a name: a star stands for any text, a question mark for any character. */
  predicate NameFits(part: string, name: string)
    decreases |part| + |name|
  {
    if part == "" then name == ""
    else if part[0] == '*' then NameFits(part[1..], name) || (name != "" && NameFits(part, name[1..]))
    else name != "" && (part[0] == '?' || part[0] == name[0]) && NameFits(part[1..], name[1..])
  }

  predicate IsStarRun(part: string) {
    |part| >= 2 && forall i :: 0 <= i < |part| ==> part[i] == '*'
  }

  predicate OnOneLine(name: string) {
    forall i :: 0 <= i < |name| ==> !IsLineTerminator(name[i])
  }

  /**
   * The parts of a pattern fit the names of a path. Two or more stars stand for any directories, or at the
   * end for everything below; right after such a part they are read as stars within a name.
   */
  predicate PathFits(parts: seq<string>, names: seq<string>, atStart: bool)
    decreases |parts| + |names|
  {
    if parts == [] then names == []
    else if atStart && IsStarRun(parts[0]) then
      if |parts| == 1 then names != [] && forall i :: 0 <= i < |names| ==> OnOneLine(names[i])
      else PathFits(parts[1..], names, false) || (names != [] && PathFits(parts, names[1..], true))
    else names != [] && NameFits(parts[0], names[0]) && PathFits(parts[1..], names[1..], true)
  }

  lemma {:induction false} NothingFitsNoNames(parts: seq<string>, atStart: bool)
    requires parts != []
    ensures !PathFits(parts, [], atStart)
  {
    if atStart && IsStarRun(parts[0]) && |parts| > 1 {
      NothingFitsNoNames(parts[1..], false);
    }
  }

  // --- Within a name ---

  /** A run of stars means what one star means. */
  lemma {:induction false} StarsCollapse(part: string, n: nat, name: string)
    requires 1 <= n <= |part| && forall i :: 0 <= i < n ==> part[i] == '*'
    ensures NameFits(part, name) <==> NameFits(part[n..], name) || (name != "" && NameFits(part, name[1..]))
    decreases n, |name|
  {
    if n > 1 {
      var rest := part[1..];
      StarsCollapse(rest, n - 1, name);
      assert rest[n - 1..] == part[n..];
    }
  }

  /** What follows a name in a path. */
  predicate IsRest(s: string) {
    s == "" || s[0] == '/'
  }

  /** An ordinary segment and its tail match a name and what follows it exactly when both fit. */
  lemma {:induction false} SegmentExact(segment: string, tail: string, atStart: bool, name: string, more: string)
    requires '/' !in segment && IsTail(tail) && !SpansDirectories(segment, atStart) && '/' !in name && IsRest(more)
    ensures Matches(TokensOf(segment + tail, atStart), name + more) <==> NameFits(segment, name) && Matches(TokensOf(tail, false), more)
    decreases |segment| + |name|
  {
    if segment == "" {
      TailTokens(tail, atStart);
      assert "" + more == more;
      if name != "" {
        TailNeedsSlash(tail, name + more);
      }
    } else {
      var first := OrdinaryPiece(segment, tail, atStart);
      var rest := segment[first.length..];
      hide TokensOf, FirstPiece, SpansDirectories;
      if first.token == Star {
        StarExact(segment, tail, atStart, name, more, first);
      } else if name == "" {
        assert "" + more == more;
        OneNeedsName(first.token, TokensOf(rest + tail, false), more);
        NotAStar(segment, tail, atStart, first);
      } else {
        SegmentExact(rest, tail, false, name[1..], more);
        NotAStar(segment, tail, atStart, first);
        assert (name + more)[1..] == name[1..] + more;
        assert ([first.token] + TokensOf(rest + tail, false))[1..] == TokensOf(rest + tail, false);
      }
    }
  }

  lemma TailNeedsSlash(tail: string, s: string)
    requires IsTail(tail) && s != "" && s[0] != '/'
    ensures !Matches(TokensOf(tail, false), s)
  {
    if tail != "" {
      AfterSlash(tail[1..]);
      assert tail == "/" + tail[1..];
    }
  }

  /** A token other than a star reads one character, and not a slash. */
  lemma OneNeedsName(token: Token, rest: seq<Token>, more: string)
    requires token == One || (token.Chr? && token.c != '/')
    requires IsRest(more)
    ensures !Matches([token] + rest, more)
  {
  }

  lemma NotAStar(segment: string, tail: string, atStart: bool, first: Piece)
    requires segment != "" && first == FirstPiece(segment + tail, atStart) && first.token != Star && '/' !in segment
    requires first.token in {Star, One, Chr(segment[0])}
    ensures segment[0] != '*' && first.length == 1 && (first.token == One <==> segment[0] == '?')
    ensures first.token == One || first.token == Chr(segment[0])
  {
  }

  lemma StarExact(segment: string, tail: string, atStart: bool, name: string, more: string, first: Piece)
    requires '/' !in segment && IsTail(tail) && !SpansDirectories(segment, atStart) && '/' !in name && IsRest(more) && segment != ""
    requires first == FirstPiece(segment + tail, atStart) && first.token == Star && first.length <= |segment|
    requires TokensOf(segment + tail, atStart) == [Star] + TokensOf(segment[first.length..] + tail, false)
    requires !SpansDirectories(segment[first.length..], false)
    ensures Matches(TokensOf(segment + tail, atStart), name + more) <==> NameFits(segment, name) && Matches(TokensOf(tail, false), more)
    decreases |segment| + |name|, 0
  {
    var rest, s := segment[first.length..], name + more;
    var tokens := [Star] + TokensOf(rest + tail, false);
    assert tokens[1..] == TokensOf(rest + tail, false);
    SegmentExact(rest, tail, false, name, more);
    LeadingOfStar(segment, tail, atStart, first);
    StarsCollapse(segment, first.length, name);
    hide TokensOf, FirstPiece, SpansDirectories;
    if name != "" {
      assert s[1..] == name[1..] + more;
      StarExact(segment, tail, atStart, name[1..], more, first);
    }
    hide NameFits;
  }

  lemma LeadingOfStar(segment: string, tail: string, atStart: bool, first: Piece)
    requires '/' !in segment && IsTail(tail) && segment != "" && first == FirstPiece(segment + tail, atStart) && first.token == Star
    requires first.length <= |segment|
    ensures forall i :: 0 <= i < first.length ==> segment[i] == '*'
  {
    var p := segment + tail;
    assert forall i :: 0 <= i < |segment| ==> p[i] == segment[i];
  }

  // --- Whole texts ---

  lemma StarRunsSpan(segment: string, atStart: bool)
    ensures SpansDirectories(segment, atStart) <==> atStart && IsStarRun(segment)
  {
    if IsStarRun(segment) {
      LeadingStarsOf(segment);
    }
  }

  lemma {:induction false} RestExact(s: string)
    ensures Matches([Rest], s) <==> OnOneLine(s)
  {
    assert [Rest][1..] == [];
    if s != "" {
      RestExact(s[1..]);
    }
  }

  lemma OneLineCons(c: char, t: string)
    ensures OnOneLine([c] + t) <==> !IsLineTerminator(c) && OnOneLine(t)
  {
    var s := [c] + t;
    assert s[0] == c && forall i :: 0 <= i < |t| ==> t[i] == s[i + 1];
  }

  ghost predicate AllOnOneLine(names: seq<string>) {
    forall i :: 0 <= i < |names| ==> OnOneLine(names[i])
  }

  lemma AllOnOneLineCons(name: string, names: seq<string>)
    ensures AllOnOneLine([name] + names) <==> OnOneLine(name) && AllOnOneLine(names)
  {
    var all := [name] + names;
    assert all[0] == name && forall i :: 0 <= i < |names| ==> names[i] == all[i + 1];
  }

  /** A path is on one line when its names are. */
  lemma {:induction false} NamesOnOneLine(s: string)
    ensures OnOneLine(s) <==> AllOnOneLine(Split(s, '/'))
  {
    if s != "" {
      var rest := Split(s[1..], '/');
      NamesOnOneLine(s[1..]);
      OneLineCons(s[0], s[1..]);
      assert s == [s[0]] + s[1..];
      AllOnOneLineCons(rest[0], rest[1..]);
      assert rest == [rest[0]] + rest[1..];
      hide OnOneLine, AllOnOneLine;
      if s[0] == '/' {
        AllOnOneLineCons("", rest);
        EmptyIsOnOneLine();
      } else {
        OneLineCons(s[0], rest[0]);
        AllOnOneLineCons([s[0]] + rest[0], rest[1..]);
      }
    }
  }

  lemma EmptyIsOnOneLine()
    ensures OnOneLine("")
  {
  }

  /** Where a path begins with a directory, and what follows it. */
  lemma DirectoryOfPath(s: string)
    requires IsPath(s)
    ensures StartsWithDirectory(s) <==> '/' in s
    ensures '/' in s ==> IsPath(AfterDirectory(s)) && Split(s, '/')[1..] == Split(AfterDirectory(s), '/')
    ensures '/' in s ==> s == Split(s, '/')[0] + ("/" + AfterDirectory(s)) && IsName(Split(s, '/')[0])
  {
    assert Split(s, '/')[0] in Split(s, '/');
    if '/' in s {
      var name, rest := FirstSegment(s);
      assert Split(s, '/')[0] == name && Split(s, '/')[1..] == Split(rest, '/');
      assert s[0] != '/';
      SplitInjectiveTail(name, rest, s);
      forall w | w in Split(rest, '/') ensures IsName(w) {
        assert w in Split(s, '/');
      }
    }
  }

  lemma {:induction false} SplitInjectiveTail(name: string, rest: string, s: string)
    requires '/' !in name && s == name + ("/" + rest) && '/' in s
    ensures AfterDirectory(s) == rest
  {
    if name == "" {
      assert s[1..] == rest;
    } else {
      assert s[1..] == name[1..] + ("/" + rest);
      assert s[1..][|name| - 1] == '/';
      SplitInjectiveTail(name[1..], rest, s[1..]);
    }
  }

  /** A directory token stands for any number of leading names. */
  lemma DirsExact(rest: seq<Token>, s: string)
    requires IsPath(s)
    ensures Matches([Dirs] + rest, s) <==> Matches(rest, s) || ('/' in s && Matches([Dirs] + rest, AfterDirectory(s)))
  {
    DirectoryOfPath(s);
    assert ([Dirs] + rest)[1..] == rest;
  }

  /** An ordinary segment in front of a slash. */
  lemma OrdinaryExact(segment: string, rest: string, atStart: bool, s: string)
    requires '/' !in segment && !SpansDirectories(segment, atStart) && IsPath(s)
    ensures Matches(TokensOf(segment + ("/" + rest), atStart), s) <==>
            '/' in s && NameFits(segment, Split(s, '/')[0]) && Matches(TokensOf(rest, true), AfterDirectory(s))
  {
    DirectoryOfPath(s);
    AfterSlash(rest);
    hide Split, TokensOf, SpansDirectories;
    if '/' in s {
      var name, below := Split(s, '/')[0], AfterDirectory(s);
      SegmentExact(segment, "/" + rest, atStart, name, "/" + below);
      assert ([Chr('/')] + TokensOf(rest, true))[1..] == TokensOf(rest, true) && ("/" + below)[1..] == below;
    } else {
      SegmentExact(segment, "/" + rest, atStart, s, "");
      assert s + "" == s;
    }
  }

  /** A text without slashes. */
  lemma LastExact(p: string, atStart: bool, s: string)
    requires '/' !in p && IsPath(s)
    ensures Matches(TokensOf(p, atStart), s) <==> PathFits([p], Split(s, '/'), atStart)
  {
    StarRunsSpan(p, atStart);
    DirectoryOfPath(s);
    if SpansDirectories(p, atStart) {
      SpanningRest(p, atStart);
      RestExact(s);
      NamesOnOneLine(s);
    } else {
      var name := Split(s, '/')[0];
      var more := if '/' in s then "/" + AfterDirectory(s) else "";
      assert p + "" == p && s == name + more;
      SegmentExact(p, "", atStart, name, more);
      assert [p][1..] == [];
      hide Split, SpansDirectories;
      assert Matches(TokensOf("", false), more) <==> more == "";
      assert PathFits([], Split(s, '/')[1..], true) <==> |Split(s, '/')| == 1;
    }
  }

  /** The tokens of a text match a path exactly when its parts fit the names. */
  lemma {:induction false} TextExact(p: string, atStart: bool, s: string)
    requires IsPath(s)
    ensures Matches(TokensOf(p, atStart), s) <==> PathFits(Split(p, '/'), Split(s, '/'), atStart)
    decreases |p| + |s|
  {
    if '/' in p {
      var segment, rest := FirstSegment(p);
      var parts, names := Split(p, '/'), Split(s, '/');
      StarRunsSpan(segment, atStart);
      DirectoryOfPath(s);
      assert parts[0] == segment && parts[1..] == Split(rest, '/');
      if SpansDirectories(segment, atStart) {
        SpanningTokens(segment, rest, atStart);
        DirsExact(TokensOf(rest, false), s);
        TextExact(rest, false, s);
        hide TokensOf, SpansDirectories, AfterDirectory;
        if '/' in s {
          TextExact(p, true, AfterDirectory(s));
        } else {
          NothingFitsNoNames(parts, true);
          assert names[1..] == [];
        }
      } else {
        OrdinaryExact(segment, rest, atStart, s);
        hide TokensOf, SpansDirectories, AfterDirectory;
        if '/' in s {
          TextExact(rest, true, AfterDirectory(s));
        } else {
          NothingFitsNoNames(parts[1..], true);
          assert names[1..] == [];
        }
      }
    } else {
      LastExact(p, atStart, s);
      assert Split(p, '/') == [p];
    }
  }

  // --- Raw patterns ---

  /** The last part stands for everything below. */
  predicate EndsOpen(parts: seq<string>, atStart: bool) {
    parts != [] &&
    if |parts| == 1 then atStart && IsStarRun(parts[0]) else EndsOpen(parts[1..], !(atStart && IsStarRun(parts[0])))
  }

  lemma {:induction false} SegmentTokens(segment: string, tail: string, atStart: bool) returns (front: seq<Token>)
    requires '/' !in segment && IsTail(tail) && !SpansDirectories(segment, atStart)
    ensures TokensOf(segment + tail, atStart) == front + TokensOf(tail, false) && Rest !in front
    decreases |segment|
  {
    hide TokensOf, FirstPiece, SpansDirectories;
    if segment == "" {
      TailTokens(tail, atStart);
      front := [];
    } else {
      var first := OrdinaryPiece(segment, tail, atStart);
      var more := SegmentTokens(segment[first.length..], tail, false);
      front := [first.token] + more;
    }
  }

  /** The text ends with the token for everything below. */
  predicate EndsInRest(tokens: seq<Token>) {
    tokens != [] && tokens[|tokens| - 1] == Rest
  }

  lemma EndsInRestAfter(front: seq<Token>, back: seq<Token>)
    ensures back != [] ==> EndsInRest(front + back) == EndsInRest(back)
    ensures back == [] && Rest !in front ==> !EndsInRest(front + back)
  {
    assert back == [] ==> front + back == front;
  }

  lemma LastSegmentEnds(p: string, atStart: bool)
    requires '/' !in p
    ensures EndsInRest(TokensOf(p, atStart)) <==> EndsOpen([p], atStart)
  {
    StarRunsSpan(p, atStart);
    if SpansDirectories(p, atStart) {
      SpanningRest(p, atStart);
    } else {
      var front := SegmentTokens(p, "", atStart);
      assert p + "" == p;
      hide TokensOf, SpansDirectories;
      EndsInRestAfter(front, TokensOf("", false));
      NoTokens();
    }
  }

  lemma NoTokens()
    ensures TokensOf("", false) == [] && TokensOf("", true) == []
  {
  }

  lemma OrdinarySegmentEnds(segment: string, rest: string, atStart: bool)
    requires '/' !in segment && !SpansDirectories(segment, atStart)
    ensures EndsInRest(TokensOf(segment + ("/" + rest), atStart)) == EndsInRest(TokensOf(rest, true))
  {
    var front := SegmentTokens(segment, "/" + rest, atStart);
    AfterSlash(rest);
    hide TokensOf, SpansDirectories;
    EndsInRestAfter(front, [Chr('/')] + TokensOf(rest, true));
    EndsInRestAfter([Chr('/')], TokensOf(rest, true));
  }

  /** The compiled text ends with the token for everything below exactly when its last part says so. */
  lemma {:induction false} LastTokenExact(p: string, atStart: bool)
    ensures EndsInRest(TokensOf(p, atStart)) <==> EndsOpen(Split(p, '/'), atStart)
    decreases |p|
  {
    if '/' in p {
      var segment, rest := FirstSegment(p);
      var parts := Split(p, '/');
      StarRunsSpan(segment, atStart);
      assert parts[0] == segment && parts[1..] == Split(rest, '/');
      hide TokensOf, IsStarRun;
      if SpansDirectories(segment, atStart) {
        SpanningTokens(segment, rest, atStart);
        LastTokenExact(rest, false);
        EndsInRestAfter([Dirs], TokensOf(rest, false));
      } else {
        OrdinarySegmentEnds(segment, rest, atStart);
        LastTokenExact(rest, true);
      }
    } else {
      LastSegmentEnds(p, atStart);
      assert Split(p, '/') == [p];
    }
  }

  /** Two matched texts make one that the joined tokens match. */
  lemma {:induction false} MatchJoins(left: seq<Token>, right: seq<Token>, u: string, v: string)
    requires Matches(left, u) && Matches(right, v)
    ensures Matches(left + right, u + v)
    decreases |left| + 2 * |u|
  {
    if left == [] {
      assert left + right == right && u + v == v;
    } else {
      var tokens := left + right;
      assert tokens[1..] == left[1..] + right && tokens[0] == left[0];
      if u != "" {
        assert (u + v)[1..] == u[1..] + v && (u + v)[0] == u[0];
      }
      match left[0]
      case Chr(c) => MatchJoins(left[1..], right, u[1..], v);
      case One => MatchJoins(left[1..], right, u[1..], v);
      case Star =>
        if Matches(left[1..], u) { MatchJoins(left[1..], right, u, v); } else { MatchJoins(left, right, u[1..], v); }
      case Rest =>
        if Matches(left[1..], u) { MatchJoins(left[1..], right, u, v); } else { MatchJoins(left, right, u[1..], v); }
      case NonEmptyRest =>
        assert [Rest] + tokens[1..] == ([Rest] + left[1..]) + right;
        MatchJoins([Rest] + left[1..], right, u[1..], v);
      case Dirs =>
        if Matches(left[1..], u) {
          MatchJoins(left[1..], right, u, v);
        } else {
          var rest := AfterDirectory(u);
          var name := u[..|u| - |rest| - 1];
          assert u + v == name + ("/" + (rest + v));
          SplitInjectiveTail(name, rest + v, u + v);
          MatchJoins(left, right, rest, v);
        }
    }
  }

  /** A path of several names, taken apart behind the first. */
  lemma FirstName(s: string) returns (name: string, rest: string)
    requires IsPath(s) && '/' in s
    ensures s == name + "/" + rest && IsName(name) && IsPath(rest) && |rest| < |s|
    ensures Split(s, '/') == [name] + Split(rest, '/')
  {
    name, rest := FirstSegment(s);
    DirectoryOfPath(s);
    SplitInjectiveTail(name, rest, s);
    assert Split(s, '/')[0] == name;
  }

  /** A cut of a path between two of its names. */
  lemma {:induction false} CutPath(s: string, k: nat) returns (front: string, back: string)
    requires IsPath(s) && 0 < k < |Split(s, '/')|
    ensures s == front + "/" + back && IsPath(front) && IsPath(back)
    ensures Split(front, '/') == Split(s, '/')[..k] && Split(back, '/') == Split(s, '/')[k..]
    decreases |s|
  {
    hide Split, IsPath, IsName;
    SeveralNames(s);
    var name, rest := FirstName(s);
    OneNamePath(name);
    if k == 1 {
      front, back := name, rest;
    } else {
      var f, b := CutPath(rest, k - 1);
      front, back := name + "/" + f, b;
      JoinedPath(name, f);
      assert front + "/" + back == name + "/" + (f + "/" + b);
    }
  }

  lemma SeveralNames(s: string)
    ensures |Split(s, '/')| > 1 ==> '/' in s
  {
  }

  lemma OneNamePath(name: string)
    requires IsName(name)
    ensures IsPath(name) && Split(name, '/') == [name]
  {
  }

  lemma JoinedPath(name: string, rest: string)
    requires IsName(name) && IsPath(rest)
    ensures IsPath(name + "/" + rest) && Split(name + "/" + rest, '/') == [name] + Split(rest, '/')
  {
    PathCons(name, rest);
    SplitConcat(name, rest, '/');
  }

  /** The names below a directory: some, on one line, after names that the parts fit. */
  ghost predicate FitsBelow(parts: seq<string>, names: seq<string>) {
    exists k :: 0 < k < |names| && PathFits(parts, names[..k], true) && AllOnOneLine(names[k..])
  }

  lemma BelowReads(back: string)
    requires back != ""
    ensures Matches([Chr('/'), NonEmptyRest], "/" + back) <==> OnOneLine(back)
  {
    assert [Chr('/'), NonEmptyRest][1..] == [NonEmptyRest] && ("/" + back)[1..] == back;
    assert [Rest] + [NonEmptyRest][1..] == [Rest];
    RestExact(back[1..]);
    OneLineCons(back[0], back[1..]);
    assert back == [back[0]] + back[1..];
  }

  lemma TailReadsSlash(s: string)
    requires Matches([Chr('/'), NonEmptyRest], s)
    ensures |s| >= 2 && s[0] == '/'
  {
    assert [Chr('/'), NonEmptyRest][1..] == [NonEmptyRest];
  }

  lemma CutNames(front: string, back: string)
    requires IsPath(front + "/" + back)
    ensures IsPath(front) && Split(front + "/" + back, '/') == Split(front, '/') + Split(back, '/')
  {
    SplitConcat(front, back, '/');
    assert forall w :: w in Split(front, '/') ==> w in Split(front + "/" + back, '/');
  }

  /** What the tail of a directory pattern reads lies below what its text matches. */
  lemma DirectoryReadsBelow(p: string, s: string)
    requires IsPath(s) && Matches(TokensOf(p, true) + [Chr('/'), NonEmptyRest], s)
    ensures FitsBelow(Split(p, '/'), Split(s, '/'))
  {
    hide Split, Matches, TokensOf, IsPath, PathFits;
    var k := MatchSplits(TokensOf(p, true), [Chr('/'), NonEmptyRest], s);
    TailReadsSlash(s[k..]);
    var front, back := s[..k], s[k + 1..];
    assert s == front + "/" + back && s[k..] == "/" + back;
    CutNames(front, back);
    TextExact(p, true, front);
    BelowReads(back);
    NamesOnOneLine(back);
    var names, n := Split(s, '/'), |Split(front, '/')|;
    assert names[..n] == Split(front, '/') && names[n..] == Split(back, '/');
  }

  lemma BelowIsRead(p: string, s: string)
    requires IsPath(s) && FitsBelow(Split(p, '/'), Split(s, '/'))
    ensures Matches(TokensOf(p, true) + [Chr('/'), NonEmptyRest], s)
  {
    var names := Split(s, '/');
    hide Split, Matches, TokensOf, IsPath, PathFits;
    var k :| 0 < k < |names| && PathFits(Split(p, '/'), names[..k], true) && AllOnOneLine(names[k..]);
    var front, back := CutPath(s, k);
    TextExact(p, true, front);
    NamesOnOneLine(back);
    PathIsNotEmpty(back);
    BelowReads(back);
    MatchJoins(TokensOf(p, true), [Chr('/'), NonEmptyRest], front, "/" + back);
    assert front + ("/" + back) == s;
  }

  /** The tail of a directory pattern matches exactly what lies below. */
  lemma DirectoryExact(p: string, s: string)
    requires IsPath(s)
    ensures Matches(TokensOf(p, true) + [Chr('/'), NonEmptyRest], s) <==> FitsBelow(Split(p, '/'), Split(s, '/'))
  {
    hide Split, Matches, TokensOf, IsPath, FitsBelow;
    if Matches(TokensOf(p, true) + [Chr('/'), NonEmptyRest], s) {
      DirectoryReadsBelow(p, s);
    } else if FitsBelow(Split(p, '/'), Split(s, '/')) {
      BelowIsRead(p, s);
    }
  }

  lemma PathIsNotEmpty(s: string)
    requires IsPath(s)
    ensures s != ""
  {
    assert Split(s, '/')[0] in Split(s, '/');
  }

  /**
   * The meaning of a pattern: without a slash it applies at any depth, with a trailing slash to what lies
   * below, and otherwise its parts fit the names.
   */
  ghost predicate PatternFits(raw: string, names: seq<string>) {
    var p := AnchoredPattern(raw);
    p != "" &&
    var parts := (if '/' in p then [] else ["**"]) + Split(p, '/');
    if IsDirectoryPattern(raw) && !EndsOpen(parts, true) then FitsBelow(parts, names) else PathFits(parts, names, true)
  }

  /** The compiled matcher matches a path exactly when the pattern fits its names. */
  lemma PatternMatchesWhatFits(raw: string, path: string)
    requires IsPath(ProbedPath(path))
    ensures PatternMatches(path, raw) <==> PatternFits(raw, Split(ProbedPath(path), '/'))
  {
    var p, s := AnchoredPattern(raw), ProbedPath(path);
    if p != "" {
      var text := CompiledText(raw);
      CompiledParts(raw);
      LastTokenExact(text, true);
      TextExact(text, true, s);
      DirectoryExact(text, s);
      hide AnchoredPattern, IsDirectoryPattern, Split, Matches, TokensOf, PathFits, EndsOpen, FitsBelow, ProbedPath, IsPath;
      assert ExpressionOf(raw) == Some(if IsDirectoryPattern(raw) && !EndsInRest(TokensOf(text, true))
                                       then TokensOf(text, true) + [Chr('/'), NonEmptyRest] else TokensOf(text, true));
    }
  }

  lemma CompiledParts(raw: string)
    ensures Split(CompiledText(raw), '/') == (if '/' in AnchoredPattern(raw) then [] else ["**"]) + Split(AnchoredPattern(raw), '/')
  {
    var p := AnchoredPattern(raw);
    if '/' !in p {
      SplitConcat("**", p, '/');
      assert "**" + ['/'] + p == "**/" + p;
    }
    hide AnchoredPattern;
  }

  // --- Spellings of a changed path ---

  /** A path as Git lists it, and its spellings with a leading dot or slash, or with backslashes, are the same path. */
  lemma SpellingsAgree(p: string, spelled: string)
    requires '\\' !in p && !("./" <= p) && !("/" <= p) && Replace(spelled, '\\', '/') == p
    ensures NormalizedPath(p) == NormalizedPath(spelled) == NormalizedPath("./" + spelled) == NormalizedPath("/" + spelled) == p
  {
    ReplaceNothing(p);
    ReplaceFront("./", spelled);
    ReplaceFront("/", spelled);
    assert ("./" + p)[..2] == "./" && ("./" + p)[2..] == p && ("/" + p)[1..] == p;
    assert StripLeading("./", p) == p && StripLeading("./", "./" + p) == p;
    assert ("/" + p)[0] == '/';
    assert StripLeading("./", "/" + p) == "/" + p;
  }

  lemma {:induction false} ReplaceNothing(s: string)
    requires '\\' !in s
    ensures Replace(s, '\\', '/') == s
  {
    if s != "" {
      ReplaceNothing(s[1..]);
    }
  }

  lemma ReplaceFront(front: string, s: string)
    requires front == "./" || front == "/"
    ensures Replace(front + s, '\\', '/') == front + Replace(s, '\\', '/')
  {
    if front == "./" {
      assert (front + s)[1..] == "/" + s && ("/" + s)[1..] == s;
    } else {
      assert (front + s)[1..] == s;
    }
  }

  /** A changed directory stands for a file in it, any other path for itself. */
  lemma DirectoriesAreProbed(path: string)
    requires IsPath(path)
    ensures ProbedPath(path) == path
    ensures IsPath(ProbedPath(path + "/")) && Split(ProbedPath(path + "/"), '/') == Split(path, '/') + ["probe-file"]
  {
    hide Split, IsPath;
    PathEnds(path);
    var file := "probe-file";
    assert ProbedPath(path + "/") == path + ['/'] + file;
    SplitConcat(path, file, '/');
    ProbeIsOneName();
    AllNamesOf(path, file);
  }

  lemma ProbeIsOneName()
    ensures Split("probe-file", '/') == ["probe-file"] && IsName("probe-file")
  {
  }

  lemma AllNamesOf(path: string, file: string)
    requires IsPath(path) && IsName(file) && Split(path + ['/'] + file, '/') == Split(path, '/') + [file]
    ensures IsPath(path + ['/'] + file)
  {
    hide Split;
  }

  /** A pattern text without anything to strip. */
  predicate IsBareText(t: string) {
    t != "" && '\\' !in t && t[0] != '.' && t[0] != '/' && t[|t| - 1] != '/' && !IsSpace(t[0]) && !IsSpace(t[|t| - 1])
  }

  lemma LeadingSpelling(front: string, t: string)
    requires IsBareText(t) && (front == "./" || front == "/")
    ensures Unanchored(front + t) == t
  {
    Unstripped(front + t);
    hide IsSpace, Trim;
    assert !("./" <= t) && !("/" <= t);
    assert StripLeading("./", t) == t && StripLeading("/", t) == t;
    var s := front + t;
    assert s[..|front|] == front && s[|front|..] == t;
    if front == "./" {
      assert StripLeading("./", s) == t;
    } else {
      assert s[0] == '/';
      assert StripLeading("./", s) == s && StripLeading("/", s) == t;
    }
  }

  lemma TrailingSpelling(t: string)
    requires IsBareText(t)
    ensures Unanchored(t + "/") == t + "/" && StripTrailingSlashes(t + "/") == t && StripTrailingSlashes(t) == t
  {
    Unstripped(t + "/");
    hide IsSpace, Trim;
    assert (t + "/")[0] == t[0] && (t + "/")[..|t|] == t && (t + "/")[|t|] == '/';
  }

  /** Spellings of a pattern: a leading dot or slash says nothing, a trailing slash asks for a directory. */
  lemma PatternSpellingsAgree(t: string)
    requires IsBareText(t)
    ensures AnchoredPattern(t) == AnchoredPattern("./" + t) == AnchoredPattern("/" + t) == AnchoredPattern(t + "/") == t
    ensures !IsDirectoryPattern(t) && !IsDirectoryPattern("./" + t) && !IsDirectoryPattern("/" + t) && IsDirectoryPattern(t + "/")
  {
    NothingToStrip(t);
    LeadingSpelling("./", t);
    LeadingSpelling("/", t);
    TrailingSpelling(t);
    hide Unanchored;
    assert (t + "/")[|t|] == '/';
  }

  lemma Unstripped(s: string)
    requires s != "" && '\\' !in s && !IsSpace(s[0]) && !IsSpace(s[|s| - 1])
    ensures Trim(Replace(s, '\\', '/')) == s
  {
    ReplaceNothing(s);
  }
}

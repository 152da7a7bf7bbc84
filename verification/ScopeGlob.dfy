/** Character-level scope matching (packages/orchestrator/src/task-scope.ts). */
module ScopeGlob {
  import opened Options
  import opened Text
  import opened ScopePatterns

  /** One piece of the regular expression a pattern compiles to. */
  datatype Token =
    | Chr(c: char)   // the character itself
    | One            // [^/]
    | Star           // [^/]*
    | Dirs           // (?:[^/]+/)*
    | Rest           // .*
    | NonEmptyRest   // .+

  /** The characters that `.` does not match. */
  predicate IsLineTerminator(c: char) {
    c == '\n' || c == '\r' || c == '\U{2028}' || c == '\U{2029}'
  }

  /** Whether the whole string is matched by the tokens, anchored at both ends. */
  predicate Matches(tokens: seq<Token>, s: string)
    decreases |tokens| + 2 * |s|
  {
    if tokens == [] then s == ""
    else match tokens[0]
      case Chr(c) => s != "" && s[0] == c && Matches(tokens[1..], s[1..])
      case One => s != "" && s[0] != '/' && Matches(tokens[1..], s[1..])
      case Star => Matches(tokens[1..], s) || (s != "" && s[0] != '/' && Matches(tokens, s[1..]))
      case Dirs => Matches(tokens[1..], s) || (StartsWithDirectory(s) && Matches(tokens, AfterDirectory(s)))
      case Rest => Matches(tokens[1..], s) || (s != "" && !IsLineTerminator(s[0]) && Matches(tokens, s[1..]))
      case NonEmptyRest => s != "" && !IsLineTerminator(s[0]) && Matches([Rest] + tokens[1..], s[1..])
  }

  /** Whether `[^/]+/` matches at the front of s. */
  predicate StartsWithDirectory(s: string) {
    '/' in s && s[0] != '/'
  }

  /** What follows the first slash of s. */
  function AfterDirectory(s: string): (r: string)
    requires '/' in s
    ensures |r| < |s| && |s| - |r| <= |s|
    ensures '/' !in s[..|s| - |r| - 1] && s == s[..|s| - |r| - 1] + "/" + r
  {
    if s[0] == '/' then s[1..] else
      var r := AfterDirectory(s[1..]);
      assert s == [s[0]] + s[1..];
      assert s[..|s| - |r| - 1] == [s[0]] + s[1..][..|s[1..]| - |r| - 1];
      r
  }

  function LeadingStars(p: string): (n: nat)
    ensures n <= |p| && (forall i :: 0 <= i < n ==> p[i] == '*') && (n < |p| ==> p[n] != '*')
  {
    if p != "" && p[0] == '*' then 1 + LeadingStars(p[1..]) else 0
  }

  datatype Piece = Piece(token: Token, length: nat)

  /** The first token of the unread part of a pattern; atStart tells whether a segment starts here. */
  function FirstPiece(p: string, atStart: bool): (r: Piece)
    requires p != ""
    ensures 1 <= r.length <= |p| && r.token != Chr('*')
  {
    if p[0] == '*' then
      var n := LeadingStars(p);
      if n == 1 || !atStart || (n < |p| && p[n] != '/') then Piece(Star, n)
      else if n == |p| then Piece(Rest, n)
      else Piece(Dirs, n + 1)
    else Piece(if p[0] == '?' then One else Chr(p[0]), 1)
  }

  /** The tokens of the unread part of a pattern. */
  function TokensOf(p: string, atStart: bool): seq<Token>
    decreases |p|
  {
    if p == "" then []
    else
      var first := FirstPiece(p, atStart);
      [first.token] + TokensOf(p[first.length..], first.token == Chr('/'))
  }

  lemma TokensUnfold(p: string, atStart: bool)
    requires p != ""
    ensures var first := FirstPiece(p, atStart);
            TokensOf(p, atStart) == [first.token] + TokensOf(p[first.length..], first.token == Chr('/'))
  {
    hide FirstPiece;
  }

  predicate IsRegexSpecial(c: char) {
    c in ".+^$|(){}[]\\"
  }

  function RenderToken(t: Token): string {
    match t
    case Chr(c) => if IsRegexSpecial(c) then ['\\', c] else [c]
    case One => "[^/]"
    case Star => "[^/]*"
    case Dirs => "(?:[^/]+/)*"
    case Rest => ".*"
    case NonEmptyRest => ".+"
  }

  /** The regular expression source that tokens stand for. */
  function Render(tokens: seq<Token>): string {
    if tokens == [] then "" else Render(tokens[..|tokens| - 1]) + RenderToken(tokens[|tokens| - 1])
  }

  predicate EndsWith(s: string, suffix: string) {
    |suffix| <= |s| && s[|s| - |suffix|..] == suffix
  }

  lemma RenderSnoc(tokens: seq<Token>, t: Token)
    ensures Render(tokens + [t]) == Render(tokens) + RenderToken(t)
  {
    assert (tokens + [t])[..|tokens|] == tokens;
  }

  /** No glob token stands for a star character itself. */
  predicate NoStarCharacter(tokens: seq<Token>) {
    forall i :: 0 <= i < |tokens| ==> tokens[i] != Chr('*')
  }

  predicate AtSegmentStart(tokens: seq<Token>) {
    tokens == [] || tokens[|tokens| - 1] == Chr('/')
  }

  lemma RenderedTokenEnd(t: Token, before: string)
    requires t != Chr('*')
    ensures EndsWith(before + RenderToken(t), "/") <==> t == Chr('/')
    ensures EndsWith(before + RenderToken(t), ".*") <==> t == Rest
  {
    var r := RenderToken(t);
    var s := before + r;
    assert s[|s| - |r|..] == r;
    assert s[|s| - 1] == r[|r| - 1];
    assert EndsWith(s, "/") <==> s[|s| - 1] == '/';
    if |r| >= 2 {
      assert s[|s| - 2] == r[|r| - 2];
      assert EndsWith(s, ".*") <==> s[|s| - 2] == '.' && s[|s| - 1] == '*';
    } else {
      assert s[|s| - 1] != '*';
      assert |s| >= 2 ==> s[|s| - 2..][1] != ".*"[1];
    }
  }

  /** The tests on the rendered source say what the last token is. */
  lemma RenderedEnd(tokens: seq<Token>)
    requires NoStarCharacter(tokens)
    ensures (Render(tokens) == "" || EndsWith(Render(tokens), "/")) <==> AtSegmentStart(tokens)
    ensures EndsWith(Render(tokens), ".*") <==> tokens != [] && tokens[|tokens| - 1] == Rest
  {
    if tokens != [] {
      var t, before := tokens[|tokens| - 1], Render(tokens[..|tokens| - 1]);
      assert Render(tokens) == before + RenderToken(t);
      assert |RenderToken(t)| > 0;
      RenderedTokenEnd(t, before);
    }
  }

  /** Reads one piece of the pattern at index: the text it adds to the source, its token, and the next index. */
  method ReadPiece(pattern: string, start: nat, source: string, ghost tokens: seq<Token>)
    returns (piece: string, index: nat, ghost token: Token)
    requires start < |pattern| && NoStarCharacter(tokens) && source == Render(tokens)
    ensures start < index <= |pattern| && piece == RenderToken(token)
    ensures Piece(token, index - start) == FirstPiece(pattern[start..], AtSegmentStart(tokens))
  {
    ghost var unread := pattern[start..];
    index := start;
    var c := pattern[index];
    if c == '*' {
      var starCount := 0;
      while index + starCount < |pattern| && pattern[index + starCount] == '*'
        invariant index + starCount <= |pattern|
        invariant starCount + LeadingStars(pattern[index + starCount..]) == LeadingStars(unread)
        invariant starCount == 0 ==> pattern[index] == '*'
      {
        assert pattern[index + starCount..][1..] == pattern[index + starCount + 1..];
        starCount := starCount + 1;
      }
      index := index + starCount;
      RenderedEnd(tokens);
      var atSegmentStart := |source| == 0 || EndsWith(source, "/");
      if starCount == 1 {
        piece, token := "[^/]*", Star;
      } else if atSegmentStart && index == |pattern| {
        piece, token := ".*", Rest;
      } else if atSegmentStart && pattern[index] == '/' {
        piece, token := "(?:[^/]+/)*", Dirs;
        index := index + 1;
      } else {
        piece, token := "[^/]*", Star;
      }
    } else {
      index := index + 1;
      if c == '?' {
        piece, token := "[^/]", One;
      } else {
        piece := if IsRegexSpecial(c) then ['\\', c] else [c];
        token := Chr(c);
      }
    }
  }

  /** The source text and tokens read so far, together with the unread pattern, make up the whole expression. */
  ghost predicate ReadSoFar(pattern: string, index: nat, source: string, tokens: seq<Token>) {
    && index <= |pattern| && NoStarCharacter(tokens) && source == Render(tokens)
    && tokens + TokensOf(pattern[index..], AtSegmentStart(tokens)) == TokensOf(pattern, true)
  }

  lemma ReadSoFarStep(pattern: string, start: nat, index: nat, source: string, tokens: seq<Token>, token: Token)
    requires ReadSoFar(pattern, start, source, tokens) && start < index <= |pattern|
    requires Piece(token, index - start) == FirstPiece(pattern[start..], AtSegmentStart(tokens))
    ensures ReadSoFar(pattern, index, source + RenderToken(token), tokens + [token])
  {
    hide TokensOf, FirstPiece, Render, RenderToken;
    RenderSnoc(tokens, token);
    assert pattern[start..][index - start..] == pattern[index..];
    var unread := TokensOf(pattern[index..], token == Chr('/'));
    TokensUnfold(pattern[start..], AtSegmentStart(tokens));
    assert tokens + ([token] + unread) == (tokens + [token]) + unread;
  }

  /** globSource: builds the source text, and with it the tokens it renders. */
  method GlobSource(pattern: string) returns (source: string, ghost tokens: seq<Token>)
    ensures tokens == TokensOf(pattern, true) && NoStarCharacter(tokens)
    ensures source == Render(tokens)
  {
    source, tokens := "", [];
    var index := 0;
    assert pattern[0..] == pattern;
    while index < |pattern|
      invariant ReadSoFar(pattern, index, source, tokens)
      decreases |pattern| - index
    {
      var piece, next;
      ghost var token;
      piece, next, token := ReadPiece(pattern, index, source, tokens);
      ReadSoFarStep(pattern, index, next, source, tokens, token);
      source, tokens, index := source + piece, tokens + [token], next;
    }
    assert tokens + [] == tokens;
  }

  /** The tokens of a whole pattern; None when it matches nothing. */
  function ExpressionOf(raw: string): Option<seq<Token>> {
    var pattern := AnchoredPattern(raw);
    if pattern == "" then None
    else
      var tokens := TokensOf(if '/' in pattern then pattern else "**/" + pattern, true);
      Some(if IsDirectoryPattern(raw) && (tokens == [] || tokens[|tokens| - 1] != Rest)
           then tokens + [Chr('/'), NonEmptyRest] else tokens)
  }

  lemma RenderDirectoryTail(tokens: seq<Token>)
    ensures Render(tokens + [Chr('/'), NonEmptyRest]) == Render(tokens) + "/.+"
  {
    RenderSnoc(tokens, Chr('/'));
    RenderSnoc(tokens + [Chr('/')], NonEmptyRest);
    assert tokens + [Chr('/')] + [NonEmptyRest] == tokens + [Chr('/'), NonEmptyRest];
  }

  /** compileScopePattern: the text between `^` and `$`, and the tokens it renders. */
  method CompileScopePattern(raw: string) returns (source: Option<string>, ghost tokens: Option<seq<Token>>)
    ensures tokens == ExpressionOf(raw)
    ensures source == if tokens.None? then None else Some(Render(tokens.value))
  {
    var pattern, directoryAnchored := Anchor(raw);
    if |pattern| == 0 {
      return None, None;
    }
    if '/' !in pattern {
      pattern := "**/" + pattern;
    }
    var glob;
    ghost var t;
    glob, t := GlobSource(pattern);
    RenderedEnd(t);
    if directoryAnchored && !EndsWith(glob, ".*") {
      RenderDirectoryTail(t);
      return Some(glob + "/.+"), Some(t + [Chr('/'), NonEmptyRest]);
    }
    return Some(glob), Some(t);
  }

  /** normalizeScopePath. */
  function NormalizedPath(path: string): string {
    var p := StripLeading("./", Replace(path, '\\', '/'));
    if "/" <= p then p[1..] else p
  }

  const DIRECTORY_PROBE_SUFFIX := "probe-file"

  /** The text a path is tested as: a path that names a directory stands for a file in it. */
  function ProbedPath(path: string): string {
    if EndsWithSlash(path) then path + DIRECTORY_PROBE_SUFFIX else path
  }

  /** Whether a normalized path matches a raw pattern. */
  predicate PatternMatches(path: string, raw: string) {
    ExpressionOf(raw).Some? && Matches(ExpressionOf(raw).value, ProbedPath(path))
  }
}

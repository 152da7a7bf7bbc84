/**
 * The text of a compiled scope pattern as a regular expression: read by the syntax of ECMAScript, it says
 * what the pattern's tokens mean, with every other character standing for itself.
 */
module ScopeRegex {
  import opened Options
  import opened ScopePatterns
  import opened ScopeGlob

  /** The syntax characters of ECMAScript regular expressions; a backslash makes them stand for themselves. */
  predicate IsSyntaxCharacter(c: char) {
    c in "^$\\.*+?()[]{}|"
  }

  function Then(t: Token, rest: Option<seq<Token>>): Option<seq<Token>> {
    if rest.Some? then Some([t] + rest.value) else None
  }

  /** The terms of a regular expression, as far as the compiler uses them; None for any other text. */
  function ReadRegex(s: string): Option<seq<Token>> {
    if s == "" then Some([])
    else if "(?:[^/]+/)*" <= s then Then(Dirs, ReadRegex(s[11..]))
    else if "[^/]*" <= s then Then(Star, ReadRegex(s[5..]))
    else if "[^/]" <= s then Then(One, ReadRegex(s[4..]))
    else if ".*" <= s then Then(Rest, ReadRegex(s[2..]))
    else if ".+" <= s then Then(NonEmptyRest, ReadRegex(s[2..]))
    else if s[0] == '\\' && |s| > 1 && IsSyntaxCharacter(s[1]) then Then(Chr(s[1]), ReadRegex(s[2..]))
    else if IsSyntaxCharacter(s[0]) then None
    else Then(Chr(s[0]), ReadRegex(s[1..]))
  }

  /** Stars and question marks of a pattern never stand for themselves. */
  predicate IsPlainToken(t: Token) {
    t != Chr('*') && t != Chr('?')
  }

  lemma {:induction false} RenderCons(t: Token, rest: seq<Token>)
    ensures Render([t] + rest) == RenderToken(t) + Render(rest)
    decreases |rest|
  {
    hide Render, RenderToken;
    RenderNothing();
    if rest == [] {
      RenderSnoc([], t);
      assert [t] + rest == [] + [t];
    } else {
      var front, last := rest[..|rest| - 1], rest[|rest| - 1];
      assert [t] + rest == ([t] + front) + [last] && rest == front + [last];
      RenderSnoc([t] + front, last);
      RenderSnoc(front, last);
      RenderCons(t, front);
    }
  }

  lemma RenderNothing()
    ensures Render([]) == ""
  {
  }

  lemma TokenReads(t: Token, more: string)
    requires IsPlainToken(t) && (more != "" ==> more[0] != '*')
    ensures ReadRegex(RenderToken(t) + more) == Then(t, ReadRegex(more))
  {
    var s := RenderToken(t) + more;
    assert s[|RenderToken(t)|..] == more;
    match t
    case Chr(c) =>
      if IsRegexSpecial(c) {
        assert s[0] == '\\' && s[1] == c && IsSyntaxCharacter(c);
      } else {
        assert s[0] == c && !IsSyntaxCharacter(c);
      }
    case One =>
      assert "[^/]" <= s;
      assert more != "" ==> s[4] == more[0];
    case Star => assert "[^/]*" <= s;
    case Dirs => assert "(?:[^/]+/)*" <= s;
    case Rest => assert ".*" <= s;
    case NonEmptyRest => assert ".+" <= s && s[1] == '+';
  }

  lemma {:induction false} RenderedReads(tokens: seq<Token>)
    requires forall t :: t in tokens ==> IsPlainToken(t)
    ensures ReadRegex(Render(tokens)) == Some(tokens)
    ensures Render(tokens) != "" ==> Render(tokens)[0] != '*'
  {
    if tokens != [] {
      var first, rest := tokens[0], tokens[1..];
      assert tokens == [first] + rest;
      RenderedReads(rest);
      RenderCons(first, rest);
      TokenReads(first, Render(rest));
    }
  }

  lemma {:induction false} TokensArePlain(p: string, atStart: bool)
    ensures forall t :: t in TokensOf(p, atStart) ==> IsPlainToken(t)
    decreases |p|
  {
    if p != "" {
      var first := FirstPiece(p, atStart);
      TokensArePlain(p[first.length..], first.token == Chr('/'));
    }
  }

  /** The text that a pattern compiles to reads as its tokens. */
  lemma SourceReadsBack(raw: string)
    requires ExpressionOf(raw).Some?
    ensures ReadRegex(Render(ExpressionOf(raw).value)) == ExpressionOf(raw)
  {
    var p := AnchoredPattern(raw);
    TokensArePlain(if '/' in p then p else "**/" + p, true);
    RenderedReads(ExpressionOf(raw).value);
  }
}

/**
 * The preparation of a scope pattern that conflict detection and scope validation share, and the
 * repository paths that patterns speak about.
 */
module ScopePatterns {
  import opened Text

  /** `while (s.startsWith(prefix)) s = s.slice(prefix.length)`. */
  function StripLeading(prefix: string, s: string): (r: string)
    requires prefix != ""
    ensures !(prefix <= r)
  {
    if prefix <= s then StripLeading(prefix, s[|prefix|..]) else s
  }

  function StripTrailingSlashes(s: string): (r: string)
    ensures r != "" ==> r[|r| - 1] != '/'
    ensures r <= s
  {
    if s != "" && s[|s| - 1] == '/' then StripTrailingSlashes(s[..|s| - 1]) else s
  }

  predicate EndsWithSlash(s: string) {
    s != "" && s[|s| - 1] == '/'
  }

  /** The pattern without its anchors, before its trailing slashes go. */
  function Unanchored(raw: string): (r: string)
    ensures !("/" <= r)
  {
    StripLeading("/", StripLeading("./", Trim(Replace(raw, '\\', '/'))))
  }

  function AnchoredPattern(raw: string): string {
    StripTrailingSlashes(Unanchored(raw))
  }

  predicate IsDirectoryPattern(raw: string) {
    EndsWithSlash(Unanchored(raw))
  }

  /** The opening loops of both pattern compilers. */
  method Anchor(raw: string) returns (pattern: string, directoryAnchored: bool)
    ensures pattern == AnchoredPattern(raw)
    ensures directoryAnchored == IsDirectoryPattern(raw)
  {
    pattern := Trim(Replace(raw, '\\', '/'));
    ghost var trimmed := pattern;
    while "./" <= pattern
      decreases |pattern|
      invariant StripLeading("./", pattern) == StripLeading("./", trimmed)
    {
      pattern := pattern[2..];
    }
    while "/" <= pattern
      decreases |pattern|
      invariant StripLeading("/", pattern) == Unanchored(raw)
    {
      pattern := pattern[1..];
    }
    directoryAnchored := EndsWithSlash(pattern);
    while EndsWithSlash(pattern)
      decreases |pattern|
      invariant StripTrailingSlashes(pattern) == AnchoredPattern(raw)
    {
      pattern := pattern[..|pattern| - 1];
    }
  }

  /** A name that can stand between two slashes of a path. */
  predicate IsName(s: string) {
    s != "" && '/' !in s
  }

  ghost predicate AllNames(words: seq<string>) {
    forall w :: w in words ==> IsName(w)
  }

  /** A repository path: names separated by single slashes. */
  ghost predicate IsPath(path: string) {
    AllNames(Split(path, '/'))
  }
}

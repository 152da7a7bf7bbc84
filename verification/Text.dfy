/** String helpers with the meaning JavaScript gives them: lexicographic order, trimming, splitting. */
module Text {

  /** Lexicographic order, comparing elements by their numeric rank. */
  predicate LexLess<T(==)>(rank: T -> int, a: seq<T>, b: seq<T>) {
    b != [] && (a == [] || rank(a[0]) < rank(b[0]) || (a[0] == b[0] && LexLess(rank, a[1..], b[1..])))
  }

  ghost predicate Injective<T(!new)>(rank: T -> int) {
    forall x, y :: rank(x) == rank(y) ==> x == y
  }

  lemma {:induction false} LexTrichotomy<T(!new)>(rank: T -> int, a: seq<T>, b: seq<T>)
    requires Injective(rank)
    ensures LexLess(rank, a, b) || a == b || LexLess(rank, b, a)
    ensures !(LexLess(rank, a, b) && LexLess(rank, b, a))
    ensures !LexLess(rank, a, a)
  {
    if a != [] {
      LexTrichotomy(rank, a[1..], a[1..]);
      if b != [] && a[0] == b[0] {
        LexTrichotomy(rank, a[1..], b[1..]);
        assert a == [a[0]] + a[1..] && b == [b[0]] + b[1..];
      }
    }
  }

  lemma {:induction false} LexTransitive<T(!new)>(rank: T -> int, a: seq<T>, b: seq<T>, c: seq<T>)
    requires Injective(rank)
    requires LexLess(rank, a, b) && LexLess(rank, b, c)
    ensures LexLess(rank, a, c)
  {
    if a != [] && a[0] == b[0] == c[0] {
      LexTransitive(rank, a[1..], b[1..], c[1..]);
    }
  }

  const CHAR_RANK: char -> int := (c: char) => c as int

  /** The `<` of two strings. */
  predicate Less(a: string, b: string) {
    LexLess(CHAR_RANK, a, b)
  }

  /** `compareStrings(a, b) <= 0`. */
  predicate AtMost(a: string, b: string) {
    !Less(b, a)
  }

  /** AtMost is a total order on strings. */
  lemma StringOrder(a: string, b: string, c: string)
    ensures AtMost(a, b) || AtMost(b, a)
    ensures AtMost(a, b) && AtMost(b, a) ==> a == b
    ensures AtMost(a, b) && AtMost(b, c) ==> AtMost(a, c)
    ensures Less(a, b) <==> AtMost(a, b) && a != b
  {
    LexTrichotomy(CHAR_RANK, a, b);
    LexTrichotomy(CHAR_RANK, b, c);
    LexTrichotomy(CHAR_RANK, a, c);
    if AtMost(a, b) && AtMost(b, c) && Less(c, a) {
      if a != b {
        LexTransitive(CHAR_RANK, c, a, b);
      }
      if b != c && a != b {
        LexTransitive(CHAR_RANK, b, c, a);
      }
    }
  }

  /** Less is a strict total order on strings. */
  lemma StrictStringOrder(a: string, b: string, c: string)
    ensures Less(a, b) || a == b || Less(b, a)
    ensures !(Less(a, b) && Less(b, a)) && !Less(a, a)
    ensures Less(a, b) && Less(b, c) ==> Less(a, c)
    ensures AtMost(a, b) <==> Less(a, b) || a == b
  {
    LexTrichotomy(CHAR_RANK, a, b);
    if Less(a, b) && Less(b, c) {
      LexTransitive(CHAR_RANK, a, b, c);
    }
  }

  /** The white space and line terminators that `String.prototype.trim` removes. */
  predicate IsSpace(c: char) {
    || '\t' <= c <= '\r' || c == ' ' || c == '\U{A0}' || c == '\U{1680}' || '\U{2000}' <= c <= '\U{200A}'
    || c == '\U{2028}' || c == '\U{2029}' || c == '\U{202F}' || c == '\U{205F}' || c == '\U{3000}' || c == '\U{FEFF}'
  }

  function TrimStart(s: string): string {
    if s != "" && IsSpace(s[0]) then TrimStart(s[1..]) else s
  }

  function TrimEnd(s: string): string {
    if s != "" && IsSpace(s[|s| - 1]) then TrimEnd(s[..|s| - 1]) else s
  }

  function Trim(s: string): string {
    TrimEnd(TrimStart(s))
  }

  function Replace(s: string, from: char, to: char): (r: string)
    ensures |r| == |s| && forall i :: 0 <= i < |s| ==> r[i] == if s[i] == from then to else s[i]
  {
    seq(|s|, i requires 0 <= i < |s| => if s[i] == from then to else s[i])
  }

  /** `s.split(sep)` for a one-character separator. */
  function Split(s: string, sep: char): (parts: seq<string>)
    ensures |parts| >= 1
    ensures forall p :: p in parts ==> sep !in p
    ensures |parts| == 1 <==> sep !in s
    ensures sep !in s ==> parts == [s]
  {
    if s == "" then [""]
    else if s[0] == sep then
      assert sep in s;
      [""] + Split(s[1..], sep)
    else
      var rest := Split(s[1..], sep);
      assert s == [s[0]] + s[1..];
      [[s[0]] + rest[0]] + rest[1..]
  }

  /** Splitting a concatenation around a separator splits the two sides. */
  lemma {:induction false} SplitConcat(u: string, v: string, sep: char)
    ensures Split(u + [sep] + v, sep) == Split(u, sep) + Split(v, sep)
  {
    var s := u + [sep] + v;
    if u == "" {
      assert s[1..] == v && s[0] == sep;
      assert Split(u, sep) == [""];
    } else {
      assert s[1..] == u[1..] + [sep] + v && s[0] == u[0];
      SplitConcat(u[1..], v, sep);
      PrependPart(u[0], Split(u[1..], sep), Split(v, sep));
    }
  }

  lemma PrependPart(c: char, left: seq<string>, right: seq<string>)
    requires left != []
    ensures [[c] + left[0]] + left[1..] + right == [[c] + (left + right)[0]] + (left + right)[1..]
    ensures [""] + left + right == [""] + (left + right)
  {
  }
}

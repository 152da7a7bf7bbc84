/** The quoting of strings by JSON.stringify, and its reading by section 7 of RFC 8259. */
module JsonStrings {
  import opened Options

  /** A UTF-16 code unit; lone surrogates are ordinary units. */
  type CodeUnit = u: int | 0 <= u < 0x1_0000

  type Units = seq<CodeUnit>

  const QUOTE: CodeUnit := '"' as int
  const BACKSLASH: CodeUnit := '\\' as int

  predicate IsSurrogate(u: CodeUnit) {
    0xD800 <= u <= 0xDFFF
  }

  /** Whether s begins with a surrogate pair. */
  predicate StartsWithPair(s: Units) {
    |s| >= 2 && 0xD800 <= s[0] <= 0xDBFF && 0xDC00 <= s[1] <= 0xDFFF
  }

  function HexDigit(d: int): CodeUnit
    requires 0 <= d < 16
  {
    if d < 10 then '0' as int + d else 'a' as int + d - 10
  }

  function UnicodeEscape(u: CodeUnit): Units {
    [BACKSLASH, 'u' as int, HexDigit(u / 0x1000), HexDigit(u / 0x100 % 0x10), HexDigit(u / 0x10 % 0x10), HexDigit(u % 0x10)]
  }

  /** The letter of a two-character escape. */
  function EscapeLetter(u: CodeUnit): Option<CodeUnit> {
    if u == 8 then Some('b' as int)
    else if u == 9 then Some('t' as int)
    else if u == 10 then Some('n' as int)
    else if u == 12 then Some('f' as int)
    else if u == 13 then Some('r' as int)
    else if u == QUOTE || u == BACKSLASH then Some(u)
    else None
  }

  /** The text of one unit that is not part of a pair. */
  function QuotedUnit(u: CodeUnit): Units {
    if EscapeLetter(u).Some? then [BACKSLASH, EscapeLetter(u).value]
    else if u < 0x20 || IsSurrogate(u) then UnicodeEscape(u)
    else [u]
  }

  function QuotedUnits(s: Units): Units {
    if s == [] then []
    else if StartsWithPair(s) then [s[0], s[1]] + QuotedUnits(s[2..])
    else QuotedUnit(s[0]) + QuotedUnits(s[1..])
  }

  /** `JSON.stringify(s)` for a string. */
  function Quote(s: Units): Units {
    [QUOTE] + QuotedUnits(s) + [QUOTE]
  }

  // --- Reading ---

  function HexValue(u: CodeUnit): Option<nat> {
    if '0' as int <= u <= '9' as int then Some(u - '0' as int)
    else if 'a' as int <= u <= 'f' as int then Some(u - 'a' as int + 10)
    else if 'A' as int <= u <= 'F' as int then Some(u - 'A' as int + 10)
    else None
  }

  function ReadHex(t: Units): Option<nat> {
    if t == [] then Some(0)
    else
      var high, digit := ReadHex(t[..|t| - 1]), HexValue(t[|t| - 1]);
      if high.Some? && digit.Some? then Some(0x10 * high.value + digit.value) else None
  }

  function UnescapedLetter(e: CodeUnit): Option<CodeUnit> {
    if e == 'b' as int then Some(8)
    else if e == 't' as int then Some(9)
    else if e == 'n' as int then Some(10)
    else if e == 'f' as int then Some(12)
    else if e == 'r' as int then Some(13)
    else if e == QUOTE || e == BACKSLASH || e == '/' as int then Some(e)
    else None
  }

  datatype ReadUnit = ReadUnit(u: CodeUnit, length: nat)

  /** The first unit of a string's inside, with the length of its text. */
  function FirstUnit(t: Units): (r: Option<ReadUnit>)
    requires t != []
    ensures r.Some? ==> 1 <= r.value.length <= |t|
  {
    if t[0] == BACKSLASH then
      if |t| >= 6 && t[1] == 'u' as int && ReadHex(t[2..6]).Some? && ReadHex(t[2..6]).value < 0x1_0000 then
        Some(ReadUnit(ReadHex(t[2..6]).value, 6))
      else if |t| >= 2 && UnescapedLetter(t[1]).Some? then Some(ReadUnit(UnescapedLetter(t[1]).value, 2))
      else None
    else if t[0] < 0x20 then None
    else Some(ReadUnit(t[0], 1))
  }

  datatype ReadString = ReadString(s: Units, rest: Units)

  /** The string up to the closing quote, and what follows the quote. */
  function ReadInside(t: Units): Option<ReadString>
    decreases |t|
  {
    if t == [] then None
    else if t[0] == QUOTE then Some(ReadString([], t[1..]))
    else
      var first := FirstUnit(t);
      if first.None? then None
      else
        var inside := ReadInside(t[first.value.length..]);
        if inside.None? then None else Some(ReadString([first.value.u] + inside.value.s, inside.value.rest))
  }

  /** Reads a quoted string from the front of t. */
  function Unquote(t: Units): Option<ReadString> {
    if t != [] && t[0] == QUOTE then ReadInside(t[1..]) else None
  }

  lemma ReadHexSnoc(t: Units, high: nat, d: int)
    requires ReadHex(t) == Some(high) && 0 <= d < 16
    ensures ReadHex(t + [HexDigit(d)]) == Some(0x10 * high + d)
  {
    assert (t + [HexDigit(d)])[..|t|] == t;
  }

  lemma FourDigitsRead(a: int, b: int, c: int, d: int)
    requires 0 <= a < 16 && 0 <= b < 16 && 0 <= c < 16 && 0 <= d < 16
    ensures ReadHex([HexDigit(a), HexDigit(b), HexDigit(c), HexDigit(d)]) ==
            Some(0x10 * (0x10 * (0x10 * a + b) + c) + d)
  {
    assert ReadHex([]) == Some(0);
    hide ReadHex, HexDigit;
    ReadHexSnoc([], 0, a);
    var first := [HexDigit(a)];
    assert [] + first == first;
    ReadHexSnoc(first, a, b);
    var second := first + [HexDigit(b)];
    ReadHexSnoc(second, 0x10 * a + b, c);
    var third := second + [HexDigit(c)];
    ReadHexSnoc(third, 0x10 * (0x10 * a + b) + c, d);
    assert third + [HexDigit(d)] == [HexDigit(a), HexDigit(b), HexDigit(c), HexDigit(d)];
  }

  lemma DigitsSum(u: CodeUnit)
    ensures 0x10 * (0x10 * (0x10 * (u / 0x1000) + u / 0x100 % 0x10) + u / 0x10 % 0x10) + u % 0x10 == u
  {
    var high, top := u / 0x10, u / 0x100;
    assert high / 0x10 == top;
    assert top / 0x10 == u / 0x1000;
    assert top == 0x10 * (u / 0x1000) + top % 0x10;
    assert high == 0x10 * top + high % 0x10;
  }

  lemma HexDigitsRead(u: CodeUnit)
    ensures ReadHex(UnicodeEscape(u)[2..6]) == Some(u)
  {
    hide ReadHex, HexDigit;
    DigitsSum(u);
    var a, b, c, d := u / 0x1000, u / 0x100 % 0x10, u / 0x10 % 0x10, u % 0x10;
    FourDigitsRead(a, b, c, d);
    assert UnicodeEscape(u)[2..6] == [HexDigit(a), HexDigit(b), HexDigit(c), HexDigit(d)];
  }

  /** The text of a unit reads back as the unit, whatever follows. */
  lemma QuotedUnitReads(u: CodeUnit, t: Units)
    ensures FirstUnit(QuotedUnit(u) + t) == Some(ReadUnit(u, |QuotedUnit(u)|))
    ensures QuotedUnit(u)[0] != QUOTE
  {
    if EscapeLetter(u).None? && (u < 0x20 || IsSurrogate(u)) {
      HexDigitsRead(u);
      hide HexDigit, ReadHex;
      assert (QuotedUnit(u) + t)[2..6] == UnicodeEscape(u)[2..6];
    }
  }

  /** Reading one unit off a text that starts with it. */
  lemma ReadInsideStep(unit: Units, t: Units, u: CodeUnit)
    requires unit != [] && unit[0] != QUOTE && FirstUnit(unit + t) == Some(ReadUnit(u, |unit|))
    requires ReadInside(t).Some?
    ensures ReadInside(unit + t) == Some(ReadString([u] + ReadInside(t).value.s, ReadInside(t).value.rest))
  {
    hide FirstUnit;
    assert (unit + t)[|unit|..] == t;
  }

  lemma QuotedUnitsUnfold(s: Units, tail: Units)
    requires s != []
    ensures StartsWithPair(s) ==> QuotedUnits(s) + tail == [s[0]] + ([s[1]] + (QuotedUnits(s[2..]) + tail))
    ensures !StartsWithPair(s) ==> QuotedUnits(s) + tail == QuotedUnit(s[0]) + (QuotedUnits(s[1..]) + tail)
  {
    hide QuotedUnit;
    if StartsWithPair(s) {
      var q := QuotedUnits(s[2..]);
      assert QuotedUnits(s) == [s[0], s[1]] + q;
      hide QuotedUnits;
      AppendPair(s[0], s[1], q, tail);
    } else {
      var q := QuotedUnits(s[1..]);
      assert QuotedUnits(s) == QuotedUnit(s[0]) + q;
      hide QuotedUnits;
      Append(QuotedUnit(s[0]), q, tail);
    }
  }

  lemma Append(a: Units, b: Units, c: Units)
    ensures (a + b) + c == a + (b + c)
  {
  }

  lemma AppendPair(x: CodeUnit, y: CodeUnit, b: Units, c: Units)
    ensures ([x, y] + b) + c == [x] + ([y] + (b + c))
  {
  }

  lemma ReadInsideEnd(rest: Units)
    ensures ReadInside(QuotedUnits([]) + ([QUOTE] + rest)) == Some(ReadString([], rest))
  {
    var tail := [QUOTE] + rest;
    assert QuotedUnits([]) + tail == tail && tail[1..] == rest;
  }

  /** What is written for a string is read back, up to the closing quote. */
  lemma {:induction false} QuotedUnitsRead(s: Units, rest: Units)
    ensures ReadInside(QuotedUnits(s) + ([QUOTE] + rest)) == Some(ReadString(s, rest))
    decreases |s|
  {
    hide QuotedUnits, ReadInside, QuotedUnit;
    var tail := [QUOTE] + rest;
    if s == [] {
      ReadInsideEnd(rest);
    } else if StartsWithPair(s) {
      QuotedUnitsUnfold(s, tail);
      QuotedUnitsRead(s[2..], rest);
      var t := QuotedUnits(s[2..]) + tail;
      assert FirstUnit([s[1]] + t) == Some(ReadUnit(s[1], 1));
      ReadInsideStep([s[1]], t, s[1]);
      ReadInsideStep([s[0]], [s[1]] + t, s[0]);
      assert [s[0]] + ([s[1]] + s[2..]) == s;
    } else {
      hide FirstUnit;
      QuotedUnitsUnfold(s, tail);
      QuotedUnitsRead(s[1..], rest);
      var t := QuotedUnits(s[1..]) + tail;
      QuotedUnitReads(s[0], t);
      ReadInsideStep(QuotedUnit(s[0]), t, s[0]);
      assert [s[0]] + s[1..] == s;
    }
  }

  /** Quoting is undone by reading, whatever follows the quoted string. */
  lemma QuoteReadsBack(s: Units, rest: Units)
    ensures Unquote(Quote(s) + rest) == Some(ReadString(s, rest))
  {
    QuotedUnitsRead(s, rest);
    hide QuotedUnits, ReadInside;
    var t := Quote(s) + rest;
    assert t[1..] == QuotedUnits(s) + ([QUOTE] + rest);
  }
}

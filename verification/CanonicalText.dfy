/**
 * The canonical text is JSON (RFC 8259, sections 2 to 7), with object names in ascending order of their
 * UTF-16 units and strings written as JSON.stringify writes them (packages/context/src/stable-serialize.ts).
 */
module CanonicalText {
  import opened Options
  import opened Text
  import opened Sorting
  import opened JsonStrings
  import opened CanonicalJson
  import opened CanonicalForm

  // --- The grammar, without insignificant space ---

  function Ascii(s: string): (t: Units)
    requires forall i :: 0 <= i < |s| ==> s[i] < 128 as char
    ensures |t| == |s| && forall i :: 0 <= i < |s| ==> t[i] == s[i] as int
  {
    seq(|s|, i requires 0 <= i < |s| => s[i] as int)
  }

  /** The parts with commas in between. */
  predicate IsList(t: Units, parts: seq<Units>)
    decreases |parts|
  {
    if parts == [] then t == []
    else if |parts| == 1 then t == parts[0]
    else |parts[0]| < |t| && t[..|parts[0]|] == parts[0] && t[|parts[0]|] == ',' as int && IsList(t[|parts[0]| + 1..], parts[1..])
  }

  predicate IsString(t: Units, s: Units) {
    Unquote(t) == Some(ReadString(s, []))
  }

  /** The text denotes the value; the members of an object in the order of the text. */
  ghost predicate Denotes(t: Units, v: Json)
    decreases v
  {
    match v
    case Null => t == Ascii("null")
    case NotJson => false
    case Bool(b) => t == if b then Ascii("true") else Ascii("false")
    case Number(text) => t == text
    case Str(s) => IsString(t, s)
    case Arr(items) =>
      exists inner: Units, parts: seq<Units> ::
        && t == Ascii("[") + inner + Ascii("]") && IsList(inner, parts) && |parts| == |items|
        && forall i :: 0 <= i < |items| ==> Denotes(parts[i], items[i])
    case Obj(members) =>
      exists inner: Units, parts: seq<Units>, names: seq<Units>, values: seq<Units> ::
        t == Ascii("{") + inner + Ascii("}") && IsList(inner, parts) && AreMembers(parts, names, values, members)
  }

  /** Each part is a name, a colon and a value. */
  ghost predicate AreMembers(parts: seq<Units>, names: seq<Units>, values: seq<Units>, members: seq<Member>)
    decreases members
  {
    && |parts| == |names| == |values| == |members|
    && forall i :: 0 <= i < |members| ==>
         parts[i] == names[i] + Ascii(":") + values[i] && IsString(names[i], members[i].key) && Denotes(values[i], members[i].value)
  }

  /** `a < b` of two strings: by the first unit in which they differ, or the shorter first. */
  ghost predicate IsBefore(a: Units, b: Units) {
    || (|a| < |b| && b[..|a|] == a)
    || exists i :: 0 <= i < |a| && i < |b| && a[..i] == b[..i] && a[i] < b[i]
  }

  ghost predicate IsCanonical(v: Json)
    decreases v
  {
    match v
    case NotJson => false
    case Arr(items) => forall i :: 0 <= i < |items| ==> IsCanonical(items[i])
    case Obj(members) =>
      && (forall i :: 0 <= i < |members| ==> IsCanonical(members[i].value))
      && forall i, j :: 0 <= i < j < |members| ==> IsBefore(members[i].key, members[j].key)
    case _ => true
  }

  // --- The canonical form of a value ---

  function CanonicalOf(v: Json): Json
    decreases v
  {
    match v
    case NotJson => Null
    case Arr(items) => Arr(CanonicalItems(items))
    case Obj(members) => Obj(CanonicalMembers(members, SortedKeys(members)))
    case _ => v
  }

  function CanonicalItems(items: seq<Json>): (r: seq<Json>)
    ensures |r| == |items|
    decreases items
  {
    seq(|items|, i requires 0 <= i < |items| => CanonicalOf(items[i]))
  }

  function CanonicalMembers(members: seq<Member>, keys: seq<Units>): (r: seq<Member>)
    requires forall k :: k in keys ==> HasKey(members, k)
    ensures |r| == |keys| && forall i :: 0 <= i < |keys| ==> r[i].key == keys[i]
    decreases members
  {
    seq(|keys|, i requires 0 <= i < |keys| => Member(keys[i], CanonicalOf(members[IndexOf(members, keys[i])].value)))
  }

  lemma {:induction false} JoinIsList(parts: seq<Units>)
    ensures IsList(Join(parts), parts)
  {
    if |parts| > 1 {
      JoinIsList(parts[1..]);
      var t, first := Join(parts), parts[0];
      assert t == first + [COMMA] + Join(parts[1..]);
      assert t[..|first|] == first && t[|first|] == COMMA && t[|first| + 1..] == Join(parts[1..]);
    }
  }

  lemma QuoteIsString(s: Units)
    ensures IsString(Quote(s), s)
  {
    QuoteReadsBack(s, []);
    assert Quote(s) + [] == Quote(s);
  }

  lemma {:induction false} LexIsBefore(a: Units, b: Units)
    ensures LexLess(UNIT_RANK, a, b) ==> IsBefore(a, b)
  {
    if LexLess(UNIT_RANK, a, b) && a != [] && a[0] == b[0] {
      LexIsBefore(a[1..], b[1..]);
      var x, y := a[1..], b[1..];
      assert a == [a[0]] + x && b == [b[0]] + y;
      if |x| < |y| && y[..|x|] == x {
        assert b[..|a|] == [b[0]] + y[..|x|];
      } else {
        var i :| 0 <= i < |x| && i < |y| && x[..i] == y[..i] && x[i] < y[i];
        assert a[..i + 1] == [a[0]] + x[..i] && b[..i + 1] == [b[0]] + y[..i];
        assert a[i + 1] < b[i + 1];
      }
    } else if LexLess(UNIT_RANK, a, b) && a != [] {
      assert a[..0] == b[..0] && UNIT_RANK(a[0]) < UNIT_RANK(b[0]);
    }
  }

  /** The names of an object are written in ascending order. */
  lemma SortedKeysAscend(members: seq<Member>, i: nat, j: nat)
    requires DistinctKeys(members) && i < j < |SortedKeys(members)|
    ensures IsBefore(SortedKeys(members)[i], SortedKeys(members)[j])
  {
    var keys, all := SortedKeys(members), KeysOf(members);
    KeyOrderIsTotal();
    SortBySorted(KEY_ORDER, all);
    var same := (k: Units) => k;
    assert DistinctBy(same, all);
    MovedKeysDiffer(same, all, keys);
    assert same(keys[i]) != same(keys[j]) && KEY_ORDER(keys[i], keys[j]);
    assert Injective(UNIT_RANK);
    LexTrichotomy(UNIT_RANK, keys[i], keys[j]);
    LexIsBefore(keys[i], keys[j]);
  }

  // --- The canonical text denotes the canonical form ---

  lemma ArrayDenotes(items: seq<Json>)
    requires forall i :: 0 <= i < |items| ==> Denotes(Serialize(items[i]), CanonicalOf(items[i]))
    ensures Denotes(Serialize(Arr(items)), CanonicalOf(Arr(items)))
  {
    var parts := ItemTexts(items);
    JoinIsList(parts);
    var inner, form := Join(parts), CanonicalItems(items);
    hide Join, IsList;
    assert Serialize(Arr(items)) == Ascii("[") + inner + Ascii("]");
    assert forall i :: 0 <= i < |form| ==> Denotes(parts[i], form[i]);
  }

  /** An object from its parts. */
  lemma PartsMakeObject(inner: Units, parts: seq<Units>, names: seq<Units>, values: seq<Units>, form: seq<Member>)
    requires IsList(inner, parts) && AreMembers(parts, names, values, form)
    ensures Denotes(Ascii("{") + inner + Ascii("}"), Obj(form))
  {
    hide AreMembers, IsList, Ascii;
    var t := Ascii("{") + inner + Ascii("}");
    assert t == Ascii("{") + inner + Ascii("}") && IsList(inner, parts) && AreMembers(parts, names, values, form);
  }

  lemma BracedText(members: seq<Member>)
    ensures Serialize(Obj(members)) == Ascii("{") + Join(MemberTexts(members, SortedKeys(members))) + Ascii("}")
  {
    hide Join, SortedKeys, Quote;
    assert Ascii("{") == [OPEN_BRACE] && Ascii("}") == [CLOSE_BRACE];
  }

  lemma MemberText(members: seq<Member>, keys: seq<Units>, i: nat)
    requires (forall k :: k in keys ==> HasKey(members, k)) && i < |keys|
    ensures MemberTexts(members, keys)[i] == Quote(keys[i]) + Ascii(":") + Serialize(members[IndexOf(members, keys[i])].value)
    ensures CanonicalMembers(members, keys)[i] == Member(keys[i], CanonicalOf(members[IndexOf(members, keys[i])].value))
  {
    hide Serialize, Quote, CanonicalOf;
    assert Ascii(":") == [COLON];
  }

  lemma ObjectDenotes(members: seq<Member>)
    requires forall i :: 0 <= i < |members| ==> Denotes(Serialize(members[i].value), CanonicalOf(members[i].value))
    ensures Denotes(Serialize(Obj(members)), CanonicalOf(Obj(members)))
  {
    var keys := SortedKeys(members);
    var form, parts := CanonicalMembers(members, keys), MemberTexts(members, keys);
    var names := seq(|keys|, i requires 0 <= i < |keys| => Quote(keys[i]));
    var values := seq(|keys|, i requires 0 <= i < |keys| => Serialize(members[IndexOf(members, keys[i])].value));
    JoinIsList(parts);
    BracedText(members);
    ObjectForm(members);
    hide Join, IsList, SortedKeys, Quote, IsString, Serialize, CanonicalOf, MemberTexts, CanonicalMembers, Denotes;
    forall i | 0 <= i < |form|
      ensures parts[i] == names[i] + Ascii(":") + values[i] && IsString(names[i], form[i].key) && Denotes(values[i], form[i].value)
    {
      QuoteIsString(keys[i]);
      MemberText(members, keys, i);
    }
    PartsMakeObject(Join(parts), parts, names, values, form);
  }

  lemma PlainDenotes(v: Json)
    requires !v.Arr? && !v.Obj?
    ensures Denotes(Serialize(v), CanonicalOf(v))
  {
    if v.Str? {
      QuoteIsString(v.s);
    }
    hide Quote, IsString;
  }

  /** The text of every value is a JSON text of its canonical form. */
  lemma {:induction false} SerializedDenotes(v: Json)
    requires WellFormed(v)
    ensures Denotes(Serialize(v), CanonicalOf(v))
    decreases v
  {
    hide Serialize, CanonicalOf, Denotes;
    match v
    case Arr(items) =>
      forall i | 0 <= i < |items| ensures Denotes(Serialize(items[i]), CanonicalOf(items[i])) {
        SerializedDenotes(items[i]);
      }
      ArrayDenotes(items);
    case Obj(members) =>
      forall i | 0 <= i < |members| ensures Denotes(Serialize(members[i].value), CanonicalOf(members[i].value)) {
        SerializedDenotes(members[i].value);
      }
      ObjectDenotes(members);
    case _ => PlainDenotes(v);
  }

  /** The canonical form is the same value, with ascending names and nothing that is not JSON. */
  lemma {:induction false} FormIsCanonical(v: Json)
    requires WellFormed(v)
    ensures IsCanonical(CanonicalOf(v)) && Same(v, CanonicalOf(v))
    decreases v
  {
    match v
    case Arr(items) =>
      var form := CanonicalItems(items);
      forall i | 0 <= i < |items| ensures IsCanonical(form[i]) && Same(items[i], form[i]) {
        FormIsCanonical(items[i]);
      }
    case Obj(members) =>
      forall i | 0 <= i < |members| ensures IsCanonical(CanonicalOf(members[i].value)) && Same(members[i].value, CanonicalOf(members[i].value)) {
        FormIsCanonical(members[i].value);
      }
      ObjectIsCanonical(members);
    case _ =>
  }

  /** The keys of the form are those of the object. */
  lemma FormHasKeys(members: seq<Member>, form: seq<Member>, k: Units)
    requires |form| == |SortedKeys(members)| && forall i :: 0 <= i < |form| ==> form[i].key == SortedKeys(members)[i]
    ensures HasKey(members, k) <==> HasKey(form, k)
  {
    var keys := SortedKeys(members);
    SortedKeysComplete(members, k);
    hide SortedKeys;
    if k in keys {
      var i :| 0 <= i < |keys| && keys[i] == k;
      assert form[i].key == k;
    }
    if HasKey(form, k) {
      var i := IndexOf(form, k);
      assert keys[i] in keys;
    }
  }

  lemma ObjectIsCanonical(members: seq<Member>)
    requires DistinctKeys(members)
    requires forall i :: 0 <= i < |members| ==> IsCanonical(CanonicalOf(members[i].value)) && Same(members[i].value, CanonicalOf(members[i].value))
    ensures IsCanonical(CanonicalOf(Obj(members))) && Same(Obj(members), CanonicalOf(Obj(members)))
  {
    var keys := SortedKeys(members);
    var form := CanonicalMembers(members, keys);
    ObjectForm(members);
    forall i, j | 0 <= i < j < |form| ensures IsBefore(form[i].key, form[j].key) {
      SortedKeysAscend(members, i, j);
    }
    forall i | 0 <= i < |form| ensures IsCanonical(form[i].value) && Same(members[IndexOf(members, form[i].key)].value, form[i].value) {
      MemberText(members, keys, i);
      hide IsCanonical, Same, CanonicalOf;
    }
    hide SortedKeys, IsBefore, CanonicalOf, CanonicalMembers;
    assert IsCanonical(Obj(form));
    forall k ensures HasKey(members, k) <==> HasKey(form, k)
             ensures HasKey(members, k) && HasKey(form, k) ==> Same(members[IndexOf(members, k)].value, form[IndexOf(form, k)].value)
    {
      FormHasKeys(members, form, k);
    }
    assert Same(Obj(members), Obj(form));
  }

  lemma ObjectForm(members: seq<Member>)
    ensures CanonicalOf(Obj(members)) == Obj(CanonicalMembers(members, SortedKeys(members)))
  {
  }

  /**
   * stableStringify writes every value as a JSON text: that of the same value, with the names of every
   * object in ascending order, and null for everything that is not JSON.
   */
  lemma TextIsCanonicalJson(v: Json)
    requires WellFormed(v)
    ensures exists w: Json :: Same(v, w) && IsCanonical(w) && Denotes(Serialize(v), w)
  {
    SerializedDenotes(v);
    FormIsCanonical(v);
  }

  // --- Strings as JSON.stringify writes them ---

  /** The text reads as this one unit. */
  predicate ReadsAs(t: Units, u: CodeUnit) {
    t != [] && t[0] != QUOTE && FirstUnit(t) == Some(ReadUnit(u, |t|))
  }

  /** Apart from lone surrogates, every unit is written in the shortest way that reads as it. */
  lemma QuotesAreShortest(u: CodeUnit, t: Units)
    requires !IsSurrogate(u) && ReadsAs(t, u)
    ensures |QuotedUnit(u)| <= |t|
  {
    hide ReadHex;
  }

  /** Well-formed UTF-16: every surrogate is part of a pair. */
  predicate IsWellFormedUtf16(t: Units) {
    t == [] || (if StartsWithPair(t) then IsWellFormedUtf16(t[2..]) else !IsSurrogate(t[0]) && IsWellFormedUtf16(t[1..]))
  }

  lemma PlainUnitsFirst(front: Units, t: Units)
    requires forall i :: 0 <= i < |front| ==> !IsSurrogate(front[i])
    ensures IsWellFormedUtf16(front + t) == IsWellFormedUtf16(t)
  {
    if front == [] {
      assert front + t == t;
    } else {
      assert (front + t)[1..] == front[1..] + t;
      PlainUnitsFirst(front[1..], t);
    }
  }

  lemma QuotedUnitIsPlain(u: CodeUnit)
    ensures forall i :: 0 <= i < |QuotedUnit(u)| ==> !IsSurrogate(QuotedUnit(u)[i])
  {
  }

  lemma PairFirst(a: CodeUnit, b: CodeUnit, t: Units)
    requires StartsWithPair([a, b])
    ensures IsWellFormedUtf16([a] + ([b] + t)) == IsWellFormedUtf16(t)
  {
    assert ([a] + ([b] + t))[2..] == t;
  }

  /** Lone surrogates are escaped: the quoted text is well-formed, whatever the string. */
  lemma {:induction false} QuotesAreWellFormed(s: Units, rest: Units)
    requires IsWellFormedUtf16(rest)
    ensures IsWellFormedUtf16(QuotedUnits(s) + rest)
    decreases |s|
  {
    hide QuotedUnit, IsWellFormedUtf16;
    if s == [] {
      assert QuotedUnits(s) + rest == rest;
    } else {
      QuotedUnitsUnfold(s, rest);
      hide QuotedUnits;
      if StartsWithPair(s) {
        QuotesAreWellFormed(s[2..], rest);
        PairFirst(s[0], s[1], QuotedUnits(s[2..]) + rest);
      } else {
        QuotesAreWellFormed(s[1..], rest);
        QuotedUnitIsPlain(s[0]);
        PlainUnitsFirst(QuotedUnit(s[0]), QuotedUnits(s[1..]) + rest);
      }
    }
  }
}

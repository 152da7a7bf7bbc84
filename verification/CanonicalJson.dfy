/** The canonical serializer (packages/context/src/stable-serialize.ts): equal texts mean equal values. */
module CanonicalJson {
  import opened Text
  import opened Sorting
  import opened JsonStrings

  datatype Member = Member(key: Units, value: Json)

  /** NotJson stands for undefined, functions, symbols, big integers, NaN and the infinities. */
  datatype Json =
    | Null
    | NotJson
    | Bool(b: bool)
    | Number(text: Units)   // a finite number, given by its decimal text
    | Str(s: Units)
    | Arr(items: seq<Json>)
    | Obj(members: seq<Member>)   // the own enumerable properties, in any order

  const COMMA: CodeUnit := ',' as int
  const COLON: CodeUnit := ':' as int
  const OPEN_BRACKET: CodeUnit := '[' as int
  const CLOSE_BRACKET: CodeUnit := ']' as int
  const OPEN_BRACE: CodeUnit := '{' as int
  const CLOSE_BRACE: CodeUnit := '}' as int
  const NULL_TEXT: Units := ['n' as int, 'u' as int, 'l' as int, 'l' as int]
  const TRUE_TEXT: Units := ['t' as int, 'r' as int, 'u' as int, 'e' as int]
  const FALSE_TEXT: Units := ['f' as int, 'a' as int, 'l' as int, 's' as int, 'e' as int]

  predicate IsNumberUnit(u: CodeUnit) {
    '0' as int <= u <= '9' as int || u == '-' as int || u == '+' as int || u == '.' as int || u == 'e' as int
  }

  predicate IsNumberText(t: Units) {
    t != [] && forall i :: 0 <= i < |t| ==> IsNumberUnit(t[i])
  }

  predicate HasKey(members: seq<Member>, key: Units) {
    exists i :: 0 <= i < |members| && members[i].key == key
  }

  /** Properties of one object have different names. */
  ghost predicate DistinctKeys(members: seq<Member>) {
    forall i, j :: 0 <= i < j < |members| ==> members[i].key != members[j].key
  }

  ghost predicate WellFormed(v: Json) {
    match v
    case Number(t) => IsNumberText(t)
    case Arr(items) => forall i :: 0 <= i < |items| ==> WellFormed(items[i])
    case Obj(members) => DistinctKeys(members) && forall i :: 0 <= i < |members| ==> WellFormed(members[i].value)
    case _ => true
  }

  function IndexOf(members: seq<Member>, key: Units): (i: nat)
    requires HasKey(members, key)
    ensures i < |members| && members[i].key == key
  {
    if members[0].key == key then 0 else
      assert HasKey(members[1..], key) by {
        var i :| 0 <= i < |members| && members[i].key == key;
        assert members[1..][i - 1].key == key;
      }
      1 + IndexOf(members[1..], key)
  }

  function KeysOf(members: seq<Member>): (keys: seq<Units>)
    ensures |keys| == |members| && forall i :: 0 <= i < |members| ==> keys[i] == members[i].key
  {
    seq(|members|, i requires 0 <= i < |members| => members[i].key)
  }

  const UNIT_RANK: CodeUnit -> int := (u: CodeUnit) => u

  const KEY_ORDER: (Units, Units) -> bool := (a: Units, b: Units) => !LexLess(UNIT_RANK, b, a)

  function SortedKeys(members: seq<Member>): (keys: seq<Units>)
    ensures forall k :: k in keys ==> HasKey(members, k)
  {
    var keys := SortBy(KEY_ORDER, KeysOf(members));
    assert forall k :: k in keys ==> HasKey(members, k) by {
      forall k | k in keys ensures HasKey(members, k) {
        SameElements(keys, KeysOf(members));
        var i :| 0 <= i < |KeysOf(members)| && KeysOf(members)[i] == k;
        assert members[i].key == k;
      }
    }
    keys
  }

  function Join(parts: seq<Units>): Units {
    if parts == [] then [] else if |parts| == 1 then parts[0] else parts[0] + [COMMA] + Join(parts[1..])
  }

  /** `stableStringify(v)`. */
  function Serialize(v: Json): Units
    decreases v
  {
    match v
    case Null => NULL_TEXT
    case NotJson => NULL_TEXT
    case Bool(b) => if b then TRUE_TEXT else FALSE_TEXT
    case Number(t) => t
    case Str(s) => Quote(s)
    case Arr(items) => [OPEN_BRACKET] + Join(ItemTexts(items)) + [CLOSE_BRACKET]
    case Obj(members) => [OPEN_BRACE] + Join(MemberTexts(members, SortedKeys(members))) + [CLOSE_BRACE]
  }

  function ItemTexts(items: seq<Json>): (texts: seq<Units>)
    ensures |texts| == |items|
    decreases items
  {
    seq(|items|, i requires 0 <= i < |items| => Serialize(items[i]))
  }

  function MemberTexts(members: seq<Member>, keys: seq<Units>): (texts: seq<Units>)
    requires forall k :: k in keys ==> HasKey(members, k)
    ensures |texts| == |keys|
    decreases members
  {
    seq(|keys|, i requires 0 <= i < |keys| =>
      Quote(keys[i]) + [COLON] + Serialize(members[IndexOf(members, keys[i])].value))
  }

  // --- What the text determines ---

  predicate IsNullLike(v: Json) {
    v.Null? || v.NotJson?
  }

  /** The same value up to the order of object keys; everything that is not JSON counts as null. */
  ghost predicate Same(v: Json, w: Json)
    decreases v
  {
    || (IsNullLike(v) && IsNullLike(w))
    || (v.Bool? && v == w)
    || (v.Number? && v == w)
    || (v.Str? && v == w)
    || (v.Arr? && w.Arr? && |v.items| == |w.items| && forall i :: 0 <= i < |v.items| ==> Same(v.items[i], w.items[i]))
    || (v.Obj? && w.Obj? && (forall k :: HasKey(v.members, k) <==> HasKey(w.members, k))
        && forall k :: HasKey(v.members, k) && HasKey(w.members, k) ==>
             Same(v.members[IndexOf(v.members, k)].value, w.members[IndexOf(w.members, k)].value))
  }
}

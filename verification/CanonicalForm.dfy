/** Two values have the same canonical text exactly when they are the same value up to key order. */
module CanonicalForm {
  import opened Text
  import opened Sorting
  import opened JsonStrings
  import opened CanonicalJson

  // --- The same value has the same text ---

  lemma KeyOrderIsTotal()
    ensures TotalPreorder(KEY_ORDER)
    ensures forall a, b :: KEY_ORDER(a, b) && KEY_ORDER(b, a) ==> a == b
  {
    assert Injective(UNIT_RANK);
    forall a, b
      ensures KEY_ORDER(a, b) || KEY_ORDER(b, a)
      ensures KEY_ORDER(a, b) && KEY_ORDER(b, a) ==> a == b
    {
      LexTrichotomy(UNIT_RANK, a, b);
    }
    forall a, b, c | KEY_ORDER(a, b) && KEY_ORDER(b, c) ensures KEY_ORDER(a, c) {
      LexTrichotomy(UNIT_RANK, a, b);
      LexTrichotomy(UNIT_RANK, b, c);
      LexTrichotomy(UNIT_RANK, a, c);
      if LexLess(UNIT_RANK, c, a) {
        if a != b {
          LexTransitive(UNIT_RANK, c, a, b);
        }
        if b != c && a != b {
          LexTransitive(UNIT_RANK, b, c, a);
        }
      }
    }
  }

  lemma HasKeyCons(members: seq<Member>, k: Units)
    requires members != []
    ensures HasKey(members, k) <==> members[0].key == k || HasKey(members[1..], k)
  {
    var rest := members[1..];
    if HasKey(rest, k) {
      var i :| 0 <= i < |rest| && rest[i].key == k;
      assert members[i + 1].key == k;
    }
    if HasKey(members, k) && members[0].key != k {
      var i :| 0 <= i < |members| && members[i].key == k;
      assert rest[i - 1].key == k;
    }
  }

  lemma {:induction false} KeysOccurOnce(members: seq<Member>, k: Units)
    requires DistinctKeys(members)
    ensures multiset(KeysOf(members))[k] == if HasKey(members, k) then 1 else 0
  {
    if members != [] {
      var first, rest := members[0].key, members[1..];
      KeysOccurOnce(rest, k);
      HasKeyCons(members, k);
      assert KeysOf(members) == [first] + KeysOf(rest);
      assert !HasKey(rest, first) by {
        forall i | 0 <= i < |rest| ensures rest[i].key != first {
          assert members[i + 1].key != members[0].key;
        }
      }
    }
  }

  /** The sorted keys depend on nothing but the set of keys. */
  lemma SortedKeysAgree(ms: seq<Member>, ns: seq<Member>)
    requires DistinctKeys(ms) && DistinctKeys(ns)
    requires forall k :: HasKey(ms, k) <==> HasKey(ns, k)
    ensures SortedKeys(ms) == SortedKeys(ns)
  {
    forall k ensures multiset(KeysOf(ms))[k] == multiset(KeysOf(ns))[k] {
      KeysOccurOnce(ms, k);
      KeysOccurOnce(ns, k);
    }
    assert multiset(KeysOf(ms)) == multiset(KeysOf(ns));
    KeyOrderIsTotal();
    SortByCanonical(KEY_ORDER, KeysOf(ms), KeysOf(ns));
  }

  lemma SortedKeysComplete(members: seq<Member>, k: Units)
    ensures k in SortedKeys(members) <==> HasKey(members, k)
  {
    SameElements(SortedKeys(members), KeysOf(members));
    if HasKey(members, k) {
      assert KeysOf(members)[IndexOf(members, k)] == k;
    }
  }

  /** Values that are the same up to key order are serialized alike. */
  lemma {:induction false} SameSerializesAlike(v: Json, w: Json)
    requires WellFormed(v) && WellFormed(w) && Same(v, w)
    ensures Serialize(v) == Serialize(w)
    decreases v
  {
    if v.Arr? {
      assert ItemTexts(v.items) == ItemTexts(w.items) by {
        forall i | 0 <= i < |v.items| ensures ItemTexts(v.items)[i] == ItemTexts(w.items)[i] {
          SameSerializesAlike(v.items[i], w.items[i]);
        }
      }
    } else if v.Obj? {
      var ms, ns := v.members, w.members;
      SortedKeysAgree(ms, ns);
      var keys := SortedKeys(ms);
      assert MemberTexts(ms, keys) == MemberTexts(ns, keys) by {
        forall i | 0 <= i < |keys| ensures MemberTexts(ms, keys)[i] == MemberTexts(ns, keys)[i] {
          SameSerializesAlike(ms[IndexOf(ms, keys[i])].value, ns[IndexOf(ns, keys[i])].value);
        }
      }
    }
  }

  // --- The text determines the value ---

  /** What may follow a value: nothing, or a unit that ends every value. */
  predicate Ends(r: Units) {
    r == [] || r[0] == COMMA || r[0] == CLOSE_BRACKET || r[0] == CLOSE_BRACE
  }

  /** The kind of value that a first unit announces. */
  function KindOf(u: CodeUnit): int {
    if u == 'n' as int then 0
    else if u == 't' as int then 1
    else if u == 'f' as int then 2
    else if u == QUOTE then 3
    else if u == OPEN_BRACKET then 4
    else if u == OPEN_BRACE then 5
    else if IsNumberUnit(u) then 6
    else 7
  }

  function Kind(v: Json): int {
    match v
    case Null => 0
    case NotJson => 0
    case Bool(b) => if b then 1 else 2
    case Number(t) => 6
    case Str(s) => 3
    case Arr(items) => 4
    case Obj(members) => 5
  }

  lemma FirstUnitShowsKind(v: Json)
    requires WellFormed(v)
    ensures Serialize(v) != [] && KindOf(Serialize(v)[0]) == Kind(v)
  {
    hide Join, QuotedUnits, ItemTexts, MemberTexts, SortedKeys;
  }

  lemma SameStart(a: Units, b: Units, r: Units, s: Units)
    requires a != [] && b != [] && a + r == b + s
    ensures a[0] == b[0]
  {
    assert (a + r)[0] == a[0] && (b + s)[0] == b[0];
  }

  lemma SamePrefix(a: Units, r: Units, s: Units)
    requires a + r == a + s
    ensures r == s
  {
    assert (a + r)[|a|..] == r && (a + s)[|a|..] == s;
  }

  lemma NumberNotLonger(t: Units, u: Units, r: Units, s: Units)
    requires IsNumberText(t) && IsNumberText(u) && Ends(r) && t + r == u + s
    ensures |u| <= |t|
  {
    var whole := u + s;
    assert |t| < |u| ==> IsNumberUnit(whole[|t|]);
    assert whole == t + r && |u| <= |whole|;
    assert r != [] ==> whole[|t|] == r[0];
  }

  lemma NumbersCancel(t: Units, u: Units, r: Units, s: Units)
    requires IsNumberText(t) && IsNumberText(u) && Ends(r) && Ends(s) && t + r == u + s
    ensures t == u && r == s
  {
    NumberNotLonger(t, u, r, s);
    NumberNotLonger(u, t, s, r);
    assert (t + r)[..|t|] == t && (u + s)[..|u|] == u;
    SamePrefix(t, r, s);
  }

  lemma StringsCancel(s: Units, t: Units, r: Units, q: Units)
    requires Quote(s) + r == Quote(t) + q
    ensures s == t && r == q
  {
    hide Quote, Unquote;
    QuoteReadsBack(s, r);
    QuoteReadsBack(t, q);
  }

  /** Parts joined by commas and closed, with what follows. */
  function Closed(parts: seq<Units>, close: CodeUnit, r: Units): Units {
    Join(parts) + [close] + r
  }

  /** What follows the first part. */
  function AfterPart(parts: seq<Units>, close: CodeUnit, r: Units): Units
    requires parts != []
  {
    if |parts| == 1 then [close] + r else [COMMA] + Closed(parts[1..], close, r)
  }

  lemma ClosedUnfold(parts: seq<Units>, close: CodeUnit, r: Units)
    requires parts != []
    ensures Closed(parts, close, r) == parts[0] + AfterPart(parts, close, r)
  {
    if |parts| > 1 {
      var rest := Join(parts[1..]);
      assert Join(parts) == parts[0] + [COMMA] + rest;
      hide Join;
      assert parts[0] + [COMMA] + rest + [close] + r == parts[0] + ([COMMA] + (rest + [close] + r));
    } else {
      assert Join(parts) == parts[0];
      hide Join;
      assert parts[0] + [close] + r == parts[0] + ([close] + r);
    }
  }

  lemma ClosedEmpty(close: CodeUnit, r: Units)
    ensures Closed([], close, r) == [close] + r
  {
    assert Join([]) + [close] + r == [close] + r;
  }

  /** Two lists that are alike so far both go on or both end. */
  lemma AfterPartsAgree(parts: seq<Units>, others: seq<Units>, close: CodeUnit, r: Units, s: Units)
    requires parts != [] && others != [] && close != COMMA
    requires AfterPart(parts, close, r) == AfterPart(others, close, s)
    ensures |parts| == 1 <==> |others| == 1
    ensures |parts| == 1 ==> r == s
    ensures |parts| > 1 ==> Closed(parts[1..], close, r) == Closed(others[1..], close, s)
  {
    hide Closed;
    var a, b := AfterPart(parts, close, r), AfterPart(others, close, s);
    assert a[0] == b[0];
    assert a[1..] == if |parts| == 1 then r else Closed(parts[1..], close, r);
    assert b[1..] == if |others| == 1 then s else Closed(others[1..], close, s);
  }

  /** A list that begins with a part other than the closing unit is not empty. */
  lemma BothEmpty(parts: seq<Units>, others: seq<Units>, close: CodeUnit, r: Units, s: Units)
    requires Closed(parts, close, r) == Closed(others, close, s)
    requires parts != [] ==> parts[0] != [] && parts[0][0] != close
    requires others != [] ==> others[0] != [] && others[0][0] != close
    ensures parts == [] <==> others == []
    ensures parts == [] ==> r == s
  {
    hide Join;
    if parts == [] {
      ClosedEmpty(close, r);
    } else {
      ClosedUnfold(parts, close, r);
    }
    if others == [] {
      ClosedEmpty(close, s);
    } else {
      ClosedUnfold(others, close, s);
    }
    hide Closed, AfterPart;
    var text := Closed(parts, close, r);
    assert text[0] == if parts == [] then close else parts[0][0];
    assert text[0] == if others == [] then close else others[0][0];
    if parts == [] {
      assert text[1..] == r && text[1..] == s;
    }
  }

  lemma ItemTextsTail(items: seq<Json>)
    requires items != []
    ensures ItemTexts(items)[0] == Serialize(items[0]) && ItemTexts(items)[1..] == ItemTexts(items[1..])
  {
    hide Serialize;
  }

  lemma MemberTextsTail(members: seq<Member>, keys: seq<Units>)
    requires keys != [] && forall k :: k in keys ==> HasKey(members, k)
    ensures MemberTexts(members, keys)[0] ==
            Quote(keys[0]) + [COLON] + Serialize(members[IndexOf(members, keys[0])].value)
    ensures MemberTexts(members, keys)[1..] == MemberTexts(members, keys[1..])
  {
    hide Serialize, Quote;
  }

  ghost predicate ItemsSame(xs: seq<Json>, ys: seq<Json>) {
    |xs| == |ys| && forall i :: 0 <= i < |xs| ==> Same(xs[i], ys[i])
  }

  ghost predicate MembersSame(ms: seq<Member>, ns: seq<Member>, keys: seq<Units>, others: seq<Units>)
    requires forall k :: k in keys ==> HasKey(ms, k)
    requires forall k :: k in others ==> HasKey(ns, k)
  {
    keys == others &&
    forall k :: k in keys ==> Same(ms[IndexOf(ms, k)].value, ns[IndexOf(ns, k)].value)
  }

  lemma ArrayText(items: seq<Json>, r: Units)
    ensures Serialize(Arr(items)) + r == [OPEN_BRACKET] + Closed(ItemTexts(items), CLOSE_BRACKET, r)
  {
    var inside := Join(ItemTexts(items));
    hide Join, ItemTexts;
    assert [OPEN_BRACKET] + inside + [CLOSE_BRACKET] + r == [OPEN_BRACKET] + (inside + [CLOSE_BRACKET] + r);
  }

  lemma ObjectText(members: seq<Member>, r: Units)
    ensures Serialize(Obj(members)) + r ==
            [OPEN_BRACE] + Closed(MemberTexts(members, SortedKeys(members)), CLOSE_BRACE, r)
  {
    var inside := Join(MemberTexts(members, SortedKeys(members)));
    hide Join, MemberTexts, SortedKeys;
    assert [OPEN_BRACE] + inside + [CLOSE_BRACE] + r == [OPEN_BRACE] + (inside + [CLOSE_BRACE] + r);
  }

  /** A value is read off its text, whatever follows it. */
  lemma {:induction false} ValuesCancel(v: Json, w: Json, r: Units, s: Units)
    requires WellFormed(v) && WellFormed(w) && Ends(r) && Ends(s)
    requires Serialize(v) + r == Serialize(w) + s
    ensures Same(v, w) && r == s
    decreases v
  {
    FirstUnitShowsKind(v);
    FirstUnitShowsKind(w);
    SameStart(Serialize(v), Serialize(w), r, s);
    hide KindOf, Ends;
    match v
    case Number(t) => NumbersCancel(t, w.text, r, s);
    case Str(t) => StringsCancel(t, w.s, r, s);
    case Arr(items) =>
      ArrayText(items, r);
      ArrayText(w.items, s);
      hide Serialize;
      SamePrefix([OPEN_BRACKET], Closed(ItemTexts(items), CLOSE_BRACKET, r), Closed(ItemTexts(w.items), CLOSE_BRACKET, s));
      ItemsCancel(items, w.items, r, s);
    case Obj(members) =>
      ObjectText(members, r);
      ObjectText(w.members, s);
      hide Serialize;
      var keys, others := SortedKeys(members), SortedKeys(w.members);
      SamePrefix([OPEN_BRACE], Closed(MemberTexts(members, keys), CLOSE_BRACE, r),
                 Closed(MemberTexts(w.members, others), CLOSE_BRACE, s));
      MembersCancel(members, w.members, keys, others, r, s);
      SameObjects(members, w.members);
    case _ => SamePrefix(Serialize(v), r, s);
  }

  lemma SameObjects(ms: seq<Member>, ns: seq<Member>)
    requires MembersSame(ms, ns, SortedKeys(ms), SortedKeys(ns))
    ensures Same(Obj(ms), Obj(ns))
  {
    hide SortedKeys;
    forall k ensures HasKey(ms, k) <==> HasKey(ns, k) {
      SortedKeysComplete(ms, k);
      SortedKeysComplete(ns, k);
    }
    forall k | HasKey(ms, k) ensures Same(ms[IndexOf(ms, k)].value, ns[IndexOf(ns, k)].value) {
      SortedKeysComplete(ms, k);
    }
  }

  lemma {:induction false} ItemsCancel(xs: seq<Json>, ys: seq<Json>, r: Units, s: Units)
    requires forall i :: 0 <= i < |xs| ==> WellFormed(xs[i])
    requires forall i :: 0 <= i < |ys| ==> WellFormed(ys[i])
    requires Closed(ItemTexts(xs), CLOSE_BRACKET, r) == Closed(ItemTexts(ys), CLOSE_BRACKET, s)
    ensures ItemsSame(xs, ys) && r == s
    decreases xs
  {
    hide Serialize, ItemTexts, Closed, Same;
    var parts, others := ItemTexts(xs), ItemTexts(ys);
    if xs != [] {
      ItemTextsTail(xs);
      FirstUnitShowsKind(xs[0]);
    }
    if ys != [] {
      ItemTextsTail(ys);
      FirstUnitShowsKind(ys[0]);
    }
    BothEmpty(parts, others, CLOSE_BRACKET, r, s);
    if xs != [] {
      ClosedUnfold(parts, CLOSE_BRACKET, r);
      ClosedUnfold(others, CLOSE_BRACKET, s);
      ValuesCancel(xs[0], ys[0], AfterPart(parts, CLOSE_BRACKET, r), AfterPart(others, CLOSE_BRACKET, s));
      AfterPartsAgree(parts, others, CLOSE_BRACKET, r, s);
      if |xs| > 1 {
        ItemsCancel(xs[1..], ys[1..], r, s);
      }
    }
  }

  lemma {:induction false} MembersCancel(ms: seq<Member>, ns: seq<Member>, keys: seq<Units>, others: seq<Units>, r: Units, s: Units)
    requires forall i :: 0 <= i < |ms| ==> WellFormed(ms[i].value)
    requires forall i :: 0 <= i < |ns| ==> WellFormed(ns[i].value)
    requires forall k :: k in keys ==> HasKey(ms, k)
    requires forall k :: k in others ==> HasKey(ns, k)
    requires Closed(MemberTexts(ms, keys), CLOSE_BRACE, r) == Closed(MemberTexts(ns, others), CLOSE_BRACE, s)
    ensures MembersSame(ms, ns, keys, others) && r == s
    decreases ms, |keys|
  {
    hide Serialize, MemberTexts, Closed, Same, Quote, HasKey;
    var parts, texts := MemberTexts(ms, keys), MemberTexts(ns, others);
    if keys != [] {
      MemberTextsTail(ms, keys);
      QuoteStarts(keys[0]);
    }
    if others != [] {
      MemberTextsTail(ns, others);
      QuoteStarts(others[0]);
    }
    BothEmpty(parts, texts, CLOSE_BRACE, r, s);
    if keys != [] {
      ClosedUnfold(parts, CLOSE_BRACE, r);
      ClosedUnfold(texts, CLOSE_BRACE, s);
      var v, w := ms[IndexOf(ms, keys[0])].value, ns[IndexOf(ns, others[0])].value;
      var after, next := AfterPart(parts, CLOSE_BRACE, r), AfterPart(texts, CLOSE_BRACE, s);
      MemberParts(keys[0], Serialize(v), after);
      MemberParts(others[0], Serialize(w), next);
      StringsCancel(keys[0], others[0], [COLON] + (Serialize(v) + after), [COLON] + (Serialize(w) + next));
      SamePrefix([COLON], Serialize(v) + after, Serialize(w) + next);
      ValuesCancel(v, w, after, next);
      AfterPartsAgree(parts, texts, CLOSE_BRACE, r, s);
      if |keys| > 1 {
        MembersCancel(ms, ns, keys[1..], others[1..], r, s);
      }
      assert keys == [keys[0]] + keys[1..] && others == [others[0]] + others[1..];
    }
  }

  lemma QuoteStarts(s: Units)
    ensures Quote(s) != [] && Quote(s)[0] == QUOTE
  {
  }

  lemma MemberParts(key: Units, value: Units, after: Units)
    ensures Quote(key) + [COLON] + value + after == Quote(key) + ([COLON] + (value + after))
  {
    hide Quote;
  }

  /**
   * Canonical serialization is injective: two values get the same text exactly when they are the
   * same up to the order of object keys, where everything that is not JSON counts as null.
   */
  lemma SerializeIsCanonical(v: Json, w: Json)
    requires WellFormed(v) && WellFormed(w)
    ensures Serialize(v) == Serialize(w) <==> Same(v, w)
  {
    if Serialize(v) == Serialize(w) {
      ValuesCancel(v, w, [], []);
    }
    if Same(v, w) {
      SameSerializesAlike(v, w);
    }
  }
}

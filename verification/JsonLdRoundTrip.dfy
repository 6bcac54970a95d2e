/**
 * What `safeJsonLd` prints contains none of the five characters, and an RFC 8259 reader
 * parses it back to the same value.
 */
module JsonLdRoundTrip {
  import opened Wrappers
  import opened Sequences
  import opened JsonLd

  // ---- Five passes over the text are one pass over its characters ----

  function SafeUnit(u: Unit): Text {
    if Unsafe(u) then UEscape(u) else [u]
  }

  function Safe(t: Text): Text {
    if t == [] then [] else SafeUnit(t[0]) + Safe(t[1..])
  }

  lemma {:induction false} SafeConcat(a: Text, b: Text)
    ensures Safe(a + b) == Safe(a) + Safe(b)
  {
    if a == [] {
      assert a + b == b;
    } else {
      SafeConcat(a[1..], b);
      assert (a + b)[1..] == a[1..] + b;
      JoinInOrder(SafeUnit(a[0]), Safe(a[1..]), Safe(b));
    }
  }

  lemma {:induction false} ReplaceConcat(a: Text, b: Text, u: Unit, put: Text)
    ensures Replace(a + b, u, put) == Replace(a, u, put) + Replace(b, u, put)
  {
    if a == [] {
      assert a + b == b;
    } else {
      ReplaceConcat(a[1..], b, u, put);
      assert (a + b)[1..] == a[1..] + b && (a + b)[0] == a[0];
      JoinInOrder(if a[0] == u then put else [a[0]], Replace(a[1..], u, put), Replace(b, u, put));
    }
  }

  lemma {:induction false} ReplaceAbsent(t: Text, u: Unit, put: Text)
    requires u !in t
    ensures Replace(t, u, put) == t
  {
    if t != [] {
      ReplaceAbsent(t[1..], u, put);
    }
  }

  /** An escape consists of a backslash, the letter u and hex digits. */
  lemma EscapeIsSafe(u: Unit)
    ensures forall x :: x in UEscape(u) ==> !Unsafe(x)
  {
  }

  lemma FivePassesConcat(a: Text, b: Text)
    ensures FivePasses(a + b) == FivePasses(a) + FivePasses(b)
  {
    var a1, b1 := Replace(a, 0x3C, UEscape(0x3C)), Replace(b, 0x3C, UEscape(0x3C));
    var a2, b2 := Replace(a1, 0x3E, UEscape(0x3E)), Replace(b1, 0x3E, UEscape(0x3E));
    var a3, b3 := Replace(a2, 0x26, UEscape(0x26)), Replace(b2, 0x26, UEscape(0x26));
    var a4, b4 := Replace(a3, 0x2028, UEscape(0x2028)), Replace(b3, 0x2028, UEscape(0x2028));
    ReplaceConcat(a, b, 0x3C, UEscape(0x3C));
    ReplaceConcat(a1, b1, 0x3E, UEscape(0x3E));
    ReplaceConcat(a2, b2, 0x26, UEscape(0x26));
    ReplaceConcat(a3, b3, 0x2028, UEscape(0x2028));
    ReplaceConcat(a4, b4, 0x2029, UEscape(0x2029));
  }

  lemma ReplaceUnit(x: Unit, u: Unit, put: Text)
    ensures Replace([x], u, put) == if x == u then put else [x]
  {
    assert [x][1..] == [];
    assert put + [] == put;
  }

  /** A character escaped by one pass is left alone by the later ones. */
  lemma FivePassesOfUnit(x: Unit)
    ensures FivePasses([x]) == SafeUnit(x)
  {
    EscapeIsSafe(x);
    forall u | Unsafe(u) ensures Replace(UEscape(x), u, UEscape(u)) == UEscape(x) {
      ReplaceAbsent(UEscape(x), u, UEscape(u));
    }
    ReplaceUnit(x, 0x3C, UEscape(0x3C));
    ReplaceUnit(x, 0x3E, UEscape(0x3E));
    ReplaceUnit(x, 0x26, UEscape(0x26));
    ReplaceUnit(x, 0x2028, UEscape(0x2028));
    ReplaceUnit(x, 0x2029, UEscape(0x2029));
  }

  lemma {:induction false} FivePassesAreOne(t: Text)
    ensures FivePasses(t) == Safe(t)
  {
    if t != [] {
      FivePassesAreOne(t[1..]);
      FivePassesOfUnit(t[0]);
      FivePassesConcat([t[0]], t[1..]);
      assert t == [t[0]] + t[1..];
    }
  }

  lemma {:induction false} SafeIsSafe(t: Text)
    ensures forall x :: x in Safe(t) ==> !Unsafe(x)
  {
    if t != [] {
      SafeIsSafe(t[1..]);
      EscapeIsSafe(t[0]);
    }
  }

  lemma {:induction false} SafeAbsent(t: Text)
    requires forall i :: 0 <= i < |t| ==> !Unsafe(t[i])
    ensures Safe(t) == t
  {
    if t != [] {
      SafeAbsent(t[1..]);
    }
  }

  // ---- Strings ----

  lemma HexDigitRoundTrip(n: nat)
    requires n < 16
    ensures HexValue(HexDigit(n)) == Some(n)
  {
  }

  lemma HexRoundTrip(u: Unit)
    ensures ReadHex4(UEscape(u)[2..6]) == Some(u)
  {
    var h1 := u / 16;
    var h2 := h1 / 16;
    HexDigitRoundTrip(h2 / 16);
    HexDigitRoundTrip(h2 % 16);
    HexDigitRoundTrip(h1 % 16);
    HexDigitRoundTrip(u % 16);
    var t := UEscape(u)[2..6];
    assert t[0] == HexDigit(h2 / 16) && t[1] == HexDigit(h2 % 16) && t[2] == HexDigit(h1 % 16) && t[3] == HexDigit(u % 16);
  }

  lemma ReadUEscape(u: Unit, rest: Text)
    ensures ReadChar(UEscape(u) + rest) == Some((u, rest))
  {
    var t := UEscape(u) + rest;
    HexRoundTrip(u);
    assert t[2..6] == UEscape(u)[2..6] && t[6..] == rest;
  }

  /** A unit that is printed as it is, and escaped afterwards if it is one of the five. */
  lemma RawUnitRoundTrip(u: Unit, rest: Text)
    requires EscapeUnit(u) == [u]
    ensures ReadChar(Safe([u]) + rest) == Some((u, rest))
    ensures Safe([u]) != [] && Safe([u])[0] != QUOTE
  {
    assert Safe([u]) == SafeUnit(u) by {
      assert [u][1..] == [];
      assert SafeUnit(u) + [] == SafeUnit(u);
    }
    if Unsafe(u) {
      ReadUEscape(u, rest);
    } else {
      RawRoundTrip(u, rest);
    }
  }

  lemma EscapedUnitRoundTrip(u: Unit, rest: Text)
    requires EscapeUnit(u) != [u]
    ensures ReadChar(EscapeUnit(u) + rest) == Some((u, rest))
  {
    if EscapeUnit(u) == UEscape(u) {
      ReadUEscape(u, rest);
    } else {
      assert (EscapeUnit(u) + rest)[2..] == rest;
    }
  }

  /** Printed, escaped again where needed and read: the same code unit. */
  lemma UnitRoundTrip(u: Unit, rest: Text)
    ensures ReadChar(Safe(EscapeUnit(u)) + rest) == Some((u, rest))
    ensures Safe(EscapeUnit(u)) != [] && Safe(EscapeUnit(u))[0] != QUOTE
  {
    if EscapeUnit(u) == [u] {
      RawUnitRoundTrip(u, rest);
    } else {
      EscapeIsSafe(u);
      SafeAbsent(EscapeUnit(u));
      EscapedUnitRoundTrip(u, rest);
    }
  }

  /** The halves of a surrogate pair are printed and read as they are. */
  lemma RawRoundTrip(u: Unit, rest: Text)
    requires 0x20 <= u && u != QUOTE && u != BACKSLASH
    ensures ReadChar([u] + rest) == Some((u, rest))
  {
    assert ([u] + rest)[1..] == rest;
  }

  lemma ReadStringStep(chunk: Text, u: Unit, rest: Text)
    requires chunk != [] && chunk[0] != QUOTE && ReadChar(chunk + rest) == Some((u, rest))
    ensures ReadString(chunk + rest) == Prepend(u, ReadString(rest))
  {
  }

  predicate Pair(s: Text) {
    |s| >= 2 && High(s[0]) && Low(s[1])
  }

  lemma SafeJoin(a: Text, b: Text, tail: Text)
    ensures Safe(a + b) + tail == Safe(a) + (Safe(b) + tail)
  {
    SafeConcat(a, b);
    JoinInOrder(Safe(a), Safe(b), tail);
  }

  lemma SafePair(a: Unit, b: Unit, e: Text, tail: Text)
    requires !Unsafe(a) && !Unsafe(b)
    ensures Safe([a, b] + e) + tail == [a] + ([b] + (Safe(e) + tail))
  {
    SafeJoin([a, b], e, tail);
    SafeAbsent([a, b]);
    JoinInOrder([a], [b], Safe(e) + tail);
  }

  lemma EscapedPair(s: Text, tail: Text)
    requires Pair(s)
    ensures Safe(Escaped(s)) + tail == [s[0]] + ([s[1]] + (Safe(Escaped(s[2..])) + tail))
  {
    SafePair(s[0], s[1], Escaped(s[2..]), tail);
  }

  lemma EscapedSingle(s: Text, tail: Text)
    requires s != [] && !Pair(s)
    ensures Safe(Escaped(s)) + tail == Safe(EscapeUnit(s[0])) + (Safe(Escaped(s[1..])) + tail)
  {
    SafeJoin(EscapeUnit(s[0]), Escaped(s[1..]), tail);
  }

  lemma {:induction false} StringRoundTrip(s: Text, rest: Text)
    ensures ReadString(Safe(Escaped(s)) + ([QUOTE] + rest)) == Some((s, rest))
    decreases |s|
  {
    if s == [] {
      EmptyRoundTrip(rest);
    } else if Pair(s) {
      StringRoundTrip(s[2..], rest);
      EscapedPair(s, [QUOTE] + rest);
      ReadPair(s, Safe(Escaped(s[2..])) + ([QUOTE] + rest));
      assert [s[0]] + ([s[1]] + s[2..]) == s;
    } else {
      StringRoundTrip(s[1..], rest);
      EscapedSingle(s, [QUOTE] + rest);
      ReadSingle(s[0], Safe(Escaped(s[1..])) + ([QUOTE] + rest));
      assert [s[0]] + s[1..] == s;
    }
  }

  lemma EmptyRoundTrip(rest: Text)
    ensures ReadString(Safe(Escaped([])) + ([QUOTE] + rest)) == Some(([], rest))
  {
    assert Safe(Escaped([])) + ([QUOTE] + rest) == [QUOTE] + rest && ([QUOTE] + rest)[1..] == rest;
  }

  function Prepend(u: Unit, r: Read<Text>): Read<Text> {
    if r.None? then None else Some(([u] + r.value.0, r.value.1))
  }

  lemma ReadSingle(u: Unit, more: Text)
    ensures ReadString(Safe(EscapeUnit(u)) + more) == Prepend(u, ReadString(more))
  {
    UnitRoundTrip(u, more);
    ReadStringStep(Safe(EscapeUnit(u)), u, more);
  }

  lemma ReadPair(s: Text, more: Text)
    requires Pair(s)
    ensures ReadString([s[0]] + ([s[1]] + more)) == Prepend(s[0], Prepend(s[1], ReadString(more)))
  {
    RawRoundTrip(s[1], more);
    ReadStringStep([s[1]], s[1], more);
    RawRoundTrip(s[0], [s[1]] + more);
    ReadStringStep([s[0]], s[0], [s[1]] + more);
  }

  lemma QuotedRoundTrip(s: Text, rest: Text)
    ensures var t := Safe(Quoted(s)) + rest;
      t != [] && t[0] == QUOTE && ReadString(t[1..]) == Some((s, rest))
  {
    var e := Escaped(s);
    SafeJoin([QUOTE] + e, [QUOTE], rest);
    SafeJoin([QUOTE], e, [QUOTE] + rest);
    AfterValue(QUOTE, Safe(e) + ([QUOTE] + rest));
    StringRoundTrip(s, rest);
  }

  // ---- Values ----

  /** Nothing that could continue a number follows. */
  predicate Ends(rest: Text) {
    rest == [] || !NumberChar(rest[0])
  }

  lemma {:induction false} NumberLengthExact(t: Text, rest: Text)
    requires Ends(rest) && forall i :: 0 <= i < |t| ==> NumberChar(t[i])
    ensures NumberLength(t + rest) == |t|
  {
    if t == [] {
      assert t + rest == rest;
    } else {
      NumberLengthExact(t[1..], rest);
      assert (t + rest)[1..] == t[1..] + rest;
    }
  }

  function AsString(r: Read<Text>): Read<Json> {
    if r.None? then None else Some((JString(r.value.0), r.value.1))
  }

  /** What a text starts with decides how it is read. */
  lemma ReadValueByFirst(t: Text)
    requires t != [] && SkipWs(t) == t
    ensures NumberChar(t[0]) ==> ReadValue(t) == ReadNumber(t)
    ensures t[0] == QUOTE ==> ReadValue(t) == AsString(ReadString(t[1..]))
    ensures t[0] == OPEN_ARRAY ==> ReadValue(t) == ReadArray(SkipWs(t[1..]))
    ensures t[0] == OPEN_OBJECT ==> ReadValue(t) == ReadObject(SkipWs(t[1..]))
  {
    assert NULL_WORD <= t ==> t[0] == NULL_WORD[0];
    assert TRUE_WORD <= t ==> t[0] == TRUE_WORD[0];
    assert FALSE_WORD <= t ==> t[0] == FALSE_WORD[0];
  }

  lemma NumberRoundTrip(n: Lexeme, rest: Text)
    requires Ends(rest)
    ensures ReadValue(Safe(n) + rest) == Some((JNumber(n), rest))
  {
    SafeAbsent(n);
    var t := n + rest;
    assert n != [] && t[0] == n[0] && NumberChar(n[0]);
    ReadValueByFirst(t);
    NumberLengthExact(n, rest);
    assert t[..|n|] == n && t[|n|..] == rest;
  }

  lemma WordRoundTrip(v: Json, rest: Text)
    requires v.JNull? || v.JBool?
    ensures ReadValue(Safe(Stringify(v)) + rest) == Some((v, rest))
  {
    var w := Stringify(v);
    SafeAbsent(w);
    ReadWord(w, rest);
  }

  lemma ReadWord(w: Text, rest: Text)
    requires w in {NULL_WORD, TRUE_WORD, FALSE_WORD}
    ensures ReadValue(w + rest) == Some((if w == NULL_WORD then JNull else JBool(w == TRUE_WORD), rest))
  {
    var t := w + rest;
    assert t[0] == w[0] && t[|w|..] == rest && t[..|w|] == w;
    assert NULL_WORD <= t ==> t[0] == NULL_WORD[0];
    assert TRUE_WORD <= t ==> t[0] == TRUE_WORD[0];
    assert FALSE_WORD <= t ==> t[0] == FALSE_WORD[0];
  }

  /** The first unit of a printed value: neither white space nor a bracket that closes. */
  predicate Starts(u: Unit) {
    NumberChar(u) || u == QUOTE || u == OPEN_ARRAY || u == OPEN_OBJECT || u == 0x6E || u == 0x74 || u == 0x66
  }

  lemma ValueStarts(v: Json, rest: Text)
    ensures var t := Safe(Stringify(v)) + rest; t != [] && Starts(t[0]) && SkipWs(t) == t
  {
    var p := Stringify(v);
    assert p != [] && Starts(p[0]) && !Unsafe(p[0]) by {
      if v.JNumber? {
        assert p == v.lexeme && v.lexeme != [] && NumberChar(v.lexeme[0]);
      }
    }
  }

  /** The unit that comes after a value inside an array or object is not white space. */
  lemma AfterValue(u: Unit, rest: Text)
    requires u in {COMMA, COLON, CLOSE_ARRAY, CLOSE_OBJECT, OPEN_ARRAY, OPEN_OBJECT, QUOTE}
    ensures SkipWs([u] + rest) == [u] + rest && Ends([u] + rest) && ([u] + rest)[1..] == rest && Safe([u]) == [u]
  {
    SafeAbsent([u]);
  }

  lemma {:induction false} ValueRoundTrip(v: Json, rest: Text)
    requires Ends(rest)
    ensures ReadValue(Safe(Stringify(v)) + rest) == Some((v, rest))
    decreases v, 1
  {
    match v
    case JNull => WordRoundTrip(v, rest);
    case JBool(_) => WordRoundTrip(v, rest);
    case JNumber(n) => NumberRoundTrip(n, rest);
    case JString(s) =>
      QuotedRoundTrip(s, rest);
      ReadValueByFirst(Safe(Stringify(v)) + rest);
    case JArray(items) =>
      ArrayText(items, rest);
      if items != [] {
        ItemsRoundTrip(items, rest);
      }
      ArrayReads(items, rest);
    case JObject(members) =>
      ObjectText(members, rest);
      if members != [] {
        MembersRoundTrip(members, rest);
      }
      ObjectReads(members, rest);
  }

  // ---- Arrays ----

  /** A printed array is its brackets around its items. */
  lemma ArrayText(items: seq<Json>, rest: Text)
    ensures Safe(Stringify(JArray(items))) + rest
         == [OPEN_ARRAY] + (Safe(StringifyItems(items)) + ([CLOSE_ARRAY] + rest))
  {
    var p := StringifyItems(items);
    SafeJoin([OPEN_ARRAY] + p, [CLOSE_ARRAY], rest);
    SafeJoin([OPEN_ARRAY], p, [CLOSE_ARRAY] + rest);
    AfterValue(OPEN_ARRAY, []);
    AfterValue(CLOSE_ARRAY, []);
  }

  lemma SafeSeparated(first: Text, more: Text, tail: Text)
    ensures Safe(first + ([COMMA] + more)) + tail == Safe(first) + ([COMMA] + (Safe(more) + tail))
  {
    SafeJoin(first, [COMMA] + more, tail);
    SafeJoin([COMMA], more, tail);
    AfterValue(COMMA, []);
  }

  lemma ItemsText(items: seq<Json>, tail: Text)
    requires items != []
    ensures Safe(StringifyItems(items)) + tail ==
      Safe(Stringify(items[0])) + if |items| == 1 then tail else [COMMA] + (Safe(StringifyItems(items[1..])) + tail)
  {
    if |items| == 1 {
      assert Stringify(items[0]) + [] == Stringify(items[0]);
    } else {
      SafeSeparated(Stringify(items[0]), StringifyItems(items[1..]), tail);
    }
  }

  function Cons<A>(a: A, r: Read<seq<A>>): Read<seq<A>> {
    if r.None? then None else Some(([a] + r.value.0, r.value.1))
  }

  /** After an item comes the closing bracket or a comma and more items. */
  lemma ReadItemsStep(t: Text, v: Json, u: Unit, rest: Text)
    requires ReadValue(t) == Some((v, [u] + rest)) && (u == COMMA || u == CLOSE_ARRAY)
    ensures ReadItems(t) == if u == CLOSE_ARRAY then Some(([v], rest)) else Cons(v, ReadItems(rest))
  {
    AfterValue(u, rest);
  }

  lemma {:induction false} ItemsRoundTrip(items: seq<Json>, rest: Text)
    requires items != []
    ensures ReadItems(Safe(StringifyItems(items)) + ([CLOSE_ARRAY] + rest)) == Some((items, rest))
    decreases items, 0
  {
    if |items| == 1 {
      AfterValue(CLOSE_ARRAY, rest);
      ValueRoundTrip(items[0], [CLOSE_ARRAY] + rest);
      ItemsText(items, [CLOSE_ARRAY] + rest);
      LastItem(Safe(StringifyItems(items)) + ([CLOSE_ARRAY] + rest), items, rest);
    } else {
      var more := Safe(StringifyItems(items[1..])) + ([CLOSE_ARRAY] + rest);
      AfterValue(COMMA, more);
      ValueRoundTrip(items[0], [COMMA] + more);
      ItemsRoundTrip(items[1..], rest);
      ItemsText(items, [CLOSE_ARRAY] + rest);
      FirstItem(Safe(StringifyItems(items)) + ([CLOSE_ARRAY] + rest), items, more, rest);
    }
  }

  lemma LastItem(t: Text, items: seq<Json>, rest: Text)
    requires |items| == 1 && ReadValue(t) == Some((items[0], [CLOSE_ARRAY] + rest))
    ensures ReadItems(t) == Some((items, rest))
  {
    ReadItemsStep(t, items[0], CLOSE_ARRAY, rest);
    assert items == [items[0]];
  }

  lemma FirstItem(t: Text, items: seq<Json>, more: Text, rest: Text)
    requires |items| > 1 && ReadValue(t) == Some((items[0], [COMMA] + more))
    requires ReadItems(more) == Some((items[1..], rest))
    ensures ReadItems(t) == Some((items, rest))
  {
    ReadItemsStep(t, items[0], COMMA, more);
    assert items == [items[0]] + items[1..];
  }

  lemma ArrayReads(items: seq<Json>, rest: Text)
    requires items != [] ==> ReadItems(Safe(StringifyItems(items)) + ([CLOSE_ARRAY] + rest)) == Some((items, rest))
    ensures ReadValue([OPEN_ARRAY] + (Safe(StringifyItems(items)) + ([CLOSE_ARRAY] + rest))) == Some((JArray(items), rest))
  {
    var tail := [CLOSE_ARRAY] + rest;
    var inner := Safe(StringifyItems(items)) + tail;
    AfterValue(OPEN_ARRAY, inner);
    AfterValue(CLOSE_ARRAY, rest);
    ReadValueByFirst([OPEN_ARRAY] + inner);
    if items == [] {
      assert inner == tail;
    } else {
      ItemsText(items, tail);
      ValueStarts(items[0], if |items| == 1 then tail else [COMMA] + (Safe(StringifyItems(items[1..])) + tail));
    }
  }

  // ---- Objects ----

  lemma ObjectText(members: seq<Member>, rest: Text)
    ensures Safe(Stringify(JObject(members))) + rest
         == [OPEN_OBJECT] + (Safe(StringifyMembers(members)) + ([CLOSE_OBJECT] + rest))
  {
    var p := StringifyMembers(members);
    SafeJoin([OPEN_OBJECT] + p, [CLOSE_OBJECT], rest);
    SafeJoin([OPEN_OBJECT], p, [CLOSE_OBJECT] + rest);
    AfterValue(OPEN_OBJECT, []);
    AfterValue(CLOSE_OBJECT, []);
  }

  function MemberText(m: Member): Text {
    Quoted(m.key) + [COLON] + Stringify(m.value)
  }

  lemma MembersText(members: seq<Member>, tail: Text)
    requires members != []
    ensures Safe(StringifyMembers(members)) + tail ==
      Safe(MemberText(members[0])) + if |members| == 1 then tail else [COMMA] + (Safe(StringifyMembers(members[1..])) + tail)
  {
    if |members| == 1 {
      assert MemberText(members[0]) + [] == MemberText(members[0]);
    } else {
      SafeSeparated(MemberText(members[0]), StringifyMembers(members[1..]), tail);
    }
  }

  lemma MemberParts(m: Member, tail: Text)
    ensures Safe(MemberText(m)) + tail == Safe(Quoted(m.key)) + ([COLON] + (Safe(Stringify(m.value)) + tail))
  {
    SafeJoin(Quoted(m.key) + [COLON], Stringify(m.value), tail);
    SafeJoin(Quoted(m.key), [COLON], Safe(Stringify(m.value)) + tail);
    AfterValue(COLON, []);
  }

  lemma ReadMemberStep(t: Text, m: Member, valueText: Text, rest: Text)
    requires t != [] && t[0] == QUOTE && ReadString(t[1..]) == Some((m.key, [COLON] + valueText))
    requires ReadValue(valueText) == Some((m.value, rest))
    ensures ReadMember(t) == Some((m, rest))
  {
    AfterValue(COLON, valueText);
    assert SkipWs(t) == t;
  }

  lemma MemberRoundTrip(m: Member, rest: Text)
    requires ReadValue(Safe(Stringify(m.value)) + rest) == Some((m.value, rest))
    ensures ReadMember(Safe(MemberText(m)) + rest) == Some((m, rest))
  {
    var valueText := Safe(Stringify(m.value)) + rest;
    MemberParts(m, rest);
    QuotedRoundTrip(m.key, [COLON] + valueText);
    ReadMemberStep(Safe(MemberText(m)) + rest, m, valueText, rest);
  }

  /** After a member comes the closing brace or a comma and more members. */
  lemma ReadMembersStep(t: Text, m: Member, u: Unit, rest: Text)
    requires ReadMember(t) == Some((m, [u] + rest)) && (u == COMMA || u == CLOSE_OBJECT)
    ensures ReadMembers(t) == if u == CLOSE_OBJECT then Some(([m], rest)) else Cons(m, ReadMembers(rest))
  {
    AfterValue(u, rest);
  }

  lemma LastMember(t: Text, members: seq<Member>, rest: Text)
    requires |members| == 1 && ReadMember(t) == Some((members[0], [CLOSE_OBJECT] + rest))
    ensures ReadMembers(t) == Some((members, rest))
  {
    ReadMembersStep(t, members[0], CLOSE_OBJECT, rest);
    assert members == [members[0]];
  }

  lemma FirstMember(t: Text, members: seq<Member>, more: Text, rest: Text)
    requires |members| > 1 && ReadMember(t) == Some((members[0], [COMMA] + more))
    requires ReadMembers(more) == Some((members[1..], rest))
    ensures ReadMembers(t) == Some((members, rest))
  {
    ReadMembersStep(t, members[0], COMMA, more);
    assert members == [members[0]] + members[1..];
  }

  lemma {:induction false} MembersRoundTrip(members: seq<Member>, rest: Text)
    requires members != []
    ensures ReadMembers(Safe(StringifyMembers(members)) + ([CLOSE_OBJECT] + rest)) == Some((members, rest))
    decreases members, 0
  {
    var t := Safe(StringifyMembers(members)) + ([CLOSE_OBJECT] + rest);
    MembersText(members, [CLOSE_OBJECT] + rest);
    if |members| == 1 {
      AfterValue(CLOSE_OBJECT, rest);
      ValueRoundTrip(members[0].value, [CLOSE_OBJECT] + rest);
      MemberRoundTrip(members[0], [CLOSE_OBJECT] + rest);
      LastMember(t, members, rest);
    } else {
      var more := Safe(StringifyMembers(members[1..])) + ([CLOSE_OBJECT] + rest);
      AfterValue(COMMA, more);
      ValueRoundTrip(members[0].value, [COMMA] + more);
      MemberRoundTrip(members[0], [COMMA] + more);
      MembersRoundTrip(members[1..], rest);
      FirstMember(t, members, more, rest);
    }
  }

  lemma ObjectReads(members: seq<Member>, rest: Text)
    requires members != [] ==>
      ReadMembers(Safe(StringifyMembers(members)) + ([CLOSE_OBJECT] + rest)) == Some((members, rest))
    ensures ReadValue([OPEN_OBJECT] + (Safe(StringifyMembers(members)) + ([CLOSE_OBJECT] + rest)))
         == Some((JObject(members), rest))
  {
    var inner := Safe(StringifyMembers(members)) + ([CLOSE_OBJECT] + rest);
    AfterValue(OPEN_OBJECT, inner);
    AfterValue(CLOSE_OBJECT, rest);
    ReadValueByFirst([OPEN_OBJECT] + inner);
    if members == [] {
      assert inner == [CLOSE_OBJECT] + rest;
    } else {
      MembersStart(members, [CLOSE_OBJECT] + rest);
    }
  }

  lemma MembersStart(members: seq<Member>, tail: Text)
    requires members != []
    ensures var t := Safe(StringifyMembers(members)) + tail; t != [] && t[0] == QUOTE && SkipWs(t) == t
  {
    var after := if |members| == 1 then tail else [COMMA] + (Safe(StringifyMembers(members[1..])) + tail);
    MembersText(members, tail);
    MemberParts(members[0], after);
    QuotedRoundTrip(members[0].key, [COLON] + (Safe(Stringify(members[0].value)) + after));
  }

  // ---- The whole text ----

  /**
   * Every JSON value, printed and escaped, is free of `<`, `>`, `&`, U+2028 and U+2029,
   * and reads back as the same value.
   */
  lemma SafeJsonLdIsSafeAndFaithful(v: Json)
    ensures forall u :: u in SafeJsonLd(v) ==> !Unsafe(u)
    ensures Parse(SafeJsonLd(v)) == Some(v)
  {
    FivePassesAreOne(Stringify(v));
    SafeIsSafe(Stringify(v));
    ValueRoundTrip(v, []);
    assert Safe(Stringify(v)) + [] == Safe(Stringify(v));
  }
}

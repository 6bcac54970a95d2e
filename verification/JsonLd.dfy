/**
 * Embedding a value in a script element (`safeJsonLd` in apps/web/lib/status.ts): the
 * text that `JSON.stringify` prints, five characters of it escaped afterwards, and an
 * independent reader for RFC 8259. Texts are sequences of UTF-16 code units.
 */
module JsonLd {
  import opened Wrappers

  type Unit = u: int | 0 <= u < 0x1_0000 witness 0

  type Text = seq<Unit>

  const QUOTE: Unit := 0x22
  const BACKSLASH: Unit := 0x5C
  const SLASH: Unit := 0x2F
  const COMMA: Unit := 0x2C
  const COLON: Unit := 0x3A
  const OPEN_ARRAY: Unit := 0x5B
  const CLOSE_ARRAY: Unit := 0x5D
  const OPEN_OBJECT: Unit := 0x7B
  const CLOSE_OBJECT: Unit := 0x7D
  const LETTER_U: Unit := 0x75

  const NULL_WORD: Text := [0x6E, 0x75, 0x6C, 0x6C]
  const TRUE_WORD: Text := [0x74, 0x72, 0x75, 0x65]
  const FALSE_WORD: Text := [0x66, 0x61, 0x6C, 0x73, 0x65]

  // ---- Numbers: section 6 of RFC 8259 ----

  predicate Digit(u: Unit) {
    0x30 <= u <= 0x39
  }

  predicate NumberChar(u: Unit) {
    Digit(u) || u == 0x2B || u == 0x2D || u == 0x2E || u == 0x45 || u == 0x65
  }

  function SkipDigits(t: Text): (rest: Text)
    ensures |rest| <= |t|
  {
    if t != [] && Digit(t[0]) then SkipDigits(t[1..]) else t
  }

  /** 1*DIGIT at the front, or None. */
  function SkipSomeDigits(t: Text): Option<Text> {
    if t != [] && Digit(t[0]) then Some(SkipDigits(t[1..])) else None
  }

  /** number = [ minus ] int [ frac ] [ exp ] */
  predicate IsNumber(t: Text) {
    var u := if t != [] && t[0] == 0x2D then t[1..] else t;
    if u == [] || !Digit(u[0]) then false
    else
      var afterInt := if u[0] == 0x30 then u[1..] else SkipDigits(u);
      var afterFrac := if afterInt != [] && afterInt[0] == 0x2E then SkipSomeDigits(afterInt[1..]) else Some(afterInt);
      if afterFrac.None? then false
      else if afterFrac.value == [] then true
      else if afterFrac.value[0] != 0x45 && afterFrac.value[0] != 0x65 then false
      else
        var e := afterFrac.value[1..];
        SkipSomeDigits(if e != [] && (e[0] == 0x2B || e[0] == 0x2D) then e[1..] else e) == Some([])
  }

  type Lexeme = t: Text | IsNumber(t) && forall i :: 0 <= i < |t| ==> NumberChar(t[i]) witness [0x30]

  // ---- Values ----

  datatype Json =
    | JNull
    | JBool(b: bool)
    | JNumber(lexeme: Lexeme)
    | JString(s: Text)
    | JArray(items: seq<Json>)
    | JObject(members: seq<Member>)

  datatype Member = Member(key: Text, value: Json)

  // ---- JSON.stringify ----

  predicate High(u: Unit) { 0xD800 <= u <= 0xDBFF }

  predicate Low(u: Unit) { 0xDC00 <= u <= 0xDFFF }

  function HexDigit(n: int): Unit
    requires 0 <= n < 16
  {
    if n < 10 then 0x30 + n else 0x61 + n - 10
  }

  /** The escape \uXXXX with lower-case digits. */
  function UEscape(u: Unit): Text {
    var h1 := u / 16;
    var h2 := h1 / 16;
    [BACKSLASH, LETTER_U, HexDigit(h2 / 16), HexDigit(h2 % 16), HexDigit(h1 % 16), HexDigit(u % 16)]
  }

  /** One code unit that is not part of a surrogate pair. */
  function EscapeUnit(u: Unit): Text {
    if u == QUOTE || u == BACKSLASH then [BACKSLASH, u]
    else if u == 0x08 then [BACKSLASH, 0x62]
    else if u == 0x0C then [BACKSLASH, 0x66]
    else if u == 0x0A then [BACKSLASH, 0x6E]
    else if u == 0x0D then [BACKSLASH, 0x72]
    else if u == 0x09 then [BACKSLASH, 0x74]
    else if u < 0x20 || High(u) || Low(u) then UEscape(u)
    else [u]
  }

  function Escaped(s: Text): Text {
    if s == [] then []
    else if |s| >= 2 && High(s[0]) && Low(s[1]) then [s[0], s[1]] + Escaped(s[2..])
    else EscapeUnit(s[0]) + Escaped(s[1..])
  }

  function Quoted(s: Text): Text {
    [QUOTE] + Escaped(s) + [QUOTE]
  }

  function Stringify(v: Json): Text
    decreases v, 1
  {
    match v
    case JNull => NULL_WORD
    case JBool(b) => if b then TRUE_WORD else FALSE_WORD
    case JNumber(lexeme) => lexeme
    case JString(s) => Quoted(s)
    case JArray(items) => [OPEN_ARRAY] + StringifyItems(items) + [CLOSE_ARRAY]
    case JObject(members) => [OPEN_OBJECT] + StringifyMembers(members) + [CLOSE_OBJECT]
  }

  function StringifyItems(items: seq<Json>): Text
    decreases items, 0
  {
    if items == [] then []
    else Stringify(items[0]) + if |items| == 1 then [] else [COMMA] + StringifyItems(items[1..])
  }

  function StringifyMembers(members: seq<Member>): Text
    decreases members, 0
  {
    if members == [] then []
    else Quoted(members[0].key) + [COLON] + Stringify(members[0].value)
         + if |members| == 1 then [] else [COMMA] + StringifyMembers(members[1..])
  }

  // ---- The escaping pass ----

  /** `text.replace(/u/g, put)` */
  function Replace(t: Text, u: Unit, put: Text): Text {
    if t == [] then [] else (if t[0] == u then put else [t[0]]) + Replace(t[1..], u, put)
  }

  /** `<`, `>`, `&`, U+2028 and U+2029. */
  predicate Unsafe(u: Unit) {
    u == 0x3C || u == 0x3E || u == 0x26 || u == 0x2028 || u == 0x2029
  }

  function FivePasses(t: Text): Text {
    var t1 := Replace(t, 0x3C, UEscape(0x3C));
    var t2 := Replace(t1, 0x3E, UEscape(0x3E));
    var t3 := Replace(t2, 0x26, UEscape(0x26));
    var t4 := Replace(t3, 0x2028, UEscape(0x2028));
    Replace(t4, 0x2029, UEscape(0x2029))
  }

  function SafeJsonLd(v: Json): Text {
    FivePasses(Stringify(v))
  }

  // ---- The reader: sections 2 to 7 of RFC 8259 ----

  type Read<T> = Option<(T, Text)>

  function SkipWs(t: Text): (rest: Text)
    ensures |rest| <= |t|
  {
    if t != [] && (t[0] == 0x20 || t[0] == 0x09 || t[0] == 0x0A || t[0] == 0x0D) then SkipWs(t[1..]) else t
  }

  /** Upper and lower case. */
  function HexValue(u: Unit): Option<nat> {
    if Digit(u) then Some(u - 0x30)
    else if 0x61 <= u <= 0x66 then Some(u - 0x61 + 10)
    else if 0x41 <= u <= 0x46 then Some(u - 0x41 + 10)
    else None
  }

  function ReadHex4(t: Text): Option<Unit>
    requires |t| >= 4
  {
    var a, b, c, d := HexValue(t[0]), HexValue(t[1]), HexValue(t[2]), HexValue(t[3]);
    if a.None? || b.None? || c.None? || d.None? then None
    else
      var value := a.value * 0x1000 + b.value * 0x100 + c.value * 16 + d.value;
      if value < 0x1_0000 then Some(value) else None
  }

  /** The character after a backslash. */
  function ReadSimpleEscape(u: Unit): Option<Unit> {
    if u == QUOTE || u == BACKSLASH || u == SLASH then Some(u)
    else if u == 0x62 then Some(0x08)
    else if u == 0x66 then Some(0x0C)
    else if u == 0x6E then Some(0x0A)
    else if u == 0x72 then Some(0x0D)
    else if u == 0x74 then Some(0x09)
    else None
  }

  /** char = unescaped / escape (…): one code unit and what follows it. */
  function ReadChar(t: Text): (r: Read<Unit>)
    ensures r.Some? ==> |r.value.1| < |t|
  {
    if t == [] || t[0] < 0x20 || t[0] == QUOTE then None
    else if t[0] != BACKSLASH then Some((t[0], t[1..]))
    else if |t| >= 6 && t[1] == LETTER_U then
      var u := ReadHex4(t[2..6]);
      if u.None? then None else Some((u.value, t[6..]))
    else if |t| >= 2 then
      var u := ReadSimpleEscape(t[1]);
      if u.None? then None else Some((u.value, t[2..]))
    else None
  }

  /** What follows the opening quote, up to the closing one. */
  function ReadString(t: Text): (r: Read<Text>)
    ensures r.Some? ==> |r.value.1| < |t|
  {
    if t != [] && t[0] == QUOTE then Some(([], t[1..]))
    else
      var c := ReadChar(t);
      if c.None? then None
      else
        var more := ReadString(c.value.1);
        if more.None? then None else Some(([c.value.0] + more.value.0, more.value.1))
  }

  function NumberLength(t: Text): (n: nat)
    ensures n <= |t| && forall i :: 0 <= i < n ==> NumberChar(t[i])
  {
    if t != [] && NumberChar(t[0]) then 1 + NumberLength(t[1..]) else 0
  }

  function ReadNumber(t: Text): (r: Read<Json>)
    ensures r.Some? ==> |r.value.1| < |t|
  {
    var n := NumberLength(t);
    if IsNumber(t[..n]) then Some((JNumber(t[..n]), t[n..])) else None
  }

  function ReadValue(text: Text): (r: Read<Json>)
    ensures r.Some? ==> |r.value.1| < |text|
    decreases |text|, 0
  {
    var t := SkipWs(text);
    if t == [] then None
    else if NULL_WORD <= t then Some((JNull, t[4..]))
    else if TRUE_WORD <= t then Some((JBool(true), t[4..]))
    else if FALSE_WORD <= t then Some((JBool(false), t[5..]))
    else if t[0] == QUOTE then
      var s := ReadString(t[1..]);
      if s.None? then None else Some((JString(s.value.0), s.value.1))
    else if t[0] == OPEN_ARRAY then ReadArray(SkipWs(t[1..]))
    else if t[0] == OPEN_OBJECT then ReadObject(SkipWs(t[1..]))
    else ReadNumber(t)
  }

  /** What follows the opening bracket. */
  function ReadArray(t: Text): (r: Read<Json>)
    ensures r.Some? ==> |r.value.1| < |t|
    decreases |t|, 3
  {
    if t != [] && t[0] == CLOSE_ARRAY then Some((JArray([]), t[1..]))
    else
      var items := ReadItems(t);
      if items.None? then None else Some((JArray(items.value.0), items.value.1))
  }

  /** What follows the opening brace. */
  function ReadObject(t: Text): (r: Read<Json>)
    ensures r.Some? ==> |r.value.1| < |t|
    decreases |t|, 3
  {
    if t != [] && t[0] == CLOSE_OBJECT then Some((JObject([]), t[1..]))
    else
      var members := ReadMembers(t);
      if members.None? then None else Some((JObject(members.value.0), members.value.1))
  }

  /** value *( , value ) ] */
  function ReadItems(t: Text): (r: Read<seq<Json>>)
    ensures r.Some? ==> |r.value.1| < |t|
    decreases |t|, 1
  {
    var v := ReadValue(t);
    if v.None? then None
    else
      var rest := SkipWs(v.value.1);
      if rest == [] then None
      else if rest[0] == CLOSE_ARRAY then Some(([v.value.0], rest[1..]))
      else if rest[0] != COMMA then None
      else
        var more := ReadItems(rest[1..]);
        if more.None? then None else Some(([v.value.0] + more.value.0, more.value.1))
  }

  /** member = string name-separator value */
  function ReadMember(text: Text): (r: Read<Member>)
    ensures r.Some? ==> |r.value.1| < |text|
    decreases |text|, 1
  {
    var t := SkipWs(text);
    if t == [] || t[0] != QUOTE then None
    else
      var key := ReadString(t[1..]);
      if key.None? then None
      else
        var afterKey := SkipWs(key.value.1);
        if afterKey == [] || afterKey[0] != COLON then None
        else
          var v := ReadValue(afterKey[1..]);
          if v.None? then None else Some((Member(key.value.0, v.value.0), v.value.1))
  }

  /** member *( , member ) } */
  function ReadMembers(t: Text): (r: Read<seq<Member>>)
    ensures r.Some? ==> |r.value.1| < |t|
    decreases |t|, 2
  {
    var m := ReadMember(t);
    if m.None? then None
    else
      var rest := SkipWs(m.value.1);
      if rest == [] then None
      else if rest[0] == CLOSE_OBJECT then Some(([m.value.0], rest[1..]))
      else if rest[0] != COMMA then None
      else
        var more := ReadMembers(rest[1..]);
        if more.None? then None else Some(([m.value.0] + more.value.0, more.value.1))
  }

  /** JSON-text = ws value ws */
  function Parse(t: Text): Option<Json> {
    var v := ReadValue(t);
    if v.Some? && SkipWs(v.value.1) == [] then Some(v.value.0) else None
  }
}

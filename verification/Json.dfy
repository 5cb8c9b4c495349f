/** JSON values, their compact text as JSON.stringify writes it, and a parser for RFC 8259 sections
    4 (objects), 5 (arrays) and 7 (strings) that reads the text back. */
module Json {
  import opened Common

  // One UTF-16 code unit; JavaScript strings are sequences of them.
  type Unit = x: int | 0 <= x < 0x1_0000

  type Text = seq<Unit>

  // A number is known by its decimal token. Fields are in own-key order.
  datatype Json =
    | Null
    | Bool(b: bool)
    | Num(token: Text)
    | Str(s: Text)
    | Arr(items: seq<Json>)
    | Obj(fields: seq<Field>)

  datatype Field = Field(key: Text, value: Json)

  const QUOTE: Unit := 34
  const BACKSLASH: Unit := 92
  const COMMA: Unit := 44
  const COLON: Unit := 58
  const OPEN_BRACKET: Unit := 91
  const CLOSE_BRACKET: Unit := 93
  const OPEN_BRACE: Unit := 123
  const CLOSE_BRACE: Unit := 125
  const LETTER_U: Unit := 117
  const NULL_TEXT: Text := [110, 117, 108, 108]
  const TRUE_TEXT: Text := [116, 114, 117, 101]
  const FALSE_TEXT: Text := [102, 97, 108, 115, 101]

  // Digits, sign, point and exponent.
  predicate NumberUnit(u: Unit) {
    48 <= u <= 57 || u == 45 || u == 43 || u == 46 || u == 101 || u == 69
  }

  function Keys(fields: seq<Field>): (keys: seq<Text>)
    ensures |keys| == |fields| && forall i :: 0 <= i < |fields| ==> keys[i] == fields[i].key
  {
    seq(|fields|, i requires 0 <= i < |fields| => fields[i].key)
  }

  predicate Distinct(keys: seq<Text>) {
    forall i, j :: 0 <= i < j < |keys| ==> keys[i] != keys[j]
  }

  // What a JavaScript value can be: number tokens are tokens, and an object has each key once.
  predicate Valid(v: Json) {
    match v
    case Num(token) => token != [] && forall u :: u in token ==> NumberUnit(u)
    case Arr(items) => forall i :: 0 <= i < |items| ==> Valid(items[i])
    case Obj(fields) => Distinct(Keys(fields)) && forall i :: 0 <= i < |fields| ==> Valid(fields[i].value)
    case _ => true
  }

  // ------------------------------------------------------------------ strings

  predicate HighSurrogate(u: Unit) { 0xD800 <= u < 0xDC00 }

  predicate LowSurrogate(u: Unit) { 0xDC00 <= u < 0xE000 }

  function HexDigit(n: int): Unit
    requires 0 <= n < 16
  {
    if n < 10 then 48 + n else 87 + n
  }

  function UnicodeEscape(u: Unit): Text {
    [BACKSLASH, LETTER_U, HexDigit(u / 4096), HexDigit(u / 256 % 16), HexDigit(u / 16 % 16), HexDigit(u % 16)]
  }

  // The letter after the backslash, for the units that have a short escape.
  function ShortEscape(u: Unit): Option<Unit> {
    if u == QUOTE || u == BACKSLASH then Some(u)
    else if u == 8 then Some(98)
    else if u == 9 then Some(116)
    else if u == 10 then Some(110)
    else if u == 12 then Some(102)
    else if u == 13 then Some(114)
    else None
  }

  function EscapeUnit(u: Unit): Text {
    if ShortEscape(u).Some? then [BACKSLASH, ShortEscape(u).value]
    else if u < 32 || HighSurrogate(u) || LowSurrogate(u) then UnicodeEscape(u)
    else [u]
  }

  // A surrogate pair is written as it is, a lone surrogate as an escape.
  function Escaped(s: Text): Text {
    if s == [] then []
    else if 2 <= |s| && HighSurrogate(s[0]) && LowSurrogate(s[1]) then [s[0], s[1]] + Escaped(s[2..])
    else EscapeUnit(s[0]) + Escaped(s[1..])
  }

  function Quote(s: Text): Text {
    [QUOTE] + Escaped(s) + [QUOTE]
  }

  function HexValue(u: Unit): (r: Option<int>)
    ensures r.Some? ==> 0 <= r.value < 16
  {
    if 48 <= u <= 57 then Some(u - 48)
    else if 97 <= u <= 102 then Some(u - 87)
    else if 65 <= u <= 70 then Some(u - 55)
    else None
  }

  function Unescape(u: Unit): Option<Unit> {
    if u == QUOTE || u == BACKSLASH || u == 47 then Some(u)
    else if u == 98 then Some(8)
    else if u == 116 then Some(9)
    else if u == 110 then Some(10)
    else if u == 102 then Some(12)
    else if u == 114 then Some(13)
    else None
  }

  // Four hexadecimal digits.
  function ParseHex(t: Text): (r: Option<Unit>)
    requires 4 <= |t|
  {
    var a, b, c, d := HexValue(t[0]), HexValue(t[1]), HexValue(t[2]), HexValue(t[3]);
    if a.Some? && b.Some? && c.Some? && d.Some? then
      Some(4096 * a.value + 256 * b.value + 16 * c.value + d.value)
    else None
  }

  // One character of a string: its unit and what follows it.
  function ParseUnit(t: Text): (r: Option<(Unit, Text)>)
    ensures r.Some? ==> |r.value.1| < |t|
  {
    if t == [] || t[0] < 32 || t[0] == QUOTE then None
    else if t[0] != BACKSLASH then Some((t[0], t[1..]))
    else if |t| < 2 then None
    else if t[1] == LETTER_U then
      if |t| < 6 || ParseHex(t[2..6]).None? then None else Some((ParseHex(t[2..6]).value, t[6..]))
    else if Unescape(t[1]).Some? then Some((Unescape(t[1]).value, t[2..]))
    else None
  }

  // The characters up to the closing quote, and what follows it.
  function ParseChars(t: Text): (r: Option<(Text, Text)>)
    ensures r.Some? ==> |r.value.1| < |t|
    decreases |t|
  {
    if t != [] && t[0] == QUOTE then Some(([], t[1..]))
    else
      var first := ParseUnit(t);
      if first.None? then None else
        var more := ParseChars(first.value.1);
        if more.None? then None else Some(([first.value.0] + more.value.0, more.value.1))
  }

  lemma DigitReadsBack(n: int)
    requires 0 <= n < 16
    ensures HexValue(HexDigit(n)) == Some(n)
  {}

  lemma FourDigits(u: Unit)
    ensures u / 4096 < 16 && u == 4096 * (u / 4096) + 256 * (u / 256 % 16) + 16 * (u / 16 % 16) + u % 16
  {}

  lemma HexDigitsReadBack(u: Unit)
    ensures ParseHex(UnicodeEscape(u)[2..]) == Some(u)
  {
    hide HexDigit, HexValue;
    FourDigits(u);
    DigitReadsBack(u / 4096);
    DigitReadsBack(u / 256 % 16);
    DigitReadsBack(u / 16 % 16);
    DigitReadsBack(u % 16);
  }

  // A unit written with four hex digits.
  lemma HexReadsBack(u: Unit, rest: Text)
    ensures ParseUnit(UnicodeEscape(u) + rest) == Some((u, rest))
  {
    hide HexDigit, ParseHex;
    HexDigitsReadBack(u);
    var t := UnicodeEscape(u) + rest;
    assert t[6..] == rest && t[2..6] == UnicodeEscape(u)[2..];
  }

  lemma ShortReadsBack(u: Unit, rest: Text)
    requires ShortEscape(u).Some?
    ensures ParseUnit(EscapeUnit(u) + rest) == Some((u, rest))
  {
    var t := EscapeUnit(u) + rest;
    assert t[|EscapeUnit(u)|..] == rest;
  }

  lemma UnitReadsBack(u: Unit, rest: Text)
    ensures ParseUnit(EscapeUnit(u) + rest) == Some((u, rest))
  {
    hide ParseUnit, UnicodeEscape;
    if ShortEscape(u).Some? {
      ShortReadsBack(u, rest);
    } else if u < 32 || HighSurrogate(u) || LowSurrogate(u) {
      HexReadsBack(u, rest);
    } else {
      RawReadsBack(u, rest);
    }
  }

  lemma RawReadsBack(u: Unit, rest: Text)
    requires 32 <= u && u != QUOTE && u != BACKSLASH
    ensures ParseUnit([u] + rest) == Some((u, rest))
  {
    assert ([u] + rest)[1..] == rest;
  }

  // Of all ways to write a unit, the printer takes a shortest one; only surrogates, which stand for
  // nothing alone, are written longer than they could be.
  lemma EscapeIsShortest(u: Unit, t: Text)
    requires ParseUnit(t) == Some((u, [])) && !HighSurrogate(u) && !LowSurrogate(u)
    ensures |EscapeUnit(u)| <= |t|
  {
    hide ParseHex, UnicodeEscape;
    HexIsLowerCase(u);
  }

  // Hexadecimal digits are written in lower case.
  lemma HexIsLowerCase(u: Unit)
    ensures var t := UnicodeEscape(u);
      |t| == 6 && forall i :: 2 <= i < 6 ==> 48 <= t[i] <= 57 || 97 <= t[i] <= 102
  {
    FourDigits(u);
  }

  // Every surrogate is one of a pair.
  ghost predicate Paired(t: Text) {
    && (forall i :: 0 <= i < |t| && HighSurrogate(t[i]) ==> i + 1 < |t| && LowSurrogate(t[i + 1]))
    && (forall i :: 0 <= i < |t| && LowSurrogate(t[i]) ==> 0 < i && HighSurrogate(t[i - 1]))
  }

  lemma PairedConcat(a: Text, b: Text)
    requires Paired(a) && Paired(b)
    ensures Paired(a + b)
  {
    var t := a + b;
    forall i | 0 <= i < |t| && HighSurrogate(t[i]) ensures i + 1 < |t| && LowSurrogate(t[i + 1]) {
      if |a| <= i {
        assert b[i - |a| + 1] == t[i + 1];
      }
    }
    forall i | 0 <= i < |t| && LowSurrogate(t[i]) ensures 0 < i && HighSurrogate(t[i - 1]) {
      if |a| <= i {
        assert b[i - |a| - 1] == t[i - 1];
      }
    }
  }

  // A string is printed without lone surrogates, and its surrogate pairs are printed as they are.
  lemma {:induction false} EscapedIsPaired(s: Text)
    ensures Paired(Escaped(s))
    ensures 2 <= |s| && HighSurrogate(s[0]) && LowSurrogate(s[1]) ==> Escaped(s) == s[..2] + Escaped(s[2..])
    decreases |s|
  {
    hide EscapeUnit;
    if s == [] {
    } else if 2 <= |s| && HighSurrogate(s[0]) && LowSurrogate(s[1]) {
      EscapedIsPaired(s[2..]);
      assert s[..2] == [s[0], s[1]];
      PairedConcat(s[..2], Escaped(s[2..]));
    } else {
      EscapedIsPaired(s[1..]);
      NoSurrogateIn(s[0]);
      PairedConcat(EscapeUnit(s[0]), Escaped(s[1..]));
    }
  }

  lemma NoSurrogateIn(u: Unit)
    ensures forall i :: 0 <= i < |EscapeUnit(u)| ==> !HighSurrogate(EscapeUnit(u)[i]) && !LowSurrogate(EscapeUnit(u)[i])
  {
    hide UnicodeEscape;
    HexIsPlain(u);
  }

  lemma HexIsPlain(u: Unit)
    ensures forall i :: 0 <= i < |UnicodeEscape(u)| ==> UnicodeEscape(u)[i] < 128
  {
    HexIsLowerCase(u);
  }

  lemma CharsStep(t: Text, u: Unit, tail: Text, s: Text, rest: Text)
    requires t != [] && t[0] != QUOTE && ParseUnit(t) == Some((u, tail)) && ParseChars(tail) == Some((s, rest))
    ensures ParseChars(t) == Some(([u] + s, rest))
  {}

  lemma {:induction false} CharsReadBack(s: Text, rest: Text)
    ensures ParseChars(Escaped(s) + [QUOTE] + rest) == Some((s, rest))
    decreases |s|
  {
    hide ParseUnit, ParseChars, EscapeUnit;
    var t := Escaped(s) + [QUOTE] + rest;
    if s == [] {
      ClosingQuote(t, rest);
    } else if 2 <= |s| && HighSurrogate(s[0]) && LowSurrogate(s[1]) {
      var tail := Escaped(s[2..]) + [QUOTE] + rest;
      CharsReadBack(s[2..], rest);
      RawReadsBack(s[1], tail);
      CharsStep([s[1]] + tail, s[1], tail, s[2..], rest);
      RawReadsBack(s[0], [s[1]] + tail);
      CharsStep([s[0]] + ([s[1]] + tail), s[0], [s[1]] + tail, [s[1]] + s[2..], rest);
      assert t == [s[0]] + ([s[1]] + tail);
      assert s == [s[0]] + ([s[1]] + s[2..]);
    } else {
      var tail := Escaped(s[1..]) + [QUOTE] + rest;
      CharsReadBack(s[1..], rest);
      UnitReadsBack(s[0], tail);
      assert t == EscapeUnit(s[0]) + tail;
      EscapeStarts(s[0]);
      CharsStep(t, s[0], tail, s[1..], rest);
      assert s == [s[0]] + s[1..];
    }
  }

  lemma ClosingQuote(t: Text, rest: Text)
    requires t == [QUOTE] + rest
    ensures ParseChars(t) == Some(([], rest))
  {
    assert t[1..] == rest;
  }

  lemma EscapeStarts(u: Unit)
    ensures EscapeUnit(u) != [] && EscapeUnit(u)[0] != QUOTE
  {}

  // ------------------------------------------------------------------ values

  function Print(v: Json): Text
    decreases v
  {
    match v
    case Null => NULL_TEXT
    case Bool(b) => if b then TRUE_TEXT else FALSE_TEXT
    case Num(token) => token
    case Str(s) => Quote(s)
    case Arr(items) => [OPEN_BRACKET] + PrintItems(items) + [CLOSE_BRACKET]
    case Obj(fields) => [OPEN_BRACE] + PrintFields(fields) + [CLOSE_BRACE]
  }

  function PrintItems(items: seq<Json>): Text
    decreases items
  {
    if items == [] then []
    else if |items| == 1 then Print(items[0])
    else Print(items[0]) + [COMMA] + PrintItems(items[1..])
  }

  function PrintField(f: Field): Text
    decreases f
  {
    Quote(f.key) + [COLON] + Print(f.value)
  }

  function PrintFields(fields: seq<Field>): Text
    decreases fields
  {
    if fields == [] then []
    else if |fields| == 1 then PrintField(fields[0])
    else PrintField(fields[0]) + [COMMA] + PrintFields(fields[1..])
  }

  // ------------------------------------------------------------------ the parser

  function TakeNumber(t: Text): (r: (Text, Text))
    ensures r.0 + r.1 == t
  {
    if t == [] || !NumberUnit(t[0]) then ([], t) else
      var (token, rest) := TakeNumber(t[1..]);
      ([t[0]] + token, rest)
  }

  function ParseLiteral(t: Text, literal: Text, v: Json): (r: Option<(Json, Text)>)
    requires literal != []
    ensures r.Some? ==> |r.value.1| < |t|
  {
    if literal <= t then Some((v, t[|literal|..])) else None
  }

  function ParseValue(t: Text): (r: Option<(Json, Text)>)
    ensures r.Some? ==> |r.value.1| < |t|
    decreases |t|, 0
  {
    if t == [] then None
    else if t[0] == NULL_TEXT[0] then ParseLiteral(t, NULL_TEXT, Null)
    else if t[0] == TRUE_TEXT[0] then ParseLiteral(t, TRUE_TEXT, Bool(true))
    else if t[0] == FALSE_TEXT[0] then ParseLiteral(t, FALSE_TEXT, Bool(false))
    else if t[0] == QUOTE then
      var s := ParseChars(t[1..]);
      if s.None? then None else Some((Str(s.value.0), s.value.1))
    else if t[0] == OPEN_BRACKET then
      if 2 <= |t| && t[1] == CLOSE_BRACKET then Some((Arr([]), t[2..])) else
        var items := ParseItems(t[1..]);
        if items.None? then None else Some((Arr(items.value.0), items.value.1))
    else if t[0] == OPEN_BRACE then
      if 2 <= |t| && t[1] == CLOSE_BRACE then Some((Obj([]), t[2..])) else
        var fields := ParseFields(t[1..]);
        if fields.None? then None else Some((Obj(fields.value.0), fields.value.1))
    else
      var (token, rest) := TakeNumber(t);
      if token == [] then None else Some((Num(token), rest))
  }

  // One or more values separated by commas, up to the closing bracket.
  function ParseItems(t: Text): (r: Option<(seq<Json>, Text)>)
    ensures r.Some? ==> |r.value.1| < |t|
    decreases |t|, 1
  {
    var first := ParseValue(t);
    if first.None? then None else
      var (v, rest) := first.value;
      if rest == [] then None
      else if rest[0] == CLOSE_BRACKET then Some(([v], rest[1..]))
      else if rest[0] != COMMA then None
      else
        var more := ParseItems(rest[1..]);
        if more.None? then None else Some(([v] + more.value.0, more.value.1))
  }

  function ParseField(t: Text): (r: Option<(Field, Text)>)
    ensures r.Some? ==> |r.value.1| < |t|
    decreases |t|, 1
  {
    if t == [] || t[0] != QUOTE then None else
      var key := ParseChars(t[1..]);
      if key.None? || key.value.1 == [] || key.value.1[0] != COLON then None else
        var value := ParseValue(key.value.1[1..]);
        if value.None? then None else Some((Field(key.value.0, value.value.0), value.value.1))
  }

  function ParseFields(t: Text): (r: Option<(seq<Field>, Text)>)
    ensures r.Some? ==> |r.value.1| < |t|
    decreases |t|, 2
  {
    var first := ParseField(t);
    if first.None? then None else
      var (f, rest) := first.value;
      if rest == [] then None
      else if rest[0] == CLOSE_BRACE then Some(([f], rest[1..]))
      else if rest[0] != COMMA then None
      else
        var more := ParseFields(rest[1..]);
        if more.None? then None else Some(([f] + more.value.0, more.value.1))
  }

  // The whole text must be one value.
  function Parse(t: Text): Option<Json> {
    var r := ParseValue(t);
    if r.Some? && r.value.1 == [] then Some(r.value.0) else None
  }

  // ------------------------------------------------------------------ reading back

  predicate EndsNumber(rest: Text) {
    rest == [] || !NumberUnit(rest[0])
  }

  lemma {:induction false} NumberReadsBack(token: Text, rest: Text)
    requires (forall u :: u in token ==> NumberUnit(u)) && EndsNumber(rest)
    ensures TakeNumber(token + rest) == (token, rest)
  {
    if token == [] {
      assert token + rest == rest;
    } else {
      assert (token + rest)[1..] == token[1..] + rest;
      assert token[0] in token && forall u :: u in token[1..] ==> u in token;
      NumberReadsBack(token[1..], rest);
      assert token == [token[0]] + token[1..];
    }
  }

  // Every value's text begins with a unit of its own kind, never with a closing bracket.
  function FirstUnit(v: Json): (u: Unit)
    requires Valid(v)
    ensures Print(v) != [] && Print(v)[0] == u && u != CLOSE_BRACKET
  {
    match v
    case Null => NULL_TEXT[0]
    case Bool(b) => if b then TRUE_TEXT[0] else FALSE_TEXT[0]
    case Num(token) => assert token[0] in token; token[0]
    case Str(_) => QUOTE
    case Arr(_) => OPEN_BRACKET
    case Obj(_) => OPEN_BRACE
  }

  lemma {:induction false} ValueReadsBack(v: Json, rest: Text)
    requires Valid(v) && EndsNumber(rest)
    ensures ParseValue(Print(v) + rest) == Some((v, rest))
    decreases v, 0
  {
    match v
    case Arr(items) =>
      if items != [] {
        ItemsReadBack(items, rest);
      }
      ArrayReadsBack(items, rest);
    case Obj(fields) =>
      if fields != [] {
        FieldsReadBack(fields, rest);
      }
      ObjectReadsBack(fields, rest);
    case _ => ScalarReadsBack(v, rest);
  }

  lemma ScalarReadsBack(v: Json, rest: Text)
    requires Valid(v) && !v.Arr? && !v.Obj? && EndsNumber(rest)
    ensures ParseValue(Print(v) + rest) == Some((v, rest))
  {
    hide ParseChars, Escaped, ParseItems, ParseFields, TakeNumber;
    var t := Print(v) + rest;
    match v
    case Null => assert t[4..] == rest;
    case Bool(b) => assert t[|Print(v)|..] == rest;
    case Num(token) => NumberReadsBack(token, rest); assert token[0] in token && t[0] == token[0];
    case Str(s) =>
      CharsReadBack(s, rest);
      assert t[1..] == Escaped(s) + [QUOTE] + rest;
  }

  lemma ArrayReadsBack(items: seq<Json>, rest: Text)
    requires forall i :: 0 <= i < |items| ==> Valid(items[i])
    requires items != [] ==> ParseItems(PrintItems(items) + [CLOSE_BRACKET] + rest) == Some((items, rest))
    ensures ParseValue(Print(Arr(items)) + rest) == Some((Arr(items), rest))
  {
    hide ParseItems, ParseChars, TakeNumber;
    var t := Print(Arr(items)) + rest;
    if items == [] {
      assert t == [OPEN_BRACKET, CLOSE_BRACKET] + rest;
      assert t[2..] == rest;
    } else {
      assert t[1..] == PrintItems(items) + [CLOSE_BRACKET] + rest;
      assert t[1] == FirstUnit(items[0]);
    }
  }

  lemma ObjectReadsBack(fields: seq<Field>, rest: Text)
    requires fields != [] ==> ParseFields(PrintFields(fields) + [CLOSE_BRACE] + rest) == Some((fields, rest))
    ensures ParseValue(Print(Obj(fields)) + rest) == Some((Obj(fields), rest))
  {
    hide ParseFields, ParseChars, TakeNumber;
    var t := Print(Obj(fields)) + rest;
    if fields == [] {
      assert t == [OPEN_BRACE, CLOSE_BRACE] + rest;
      assert t[2..] == rest;
    } else {
      assert t[1..] == PrintFields(fields) + [CLOSE_BRACE] + rest;
      assert t[1] == QUOTE;
    }
  }

  lemma {:induction false} ItemsReadBack(items: seq<Json>, rest: Text)
    requires items != [] && forall i :: 0 <= i < |items| ==> Valid(items[i])
    ensures ParseItems(PrintItems(items) + [CLOSE_BRACKET] + rest) == Some((items, rest))
    decreases items
  {
    hide ParseValue, Print;
    var t := PrintItems(items) + [CLOSE_BRACKET] + rest;
    if |items| == 1 {
      var tail := [CLOSE_BRACKET] + rest;
      assert t == Print(items[0]) + tail;
      ValueReadsBack(items[0], tail);
      assert tail[1..] == rest && items == [items[0]];
    } else {
      var after := PrintItems(items[1..]) + [CLOSE_BRACKET] + rest;
      var tail := [COMMA] + after;
      assert t == Print(items[0]) + tail;
      ValueReadsBack(items[0], tail);
      assert tail[1..] == after;
      ItemsReadBack(items[1..], rest);
      assert items == [items[0]] + items[1..];
    }
  }

  lemma {:induction false} FieldReadsBack(f: Field, rest: Text)
    requires Valid(f.value) && EndsNumber(rest)
    ensures ParseField(PrintField(f) + rest) == Some((f, rest))
    decreases f
  {
    hide ParseValue, Print, ParseChars, Escaped;
    var t := PrintField(f) + rest;
    var value := Print(f.value) + rest;
    var tail := [COLON] + value;
    assert t[1..] == Escaped(f.key) + [QUOTE] + tail;
    CharsReadBack(f.key, tail);
    assert tail[1..] == value;
    ValueReadsBack(f.value, rest);
  }

  lemma {:induction false} FieldsReadBack(fields: seq<Field>, rest: Text)
    requires fields != [] && forall i :: 0 <= i < |fields| ==> Valid(fields[i].value)
    ensures ParseFields(PrintFields(fields) + [CLOSE_BRACE] + rest) == Some((fields, rest))
    decreases fields
  {
    hide ParseField, PrintField;
    var t := PrintFields(fields) + [CLOSE_BRACE] + rest;
    if |fields| == 1 {
      var tail := [CLOSE_BRACE] + rest;
      assert t == PrintField(fields[0]) + tail;
      FieldReadsBack(fields[0], tail);
      assert tail[1..] == rest && fields == [fields[0]];
    } else {
      var after := PrintFields(fields[1..]) + [CLOSE_BRACE] + rest;
      var tail := [COMMA] + after;
      assert t == PrintField(fields[0]) + tail;
      FieldReadsBack(fields[0], tail);
      assert tail[1..] == after;
      FieldsReadBack(fields[1..], rest);
      assert fields == [fields[0]] + fields[1..];
    }
  }

  // The parser reads a printed value back, whatever the value.
  lemma PrintThenParse(v: Json)
    requires Valid(v)
    ensures Parse(Print(v)) == Some(v)
  {
    ValueReadsBack(v, []);
    assert Print(v) + [] == Print(v);
  }

  lemma PrintIsInjective(v: Json, w: Json)
    requires Valid(v) && Valid(w)
    ensures Print(v) == Print(w) <==> v == w
  {
    PrintThenParse(v);
    PrintThenParse(w);
  }
}

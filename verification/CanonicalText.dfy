/**
 The canonical printer behind every evidence hash (`canonical` in scripts/actual-paper-runtime-e2e.js).

 Texts are sequences of UTF-16 code units. An object is a sequence of fields in insertion order, as JavaScript keeps
 it; two objects are the same when they agree as maps. The printer sorts the keys, so it forgets the order; the
 theorems say that it forgets nothing else. Number values are represented by their printed literal.
 */
module CanonicalText {
  import LexOrder

  type CodeUnit = u: int | 0 <= u < 0x10000
  type Text = seq<CodeUnit>

  const QUOTE: CodeUnit := 34
  const COMMA: CodeUnit := 44
  const COLON: CodeUnit := 58
  const LEFT_BRACKET: CodeUnit := 91
  const BACKSLASH: CodeUnit := 92
  const RIGHT_BRACKET: CodeUnit := 93
  const LEFT_BRACE: CodeUnit := 123
  const RIGHT_BRACE: CodeUnit := 125
  const NULL_TEXT: Text := [110, 117, 108, 108]
  const TRUE_TEXT: Text := [116, 114, 117, 101]
  const FALSE_TEXT: Text := [102, 97, 108, 115, 101]
  const UNDEFINED_TEXT: Text := [117, 110, 100, 101, 102, 105, 110, 101, 100]

  /**
   The values the printer is given; `Undefined` and `NotFinite` are not JSON values, but occur as parts of objects.
   */
  datatype Json =
    | Null
    | Bool(value: bool)
    | Num(literal: Text)
    | Str(text: Text)
    | Arr(items: seq<Json>)
    | Obj(fields: seq<Field>)
    | Undefined
    | NotFinite

  datatype Field = Field(key: Text, value: Json)

  predicate IsNumberUnit(u: CodeUnit) {
    48 <= u <= 57 || u in {43, 45, 46, 101}
  }

  ghost predicate DistinctKeys(fields: seq<Field>) {
    forall i, j :: 0 <= i < j < |fields| ==> fields[i].key != fields[j].key
  }

  /** What can be given: number literals look like numbers, and an object has one field per key. */
  ghost predicate IsValue(v: Json) {
    match v
    case Num(literal) => |literal| > 0 && forall i :: 0 <= i < |literal| ==> IsNumberUnit(literal[i])
    case Arr(items) => forall i :: 0 <= i < |items| ==> IsValue(items[i])
    case Obj(fields) => DistinctKeys(fields) && forall i :: 0 <= i < |fields| ==> IsValue(fields[i].value)
    case _ => true
  }

  /** No part is a non-finite number or an array of one undefined item. Every JSON value is exact. */
  ghost predicate IsExact(v: Json) {
    match v
    case Arr(items) => items != [Undefined] && forall i :: 0 <= i < |items| ==> IsExact(items[i])
    case Obj(fields) => forall i :: 0 <= i < |fields| ==> IsExact(fields[i].value)
    case NotFinite => false
    case _ => true
  }

  /** The exact value that prints alike: null for a non-finite number, no item for a single undefined one. */
  function Settled(v: Json): (settled: Json)
    ensures settled.Undefined? <==> v.Undefined?
  {
    match v
    case NotFinite => Null
    case Arr(items) =>
      if items == [Undefined] then Arr([])
      else Arr(seq(|items|, i requires 0 <= i < |items| => Settled(items[i])))
    case Obj(fields) =>
      Obj(seq(|fields|, i requires 0 <= i < |fields| => Field(fields[i].key, Settled(fields[i].value))))
    case _ => v
  }

  /** Equality up to the order of object keys. */
  ghost predicate Same(v: Json, w: Json) {
    match (v, w)
    case (Arr(a), Arr(b)) => |a| == |b| && forall i :: 0 <= i < |a| ==> Same(a[i], b[i])
    case (Obj(f), Obj(g)) =>
      && (forall k :: HasKey(f, k) <==> HasKey(g, k))
      && (forall i, j :: 0 <= i < |f| && 0 <= j < |g| && f[i].key == g[j].key ==> Same(f[i].value, g[j].value))
    case _ => v == w
  }

  ghost predicate HasKey(fields: seq<Field>, key: Text) {
    exists i :: 0 <= i < |fields| && fields[i].key == key
  }

  // ----- Strings (RFC 8259, section 7) -----

  predicate Leading(u: CodeUnit) { 0xD800 <= u < 0xDC00 }

  predicate Trailing(u: CodeUnit) { 0xDC00 <= u < 0xE000 }

  function HexDigit(d: int): CodeUnit
    requires 0 <= d < 16
  {
    if d < 10 then 48 + d else 87 + d
  }

  function UnicodeEscape(u: CodeUnit): Text {
    [BACKSLASH, 117, HexDigit(u / 0x1000), HexDigit(u / 0x100 % 16), HexDigit(u / 16 % 16), HexDigit(u % 16)]
  }

  /** A single unit inside a string literal; `u` is not half of a surrogate pair. */
  function EscapeUnit(u: CodeUnit): Text {
    if u == 8 then [BACKSLASH, 98]
    else if u == 9 then [BACKSLASH, 116]
    else if u == 10 then [BACKSLASH, 110]
    else if u == 12 then [BACKSLASH, 102]
    else if u == 13 then [BACKSLASH, 114]
    else if u == QUOTE || u == BACKSLASH then [BACKSLASH, u]
    else if u < 0x20 || Leading(u) || Trailing(u) then UnicodeEscape(u)
    else [u]
  }

  function Escape(s: Text): Text
    decreases |s|
  {
    if |s| == 0 then []
    else if |s| > 1 && Leading(s[0]) && Trailing(s[1]) then [s[0], s[1]] + Escape(s[2..])
    else EscapeUnit(s[0]) + Escape(s[1..])
  }

  function Quote(s: Text): Text {
    [QUOTE] + Escape(s) + [QUOTE]
  }

  // ----- The printer -----

  function Join(texts: seq<Text>): Text {
    if |texts| == 0 then []
    else if |texts| == 1 then texts[0]
    else texts[0] + [COMMA] + Join(texts[1..])
  }

  function InsertField(f: Field, sorted: seq<Field>): seq<Field> {
    if |sorted| == 0 || !LexOrder.Less(sorted[0].key, f.key) then [f] + sorted
    else [sorted[0]] + InsertField(f, sorted[1..])
  }

  function SortFields(fields: seq<Field>): (sorted: seq<Field>)
    ensures multiset(sorted) == multiset(fields)
  {
    if |fields| == 0 then []
    else
      InsertKeeps(fields[0], SortFields(fields[1..]));
      assert fields == [fields[0]] + fields[1..];
      InsertField(fields[0], SortFields(fields[1..]))
  }

  lemma {:induction false} InsertKeeps(f: Field, sorted: seq<Field>)
    ensures multiset(InsertField(f, sorted)) == multiset([f]) + multiset(sorted)
  {
    if |sorted| > 0 {
      InsertKeeps(f, sorted[1..]);
      assert sorted == [sorted[0]] + sorted[1..];
    }
  }

  lemma SortedFieldIsField(fields: seq<Field>, i: nat)
    requires i < |SortFields(fields)|
    ensures SortFields(fields)[i] in fields
  {
    assert SortFields(fields)[i] in multiset(SortFields(fields));
  }

  /** An undefined item joins as nothing. */
  function ItemText(item: Json): Text
    decreases item, 1
  {
    if item.Undefined? then [] else Canonical(item)
  }

  function ItemTexts(items: seq<Json>): (texts: seq<Text>) {
    seq(|items|, i requires 0 <= i < |items| => ItemText(items[i]))
  }

  /** An undefined field prints as the word. */
  function FieldValueText(value: Json): Text
    decreases value, 1
  {
    if value.Undefined? then UNDEFINED_TEXT else Canonical(value)
  }

  function FieldText(f: Field): Text {
    Quote(f.key) + [COLON] + FieldValueText(f.value)
  }

  /** The text that is hashed; of undefined itself there is none. */
  function Canonical(v: Json): Text
    requires !v.Undefined?
    decreases v, 0
  {
    match v
    case Null => NULL_TEXT
    case Bool(b) => if b then TRUE_TEXT else FALSE_TEXT
    case Num(literal) => literal
    case Str(text) => Quote(text)
    case Arr(items) => [LEFT_BRACKET] + Join(ItemTexts(items)) + [RIGHT_BRACKET]
    case Obj(fields) =>
      var sorted := SortFields(fields);
      [LEFT_BRACE] + Join(seq(|sorted|, i requires 0 <= i < |sorted| =>
        SortedFieldIsField(fields, i);
        FieldText(sorted[i]))) + [RIGHT_BRACE]
    case NotFinite => NULL_TEXT
  }
}

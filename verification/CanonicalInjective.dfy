/**
 The canonical text determines the value up to key order (scripts/actual-paper-runtime-e2e.js).

 A parser is defined independently of the printer and shown to undo it on every exact value, in front of any rest that
 starts with a delimiter. So texts of exact values are equal exactly when the values are, objects compared as maps; and
 texts of any values, undefined parts included, exactly when the exact values they print like are.
 */
module CanonicalInjective {
  import opened CanonicalText
  import LexOrder

  // ----- A parser for canonical text -----

  datatype Parsed<+T> = Failed | Parsed(value: T, rest: Text)

  function HexValue(u: CodeUnit): int {
    if 48 <= u <= 57 then u - 48 else if 97 <= u <= 102 then u - 87 else -1
  }

  predicate AllHex(digits: Text) {
    forall i :: 0 <= i < |digits| ==> HexValue(digits[i]) >= 0
  }

  function UnescapeLetter(u: CodeUnit): int {
    if u == 98 then 8
    else if u == 116 then 9
    else if u == 110 then 10
    else if u == 102 then 12
    else if u == 114 then 13
    else if u == QUOTE || u == BACKSLASH then u
    else -1
  }

  /** One unit of a string literal. */
  function ParseUnit(t: Text): (p: Parsed<CodeUnit>)
    ensures p.Parsed? ==> |p.rest| < |t|
  {
    if |t| == 0 || t[0] == QUOTE || t[0] < 0x20 then Failed
    else if t[0] != BACKSLASH then Parsed(t[0], t[1..])
    else if |t| < 2 then Failed
    else if t[1] == 117 then
      if |t| < 6 || !AllHex(t[2..6]) then Failed
      else
        var unit: CodeUnit := HexValue(t[2]) * 0x1000 + HexValue(t[3]) * 0x100 + HexValue(t[4]) * 16 + HexValue(t[5]);
        Parsed(unit, t[6..])
    else if UnescapeLetter(t[1]) < 0 then Failed
    else Parsed(UnescapeLetter(t[1]), t[2..])
  }

  /** A string literal after its opening quote. */
  function ParseString(t: Text): (p: Parsed<Text>)
    ensures p.Parsed? ==> |p.rest| < |t|
    decreases |t|
  {
    if |t| > 0 && t[0] == QUOTE then Parsed([], t[1..])
    else
      var first := ParseUnit(t);
      if first.Failed? then Failed
      else
        var tail := ParseString(first.rest);
        if tail.Failed? then Failed else Parsed([first.value] + tail.value, tail.rest)
  }

  function NumberPrefix(t: Text): (n: nat)
    ensures n <= |t|
  {
    if |t| == 0 || !IsNumberUnit(t[0]) then 0 else 1 + NumberPrefix(t[1..])
  }

  function ParseValue(t: Text): (p: Parsed<Json>)
    ensures p.Parsed? ==> |p.rest| < |t|
    decreases |t|, 0
  {
    if |t| == 0 then Failed
    else if NULL_TEXT <= t then Parsed(Null, t[4..])
    else if TRUE_TEXT <= t then Parsed(Bool(true), t[4..])
    else if FALSE_TEXT <= t then Parsed(Bool(false), t[5..])
    else if t[0] == QUOTE then
      var s := ParseString(t[1..]);
      if s.Failed? then Failed else Parsed(Str(s.value), s.rest)
    else if t[0] == LEFT_BRACKET then
      if |t| > 1 && t[1] == RIGHT_BRACKET then Parsed(Arr([]), t[2..])
      else
        var items := ParseItems(t[1..]);
        if items.Failed? then Failed else Parsed(Arr(items.value), items.rest)
    else if t[0] == LEFT_BRACE then
      if |t| > 1 && t[1] == RIGHT_BRACE then Parsed(Obj([]), t[2..])
      else
        var fields := ParseFields(t[1..]);
        if fields.Failed? then Failed else Parsed(Obj(fields.value), fields.rest)
    else
      var n := NumberPrefix(t);
      if n == 0 then Failed else Parsed(Num(t[..n]), t[n..])
  }

  /** An item ends where it begins when it is undefined. */
  function ParseItem(t: Text): (p: Parsed<Json>)
    ensures p.Parsed? ==> |p.rest| <= |t|
    decreases |t|, 1
  {
    if |t| > 0 && t[0] in {COMMA, RIGHT_BRACKET} then Parsed(Undefined, t) else ParseValue(t)
  }

  function ParseItems(t: Text): (p: Parsed<seq<Json>>)
    ensures p.Parsed? ==> |p.rest| < |t|
    decreases |t|, 2
  {
    var first := ParseItem(t);
    if first.Failed? || |first.rest| == 0 then Failed
    else if first.rest[0] == RIGHT_BRACKET then Parsed([first.value], first.rest[1..])
    else if first.rest[0] != COMMA then Failed
    else
      var more := ParseItems(first.rest[1..]);
      if more.Failed? then Failed else Parsed([first.value] + more.value, more.rest)
  }

  function ParseFieldValue(t: Text): (p: Parsed<Json>)
    ensures p.Parsed? ==> |p.rest| < |t|
    decreases |t|, 1
  {
    if UNDEFINED_TEXT <= t then Parsed(Undefined, t[|UNDEFINED_TEXT|..]) else ParseValue(t)
  }

  function ParseField(t: Text): (p: Parsed<Field>)
    ensures p.Parsed? ==> |p.rest| < |t|
    decreases |t|, 0
  {
    if |t| == 0 || t[0] != QUOTE then Failed
    else
      var key := ParseString(t[1..]);
      if key.Failed? || |key.rest| == 0 || key.rest[0] != COLON then Failed
      else
        var value := ParseFieldValue(key.rest[1..]);
        if value.Failed? then Failed else Parsed(Field(key.value, value.value), value.rest)
  }

  function ParseFields(t: Text): (p: Parsed<seq<Field>>)
    ensures p.Parsed? ==> |p.rest| < |t|
    decreases |t|, 1
  {
    var first := ParseField(t);
    if first.Failed? || |first.rest| == 0 then Failed
    else if first.rest[0] == RIGHT_BRACE then Parsed([first.value], first.rest[1..])
    else if first.rest[0] != COMMA then Failed
    else
      var more := ParseFields(first.rest[1..]);
      if more.Failed? then Failed else Parsed([first.value] + more.value, more.rest)
  }

  /** What the parser returns for a value: the same value with every object's fields in key order. */
  function Normalize(v: Json): Json {
    match v
    case Arr(items) => Arr(seq(|items|, i requires 0 <= i < |items| => Normalize(items[i])))
    case Obj(fields) =>
      var sorted := SortFields(fields);
      Obj(seq(|sorted|, i requires 0 <= i < |sorted| =>
        SortedFieldIsField(fields, i);
        Field(sorted[i].key, Normalize(sorted[i].value))))
    case _ => v
  }

  // ----- Strings round-trip -----

  lemma HexDigitRoundTrip(d: int)
    requires 0 <= d < 16
    ensures HexValue(HexDigit(d)) == d
  {
  }

  lemma HexPlaces(u: CodeUnit)
    ensures u / 0x1000 * 0x1000 + u / 0x100 % 16 * 0x100 + u / 16 % 16 * 16 + u % 16 == u
  {
    assert u / 0x100 == u / 16 / 16 && u / 0x1000 == u / 0x100 / 16;
  }

  lemma UnicodeEscapeRoundTrip(u: CodeUnit, rest: Text)
    ensures ParseUnit(UnicodeEscape(u) + rest) == Parsed(u, rest)
  {
    var t := UnicodeEscape(u) + rest;
    HexDigitRoundTrip(u / 0x1000);
    HexDigitRoundTrip(u / 0x100 % 16);
    HexDigitRoundTrip(u / 16 % 16);
    HexDigitRoundTrip(u % 16);
    HexPlaces(u);
    hide HexDigit, HexValue;
    assert t[2..6] == UnicodeEscape(u)[2..];
    assert t[6..] == rest;
  }

  /** One printed unit is read back, whatever follows. */
  lemma UnitRoundTrip(u: CodeUnit, rest: Text)
    ensures ParseUnit(EscapeUnit(u) + rest) == Parsed(u, rest)
    ensures EscapeUnit(u)[0] != QUOTE
  {
    if (u < 0x20 && u !in {8, 9, 10, 12, 13}) || Leading(u) || Trailing(u) {
      UnicodeEscapeRoundTrip(u, rest);
    } else {
      hide UnicodeEscape, HexValue;
      var t := EscapeUnit(u) + rest;
      assert t[|EscapeUnit(u)|..] == rest;
    }
  }

  lemma ParseStringStep(t: Text, u: CodeUnit, tail: Text, s: Text, rest: Text)
    requires ParseUnit(t) == Parsed(u, tail) && ParseString(tail) == Parsed(s, rest)
    ensures ParseString(t) == Parsed([u] + s, rest)
  {
  }

  lemma RawUnit(u: CodeUnit, tail: Text)
    requires Leading(u) || Trailing(u)
    ensures ParseUnit([u] + tail) == Parsed(u, tail)
  {
    assert ([u] + tail)[1..] == tail;
  }

  lemma {:induction false} StringRoundTrip(s: Text, rest: Text)
    ensures ParseString(Escape(s) + [QUOTE] + rest) == Parsed(s, rest)
    decreases |s|
  {
    hide ParseUnit, EscapeUnit;
    var t := Escape(s) + [QUOTE] + rest;
    if |s| == 0 {
      assert t == [QUOTE] + rest;
    } else if |s| > 1 && Leading(s[0]) && Trailing(s[1]) {
      StringRoundTrip(s[2..], rest);
      var tail := Escape(s[2..]) + [QUOTE] + rest;
      var middle := [s[1]] + tail;
      assert t == [s[0]] + middle;
      RawUnit(s[0], middle);
      RawUnit(s[1], tail);
      hide ParseString, Escape;
      ParseStringStep(middle, s[1], tail, s[2..], rest);
      ParseStringStep(t, s[0], middle, [s[1]] + s[2..], rest);
      assert s == [s[0]] + ([s[1]] + s[2..]);
    } else {
      StringRoundTrip(s[1..], rest);
      var tail := Escape(s[1..]) + [QUOTE] + rest;
      assert t == EscapeUnit(s[0]) + tail;
      UnitRoundTrip(s[0], tail);
      ParseStringStep(t, s[0], tail, s[1..], rest);
      assert s == [s[0]] + s[1..];
    }
  }

  // ----- Values round-trip -----

  predicate StartsWithDelimiter(rest: Text) {
    |rest| == 0 || rest[0] in {COMMA, RIGHT_BRACKET, RIGHT_BRACE}
  }

  lemma {:induction false} NumberStops(literal: Text, rest: Text)
    requires forall i :: 0 <= i < |literal| ==> IsNumberUnit(literal[i])
    requires StartsWithDelimiter(rest)
    ensures NumberPrefix(literal + rest) == |literal|
  {
    if |literal| == 0 {
      assert literal + rest == rest;
    } else {
      assert (literal + rest)[1..] == literal[1..] + rest;
      NumberStops(literal[1..], rest);
    }
  }

  lemma NumberRoundTrip(literal: Text, rest: Text)
    requires IsValue(Num(literal)) && StartsWithDelimiter(rest)
    ensures ParseValue(literal + rest) == Parsed(Num(literal), rest)
  {
    NumberStops(literal, rest);
    var t := literal + rest;
    assert IsNumberUnit(t[0]);
    assert t[..|literal|] == literal && t[|literal|..] == rest;
  }

  /** What the parser has to return for the printed form of `v`. */
  ghost predicate RoundTrips(v: Json)
    requires !v.Undefined?
  {
    forall rest :: StartsWithDelimiter(rest) ==> ParseValue(Canonical(v) + rest) == Parsed(Normalize(v), rest)
  }

  /** The first unit of a printed value tells it from a delimiter and from the word for undefined. */
  lemma FirstUnit(v: Json)
    requires IsValue(v) && !v.Undefined?
    ensures |Canonical(v)| > 0 && Canonical(v)[0] !in {COMMA, RIGHT_BRACKET, RIGHT_BRACE, UNDEFINED_TEXT[0]}
  {
  }

  /** What the parser has to return for a part of an array or an object. */
  ghost predicate PartRoundTrips(v: Json) {
    IsValue(v) && (v.Undefined? || RoundTrips(v))
  }

  lemma ItemRoundTrip(item: Json, rest: Text)
    requires PartRoundTrips(item) && |rest| > 0 && rest[0] in {COMMA, RIGHT_BRACKET}
    ensures ParseItem(ItemText(item) + rest) == Parsed(Normalize(item), rest)
  {
    hide Canonical, Normalize, ParseValue, IsValue;
    if item.Undefined? {
      assert [] + rest == rest;
      UndefinedIsNormal();
    } else {
      FirstUnit(item);
      assert (Canonical(item) + rest)[0] == Canonical(item)[0];
    }
  }

  lemma UndefinedIsNormal()
    ensures Normalize(Undefined) == Undefined
  {
  }

  lemma FieldValueRoundTrip(value: Json, rest: Text)
    requires PartRoundTrips(value) && StartsWithDelimiter(rest)
    ensures ParseFieldValue(FieldValueText(value) + rest) == Parsed(Normalize(value), rest)
  {
    hide Canonical, Normalize, ParseValue, IsValue;
    var t := FieldValueText(value) + rest;
    if value.Undefined? {
      assert t[|UNDEFINED_TEXT|..] == rest;
      UndefinedIsNormal();
    } else {
      FirstUnit(value);
      assert t[0] == Canonical(value)[0];
    }
  }

  function NormalizeItems(items: seq<Json>): seq<Json> {
    seq(|items|, i requires 0 <= i < |items| => Normalize(items[i]))
  }

  lemma {:induction false} ItemsRoundTrip(items: seq<Json>, rest: Text)
    requires |items| > 0
    requires forall i :: 0 <= i < |items| ==> PartRoundTrips(items[i])
    ensures ParseItems(Join(ItemTexts(items)) + [RIGHT_BRACKET] + rest) == Parsed(NormalizeItems(items), rest)
    decreases |items|
  {
    hide ItemText, Normalize, ParseItem, PartRoundTrips;
    var close := [RIGHT_BRACKET] + rest;
    var text := ItemText(items[0]);
    if |items| == 1 {
      assert Join(ItemTexts(items)) + [RIGHT_BRACKET] + rest == text + close;
      ItemRoundTrip(items[0], close);
      assert close[1..] == rest;
      assert NormalizeItems(items) == [Normalize(items[0])];
    } else {
      assert ItemTexts(items)[1..] == ItemTexts(items[1..]);
      var more := Join(ItemTexts(items[1..])) + [RIGHT_BRACKET] + rest;
      assert Join(ItemTexts(items)) + [RIGHT_BRACKET] + rest == text + ([COMMA] + more);
      ItemRoundTrip(items[0], [COMMA] + more);
      assert ([COMMA] + more)[1..] == more;
      ItemsRoundTrip(items[1..], rest);
      assert NormalizeItems(items) == [Normalize(items[0])] + NormalizeItems(items[1..]);
    }
  }

  lemma FieldRoundTrip(f: Field, rest: Text)
    requires PartRoundTrips(f.value) && StartsWithDelimiter(rest)
    ensures ParseField(FieldText(f) + rest) == Parsed(Field(f.key, Normalize(f.value)), rest)
  {
    hide FieldValueText, Normalize, ParseFieldValue, ParseString, Escape, PartRoundTrips;
    var value := FieldValueText(f.value) + rest;
    var after := [COLON] + value;
    var t := FieldText(f) + rest;
    assert t[1..] == Escape(f.key) + [QUOTE] + after;
    StringRoundTrip(f.key, after);
    assert after[1..] == value;
    FieldValueRoundTrip(f.value, rest);
  }

  function FieldTexts(fields: seq<Field>): seq<Text> {
    seq(|fields|, i requires 0 <= i < |fields| => FieldText(fields[i]))
  }

  function NormalizeFields(fields: seq<Field>): seq<Field> {
    seq(|fields|, i requires 0 <= i < |fields| => Field(fields[i].key, Normalize(fields[i].value)))
  }

  lemma {:induction false} FieldsRoundTrip(fields: seq<Field>, rest: Text)
    requires |fields| > 0
    requires forall i :: 0 <= i < |fields| ==> PartRoundTrips(fields[i].value)
    ensures ParseFields(Join(FieldTexts(fields)) + [RIGHT_BRACE] + rest) == Parsed(NormalizeFields(fields), rest)
    decreases |fields|
  {
    hide FieldText, Normalize, ParseField, PartRoundTrips;
    var close := [RIGHT_BRACE] + rest;
    var text := FieldText(fields[0]);
    if |fields| == 1 {
      assert Join(FieldTexts(fields)) + [RIGHT_BRACE] + rest == text + close;
      FieldRoundTrip(fields[0], close);
      assert close[1..] == rest;
      assert NormalizeFields(fields) == [Field(fields[0].key, Normalize(fields[0].value))];
    } else {
      assert FieldTexts(fields)[1..] == FieldTexts(fields[1..]);
      var more := Join(FieldTexts(fields[1..])) + [RIGHT_BRACE] + rest;
      assert Join(FieldTexts(fields)) + [RIGHT_BRACE] + rest == text + ([COMMA] + more);
      FieldRoundTrip(fields[0], [COMMA] + more);
      assert ([COMMA] + more)[1..] == more;
      FieldsRoundTrip(fields[1..], rest);
      assert NormalizeFields(fields) ==
        [Field(fields[0].key, Normalize(fields[0].value))] + NormalizeFields(fields[1..]);
    }
  }

  lemma LiteralRoundTrip(v: Json, rest: Text)
    requires v.Null? || v.Bool?
    ensures ParseValue(Canonical(v) + rest) == Parsed(v, rest)
  {
    var t := Canonical(v) + rest;
    assert t[|Canonical(v)|..] == rest;
    assert t[..|Canonical(v)|] == Canonical(v);
    if v == Bool(true) {
      assert NULL_TEXT[0] != t[0];
    }
    if v == Bool(false) {
      assert NULL_TEXT[0] != t[0] && TRUE_TEXT[0] != t[0];
    }
  }

  lemma TextRoundTrip(text: Text, rest: Text)
    ensures ParseValue(Quote(text) + rest) == Parsed(Str(text), rest)
  {
    hide ParseString, Escape, ParseItems, ParseFields, NumberPrefix;
    var t := Quote(text) + rest;
    assert t[0] == QUOTE;
    assert t[1..] == Escape(text) + [QUOTE] + rest;
    StringRoundTrip(text, rest);
  }

  lemma BracketedRoundTrip(body: Text, items: seq<Json>, rest: Text)
    requires |body| > 0 && body[0] != RIGHT_BRACKET
    requires ParseItems(body + [RIGHT_BRACKET] + rest) == Parsed(items, rest)
    ensures ParseValue([LEFT_BRACKET] + body + [RIGHT_BRACKET] + rest) == Parsed(Arr(items), rest)
  {
    hide ParseItems, ParseFields, ParseString;
    var t := [LEFT_BRACKET] + body + [RIGHT_BRACKET] + rest;
    assert t[1..] == body + [RIGHT_BRACKET] + rest;
  }

  lemma BracedRoundTrip(body: Text, fields: seq<Field>, rest: Text)
    requires |body| > 0 && body[0] == QUOTE
    requires ParseFields(body + [RIGHT_BRACE] + rest) == Parsed(fields, rest)
    ensures ParseValue([LEFT_BRACE] + body + [RIGHT_BRACE] + rest) == Parsed(Obj(fields), rest)
  {
    hide ParseItems, ParseFields, ParseString;
    var t := [LEFT_BRACE] + body + [RIGHT_BRACE] + rest;
    assert t[1..] == body + [RIGHT_BRACE] + rest;
  }

  /** The parser undoes the printer in front of any rest that starts with a delimiter. */
  lemma {:induction false} ValueRoundTrip(v: Json, rest: Text)
    requires IsValue(v) && IsExact(v) && !v.Undefined? && StartsWithDelimiter(rest)
    ensures ParseValue(Canonical(v) + rest) == Parsed(Normalize(v), rest)
    decreases v, 1
  {
    hide ParseValue;
    match v
    case Null => LiteralRoundTrip(v, rest);
    case Bool(b) => LiteralRoundTrip(v, rest);
    case Num(literal) => NumberRoundTrip(literal, rest);
    case Str(text) => TextRoundTrip(text, rest);
    case Arr(items) => ArrayRoundTrip(v, rest);
    case Obj(fields) => ObjectRoundTrip(v, rest);
  }

  lemma {:induction false} ArrayRoundTrip(v: Json, rest: Text)
    requires IsValue(v) && IsExact(v) && v.Arr? && StartsWithDelimiter(rest)
    ensures ParseValue(Canonical(v) + rest) == Parsed(Normalize(v), rest)
    decreases v, 0
  {
    hide ParseValue, ParseItems, PartRoundTrips;
    var items := v.items;
    if |items| == 0 {
      EmptyRoundTrip(rest);
      EmptyArray(v);
    } else {
      forall i | 0 <= i < |items| ensures PartRoundTrips(items[i]) {
        PartsRoundTrip(items[i]);
      }
      ItemsRoundTrip(items, rest);
      FirstItem(items);
      ArrayText(v, rest);
      NormalizedArray(v);
      BracketedRoundTrip(Join(ItemTexts(items)), NormalizeItems(items), rest);
    }
  }

  /** The text of a non-empty exact array does not look like that of the empty one. */
  lemma FirstItem(items: seq<Json>)
    requires |items| > 0 && IsValue(items[0]) && items != [Undefined]
    ensures |Join(ItemTexts(items))| > 0 && Join(ItemTexts(items))[0] != RIGHT_BRACKET
  {
    hide Canonical, IsValue;
    assert ItemTexts(items)[0] == ItemText(items[0]);
    if !items[0].Undefined? {
      FirstUnit(items[0]);
    }
  }

  lemma EmptyArray(v: Json)
    requires v.Arr? && v.items == []
    ensures Canonical(v) == [LEFT_BRACKET, RIGHT_BRACKET] && Normalize(v) == Arr([])
  {
    assert v == Arr([]);
    assert ItemTexts(v.items) == [];
    assert NormalizeItems(v.items) == [];
  }

  lemma ArrayText(v: Json, rest: Text)
    requires v.Arr?
    ensures Canonical(v) + rest == [LEFT_BRACKET] + Join(ItemTexts(v.items)) + [RIGHT_BRACKET] + rest
  {
    hide ItemTexts, Join;
  }

  lemma NormalizedArray(v: Json)
    requires v.Arr?
    ensures Normalize(v) == Arr(NormalizeItems(v.items))
  {
    assert Normalize(v).items == NormalizeItems(v.items);
  }

  lemma EmptyRoundTrip(rest: Text)
    ensures ParseValue([LEFT_BRACKET, RIGHT_BRACKET] + rest) == Parsed(Arr([]), rest)
    ensures ParseValue([LEFT_BRACE, RIGHT_BRACE] + rest) == Parsed(Obj([]), rest)
  {
    assert ([LEFT_BRACKET, RIGHT_BRACKET] + rest)[2..] == rest;
    assert ([LEFT_BRACE, RIGHT_BRACE] + rest)[2..] == rest;
  }

  lemma {:induction false} PartsRoundTrip(v: Json)
    requires IsValue(v) && IsExact(v)
    ensures PartRoundTrips(v)
    decreases v, 2
  {
    hide ParseValue;
    if !v.Undefined? {
      forall rest | StartsWithDelimiter(rest) ensures ParseValue(Canonical(v) + rest) == Parsed(Normalize(v), rest) {
        ValueRoundTrip(v, rest);
      }
    }
  }

  lemma {:induction false} ObjectRoundTrip(v: Json, rest: Text)
    requires IsValue(v) && IsExact(v) && v.Obj? && StartsWithDelimiter(rest)
    ensures ParseValue(Canonical(v) + rest) == Parsed(Normalize(v), rest)
    decreases v, 0
  {
    hide ParseValue, ParseFields, PartRoundTrips, SortFields;
    var sorted := SortFields(v.fields);
    var body := Join(FieldTexts(sorted));
    ObjectText(v, rest);
    if |sorted| == 0 {
      EmptyRoundTrip(rest);
    } else {
      forall i | 0 <= i < |sorted| ensures PartRoundTrips(sorted[i].value) {
        SortedFieldIsField(v.fields, i);
        PartsRoundTrip(sorted[i].value);
      }
      FieldsRoundTrip(sorted, rest);
      assert FieldTexts(sorted)[0] == FieldText(sorted[0]);
      BracedRoundTrip(body, NormalizeFields(sorted), rest);
    }
  }

  lemma ObjectText(v: Json, rest: Text)
    requires v.Obj?
    ensures var sorted := SortFields(v.fields);
      && Canonical(v) + rest == [LEFT_BRACE] + Join(FieldTexts(sorted)) + [RIGHT_BRACE] + rest
      && Normalize(v) == Obj(NormalizeFields(sorted))
      && (sorted == [] ==> Canonical(v) == [LEFT_BRACE, RIGHT_BRACE] && Normalize(v) == Obj([]))
  {
    hide SortFields, FieldText;
    var sorted := SortFields(v.fields);
    assert Canonical(v) == [LEFT_BRACE] + Join(FieldTexts(sorted)) + [RIGHT_BRACE];
    assert Normalize(v).fields == NormalizeFields(sorted);
  }

  // ----- Key order -----

  function Keys(fields: seq<Field>): seq<Text> {
    seq(|fields|, i requires 0 <= i < |fields| => fields[i].key)
  }

  lemma SmallestFirst(key: Text, keys: seq<Text>)
    requires LexOrder.Ascending(keys)
    requires |keys| > 0 && key != keys[0] && !LexOrder.Less(keys[0], key)
    ensures LexOrder.Ascending([key] + keys)
  {
    LexOrder.Total(keys[0], key);
    forall i | 0 <= i < |keys| ensures LexOrder.Less(key, keys[i]) {
      if i > 0 {
        LexOrder.Transitive(key, keys[0], keys[i]);
      }
    }
    hide LexOrder.Less;
  }

  /** What is inserted behind the first key stays behind it. */
  lemma InsertedFollow(first: Text, f: Field, rest: seq<Field>)
    requires LexOrder.Less(first, f.key) && LexOrder.Ascending([first] + Keys(rest))
    requires LexOrder.Ascending(Keys(InsertField(f, rest)))
    ensures LexOrder.Ascending([first] + Keys(InsertField(f, rest)))
  {
    hide LexOrder.Less, InsertField;
    var tail := InsertField(f, rest);
    InsertKeeps(f, rest);
    forall i | 0 <= i < |tail| ensures LexOrder.Less(first, Keys(tail)[i]) {
      assert tail[i] in multiset(tail);
      if tail[i] != f {
        var j :| 0 <= j < |rest| && rest[j] == tail[i];
        assert ([first] + Keys(rest))[0] == first && ([first] + Keys(rest))[j + 1] == tail[i].key;
      }
    }
  }

  lemma {:induction false} InsertAscends(f: Field, sorted: seq<Field>)
    requires LexOrder.Ascending(Keys(sorted))
    requires forall i :: 0 <= i < |sorted| ==> sorted[i].key != f.key
    ensures LexOrder.Ascending(Keys(InsertField(f, sorted)))
  {
    hide LexOrder.Less;
    if |sorted| > 0 {
      var rest := sorted[1..];
      assert Keys(sorted) == [sorted[0].key] + Keys(rest);
      if LexOrder.Less(sorted[0].key, f.key) {
        assert Keys(rest) == Keys(sorted)[1..];
        InsertAscends(f, rest);
        InsertedFollow(sorted[0].key, f, rest);
        assert Keys([sorted[0]] + InsertField(f, rest)) == [sorted[0].key] + Keys(InsertField(f, rest));
      } else {
        SmallestFirst(f.key, Keys(sorted));
        assert Keys([f] + sorted) == [f.key] + Keys(sorted);
      }
    }
  }

  lemma SortedHasField(fields: seq<Field>, f: Field)
    ensures f in SortFields(fields) <==> f in fields
  {
    assert f in multiset(SortFields(fields)) <==> f in multiset(fields);
  }

  lemma {:induction false} SortAscends(fields: seq<Field>)
    requires DistinctKeys(fields)
    ensures LexOrder.Ascending(Keys(SortFields(fields)))
  {
    if |fields| > 0 {
      var sorted := SortFields(fields[1..]);
      SortAscends(fields[1..]);
      forall i | 0 <= i < |sorted| ensures sorted[i].key != fields[0].key {
        SortedHasField(fields[1..], sorted[i]);
      }
      InsertAscends(fields[0], sorted);
    }
  }

  lemma SortedKeys(fields: seq<Field>)
    ensures forall k :: k in Keys(SortFields(fields)) <==> HasKey(fields, k)
  {
    var sorted := SortFields(fields);
    forall k ensures k in Keys(sorted) <==> HasKey(fields, k) {
      if k in Keys(sorted) {
        var i :| 0 <= i < |sorted| && Keys(sorted)[i] == k;
        SortedHasField(fields, sorted[i]);
      }
      if HasKey(fields, k) {
        var i :| 0 <= i < |fields| && fields[i].key == k;
        SortedHasField(fields, fields[i]);
        var j :| 0 <= j < |sorted| && sorted[j] == fields[i];
        assert Keys(sorted)[j] == k;
      }
    }
  }

  /** Objects with the same keys list them in the same order once sorted. */
  lemma SameKeysSortAlike(f: seq<Field>, g: seq<Field>)
    requires DistinctKeys(f) && DistinctKeys(g)
    requires forall k :: HasKey(f, k) <==> HasKey(g, k)
    ensures Keys(SortFields(f)) == Keys(SortFields(g))
  {
    SortAscends(f);
    SortAscends(g);
    SortedKeys(f);
    SortedKeys(g);
    LexOrder.AscendingIsUnique(Keys(SortFields(f)), Keys(SortFields(g)));
  }

  // ----- Equal texts, equal values -----

  /** Values that agree up to key order print alike. */
  lemma {:induction false} SamePrintsAlike(v: Json, w: Json)
    requires IsValue(v) && IsValue(w) && Same(v, w) && !v.Undefined? && !w.Undefined?
    ensures Canonical(v) == Canonical(w)
    decreases v, 1
  {
    hide Canonical, IsValue;
    if v.Arr? && w.Arr? {
      SameItemsPrintAlike(v, w);
    } else if v.Obj? && w.Obj? {
      SameFieldsPrintAlike(v, w);
    }
  }

  lemma {:induction false} SamePartsPrintAlike(v: Json, w: Json)
    requires IsValue(v) && IsValue(w) && Same(v, w)
    ensures ItemText(v) == ItemText(w) && FieldValueText(v) == FieldValueText(w)
    decreases v, 2
  {
    hide Canonical, IsValue;
    if !v.Undefined? && !w.Undefined? {
      SamePrintsAlike(v, w);
    }
  }

  lemma {:induction false} SameItemsPrintAlike(v: Json, w: Json)
    requires IsValue(v) && IsValue(w) && v.Arr? && w.Arr? && Same(v, w)
    ensures Canonical(v) == Canonical(w)
    decreases v, 0
  {
    hide ItemText;
    forall i | 0 <= i < |v.items| ensures ItemText(v.items[i]) == ItemText(w.items[i]) {
      SamePartsPrintAlike(v.items[i], w.items[i]);
    }
    ArrayText(v, []);
    ArrayText(w, []);
    assert ItemTexts(v.items) == ItemTexts(w.items);
  }

  lemma {:induction false} SameFieldsPrintAlike(v: Json, w: Json)
    requires IsValue(v) && IsValue(w) && v.Obj? && w.Obj? && Same(v, w)
    ensures Canonical(v) == Canonical(w)
    decreases v, 0
  {
    hide SortFields, FieldValueText, Canonical;
    var f, g := SortFields(v.fields), SortFields(w.fields);
    SameKeysSortAlike(v.fields, w.fields);
    assert |Keys(f)| == |Keys(g)|;
    forall i | 0 <= i < |f| ensures FieldText(f[i]) == FieldText(g[i]) {
      SameFieldAt(v, w, i);
      SamePartsPrintAlike(f[i].value, g[i].value);
    }
    assert FieldTexts(f) == FieldTexts(g);
    ObjectText(v, []);
    ObjectText(w, []);
    assert Canonical(v) + [] == Canonical(v) && Canonical(w) + [] == Canonical(w);
  }

  lemma SameFieldAt(v: Json, w: Json, i: nat)
    requires IsValue(v) && IsValue(w) && v.Obj? && w.Obj? && Same(v, w)
    requires Keys(SortFields(v.fields)) == Keys(SortFields(w.fields)) && i < |SortFields(v.fields)|
    ensures |SortFields(w.fields)| == |SortFields(v.fields)|
    ensures var f, g := SortFields(v.fields)[i], SortFields(w.fields)[i];
      f.key == g.key && f in v.fields && g in w.fields && Same(f.value, g.value) && IsValue(f.value) && IsValue(g.value)
  {
    hide SortFields;
    assert |Keys(SortFields(v.fields))| == |Keys(SortFields(w.fields))|;
    assert Keys(SortFields(v.fields))[i] == Keys(SortFields(w.fields))[i];
    SortedFieldIsField(v.fields, i);
    SortedFieldIsField(w.fields, i);
  }

  /** Values with the same normal form agree up to key order. */
  lemma {:induction false} NormalFormDecides(v: Json, w: Json)
    requires IsValue(v) && IsValue(w) && Normalize(v) == Normalize(w)
    ensures Same(v, w)
    decreases v
  {
    if v.Arr? && w.Arr? {
      assert NormalizeItems(v.items) == NormalizeItems(w.items);
      forall i | 0 <= i < |v.items| ensures |w.items| == |v.items| && Same(v.items[i], w.items[i]) {
        assert NormalizeItems(v.items)[i] == NormalizeItems(w.items)[i];
        NormalFormDecides(v.items[i], w.items[i]);
      }
      assert |NormalizeItems(v.items)| == |NormalizeItems(w.items)|;
    } else if v.Obj? && w.Obj? {
      NormalObjectDecides(v, w);
    }
  }

  lemma {:induction false} NormalObjectDecides(v: Json, w: Json)
    requires IsValue(v) && IsValue(w) && v.Obj? && w.Obj? && Normalize(v) == Normalize(w)
    ensures Same(v, w)
    decreases v, 0
  {
    var f, g := SortFields(v.fields), SortFields(w.fields);
    assert NormalizeFields(f) == NormalizeFields(g);
    assert Keys(f) == Keys(NormalizeFields(f)) == Keys(NormalizeFields(g)) == Keys(g);
    SortedKeys(v.fields);
    SortedKeys(w.fields);
    forall i, j | 0 <= i < |v.fields| && 0 <= j < |w.fields| && v.fields[i].key == w.fields[j].key
      ensures Same(v.fields[i].value, w.fields[j].value)
    {
      var p := SortedPosition(v.fields, i);
      var q := SortedPosition(w.fields, j);
      SortAscends(v.fields);
      AscendingPosition(Keys(f), p, q);
      assert NormalizeFields(f)[p] == NormalizeFields(g)[q];
      NormalFormDecides(v.fields[i].value, w.fields[j].value);
    }
  }

  lemma SortedPosition(fields: seq<Field>, i: nat) returns (p: nat)
    requires i < |fields|
    ensures p < |SortFields(fields)| && SortFields(fields)[p] == fields[i]
    ensures Keys(SortFields(fields))[p] == fields[i].key
  {
    SortedHasField(fields, fields[i]);
    p :| 0 <= p < |SortFields(fields)| && SortFields(fields)[p] == fields[i];
  }

  lemma AscendingPosition(keys: seq<Text>, p: nat, q: nat)
    requires LexOrder.Ascending(keys) && p < |keys| && q < |keys| && keys[p] == keys[q]
    ensures p == q
  {
    LexOrder.Irreflexive(keys[p]);
  }

  /** Two exact values have the same canonical text exactly when they agree up to key order. */
  lemma CanonicalDecidesSame(v: Json, w: Json)
    requires IsValue(v) && IsExact(v) && !v.Undefined? && IsValue(w) && IsExact(w) && !w.Undefined?
    ensures Canonical(v) == Canonical(w) <==> Same(v, w)
  {
    if Same(v, w) {
      SamePrintsAlike(v, w);
    }
    if Canonical(v) == Canonical(w) {
      ValueRoundTrip(v, []);
      ValueRoundTrip(w, []);
      NormalFormDecides(v, w);
    }
  }

  // ----- Values that are not exact -----

  lemma {:induction false} SettledIsExact(v: Json)
    requires IsValue(v)
    ensures IsValue(Settled(v)) && IsExact(Settled(v))
    decreases v
  {
    match v
    case Arr(items) =>
      if items != [Undefined] {
        forall i | 0 <= i < |items| ensures IsValue(Settled(items[i])) && IsExact(Settled(items[i])) {
          SettledIsExact(items[i]);
        }
        assert |items| == 1 ==> items == [items[0]];
        assert Settled(v).items != [Undefined];
      }
    case Obj(fields) =>
      forall i | 0 <= i < |fields| ensures IsValue(Settled(fields[i].value)) && IsExact(Settled(fields[i].value)) {
        SettledIsExact(fields[i].value);
      }
    case _ =>
  }

  function SettledFields(fields: seq<Field>): seq<Field> {
    seq(|fields|, i requires 0 <= i < |fields| => Field(fields[i].key, Settled(fields[i].value)))
  }

  lemma {:induction false} InsertSettled(f: Field, sorted: seq<Field>)
    ensures SettledFields(InsertField(f, sorted)) ==
      InsertField(Field(f.key, Settled(f.value)), SettledFields(sorted))
  {
    hide Settled, LexOrder.Less;
    if |sorted| > 0 && LexOrder.Less(sorted[0].key, f.key) {
      InsertSettled(f, sorted[1..]);
      assert SettledFields(sorted[1..]) == SettledFields(sorted)[1..];
    }
  }

  /** Settling values does not move fields. */
  lemma {:induction false} SortSettled(fields: seq<Field>)
    ensures SettledFields(SortFields(fields)) == SortFields(SettledFields(fields))
  {
    hide Settled, InsertField;
    if |fields| > 0 {
      SortSettled(fields[1..]);
      InsertSettled(fields[0], SortFields(fields[1..]));
      assert SettledFields(fields[1..]) == SettledFields(fields)[1..];
    }
  }

  lemma {:induction false} SettledPrintsAlike(v: Json)
    requires !v.Undefined?
    ensures Canonical(Settled(v)) == Canonical(v)
    decreases v, 1
  {
    hide Canonical;
    if v.Arr? && v.items == [Undefined] {
      ArrayText(v, []);
      EmptyArray(Settled(v));
      assert ItemTexts(v.items) == [[]];
      assert Canonical(v) + [] == Canonical(v);
    } else if v.Arr? {
      SettledItemsPrintAlike(v);
    } else if v.Obj? {
      SettledFieldsPrintAlike(v);
    } else if v.NotFinite? {
      NotFinitePrintsNull();
    }
  }

  lemma NotFinitePrintsNull()
    ensures Canonical(NotFinite) == Canonical(Null)
  {
  }

  lemma {:induction false} SettledPartPrintsAlike(v: Json)
    ensures ItemText(Settled(v)) == ItemText(v) && FieldValueText(Settled(v)) == FieldValueText(v)
    decreases v, 2
  {
    hide Canonical;
    if !v.Undefined? {
      SettledPrintsAlike(v);
    }
  }

  lemma {:induction false} SettledItemsPrintAlike(v: Json)
    requires v.Arr? && v.items != [Undefined]
    ensures Canonical(Settled(v)) == Canonical(v)
    decreases v, 0
  {
    hide ItemText;
    forall i | 0 <= i < |v.items| ensures ItemText(Settled(v.items[i])) == ItemText(v.items[i]) {
      SettledPartPrintsAlike(v.items[i]);
    }
    ArrayText(v, []);
    ArrayText(Settled(v), []);
    assert ItemTexts(Settled(v).items) == ItemTexts(v.items);
  }

  lemma {:induction false} SettledFieldsPrintAlike(v: Json)
    requires v.Obj?
    ensures Canonical(Settled(v)) == Canonical(v)
    decreases v, 0
  {
    hide SortFields, FieldValueText, Canonical;
    var sorted := SortFields(v.fields);
    forall i | 0 <= i < |sorted| ensures FieldText(SettledFields(sorted)[i]) == FieldText(sorted[i]) {
      SortedFieldIsField(v.fields, i);
      SettledPartPrintsAlike(sorted[i].value);
    }
    SortSettled(v.fields);
    assert FieldTexts(SettledFields(sorted)) == FieldTexts(sorted);
    assert Settled(v).fields == SettledFields(v.fields);
    ObjectText(v, []);
    ObjectText(Settled(v), []);
    assert Canonical(v) + [] == Canonical(v) && Canonical(Settled(v)) + [] == Canonical(Settled(v));
  }

  /** Whatever is printed: two values have the same text exactly when the exact values they print like agree. */
  lemma CanonicalDecidesSettled(v: Json, w: Json)
    requires IsValue(v) && IsValue(w) && !v.Undefined? && !w.Undefined?
    ensures Canonical(v) == Canonical(w) <==> Same(Settled(v), Settled(w))
  {
    SettledIsExact(v);
    SettledIsExact(w);
    SettledPrintsAlike(v);
    SettledPrintsAlike(w);
    CanonicalDecidesSame(Settled(v), Settled(w));
  }

  /** Settling changes only what is not exact. */
  lemma {:induction false} ExactIsSettled(v: Json)
    ensures Settled(v) == v <==> IsExact(v)
    decreases v
  {
    match v
    case Arr(items) =>
      forall i | 0 <= i < |items| ensures Settled(items[i]) == items[i] <==> IsExact(items[i]) {
        ExactIsSettled(items[i]);
      }
      if items != [Undefined] {
        assert Settled(v).items == items <==> forall i :: 0 <= i < |items| ==> Settled(items[i]) == items[i];
      }
    case Obj(fields) =>
      forall i | 0 <= i < |fields| ensures Settled(fields[i].value) == fields[i].value <==> IsExact(fields[i].value) {
        ExactIsSettled(fields[i].value);
      }
      assert Settled(v).fields == fields <==> forall i :: 0 <= i < |fields| ==>
        Settled(fields[i].value) == fields[i].value;
    case _ =>
  }

  // ----- Evidence files -----

  const ARTIFACT_HASH: Text := [97, 114, 116, 105, 102, 97, 99, 116, 95, 104, 97, 115, 104]

  function WithoutHash(fields: seq<Field>): seq<Field> {
    if |fields| == 0 then []
    else (if fields[0].key == ARTIFACT_HASH then [] else [fields[0]]) + WithoutHash(fields[1..])
  }

  /** The evidence object: the payload with its hash record set under `artifact_hash`. */
  function WriteEvidence(payload: seq<Field>, hash: Text -> Text): (evidence: seq<Field>)
    ensures |evidence| > 0
  {
    WithoutHash(payload) + [Field(ARTIFACT_HASH, Str(hash(Canonical(Obj(payload)))))]
  }

  function HashRecord(evidence: seq<Field>): Json
    requires |evidence| > 0
  {
    evidence[|evidence| - 1].value
  }

  lemma {:induction false} WithoutHashKeeps(fields: seq<Field>)
    requires forall i :: 0 <= i < |fields| ==> fields[i].key != ARTIFACT_HASH
    ensures WithoutHash(fields) == fields
  {
    if |fields| > 0 {
      WithoutHashKeeps(fields[1..]);
      assert fields == [fields[0]] + fields[1..];
    }
  }

  lemma {:induction false} WithoutHashOfConcat(a: seq<Field>, b: seq<Field>)
    ensures WithoutHash(a + b) == WithoutHash(a) + WithoutHash(b)
  {
    if |a| == 0 {
      assert a + b == b;
    } else {
      assert (a + b)[1..] == a[1..] + b;
      WithoutHashOfConcat(a[1..], b);
    }
  }

  /**
   A reader who takes `artifact_hash` off an evidence file gets back the payload whose canonical text was hashed, and
   with a collision-free hash two evidence files carry the same hash exactly when their payloads agree as maps.
   */
  lemma EvidenceHashBindsPayload(p: seq<Field>, q: seq<Field>, hash: Text -> Text)
    requires IsValue(Obj(p)) && IsExact(Obj(p)) && IsValue(Obj(q)) && IsExact(Obj(q))
    requires !HasKey(p, ARTIFACT_HASH) && !HasKey(q, ARTIFACT_HASH)
    requires forall a, b :: hash(a) == hash(b) ==> a == b
    ensures WithoutHash(WriteEvidence(p, hash)) == p
    ensures HashRecord(WriteEvidence(p, hash)) == HashRecord(WriteEvidence(q, hash)) <==> Same(Obj(p), Obj(q))
  {
    WithoutHashKeeps(p);
    WithoutHashKeeps(q);
    WithoutHashOfConcat(p, [Field(ARTIFACT_HASH, Str(hash(Canonical(Obj(p)))))]);
    CanonicalDecidesSame(Obj(p), Obj(q));
  }

  /**
   Values that are not exact collide with others: a single undefined item prints as nothing, a non-finite number as
   null.
   */
  lemma NotJsonCollides()
    ensures Canonical(Arr([Undefined])) == Canonical(Arr([])) && !Same(Arr([Undefined]), Arr([]))
    ensures Canonical(NotFinite) == Canonical(Null) && !Same(NotFinite, Null)
  {
    assert ItemTexts([Undefined]) == [[]];
  }
}

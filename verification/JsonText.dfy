/** JSON values and the text the program writes for them. */
module JsonText {

  /** A UTF-16 code unit; text is what the program's strings are, sequences of code units. */
  type Unit = u: int | 0 <= u < 0x1_0000
  type Text = seq<Unit>

  const QUOTE: Unit := 34
  const COMMA: Unit := 44
  const COLON: Unit := 58
  const BACKSLASH: Unit := 92
  const OPEN_ARRAY: Unit := 91
  const CLOSE_ARRAY: Unit := 93
  const OPEN_OBJECT: Unit := 123
  const CLOSE_OBJECT: Unit := 125
  const NULL: Text := [110, 117, 108, 108]
  const TRUE: Text := [116, 114, 117, 101]
  const FALSE: Text := [102, 97, 108, 115, 101]

  // ---------------------------------------------------------------------------------------------
  // Strings
  // ---------------------------------------------------------------------------------------------

  predicate IsHigh(u: Unit) {
    0xD800 <= u < 0xDC00
  }

  predicate IsLow(u: Unit) {
    0xDC00 <= u < 0xE000
  }

  /** A surrogate that is not part of a pair; it must be escaped. */
  predicate IsLone(s: Text, k: nat)
    requires k < |s|
  {
    || (IsHigh(s[k]) && !(k + 1 < |s| && IsLow(s[k + 1])))
    || (IsLow(s[k]) && !(0 < k && IsHigh(s[k - 1])))
  }

  function HexDigit(d: int): Unit
    requires 0 <= d < 16
  {
    if d < 10 then 48 + d else 87 + d
  }

  /** The second unit of a two-unit escape, or 0 when the unit has none. */
  function ShortEscape(u: Unit): Unit {
    if u == 8 then 98 else if u == 9 then 116 else if u == 10 then 110 else if u == 12 then 102
    else if u == 13 then 114 else if u == QUOTE then QUOTE else if u == BACKSLASH then BACKSLASH else 0
  }

  function EscapeUnit(u: Unit, lone: bool): (r: Text)
    ensures r != [] && r[0] != QUOTE
  {
    if ShortEscape(u) != 0 then [BACKSLASH, ShortEscape(u)]
    else if u < 32 || lone then
      [BACKSLASH, 117, HexDigit(u / 4096), HexDigit(u / 256 % 16), HexDigit(u / 16 % 16), HexDigit(u % 16)]
    else [u]
  }

  function StringBody(s: Text, k: nat): Text
    requires k <= |s|
    decreases |s| - k
  {
    if k == |s| then [] else EscapeUnit(s[k], IsLone(s, k)) + StringBody(s, k + 1)
  }

  function Quoted(s: Text): (r: Text)
    ensures r != [] && r[0] == QUOTE
  {
    [QUOTE] + StringBody(s, 0) + [QUOTE]
  }

  lemma Hex4(u: Unit)
    ensures u == u / 4096 * 4096 + u / 256 % 16 * 256 + u / 16 % 16 * 16 + u % 16
  {
    assert u / 16 / 16 == u / 256 && u / 256 / 16 == u / 4096;
  }

  /** The first unit, or -1 of the empty text. */
  function Head(t: Text): int {
    if t == [] then -1 else t[0]
  }

  lemma Cut(a: Text, b: Text, x: Text)
    ensures a + b + x == a + (b + x)
  {
  }

  /** A closing quote shows exactly where the body ends. */
  lemma BodyHead(s: Text, i: nat, x: Text)
    requires i <= |s|
    ensures Head(StringBody(s, i) + ([QUOTE] + x)) == QUOTE <==> i == |s|
  {
    hide EscapeUnit;
  }

  // ---------------------------------------------------------------------------------------------
  // Values
  // ---------------------------------------------------------------------------------------------

  predicate IsNumberUnit(u: int) {
    48 <= u <= 57 || u == 43 || u == 45 || u == 46 || u == 101
  }

  predicate IsNumberText(t: Text) {
    t != [] && forall i :: 0 <= i < |t| ==> IsNumberUnit(t[i])
  }

  /** A finite number, by the decimal text the language prints for it. */
  type NumberText = t: Text | IsNumberText(t) witness [48]

  datatype Entry = Entry(key: Text, value: Json)

  /** Objects list their entries in insertion order. */
  datatype Json =
    | Null
    | Bool(value: bool)
    | Str(text: Text)
    | Num(number: NumberText)
    | Arr(items: seq<Json>)
    | Obj(entries: seq<Entry>)

  function Write(v: Json): (r: Text)
    ensures r != [] && r[0] != CLOSE_ARRAY && r[0] != COMMA
    decreases v, 1
  {
    match v
    case Null => NULL
    case Bool(b) => if b then TRUE else FALSE
    case Str(s) => Quoted(s)
    case Num(n) => n
    case Arr(items) => [OPEN_ARRAY] + WriteItems(items, true)
    case Obj(entries) => [OPEN_OBJECT] + WriteEntries(entries, true)
  }

  function Separator(first: bool): Text {
    if first then [] else [COMMA]
  }

  function WriteItems(items: seq<Json>, first: bool): Text
    decreases items, 0
  {
    if items == [] then [CLOSE_ARRAY]
    else Separator(first) + (Write(items[0]) + WriteItems(items[1..], false))
  }

  function WriteEntries(entries: seq<Entry>, first: bool): Text
    decreases entries, 0
  {
    if entries == [] then [CLOSE_OBJECT]
    else
      Separator(first)
      + (Quoted(entries[0].key) + ([COLON] + (Write(entries[0].value) + WriteEntries(entries[1..], false))))
  }

  /** What may follow a value: nothing, or a unit no number contains. */
  predicate Delimited(x: Text) {
    !IsNumberUnit(Head(x))
  }

  lemma ItemsDelimited(items: seq<Json>, x: Text)
    ensures Delimited(WriteItems(items, false) + x)
  {
  }

  lemma EntriesDelimited(entries: seq<Entry>, x: Text)
    ensures Delimited(WriteEntries(entries, false) + x)
  {
  }

  lemma ItemsHead(items: seq<Json>, first: bool, x: Text)
    ensures WriteItems(items, first) != []
    ensures WriteItems(items, first)[0] == CLOSE_ARRAY <==> items == []
    ensures items != [] ==>
      WriteItems(items, first) + x == Separator(first) + (Write(items[0]) + (WriteItems(items[1..], false) + x))
  {
    if items != [] {
      Cut(Separator(first), Write(items[0]) + WriteItems(items[1..], false), x);
      Cut(Write(items[0]), WriteItems(items[1..], false), x);
    }
  }

  lemma EntriesHead(entries: seq<Entry>, first: bool, x: Text)
    ensures WriteEntries(entries, first) != []
    ensures WriteEntries(entries, first)[0] == CLOSE_OBJECT <==> entries == []
    ensures entries != [] ==>
      WriteEntries(entries, first) + x
        == Separator(first) + (Quoted(entries[0].key) + ([COLON] + (Write(entries[0].value) + (WriteEntries(entries[1..], false) + x))))
  {
    hide Quoted, Write;
    if entries != [] {
      var rest := WriteEntries(entries[1..], false);
      Cut(Separator(first), Quoted(entries[0].key) + ([COLON] + (Write(entries[0].value) + rest)), x);
      Cut(Quoted(entries[0].key), [COLON] + (Write(entries[0].value) + rest), x);
      Cut([COLON], Write(entries[0].value) + rest, x);
      Cut(Write(entries[0].value), rest, x);
    }
  }
}

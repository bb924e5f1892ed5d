/**
 A reader of JSON text, written from the grammar of RFC 8259 (without insignificant whitespace, which the program's
 text never contains), and the proof that it reads back whatever the program writes.
 */
module JsonReader {
  import opened JsonText
  import opened Wrappers

  // ---------------------------------------------------------------------------------------------
  // Strings, section 7 of RFC 8259
  // ---------------------------------------------------------------------------------------------

  /** The value of a hexadecimal digit of either case, or -1. */
  function HexValue(u: Unit): int {
    if 48 <= u <= 57 then u - 48 else if 97 <= u <= 102 then u - 87 else if 65 <= u <= 70 then u - 55 else -1
  }

  /** The character that a backslash and this unit stand for, or -1. */
  function Escaped(u: Unit): int {
    match u
    case 34 => 34   // quotation mark
    case 92 => 92   // reverse solidus
    case 47 => 47   // solidus
    case 98 => 8    // b, backspace
    case 102 => 12  // f, form feed
    case 110 => 10  // n, line feed
    case 114 => 13  // r, carriage return
    case 116 => 9   // t, tab
    case _ => -1
  }

  predicate FourHexDigits(t: Text) {
    |t| >= 6 && HexValue(t[2]) >= 0 && HexValue(t[3]) >= 0 && HexValue(t[4]) >= 0 && HexValue(t[5]) >= 0
  }

  /** One character of a string: an escape, or any unit but a quotation mark, a backslash or a control character. */
  function ReadUnit(t: Text): (r: Option<(Unit, Text)>)
    ensures r.Some? ==> |r.value.1| < |t|
  {
    if t == [] || t[0] == 34 || t[0] < 32 then None
    else if t[0] != 92 then Some((t[0], t[1..]))
    else if |t| < 2 then None
    else if t[1] == 117 then
      if FourHexDigits(t)
      then Some((4096 * HexValue(t[2]) + 256 * HexValue(t[3]) + 16 * HexValue(t[4]) + HexValue(t[5]), t[6..]))
      else None
    else if 0 <= Escaped(t[1]) then Some((Escaped(t[1]), t[2..]))
    else None
  }

  function ReadBody(t: Text): (r: Option<(Text, Text)>)
    ensures r.Some? ==> |r.value.1| < |t|
    decreases |t|
  {
    if t == [] then None
    else if t[0] == 34 then Some(([], t[1..]))
    else
      match ReadUnit(t)
      case None => None
      case Some((u, rest)) =>
        match ReadBody(rest)
        case None => None
        case Some((s, x)) => Some(([u] + s, x))
  }

  /** The string that a text starts with, and what follows it. */
  function ReadString(t: Text): (r: Option<(Text, Text)>)
    ensures r.Some? ==> |r.value.1| < |t|
  {
    if t != [] && t[0] == 34 then ReadBody(t[1..]) else None
  }

  // ---------------------------------------------------------------------------------------------
  // Values, sections 3 to 6 of RFC 8259
  // ---------------------------------------------------------------------------------------------

  function NumberLength(t: Text): (n: nat)
    ensures n <= |t|
    ensures forall i :: 0 <= i < n ==> IsNumberUnit(t[i])
  {
    if t == [] || !IsNumberUnit(t[0]) then 0 else 1 + NumberLength(t[1..])
  }

  /** The value that a text starts with, and what follows it. */
  function ReadValue(t: Text): (r: Option<(Json, Text)>)
    ensures r.Some? ==> |r.value.1| < |t|
    decreases |t|, 0
  {
    if [110, 117, 108, 108] <= t then Some((Null, t[4..]))
    else if [116, 114, 117, 101] <= t then Some((Bool(true), t[4..]))
    else if [102, 97, 108, 115, 101] <= t then Some((Bool(false), t[5..]))
    else if [34] <= t then
      match ReadString(t)
      case None => None
      case Some((s, x)) => Some((Str(s), x))
    else if [91] <= t then
      match ReadItems(t[1..], true)
      case None => None
      case Some((items, x)) => Some((Arr(items), x))
    else if [123] <= t then
      match ReadEntries(t[1..], true)
      case None => None
      case Some((entries, x)) => Some((Obj(entries), x))
    else
      var n := NumberLength(t);
      if n == 0 then None else Some((Num(t[..n]), t[n..]))
  }

  /** What is left of a list after the separator its next element needs. */
  function AfterSeparator(t: Text, first: bool): (r: Option<Text>)
    ensures r.Some? ==> |r.value| <= |t|
  {
    if first then Some(t) else if [44] <= t then Some(t[1..]) else None
  }

  function ReadItems(t: Text, first: bool): (r: Option<(seq<Json>, Text)>)
    ensures r.Some? ==> |r.value.1| < |t|
    decreases |t|, 1
  {
    if [93] <= t then Some(([], t[1..]))
    else
      match AfterSeparator(t, first)
      case None => None
      case Some(u) =>
        match ReadValue(u)
        case None => None
        case Some((v, rest)) =>
          match ReadItems(rest, false)
          case None => None
          case Some((items, x)) => Some(([v] + items, x))
  }

  /** A name, a colon and a value. */
  function ReadMember(t: Text): (r: Option<(Entry, Text)>)
    ensures r.Some? ==> |r.value.1| < |t|
    decreases |t|, 1
  {
    match ReadString(t)
    case None => None
    case Some((key, rest)) =>
      if !([58] <= rest) then None
      else
        match ReadValue(rest[1..])
        case None => None
        case Some((v, x)) => Some((Entry(key, v), x))
  }

  function ReadEntries(t: Text, first: bool): (r: Option<(seq<Entry>, Text)>)
    ensures r.Some? ==> |r.value.1| < |t|
    decreases |t|, 2
  {
    if [125] <= t then Some(([], t[1..]))
    else
      match AfterSeparator(t, first)
      case None => None
      case Some(u) =>
        match ReadMember(u)
        case None => None
        case Some((entry, rest)) =>
          match ReadEntries(rest, false)
          case None => None
          case Some((entries, x)) => Some(([entry] + entries, x))
  }

  // ---------------------------------------------------------------------------------------------
  // What is written reads back
  // ---------------------------------------------------------------------------------------------

  lemma HexReads(d: int)
    requires 0 <= d < 16
    ensures HexValue(HexDigit(d)) == d
  {
  }

  lemma UnitReads(u: Unit, lone: bool, x: Text)
    ensures ReadUnit(EscapeUnit(u, lone) + x) == Some((u, x))
  {
    var e := EscapeUnit(u, lone);
    var t := e + x;
    assert t[|e|..] == x && t[..|e|] == e;
    assert forall i :: 0 <= i < |e| ==> t[i] == e[i];
    if |e| == 6 {
      HexReads(u / 4096);
      HexReads(u / 256 % 16);
      HexReads(u / 16 % 16);
      HexReads(u % 16);
      Hex4(u);
    }
  }

  lemma {:induction false} BodyReads(s: Text, i: nat, x: Text)
    requires i <= |s|
    ensures ReadBody(StringBody(s, i) + ([QUOTE] + x)) == Some((s[i..], x))
    decreases |s| - i
  {
    hide EscapeUnit, ReadUnit;
    BodyHead(s, i, x);
    var t := StringBody(s, i) + ([QUOTE] + x);
    if i == |s| {
      assert t[1..] == x;
    } else {
      var rest := StringBody(s, i + 1) + ([QUOTE] + x);
      Cut(EscapeUnit(s[i], IsLone(s, i)), StringBody(s, i + 1), [QUOTE] + x);
      UnitReads(s[i], IsLone(s, i), rest);
      BodyReads(s, i + 1, x);
      assert s[i..] == [s[i]] + s[i + 1..];
    }
  }

  /** A written string reads back, whatever follows it. */
  lemma QuotedReads(s: Text, x: Text)
    ensures ReadString(Quoted(s) + x) == Some((s, x))
  {
    hide StringBody, ReadBody;
    assert (Quoted(s) + x)[1..] == StringBody(s, 0) + ([QUOTE] + x);
    BodyReads(s, 0, x);
    assert s[0..] == s;
  }

  lemma {:induction false} NumberReads(n: Text, x: Text)
    requires (forall i :: 0 <= i < |n| ==> IsNumberUnit(n[i])) && Delimited(x)
    ensures NumberLength(n + x) == |n|
  {
    if n == [] {
      assert n + x == x;
    } else {
      assert (n + x)[1..] == n[1..] + x;
      NumberReads(n[1..], x);
    }
  }

  lemma ScalarReads(v: Json, x: Text)
    requires Delimited(x) && !v.Arr? && !v.Obj?
    ensures ReadValue(Write(v) + x) == Some((v, x))
  {
    hide Quoted, ReadString;
    var t := Write(v) + x;
    assert t[|Write(v)|..] == x && t[..|Write(v)|] == Write(v);
    assert t[0] == Write(v)[0];
    match v
    case Str(s) => QuotedReads(s, x);
    case Num(n) => NumberReads(n, x);
    case _ =>
  }

  lemma ArrayReads(items: seq<Json>, x: Text)
    requires ReadItems(WriteItems(items, true) + x, true) == Some((items, x))
    ensures ReadValue(Write(Arr(items)) + x) == Some((Arr(items), x))
  {
    hide WriteItems, ReadItems;
    Cut([OPEN_ARRAY], WriteItems(items, true), x);
    assert (Write(Arr(items)) + x)[1..] == WriteItems(items, true) + x;
  }

  lemma ObjectReads(entries: seq<Entry>, x: Text)
    requires ReadEntries(WriteEntries(entries, true) + x, true) == Some((entries, x))
    ensures ReadValue(Write(Obj(entries)) + x) == Some((Obj(entries), x))
  {
    hide WriteEntries, ReadEntries;
    Cut([OPEN_OBJECT], WriteEntries(entries, true), x);
    assert (Write(Obj(entries)) + x)[1..] == WriteEntries(entries, true) + x;
  }

  lemma MemberReads(e: Entry, x: Text)
    requires ReadValue(Write(e.value) + x) == Some((e.value, x))
    ensures ReadMember(Quoted(e.key) + ([COLON] + (Write(e.value) + x))) == Some((e, x))
  {
    hide Quoted, ReadString, Write, ReadValue;
    var rest := [COLON] + (Write(e.value) + x);
    QuotedReads(e.key, rest);
    assert rest[1..] == Write(e.value) + x;
  }

  lemma SeparatorReads(first: bool, u: Text, close: Unit)
    requires u != [] && u[0] != close && close != COMMA
    ensures AfterSeparator(Separator(first) + u, first) == Some(u)
    ensures !([close] <= Separator(first) + u)
  {
    assert ([COMMA] + u)[1..] == u && [] + u == u;
  }

  /** What the program writes for a value reads back as that value, whatever delimited text follows it. */
  lemma {:induction false} WriteReads(v: Json, x: Text)
    requires Delimited(x)
    ensures ReadValue(Write(v) + x) == Some((v, x))
    decreases v, 1
  {
    hide Write, ReadValue;
    match v
    case Arr(items) =>
      ItemsRead(items, true, x);
      ArrayReads(items, x);
    case Obj(entries) =>
      EntriesRead(entries, true, x);
      ObjectReads(entries, x);
    case _ => ScalarReads(v, x);
  }

  lemma {:induction false} ItemsRead(items: seq<Json>, first: bool, x: Text)
    ensures ReadItems(WriteItems(items, first) + x, first) == Some((items, x))
    decreases items, 0
  {
    hide Write, ReadValue, Delimited, AfterSeparator, Separator;
    ItemsHead(items, first, x);
    var t := WriteItems(items, first) + x;
    if items == [] {
      assert t[1..] == x;
    } else {
      var rest := WriteItems(items[1..], false) + x;
      ItemsDelimited(items[1..], x);
      WriteReads(items[0], rest);
      ItemsRead(items[1..], false, x);
      SeparatorReads(first, Write(items[0]) + rest, CLOSE_ARRAY);
      assert items == [items[0]] + items[1..];
    }
  }

  lemma {:induction false} EntriesRead(entries: seq<Entry>, first: bool, x: Text)
    ensures ReadEntries(WriteEntries(entries, first) + x, first) == Some((entries, x))
    decreases entries, 0
  {
    hide Write, Quoted, ReadMember, Delimited, AfterSeparator, Separator;
    EntriesHead(entries, first, x);
    var t := WriteEntries(entries, first) + x;
    if entries == [] {
      assert t[1..] == x;
    } else {
      var rest := WriteEntries(entries[1..], false) + x;
      EntriesDelimited(entries[1..], x);
      WriteReads(entries[0].value, rest);
      MemberReads(entries[0], rest);
      EntriesRead(entries[1..], false, x);
      SeparatorReads(first, Quoted(entries[0].key) + ([COLON] + (Write(entries[0].value) + rest)), CLOSE_OBJECT);
      assert entries == [entries[0]] + entries[1..];
    }
  }

  /** So the text determines the string it starts with, and what follows it. */
  lemma QuotedDetermines(s: Text, x: Text, t: Text, y: Text)
    requires Quoted(s) + x == Quoted(t) + y
    ensures s == t && x == y
  {
    hide Quoted, ReadString;
    QuotedReads(s, x);
    QuotedReads(t, y);
  }

  /** And the value. */
  lemma WriteDetermines(v: Json, x: Text, w: Json, y: Text)
    requires Delimited(x) && Delimited(y) && Write(v) + x == Write(w) + y
    ensures v == w && x == y
  {
    hide Write, ReadValue;
    WriteReads(v, x);
    WriteReads(w, y);
  }

  /** Exactly which units of a string are escaped, and how many units their escapes take. */
  lemma EscapesExactly(s: Text, k: nat)
    requires k < |s|
    ensures var e := EscapeUnit(s[k], IsLone(s, k));
      && (|e| == 2 <==> s[k] in {8, 9, 10, 12, 13, 34, 92})
      && (|e| == 6 <==> ((s[k] < 32 && s[k] !in {8, 9, 10, 12, 13})
                         || (0xD800 <= s[k] < 0xDC00 && !(k + 1 < |s| && 0xDC00 <= s[k + 1] < 0xE000))
                         || (0xDC00 <= s[k] < 0xE000 && !(0 < k && 0xD800 <= s[k - 1] < 0xDC00))))
      && (|e| != 2 && |e| != 6 ==> e == [s[k]])
      && (|e| == 6 ==> forall i :: 2 <= i < 6 ==> 48 <= e[i] <= 57 || 97 <= e[i] <= 102)
  {
  }

  /** A whole text that is one value and nothing else. */
  function ReadAll(t: Text): Option<Json> {
    match ReadValue(t)
    case None => None
    case Some((v, x)) => if x == [] then Some(v) else None
  }
}

/** Reading JSON text by its grammar (sections 3 to 7 of RFC 8259, without white space), and what the canonical
    serialiser's text says when it is read (workers/bun/src/harness-setup-store.ts). */
module JsonReading {
  import opened Wrappers
  import opened CanonicalJson
  import CanonicalIdentity

  // ---------- strings ----------

  function HexValue(c: char): Option<nat> {
    if '0' <= c <= '9' then Some(c as int - '0' as int)
    else if 'a' <= c <= 'f' then Some(c as int - 'a' as int + 10)
    else if 'A' <= c <= 'F' then Some(c as int - 'A' as int + 10)
    else None
  }

  /** The number that hexadecimal digits write. */
  function Hex(digits: string): Option<nat> {
    if digits == "" then Some(0)
    else
      var high, low := Hex(digits[..|digits|-1]), HexValue(digits[|digits|-1]);
      if high.None? || low.None? then None else Some(high.value * 16 + low.value)
  }

  /** A character of its own; the halves of surrogate pairs are none. */
  function CharOf(code: Option<nat>): Option<char> {
    if code.Some? && (code.value < 0xD800 || 0xE000 <= code.value < 0x1_0000) then Some(code.value as char) else None
  }

  /** What stands after a backslash. */
  function ShortEscape(c: char): Option<char> {
    match c
    case '\"' => Some('\"')
    case '\\' => Some('\\')
    case '/' => Some('/')
    case 'b' => Some(8 as char)
    case 'f' => Some(12 as char)
    case 'n' => Some(10 as char)
    case 'r' => Some(13 as char)
    case 't' => Some(9 as char)
    case _ => None
  }

  function Cons(c: Option<char>, rest: Option<string>): Option<string> {
    if c.Some? && rest.Some? then Some([c.value] + rest.value) else None
  }

  /** The text between the quotes, read. */
  function Unescape(t: string): Option<string>
    decreases |t|
  {
    if t == "" then Some("")
    else if t[0] == '\"' || t[0] as int < 32 then None
    else if t[0] != '\\' then Cons(Some(t[0]), Unescape(t[1..]))
    else if |t| < 2 then None
    else if t[1] != 'u' then Cons(ShortEscape(t[1]), Unescape(t[2..]))
    else if |t| < 6 then None
    else Cons(CharOf(Hex(t[2..6])), Unescape(t[6..]))
  }

  predicate ReadsString(t: string, s: string) {
    |t| >= 2 && t[0] == '\"' && t[|t|-1] == '\"' && Unescape(t[1..|t|-1]) == Some(s)
  }

  // ---------- values ----------

  predicate Reads(t: string, v: Json)
    decreases v, 0
  {
    match v
    case Null => t == "null"
    case Bool(true) => t == "true"
    case Bool(false) => t == "false"
    case Number(text) => NumberText(text) && t == text
    case Str(s) => ReadsString(t, s)
    case Arr(items) => |t| >= 2 && t[0] == '[' && t[|t|-1] == ']' && ReadsItems(t[1..|t|-1], items)
    case Obj(fields) => |t| >= 2 && t[0] == '{' && t[|t|-1] == '}' && ReadsFields(t[1..|t|-1], fields)
  }

  /** Values with commas between them. */
  predicate ReadsItems(t: string, items: seq<Json>)
    decreases items, 0
  {
    if items == [] then t == ""
    else if |items| == 1 then Reads(t, items[0])
    else exists i :: 0 <= i < |t| && t[i] == ',' && Reads(t[..i], items[0]) && ReadsItems(t[i+1..], items[1..])
  }

  /** A quoted key, a colon and a value. */
  predicate ReadsField(t: string, f: Field)
    decreases f, 0
  {
    exists i :: 0 <= i < |t| && t[i] == ':' && ReadsString(t[..i], f.key) && Reads(t[i+1..], f.value)
  }

  predicate ReadsFields(t: string, fields: seq<Field>)
    decreases fields, 0
  {
    if fields == [] then t == ""
    else if |fields| == 1 then ReadsField(t, fields[0])
    else exists i :: 0 <= i < |t| && t[i] == ',' && ReadsField(t[..i], fields[0]) && ReadsFields(t[i+1..], fields[1..])
  }

  /** The text is a document of this value. */
  ghost predicate Denotes(t: string, value: Value) {
    exists v: Json :: Valid(v) && Reads(t, v) && Meaning(v) == value
  }

  // ---------- the serialiser's text ----------

  lemma HexDigitReads(n: nat)
    requires n < 16
    ensures HexValue(HexDigit(n)) == Some(n)
  {
  }

  lemma ControlReads(c: char)
    requires c as int < 32
    ensures CharOf(Hex(['0', '0', HexDigit(c as int / 16), HexDigit(c as int % 16)])) == Some(c)
  {
    var a, b := HexDigit(c as int / 16), HexDigit(c as int % 16);
    HexDigitReads(c as int / 16);
    HexDigitReads(c as int % 16);
    assert ['0', '0', a, b][..3] == ['0', '0', a] && ['0', '0', a][..2] == ['0', '0'] && ['0', '0'][..1] == ['0'];
    assert ['0'][..0] == [];
    assert Hex(['0']) == Some(0) && Hex(['0', '0']) == Some(0) && Hex(['0', '0', a]) == Some(c as int / 16);
  }

  lemma EscapeReads(c: char, rest: string)
    ensures Unescape(Escape(c) + rest) == Cons(Some(c), Unescape(rest))
  {
    var e := Escape(c);
    var t := e + rest;
    assert t[|e|..] == rest;
    if |e| == 6 {
      assert t[2..6] == ['0', '0', HexDigit(c as int / 16), HexDigit(c as int % 16)];
      ControlReads(c);
    }
  }

  lemma {:induction false} EscapedReads(s: string)
    ensures Unescape(Escaped(s)) == Some(s)
  {
    if s != "" {
      EscapeReads(s[0], Escaped(s[1..]));
      EscapedReads(s[1..]);
      assert s == [s[0]] + s[1..];
    }
  }

  lemma QuoteReads(s: string)
    ensures ReadsString(Quote(s), s)
  {
    EscapedReads(s);
    assert Quote(s)[1..|Quote(s)|-1] == Escaped(s);
  }

  lemma Enclosed(open: string, t: string, close: string)
    requires |open| == 1 && |close| == 1
    ensures var e := open + t + close;
      |e| >= 2 && e[0] == open[0] && e[|e|-1] == close[0] && e[1..|e|-1] == t
  {
  }

  lemma Parted(a: string, separator: string, b: string)
    requires |separator| == 1
    ensures var t := a + separator + b;
      t[|a|] == separator[0] && t[..|a|] == a && t[|a|+1..] == b
  {
  }

  /** What is printed is read back as the document. */
  lemma {:induction false} PrintReads(v: Json)
    requires Valid(v)
    ensures Reads(Print(v), v)
    decreases v, 1
  {
    match v
    case Str(s) => QuoteReads(s);
    case Arr(items) =>
      Enclosed("[", Join(PrintItems(items)), "]");
      ItemsRead(items);
    case Obj(fields) =>
      Enclosed("{", Join(PrintFields(fields)), "}");
      FieldsRead(fields);
    case _ =>
  }

  lemma {:induction false} ItemsRead(items: seq<Json>)
    requires ValidItems(items)
    ensures ReadsItems(Join(PrintItems(items)), items)
    decreases items, 1
  {
    if items != [] {
      var texts := PrintItems(items);
      PrintReads(items[0]);
      ItemsRead(items[1..]);
      assert texts[1..] == PrintItems(items[1..]);
      if |items| > 1 {
        Parted(texts[0], ",", Join(texts[1..]));
        assert Join(texts) == texts[0] + "," + Join(texts[1..]);
      }
    }
  }

  lemma {:induction false} FieldReads(f: Field)
    requires Valid(f.value)
    ensures ReadsField(PrintField(f), f)
    decreases f, 1
  {
    QuoteReads(f.key);
    PrintReads(f.value);
    Parted(Quote(f.key), ":", Print(f.value));
  }

  lemma {:induction false} FieldsRead(fields: seq<Field>)
    requires ValidFields(fields)
    ensures ReadsFields(Join(PrintFields(fields)), fields)
    decreases fields, 1
  {
    if fields != [] {
      var texts := PrintFields(fields);
      FieldReads(fields[0]);
      FieldsRead(fields[1..]);
      assert texts[1..] == PrintFields(fields[1..]);
      if |fields| > 1 {
        Parted(texts[0], ",", Join(texts[1..]));
        assert Join(texts) == texts[0] + "," + Join(texts[1..]);
      }
    }
  }

  /** The canonical text of a document, read by the grammar, has the document's value. */
  lemma CanonicalDenotes(less: Order, v: Json)
    requires StrictTotal(less) && Valid(v)
    ensures Denotes(Canonical(less, v), Meaning(v))
  {
    CanonicalIdentity.NormalMeaning(less, v);
    PrintReads(Normal(less, v));
  }
}

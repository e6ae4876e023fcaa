/** The canonical serialiser behind durable command identity (workers/bun/src/harness-setup-store.ts). */
module CanonicalJson {
  /** A number is its JSON text, which JavaScript prints alike for equal numbers. */
  datatype Json =
    | Null
    | Bool(b: bool)
    | Number(text: string)
    | Str(s: string)
    | Arr(items: seq<Json>)
    | Obj(fields: seq<Field>)

  datatype Field = Field(key: string, value: Json)

  /** The order of object keys: a strict total order, as localeCompare is taken to be. */
  type Order = (string, string) -> bool

  ghost predicate StrictTotal(less: Order) {
    && (forall a :: !less(a, a))
    && (forall a, b :: a != b ==> less(a, b) || less(b, a))
    && (forall a, b, c :: less(a, b) && less(b, c) ==> less(a, c))
  }

  // ---------- printing ----------

  function HexDigit(n: nat): char
    requires n < 16
  {
    "0123456789abcdef"[n]
  }

  function Escape(c: char): string {
    if c == '\"' then "\\\""
    else if c == '\\' then "\\\\"
    else if c as int == 8 then "\\b"
    else if c as int == 9 then "\\t"
    else if c as int == 10 then "\\n"
    else if c as int == 12 then "\\f"
    else if c as int == 13 then "\\r"
    else if c as int < 32 then ['\\', 'u', '0', '0', HexDigit(c as int / 16), HexDigit(c as int % 16)]
    else [c]
  }

  function Escaped(s: string): string {
    if s == "" then "" else Escape(s[0]) + Escaped(s[1..])
  }

  function Quote(s: string): string {
    "\"" + Escaped(s) + "\""
  }

  function Join(texts: seq<string>): string {
    if texts == [] then "" else if |texts| == 1 then texts[0] else texts[0] + "," + Join(texts[1..])
  }

  function Print(v: Json): string
    decreases v, 0
  {
    match v
    case Null => "null"
    case Bool(b) => if b then "true" else "false"
    case Number(text) => text
    case Str(s) => Quote(s)
    case Arr(items) => "[" + Join(PrintItems(items)) + "]"
    case Obj(fields) => "{" + Join(PrintFields(fields)) + "}"
  }

  function PrintItems(items: seq<Json>): (r: seq<string>)
    ensures |r| == |items|
    decreases items, 0
  {
    if items == [] then [] else [Print(items[0])] + PrintItems(items[1..])
  }

  function PrintField(f: Field): string
    decreases f, 0
  {
    Quote(f.key) + ":" + Print(f.value)
  }

  function PrintFields(fields: seq<Field>): (r: seq<string>)
    ensures |r| == |fields|
    decreases fields, 0
  {
    if fields == [] then [] else [PrintField(fields[0])] + PrintFields(fields[1..])
  }

  // ---------- sorting keys ----------

  function Insert(less: Order, f: Field, sorted: seq<Field>): seq<Field> {
    if sorted == [] then [f]
    else if less(sorted[0].key, f.key) then [sorted[0]] + Insert(less, f, sorted[1..])
    else [f] + sorted
  }

  function Sort(less: Order, fields: seq<Field>): seq<Field> {
    if fields == [] then [] else Insert(less, fields[0], Sort(less, fields[1..]))
  }

  /** Objects with their keys sorted, all the way down. */
  function Normal(less: Order, v: Json): Json
    decreases v, 0
  {
    match v
    case Arr(items) => Arr(NormalItems(less, items))
    case Obj(fields) => Obj(Sort(less, NormalFields(less, fields)))
    case _ => v
  }

  function NormalItems(less: Order, items: seq<Json>): (r: seq<Json>)
    ensures |r| == |items|
    decreases items, 0
  {
    if items == [] then [] else [Normal(less, items[0])] + NormalItems(less, items[1..])
  }

  function NormalFields(less: Order, fields: seq<Field>): (r: seq<Field>)
    ensures |r| == |fields| && forall i :: 0 <= i < |r| ==> r[i].key == fields[i].key
    decreases fields, 0
  {
    if fields == [] then []
    else [Field(fields[0].key, Normal(less, fields[0].value))] + NormalFields(less, fields[1..])
  }

  function Canonical(less: Order, v: Json): string {
    Print(Normal(less, v))
  }

  // ---------- what a document means ----------

  /** The value of a document: an object is a finite map, whatever order its keys were written in. */
  datatype Value =
    | VNull
    | VBool(b: bool)
    | VNumber(text: string)
    | VStr(s: string)
    | VArr(items: seq<Value>)
    | VObj(fields: map<string, Value>)

  function Meaning(v: Json): Value
    decreases v, 0
  {
    match v
    case Null => VNull
    case Bool(b) => VBool(b)
    case Number(text) => VNumber(text)
    case Str(s) => VStr(s)
    case Arr(items) => VArr(MeaningItems(items))
    case Obj(fields) => VObj(MeaningFields(fields))
  }

  function MeaningItems(items: seq<Json>): (r: seq<Value>)
    ensures |r| == |items|
    decreases items, 0
  {
    if items == [] then [] else [Meaning(items[0])] + MeaningItems(items[1..])
  }

  function MeaningFields(fields: seq<Field>): map<string, Value>
    decreases fields, 0
  {
    if fields == [] then map[] else MeaningFields(fields[1..])[fields[0].key := Meaning(fields[0].value)]
  }

  predicate NumberChar(c: char) {
    '0' <= c <= '9' || c in "+-.eE"
  }

  predicate NumberText(text: string) {
    text != "" && ('0' <= text[0] <= '9' || text[0] == '-') && forall i :: 0 <= i < |text| ==> NumberChar(text[i])
  }

  predicate DistinctKeys(fields: seq<Field>) {
    forall i, j :: 0 <= i < j < |fields| ==> fields[i].key != fields[j].key
  }

  /** Documents as JavaScript holds them: no object has a key twice. */
  predicate Valid(v: Json)
    decreases v, 0
  {
    match v
    case Number(text) => NumberText(text)
    case Arr(items) => ValidItems(items)
    case Obj(fields) => DistinctKeys(fields) && ValidFields(fields)
    case _ => true
  }

  predicate ValidItems(items: seq<Json>)
    decreases items, 0
  {
    items != [] ==> Valid(items[0]) && ValidItems(items[1..])
  }

  predicate ValidFields(fields: seq<Field>)
    decreases fields, 0
  {
    fields != [] ==> Valid(fields[0].value) && ValidFields(fields[1..])
  }
}

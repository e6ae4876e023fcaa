/** Two documents serialise alike exactly when they are the same JSON value up to key order
    (workers/bun/src/harness-setup-store.ts). */
module CanonicalIdentity {
  import opened CanonicalJson

  // ---------- printing is injective ----------

  /** What may follow a printed value. */
  predicate Delimited(r: string) {
    r == "" || r[0] in ",]}"
  }

  lemma Regroup(a: string, b: string, c: string, d: string)
    ensures a + b + c + d == a + (b + c + d)
    ensures (a + b)[|a|..] == b
    ensures a != "" ==> (a + b)[0] == a[0]
  {
  }

  lemma EscapeStart(c: char)
    ensures Escape(c) != "" && Escape(c)[0] != '\"'
  {
  }

  lemma HexDigitsDiffer(m: nat, n: nat)
    requires m < 16 && n < 16 && HexDigit(m) == HexDigit(n)
    ensures m == n
  {
    assert "0123456789abcdef"[m] == "0123456789abcdef"[n];
  }

  lemma EscapeUnique(c: char, d: char, x: string, y: string)
    requires Escape(c) + x == Escape(d) + y
    ensures c == d && x == y
  {
    var l, r := Escape(c) + x, Escape(d) + y;
    assert l[0] == Escape(c)[0] && r[0] == Escape(d)[0];
    if Escape(c)[0] == '\\' {
      assert l[1] == Escape(c)[1] && r[1] == Escape(d)[1];
      if |Escape(c)| == 6 {
        assert l[4] == Escape(c)[4] && r[4] == Escape(d)[4] && l[5] == Escape(c)[5] && r[5] == Escape(d)[5];
        HexDigitsDiffer(c as int / 16, d as int / 16);
        HexDigitsDiffer(c as int % 16, d as int % 16);
        assert c as int == d as int;
      }
    }
    assert c == d;
    assert x == l[|Escape(c)|..] && y == r[|Escape(d)|..];
  }

  lemma EscapedHead(s: string, x: string)
    ensures var l := Escaped(s) + "\"" + x;
            if s == "" then l[0] == '\"' && l[1..] == x
            else l[0] != '\"' && l == Escape(s[0]) + (Escaped(s[1..]) + "\"" + x)
  {
    if s != "" {
      EscapeStart(s[0]);
      Regroup(Escape(s[0]), Escaped(s[1..]), "\"", x);
      Regroup(Escape(s[0]), Escaped(s[1..]) + "\"" + x, "", "");
    }
  }

  lemma {:induction false} EscapedUnique(s: string, t: string, x: string, y: string)
    requires Escaped(s) + "\"" + x == Escaped(t) + "\"" + y
    ensures s == t && x == y
    decreases |s|
  {
    EscapedHead(s, x);
    EscapedHead(t, y);
    if s != "" && t != "" {
      EscapeUnique(s[0], t[0], Escaped(s[1..]) + "\"" + x, Escaped(t[1..]) + "\"" + y);
      EscapedUnique(s[1..], t[1..], x, y);
      assert s == [s[0]] + s[1..] && t == [t[0]] + t[1..];
    }
  }

  lemma QuoteUnique(s: string, t: string, x: string, y: string)
    requires Quote(s) + x == Quote(t) + y
    ensures s == t && x == y
  {
    var e, f := Escaped(s), Escaped(t);
    Regroup("\"", e, "\"", x);
    Regroup("\"", f, "\"", y);
    Regroup("\"", e + "\"" + x, "", "");
    Regroup("\"", f + "\"" + y, "", "");
    EscapedUnique(s, t, x, y);
  }

  lemma NumberUnique(a: string, b: string, x: string, y: string)
    requires NumberText(a) && NumberText(b) && Delimited(x) && Delimited(y)
    requires a + x == b + y
    ensures a == b && x == y
  {
    var l, r := a + x, b + y;
    assert forall i :: 0 <= i < |a| ==> NumberChar(l[i]);
    assert forall i :: 0 <= i < |b| ==> NumberChar(r[i]);
    assert |a| < |l| ==> l[|a|] == x[0];
    assert |b| < |r| ==> r[|b|] == y[0];
    assert |a| == |b|;
    assert a == l[..|a|] && b == r[..|b|] && x == l[|a|..] && y == r[|b|..];
  }

  function Kind(c: char): nat {
    if c == 'n' then 0 else if c == 't' || c == 'f' then 1 else if '0' <= c <= '9' || c == '-' then 2
    else if c == '\"' then 3 else if c == '[' then 4 else if c == '{' then 5 else 6
  }

  function KindOf(v: Json): nat {
    match v
    case Null => 0
    case Bool(_) => 1
    case Number(_) => 2
    case Str(_) => 3
    case Arr(_) => 4
    case Obj(_) => 5
  }

  lemma PrintStart(v: Json)
    requires Valid(v)
    ensures Print(v) != "" && Kind(Print(v)[0]) == KindOf(v)
  {
  }

  lemma Bracketed(open: string, inner: string, close: string, x: string)
    requires |open| == 1
    ensures (open + inner + close + x)[1..] == inner + close + x
  {
    Regroup(open, inner, close, x);
    Regroup(open, inner + close + x, "", "");
  }

  lemma {:induction false} PrintUnique(v: Json, w: Json, x: string, y: string)
    requires Valid(v) && Valid(w) && Delimited(x) && Delimited(y)
    requires Print(v) + x == Print(w) + y
    ensures v == w && x == y
    decreases v, 0
  {
    PrintStart(v);
    PrintStart(w);
    Regroup(Print(v), x, "", "");
    Regroup(Print(w), y, "", "");
    assert KindOf(v) == KindOf(w);
    match v
    case Null =>
    case Bool(b) =>
    case Number(text) => NumberUnique(text, w.text, x, y);
    case Str(s) => QuoteUnique(s, w.s, x, y);
    case Arr(items) =>
      Bracketed("[", Join(PrintItems(items)), "]", x);
      Bracketed("[", Join(PrintItems(w.items)), "]", y);
      ItemsUnique(items, w.items, x, y);
    case Obj(fields) =>
      Bracketed("{", Join(PrintFields(fields)), "}", x);
      Bracketed("{", Join(PrintFields(w.fields)), "}", y);
      FieldsUnique(fields, w.fields, x, y);
  }

  /** The rest of a joined list after its first text. */
  function Rest(texts: seq<string>): string
    requires texts != []
  {
    if |texts| == 1 then "" else "," + Join(texts[1..])
  }

  lemma JoinSplits(texts: seq<string>, close: string, x: string)
    requires texts != [] && texts[0] != "" && |close| == 1
    ensures Join(texts) + close + x == texts[0] + (Rest(texts) + close + x)
    ensures (Join(texts) + close + x)[0] == texts[0][0]
    ensures |texts| == 1 ==> (Rest(texts) + close + x)[0] == close[0] && (Rest(texts) + close + x)[1..] == x
    ensures |texts| > 1 ==>
              (Rest(texts) + close + x)[0] == ',' && (Rest(texts) + close + x)[1..] == Join(texts[1..]) + close + x
  {
    var first, rest := texts[0], Rest(texts);
    assert Join(texts) == first + rest;
    Regroup(first, rest, close, x);
    Regroup(first, rest + close + x, "", "");
    if |texts| > 1 {
      Bracketed(",", Join(texts[1..]), close, x);
    }
  }

  lemma {:induction false} ItemsUnique(a: seq<Json>, b: seq<Json>, x: string, y: string)
    requires ValidItems(a) && ValidItems(b)
    requires Join(PrintItems(a)) + "]" + x == Join(PrintItems(b)) + "]" + y
    ensures a == b && x == y
    decreases a, 0
  {
    var l, r := Join(PrintItems(a)) + "]" + x, Join(PrintItems(b)) + "]" + y;
    if a != [] { PrintStart(a[0]); JoinSplits(PrintItems(a), "]", x); }
    if b != [] { PrintStart(b[0]); JoinSplits(PrintItems(b), "]", y); }
    assert a == [] ==> l[0] == ']' && l[1..] == x;
    assert b == [] ==> r[0] == ']' && r[1..] == y;
    assert a != [] ==> l[0] == Print(a[0])[0];
    assert b != [] ==> r[0] == Print(b[0])[0];
    if a != [] && b != [] {
      var p, q := Rest(PrintItems(a)) + "]" + x, Rest(PrintItems(b)) + "]" + y;
      PrintUnique(a[0], b[0], p, q);
      assert |a| == 1 ==> p[0] == ']' && p[1..] == x;
      assert |b| == 1 ==> q[0] == ']' && q[1..] == y;
      if |a| > 1 && |b| > 1 {
        ItemsUnique(a[1..], b[1..], x, y);
      }
      assert a == [a[0]] + a[1..] && b == [b[0]] + b[1..];
    }
  }

  lemma FieldStart(f: Field)
    ensures PrintField(f) != "" && PrintField(f)[0] == '\"'
  {
  }

  lemma {:induction false} FieldsUnique(a: seq<Field>, b: seq<Field>, x: string, y: string)
    requires ValidFields(a) && ValidFields(b)
    requires Join(PrintFields(a)) + "}" + x == Join(PrintFields(b)) + "}" + y
    ensures a == b && x == y
    decreases a, 0
  {
    var l, r := Join(PrintFields(a)) + "}" + x, Join(PrintFields(b)) + "}" + y;
    if a != [] { FieldStart(a[0]); JoinSplits(PrintFields(a), "}", x); }
    if b != [] { FieldStart(b[0]); JoinSplits(PrintFields(b), "}", y); }
    assert a == [] ==> l[0] == '}' && l[1..] == x;
    assert b == [] ==> r[0] == '}' && r[1..] == y;
    assert a != [] ==> l[0] == PrintField(a[0])[0];
    assert b != [] ==> r[0] == PrintField(b[0])[0];
    if a != [] && b != [] {
      var p, q := Rest(PrintFields(a)) + "}" + x, Rest(PrintFields(b)) + "}" + y;
      OneField(a[0], b[0], p, q);
      PrintUnique(a[0].value, b[0].value, p, q);
      assert |a| == 1 ==> p[0] == '}' && p[1..] == x;
      assert |b| == 1 ==> q[0] == '}' && q[1..] == y;
      if |a| > 1 && |b| > 1 {
        FieldsUnique(a[1..], b[1..], x, y);
      }
      assert a == [a[0]] + a[1..] && b == [b[0]] + b[1..];
    }
  }

  lemma OneField(f: Field, g: Field, p: string, q: string)
    requires PrintField(f) + p == PrintField(g) + q
    ensures f.key == g.key && Print(f.value) + p == Print(g.value) + q
  {
    var k, l, v, w := Quote(f.key), Quote(g.key), Print(f.value), Print(g.value);
    Regroup(k, ":", v, p);
    Regroup(l, ":", w, q);
    QuoteUnique(f.key, g.key, ":" + v + p, ":" + w + q);
    assert (":" + v + p)[1..] == v + p;
    assert (":" + w + q)[1..] == w + q;
  }

  // ---------- sorting ----------

  predicate HasKey(fields: seq<Field>, k: string) {
    exists i :: 0 <= i < |fields| && fields[i].key == k
  }

  predicate Sorted(less: Order, fields: seq<Field>) {
    forall i, j :: 0 <= i < j < |fields| ==> less(fields[i].key, fields[j].key)
  }

  lemma HasKeyCons(fields: seq<Field>, k: string)
    requires fields != []
    ensures HasKey(fields, k) <==> fields[0].key == k || HasKey(fields[1..], k)
  {
    if HasKey(fields[1..], k) {
      var i :| 0 <= i < |fields| - 1 && fields[1..][i].key == k;
      assert fields[i+1].key == k;
    }
    if HasKey(fields, k) && fields[0].key != k {
      var i :| 0 <= i < |fields| && fields[i].key == k;
      assert fields[1..][i-1].key == k;
    }
  }

  lemma {:induction false} MeaningKeys(fields: seq<Field>, k: string)
    ensures k in MeaningFields(fields) <==> HasKey(fields, k)
    decreases |fields|
  {
    if fields != [] {
      HasKeyCons(fields, k);
      MeaningKeys(fields[1..], k);
    }
  }

  lemma {:induction false} InsertPermutes(less: Order, f: Field, fields: seq<Field>)
    ensures forall g :: g in Insert(less, f, fields) <==> g == f || g in fields
    decreases |fields|
  {
    if fields != [] && less(fields[0].key, f.key) {
      InsertPermutes(less, f, fields[1..]);
    }
  }

  lemma {:induction false} SortPermutes(less: Order, fields: seq<Field>)
    ensures forall g :: g in Sort(less, fields) <==> g in fields
    decreases |fields|
  {
    if fields != [] {
      SortPermutes(less, fields[1..]);
      InsertPermutes(less, fields[0], Sort(less, fields[1..]));
    }
  }

  lemma {:induction false} InsertSorts(less: Order, f: Field, fields: seq<Field>)
    requires StrictTotal(less) && Sorted(less, fields) && forall g :: g in fields ==> g.key != f.key
    ensures Sorted(less, Insert(less, f, fields))
    decreases |fields|
  {
    if fields != [] && less(fields[0].key, f.key) {
      InsertSorts(less, f, fields[1..]);
      InsertPermutes(less, f, fields[1..]);
      var rest := Insert(less, f, fields[1..]);
      forall i | 0 <= i < |rest| ensures less(fields[0].key, rest[i].key) {
        assert rest[i] in rest;
      }
    }
  }

  lemma {:induction false} InsertMeaning(less: Order, f: Field, fields: seq<Field>)
    requires ValidFields(fields) && Valid(f.value) && forall g :: g in fields ==> g.key != f.key
    ensures ValidFields(Insert(less, f, fields))
    ensures MeaningFields(Insert(less, f, fields)) == MeaningFields(fields)[f.key := Meaning(f.value)]
    decreases |fields|
  {
    if fields != [] && less(fields[0].key, f.key) {
      InsertMeaning(less, f, fields[1..]);
      assert fields[0].key != f.key;
    }
  }

  lemma {:induction false} SortSorts(less: Order, fields: seq<Field>)
    requires StrictTotal(less) && DistinctKeys(fields) && ValidFields(fields)
    ensures Sorted(less, Sort(less, fields)) && ValidFields(Sort(less, fields))
    ensures MeaningFields(Sort(less, fields)) == MeaningFields(fields)
    decreases |fields|
  {
    if fields != [] {
      var rest := Sort(less, fields[1..]);
      SortSorts(less, fields[1..]);
      SortPermutes(less, fields[1..]);
      InsertSorts(less, fields[0], rest);
      InsertMeaning(less, fields[0], rest);
    }
  }

  lemma SortedIsDistinct(less: Order, fields: seq<Field>)
    requires StrictTotal(less) && Sorted(less, fields)
    ensures DistinctKeys(fields)
  {
  }

  // ---------- normal forms keep the meaning ----------

  lemma {:induction false} NormalMeaning(less: Order, v: Json)
    requires StrictTotal(less) && Valid(v)
    ensures Valid(Normal(less, v)) && Meaning(Normal(less, v)) == Meaning(v)
    decreases v, 0
  {
    match v
    case Arr(items) => NormalItemsMeaning(less, items);
    case Obj(fields) =>
      var n := NormalFields(less, fields);
      NormalFieldsMeaning(less, fields);
      SortSorts(less, n);
      SortedIsDistinct(less, Sort(less, n));
    case _ =>
  }

  lemma {:induction false} NormalItemsMeaning(less: Order, items: seq<Json>)
    requires StrictTotal(less) && ValidItems(items)
    ensures ValidItems(NormalItems(less, items)) && MeaningItems(NormalItems(less, items)) == MeaningItems(items)
    decreases items, 0
  {
    if items != [] {
      NormalMeaning(less, items[0]);
      NormalItemsMeaning(less, items[1..]);
    }
  }

  lemma {:induction false} NormalFieldsMeaning(less: Order, fields: seq<Field>)
    requires StrictTotal(less) && ValidFields(fields)
    ensures ValidFields(NormalFields(less, fields))
            && MeaningFields(NormalFields(less, fields)) == MeaningFields(fields)
    decreases fields, 0
  {
    if fields != [] {
      NormalMeaning(less, fields[0].value);
      NormalFieldsMeaning(less, fields[1..]);
    }
  }

  // ---------- equal meanings have equal normal forms ----------

  lemma {:induction false} NormalUnique(less: Order, v: Json, w: Json)
    requires StrictTotal(less) && Valid(v) && Valid(w) && Meaning(v) == Meaning(w)
    ensures Normal(less, v) == Normal(less, w)
    decreases v, 0
  {
    match v
    case Arr(items) => NormalItemsUnique(less, items, w.items);
    case Obj(fields) =>
      var m, n := NormalFields(less, fields), NormalFields(less, w.fields);
      NormalFieldsMeaning(less, fields);
      NormalFieldsMeaning(less, w.fields);
      SortSorts(less, m);
      SortSorts(less, n);
      forall i, j | 0 <= i < |m| && 0 <= j < |n| && m[i].key == n[j].key ensures m[i] == n[j] {
        MeaningAt(fields, i);
        MeaningAt(w.fields, j);
        NormalAt(less, fields, i);
        NormalAt(less, w.fields, j);
        NormalUnique(less, fields[i].value, w.fields[j].value);
      }
      SortAgrees(less, m, n);
    case _ =>
  }

  lemma {:induction false} NormalItemsUnique(less: Order, a: seq<Json>, b: seq<Json>)
    requires StrictTotal(less) && ValidItems(a) && ValidItems(b) && MeaningItems(a) == MeaningItems(b)
    ensures NormalItems(less, a) == NormalItems(less, b)
    decreases a, 0
  {
    assert |a| == |MeaningItems(a)| && |b| == |MeaningItems(b)|;
    if a != [] {
      assert MeaningItems(a)[0] == Meaning(a[0]) && MeaningItems(b)[0] == Meaning(b[0]);
      assert MeaningItems(a)[1..] == MeaningItems(a[1..]) && MeaningItems(b)[1..] == MeaningItems(b[1..]);
      NormalUnique(less, a[0], b[0]);
      NormalItemsUnique(less, a[1..], b[1..]);
    }
  }

  lemma {:induction false} MeaningAt(fields: seq<Field>, i: nat)
    requires DistinctKeys(fields) && ValidFields(fields) && i < |fields|
    ensures fields[i].key in MeaningFields(fields) && MeaningFields(fields)[fields[i].key] == Meaning(fields[i].value)
    ensures Valid(fields[i].value)
    decreases |fields|
  {
    if i > 0 {
      MeaningAt(fields[1..], i - 1);
      assert fields[0].key != fields[i].key;
    }
  }

  lemma {:induction false} NormalAt(less: Order, fields: seq<Field>, i: nat)
    requires i < |fields|
    ensures NormalFields(less, fields)[i] == Field(fields[i].key, Normal(less, fields[i].value))
    decreases |fields|
  {
    if i > 0 {
      NormalAt(less, fields[1..], i - 1);
    }
  }

  /** Sorted lists of the same fields are equal. */
  lemma SortAgrees(less: Order, m: seq<Field>, n: seq<Field>)
    requires StrictTotal(less) && DistinctKeys(m) && DistinctKeys(n) && ValidFields(m) && ValidFields(n)
    requires MeaningFields(m).Keys == MeaningFields(n).Keys
    requires forall i, j :: 0 <= i < |m| && 0 <= j < |n| && m[i].key == n[j].key ==> m[i] == n[j]
    ensures Sort(less, m) == Sort(less, n)
  {
    SortSorts(less, m);
    SortSorts(less, n);
    var a, b := Sort(less, m), Sort(less, n);
    forall k ensures HasKey(a, k) <==> HasKey(b, k) {
      MeaningKeys(a, k);
      MeaningKeys(b, k);
    }
    SortPermutes(less, m);
    SortPermutes(less, n);
    forall i, j | 0 <= i < |a| && 0 <= j < |b| && a[i].key == b[j].key ensures a[i] == b[j] {
      assert a[i] in m && b[j] in n;
    }
    SortedUnique(less, a, b);
  }

  lemma {:induction false} SortedUnique(less: Order, a: seq<Field>, b: seq<Field>)
    requires StrictTotal(less) && Sorted(less, a) && Sorted(less, b)
    requires forall k :: HasKey(a, k) <==> HasKey(b, k)
    requires forall i, j :: 0 <= i < |a| && 0 <= j < |b| && a[i].key == b[j].key ==> a[i] == b[j]
    ensures a == b
    decreases |a|
  {
    if a == [] {
      if b != [] { assert HasKey(b, b[0].key); }
    } else {
      assert HasKey(a, a[0].key);
      assert HasKey(b, b[0].key);
      assert a[0].key == b[0].key;
      forall k ensures HasKey(a[1..], k) <==> HasKey(b[1..], k) {
        HasKeyCons(a, k);
        HasKeyCons(b, k);
      }
      SortedUnique(less, a[1..], b[1..]);
      assert a == [a[0]] + a[1..] && b == [b[0]] + b[1..];
    }
  }

  /** Canonical texts agree exactly when the documents are the same value up to key order. */
  lemma CanonicalExactly(less: Order, v: Json, w: Json)
    requires StrictTotal(less) && Valid(v) && Valid(w)
    ensures Canonical(less, v) == Canonical(less, w) <==> Meaning(v) == Meaning(w)
  {
    NormalMeaning(less, v);
    NormalMeaning(less, w);
    if Canonical(less, v) == Canonical(less, w) {
      PrintUnique(Normal(less, v), Normal(less, w), "", "");
    }
    if Meaning(v) == Meaning(w) {
      NormalUnique(less, v, w);
    }
  }
}

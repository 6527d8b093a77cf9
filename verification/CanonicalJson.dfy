/** JSON values, their canonical text, and why equal texts mean equal values up to key order. */
module CanonicalJson {
  import opened Outcomes
  import opened Text
  import opened Sorting

  datatype Json =
    | JNull
    | JBool(b: bool)
    | JNumber(n: int)
    | JString(s: string)
    | JArray(items: Items)
    | JObject(fields: Fields)

  datatype Items = NoItems | Item(head: Json, rest: Items)

  /** An object's entries in insertion order. */
  datatype Fields = NoFields | Field(key: string, value: Json, others: Fields)

  // ---------------------------------------------------------------- writing

  function HexDigit(n: nat): char
    requires n < 16
  {
    ['0', '1', '2', '3', '4', '5', '6', '7', '8', '9', 'a', 'b', 'c', 'd', 'e', 'f'][n]
  }

  /** Section 7 of RFC 8259: quotation mark, backslash and control characters are escaped. */
  function EscapeChar(c: char): string {
    var n := c as int;
    if n == 34 then ['\\', '"']
    else if n == 92 then ['\\', '\\']
    else if n == 8 then ['\\', 'b']
    else if n == 9 then ['\\', 't']
    else if n == 10 then ['\\', 'n']
    else if n == 12 then ['\\', 'f']
    else if n == 13 then ['\\', 'r']
    else if n < 32 then ['\\', 'u', '0', '0', HexDigit(n / 16), HexDigit(n % 16)]
    else [c]
  }

  function Escape(s: string): string {
    if |s| == 0 then "" else EscapeChar(s[0]) + Escape(s[1..])
  }

  function Quote(s: string): string {
    ['"'] + Escape(s) + ['"']
  }

  /** The text of a value with its entries in the order they stand. */
  function Write(v: Json): string {
    match v
    case JNull => "null"
    case JBool(b) => if b then "true" else "false"
    case JNumber(n) => Numeral(n)
    case JString(s) => Quote(s)
    case JArray(items) => ['['] + WriteItems(items) + [']']
    case JObject(fields) => ['{'] + WriteFields(fields) + ['}']
  }

  function WriteItems(items: Items): string {
    match items
    case NoItems => ""
    case Item(h, t) => Write(h) + (if t.NoItems? then "" else [','] + WriteItems(t))
  }

  function WriteFields(fields: Fields): string {
    match fields
    case NoFields => ""
    case Field(k, v, t) => Quote(k) + [':'] + Write(v) + (if t.NoFields? then "" else [','] + WriteFields(t))
  }

  // ---------------------------------------------------------------- sorting the keys

  function InsertField(k: string, v: Json, f: Fields): Fields {
    match f
    case NoFields => Field(k, v, NoFields)
    case Field(k', v', t) => if StringLeq(k, k') then Field(k, v, f) else Field(k', v', InsertField(k, v, t))
  }

  function SortFields(f: Fields): Fields {
    match f
    case NoFields => NoFields
    case Field(k, v, t) => InsertField(k, v, SortFields(t))
  }

  /** The value with every object's keys sorted. */
  function Normal(v: Json): Json {
    match v
    case JArray(items) => JArray(NormalItems(items))
    case JObject(fields) => JObject(SortFields(NormalFields(fields)))
    case _ => v
  }

  function NormalItems(items: Items): Items {
    match items
    case NoItems => NoItems
    case Item(h, t) => Item(Normal(h), NormalItems(t))
  }

  function NormalFields(f: Fields): Fields {
    match f
    case NoFields => NoFields
    case Field(k, v, t) => Field(k, Normal(v), NormalFields(t))
  }

  /** The canonical text: keys sorted at every level, no space anywhere. */
  function Canonical(v: Json): string {
    Write(Normal(v))
  }

  // ---------------------------------------------------------------- equality up to key order

  function Lookup(f: Fields, key: string): Option<Json> {
    match f
    case NoFields => None
    case Field(k, v, t) => if k == key then Some(v) else Lookup(t, key)
  }

  /** No object names a key twice, at any level. */
  predicate WellFormed(v: Json) {
    match v
    case JArray(items) => WellFormedItems(items)
    case JObject(fields) => WellFormedFields(fields)
    case _ => true
  }

  predicate WellFormedItems(items: Items) {
    items.Item? ==> WellFormed(items.head) && WellFormedItems(items.rest)
  }

  predicate WellFormedFields(f: Fields) {
    f.Field? ==> Lookup(f.others, f.key).None? && WellFormed(f.value) && WellFormedFields(f.others)
  }

  /** Equal as JSON values: arrays item by item, objects as maps from key to value. */
  predicate Same(v: Json, w: Json) {
    match v
    case JArray(items) => w.JArray? && SameItems(items, w.items)
    case JObject(fields) => w.JObject? && Within(fields, w.fields) && HasKeysOf(fields, w.fields)
    case _ => v == w
  }

  predicate SameItems(a: Items, b: Items) {
    match a
    case NoItems => b.NoItems?
    case Item(h, t) => b.Item? && Same(h, b.head) && SameItems(t, b.rest)
  }

  /** Every entry of `f` has an equal one in `g`. */
  predicate Within(f: Fields, g: Fields) {
    f.Field? ==>
      var found := Lookup(g, f.key);
      found.Some? && Same(f.value, found.value) && Within(f.others, g)
  }

  /** Every key of `g` is one of `f`. */
  predicate HasKeysOf(f: Fields, g: Fields) {
    g.Field? ==> Lookup(f, g.key).Some? && HasKeysOf(f, g.others)
  }

  // ---------------------------------------------------------------- reading back

  lemma HexInjective(m: nat, n: nat)
    requires m < 16 && n < 16 && HexDigit(m) == HexDigit(n)
    ensures m == n
  {
  }

  /** The first escaped character of a text is determined by the text, and it is never the closing quote. */
  lemma EscapeCharUnique(c: char, d: char, x: string, y: string)
    requires EscapeChar(c) + x == EscapeChar(d) + y
    ensures c == d && x == y
  {
    var p, q := EscapeChar(c), EscapeChar(d);
    var w := p + x;
    assert w[0] == p[0] == q[0];
    assert |p| > 1 ==> w[1] == p[1];
    assert |q| > 1 ==> w[1] == q[1];
    assert |p| == |q|;
    assert p == w[..|p|] == q;
    assert x == w[|p|..] == y;
    if |p| == 6 {
      assert p[4] == q[4] && p[5] == q[5];
      HexInjective((c as int) / 16, (d as int) / 16);
      HexInjective((c as int) % 16, (d as int) % 16);
    }
  }

  /** The rest of a string, its closing quote and what follows. */
  function EscapeText(s: string, x: string): string {
    Escape(s) + ['"'] + x
  }

  lemma EscapeTextSteps(s: string, x: string)
    ensures EscapeText(s, x) == if |s| == 0 then ['"'] + x else EscapeChar(s[0]) + EscapeText(s[1..], x)
    ensures EscapeText(s, x)[0] == '"' <==> |s| == 0
  {
    if |s| > 0 {
      assert EscapeText(s, x)[0] == EscapeChar(s[0])[0];
    }
  }

  lemma {:induction false} EscapeUnique(s: string, t: string, x: string, y: string)
    requires EscapeText(s, x) == EscapeText(t, y)
    ensures s == t && x == y
  {
    EscapeTextSteps(s, x);
    EscapeTextSteps(t, y);
    if |s| == 0 {
      SameText(['"'], ['"'], x, y);
    } else {
      EscapeCharUnique(s[0], t[0], EscapeText(s[1..], x), EscapeText(t[1..], y));
      EscapeUnique(s[1..], t[1..], x, y);
    }
  }

  lemma QuoteUnique(s: string, t: string, x: string, y: string)
    requires Quote(s) + x == Quote(t) + y
    ensures s == t && x == y
  {
    assert Quote(s) + x == ['"'] + EscapeText(s, x) && Quote(t) + y == ['"'] + EscapeText(t, y);
    SameText(['"'], ['"'], EscapeText(s, x), EscapeText(t, y));
    EscapeUnique(s, t, x, y);
  }

  /** What may follow a value: nothing, a comma or a closing bracket. */
  predicate Stops(r: string) {
    |r| == 0 || r[0] == ',' || r[0] == ']' || r[0] == '}'
  }

  predicate IsNumeralChar(c: char) {
    '0' <= c <= '9' || c == '-'
  }

  lemma NumeralEnds(a: string, b: string, x: string, y: string)
    requires (forall c | c in a :: IsNumeralChar(c)) && (forall c | c in b :: IsNumeralChar(c))
    requires Stops(x) && Stops(y) && a + x == b + y
    ensures a == b && x == y
  {
    var w := a + x;
    assert forall i | 0 <= i < |a| :: w[i] == a[i] && a[i] in a;
    assert forall i | 0 <= i < |b| :: w[i] == b[i] && b[i] in b;
    assert |x| > 0 ==> !IsNumeralChar(w[|a|]);
    assert |y| > 0 ==> !IsNumeralChar(w[|b|]);
    assert |a| == |b|;
    SameText(a, b, x, y);
  }

  /** The first character of a value tells its kind. */
  function Kind(v: Json): char {
    match v
    case JNull => 'n'
    case JBool(b) => if b then 't' else 'f'
    case JNumber(_) => '0'
    case JString(_) => '"'
    case JArray(_) => '['
    case JObject(_) => '{'
  }

  lemma FirstChar(v: Json)
    ensures |Write(v)| > 0
    ensures var c := Write(v)[0]; if v.JNumber? then IsNumeralChar(c) else c == Kind(v)
  {
    if v.JNumber? {
      assert Numeral(v.n)[0] in Numeral(v.n);
    }
  }

  lemma SameKind(v: Json, w: Json, x: string, y: string)
    requires Write(v) + x == Write(w) + y
    ensures Kind(v) == Kind(w)
  {
    FirstChar(v);
    FirstChar(w);
    assert Write(v)[0] == (Write(v) + x)[0] == Write(w)[0];
  }

  /** A value's text ends where it must: two values followed by stops agree whole. */
  lemma {:induction false} ValueUnique(v: Json, w: Json, x: string, y: string)
    requires Write(v) + x == Write(w) + y && Stops(x) && Stops(y)
    ensures v == w && x == y
    decreases v
  {
    SameKind(v, w, x, y);
    match v
    case JNull => SameText(Write(v), Write(w), x, y);
    case JBool(_) => SameText(Write(v), Write(w), x, y);
    case JNumber(n) =>
      NumeralEnds(Write(v), Write(w), x, y);
      NumeralInjective(n, w.n);
    case JString(s) => QuoteUnique(s, w.s, x, y);
    case JArray(items) =>
      Unwrap('[', WriteItems(items), ']', x, WriteItems(w.items), y);
      ItemsUnique(items, w.items, x, y);
    case JObject(fields) =>
      Unwrap('{', WriteFields(fields), '}', x, WriteFields(w.fields), y);
      FieldsUnique(fields, w.fields, x, y);
  }

  lemma SameText(a: string, b: string, x: string, y: string)
    requires a + x == b + y && |a| == |b|
    ensures a == b && x == y
  {
    assert a == (a + x)[..|a|] && b == (b + y)[..|b|];
    assert x == (a + x)[|a|..] && y == (b + y)[|b|..];
  }

  lemma Unwrap(open: char, a: string, close: char, x: string, b: string, y: string)
    requires [open] + a + [close] + x == [open] + b + [close] + y
    ensures a + [close] + x == b + [close] + y
  {
    assert [open] + a + [close] + x == [open] + (a + [close] + x);
    assert [open] + b + [close] + y == [open] + (b + [close] + y);
    SameText([open], [open], a + [close] + x, b + [close] + y);
  }

  /** The rest of an array, its closing bracket and what follows. */
  function ItemsText(a: Items, x: string): string {
    WriteItems(a) + [']'] + x
  }

  /** What follows its first item. */
  function AfterItem(t: Items, x: string): (r: string)
    ensures |r| > 0 && Stops(r) && r[0] == if t.NoItems? then ']' else ','
  {
    if t.NoItems? then [']'] + x else [','] + ItemsText(t, x)
  }

  lemma ItemsTextSteps(a: Items, x: string)
    ensures ItemsText(a, x) == if a.NoItems? then [']'] + x else Write(a.head) + AfterItem(a.rest, x)
    ensures ItemsText(a, x)[0] == ']' <==> a.NoItems?
  {
    if a.Item? {
      FirstChar(a.head);
      assert ItemsText(a, x)[0] == Write(a.head)[0];
    }
  }

  lemma {:induction false} ItemsUnique(a: Items, b: Items, x: string, y: string)
    requires ItemsText(a, x) == ItemsText(b, y)
    ensures a == b && x == y
    decreases a
  {
    ItemsTextSteps(a, x);
    ItemsTextSteps(b, y);
    if a.NoItems? {
      SameText([']'], [']'], x, y);
    } else {
      ValueUnique(a.head, b.head, AfterItem(a.rest, x), AfterItem(b.rest, y));
      if a.rest.NoItems? {
        SameText([']'], [']'], x, y);
      } else {
        SameText([','], [','], ItemsText(a.rest, x), ItemsText(b.rest, y));
        ItemsUnique(a.rest, b.rest, x, y);
      }
    }
  }

  /** The rest of an object, its closing brace and what follows. */
  function FieldsText(a: Fields, x: string): string {
    WriteFields(a) + ['}'] + x
  }

  /** What follows its first entry. */
  function AfterField(t: Fields, x: string): (r: string)
    ensures |r| > 0 && Stops(r) && r[0] == if t.NoFields? then '}' else ','
  {
    if t.NoFields? then ['}'] + x else [','] + FieldsText(t, x)
  }

  lemma FieldsTextSteps(a: Fields, x: string)
    ensures FieldsText(a, x) ==
            if a.NoFields? then ['}'] + x else Quote(a.key) + ([':'] + (Write(a.value) + AfterField(a.others, x)))
    ensures FieldsText(a, x)[0] == '}' <==> a.NoFields?
  {
    if a.Field? {
      assert FieldsText(a, x)[0] == Quote(a.key)[0];
    }
  }

  lemma {:induction false} FieldsUnique(a: Fields, b: Fields, x: string, y: string)
    requires FieldsText(a, x) == FieldsText(b, y)
    ensures a == b && x == y
    decreases a
  {
    FieldsTextSteps(a, x);
    FieldsTextSteps(b, y);
    if a.NoFields? {
      SameText(['}'], ['}'], x, y);
    } else {
      var u, v := Write(a.value) + AfterField(a.others, x), Write(b.value) + AfterField(b.others, y);
      QuoteUnique(a.key, b.key, [':'] + u, [':'] + v);
      SameText([':'], [':'], u, v);
      ValueUnique(a.value, b.value, AfterField(a.others, x), AfterField(b.others, y));
      if a.others.NoFields? {
        SameText(['}'], ['}'], x, y);
      } else {
        SameText([','], [','], FieldsText(a.others, x), FieldsText(b.others, y));
        FieldsUnique(a.others, b.others, x, y);
      }
    }
  }

  /** A written value can be read back: the text determines it, entry order included. */
  lemma WriteInjective(v: Json, w: Json)
    requires Write(v) == Write(w)
    ensures v == w
  {
    assert Write(v) + "" == Write(w) + "";
    ValueUnique(v, w, "", "");
  }

  // ---------------------------------------------------------------- sorted objects are maps

  ghost predicate Below(k: string, f: Fields) {
    forall key | Lookup(f, key).Some? :: StringLeq(k, key) && k != key
  }

  ghost predicate KeysSorted(f: Fields) {
    f.Field? ==> Below(f.key, f.others) && KeysSorted(f.others)
  }

  lemma {:induction false} InsertKeeps(k: string, v: Json, f: Fields)
    requires KeysSorted(f) && Lookup(f, k).None?
    ensures KeysSorted(InsertField(k, v, f))
    ensures forall key :: Lookup(InsertField(k, v, f), key) == if key == k then Some(v) else Lookup(f, key)
  {
    if f.Field? {
      StringLeqTotal(k, f.key);
      if StringLeq(k, f.key) {
        forall key | Lookup(f, key).Some?
          ensures StringLeq(k, key) && k != key
        {
          if key != f.key {
            StringLeqTransitive(k, f.key, key);
          }
        }
      } else {
        InsertKeeps(k, v, f.others);
      }
    }
  }

  lemma {:induction false} SortKeeps(f: Fields)
    requires WellFormedFields(f)
    ensures KeysSorted(SortFields(f))
    ensures forall key :: Lookup(SortFields(f), key) == Lookup(f, key)
  {
    if f.Field? {
      SortKeeps(f.others);
      InsertKeeps(f.key, f.value, SortFields(f.others));
    }
  }

  /** Sorted objects with the same entries are the same list. */
  lemma {:induction false} SortedDetermined(f: Fields, g: Fields)
    requires KeysSorted(f) && KeysSorted(g)
    requires forall key :: Lookup(f, key) == Lookup(g, key)
    ensures f == g
  {
    assert f.Field? ==> Lookup(g, f.key) == Lookup(f, f.key) == Some(f.value);
    assert g.Field? ==> Lookup(f, g.key) == Lookup(g, g.key) == Some(g.value);
    if f.Field? && g.Field? {
      if f.key != g.key {
        StringLeqAntisymmetric(f.key, g.key);
      }
      forall key
        ensures Lookup(f.others, key) == Lookup(g.others, key)
      {
        assert Lookup(f, key) == Lookup(g, key);
      }
      SortedDetermined(f.others, g.others);
    }
  }

  lemma {:induction false} NormalFieldsLookup(f: Fields, key: string)
    ensures Lookup(NormalFields(f), key) ==
            match Lookup(f, key) case None => None case Some(v) => Some(Normal(v))
  {
    if f.Field? {
      NormalFieldsLookup(f.others, key);
    }
  }

  /** Normalising values leaves keys distinct; the values' own distinctness is re-established by sorting. */
  lemma {:induction false} NormalFieldsWellFormed(f: Fields)
    requires WellFormedFields(f)
    ensures WellFormedFields(NormalFields(f))
    decreases f
  {
    if f.Field? {
      NormalFieldsLookup(f.others, f.key);
      NormalWellFormed(f.value);
      NormalFieldsWellFormed(f.others);
    }
  }

  lemma {:induction false} NormalWellFormed(v: Json)
    requires WellFormed(v)
    ensures WellFormed(Normal(v))
    decreases v
  {
    match v
    case JArray(items) => NormalItemsWellFormed(items);
    case JObject(fields) =>
      NormalFieldsWellFormed(fields);
      SortWellFormed(NormalFields(fields));
    case _ =>
  }

  lemma {:induction false} NormalItemsWellFormed(items: Items)
    requires WellFormedItems(items)
    ensures WellFormedItems(NormalItems(items))
    decreases items
  {
    if items.Item? {
      NormalWellFormed(items.head);
      NormalItemsWellFormed(items.rest);
    }
  }

  lemma {:induction false} SortWellFormed(f: Fields)
    requires WellFormedFields(f)
    ensures WellFormedFields(SortFields(f))
  {
    if f.Field? {
      SortWellFormed(f.others);
      SortKeeps(f.others);
      InsertWellFormed(f.key, f.value, SortFields(f.others));
    }
  }

  lemma {:induction false} InsertWellFormed(k: string, v: Json, f: Fields)
    requires WellFormedFields(f) && KeysSorted(f) && Lookup(f, k).None? && WellFormed(v)
    ensures WellFormedFields(InsertField(k, v, f))
  {
    if f.Field? && !StringLeq(k, f.key) {
      InsertWellFormed(k, v, f.others);
      InsertKeeps(k, v, f.others);
    }
  }

  /** An object's normal form holds exactly the normal forms of its entries. */
  lemma NormalObjectLookup(f: Fields, key: string)
    requires WellFormedFields(f)
    ensures KeysSorted(SortFields(NormalFields(f)))
    ensures Lookup(SortFields(NormalFields(f)), key) ==
            match Lookup(f, key) case None => None case Some(v) => Some(Normal(v))
  {
    NormalFieldsWellFormed(f);
    SortKeeps(NormalFields(f));
    NormalFieldsLookup(f, key);
  }

  // ---------------------------------------------------------------- equal normal forms are equal values

  lemma {:induction false} SameNormal(v: Json, w: Json)
    requires WellFormed(v) && WellFormed(w)
    ensures Normal(v) == Normal(w) <==> Same(v, w)
    decreases v
  {
    if v.JArray? && w.JArray? {
      SameNormalItems(v.items, w.items);
    } else if v.JObject? && w.JObject? {
      var f, g := v.fields, w.fields;
      var nf, ng := SortFields(NormalFields(f)), SortFields(NormalFields(g));
      forall key
        ensures Lookup(nf, key) == match Lookup(f, key) case None => None case Some(u) => Some(Normal(u))
        ensures Lookup(ng, key) == match Lookup(g, key) case None => None case Some(u) => Some(Normal(u))
      {
        NormalObjectLookup(f, key);
        NormalObjectLookup(g, key);
      }
      WithinIsLookup(f, g);
      KeysAreLookup(f, g);
      if Same(v, w) {
        NormalObjectLookup(f, "");
        NormalObjectLookup(g, "");
        forall key
          ensures Lookup(nf, key) == Lookup(ng, key)
        {
          assert AgreeAt(f, g, key) && (Lookup(g, key).Some? ==> Lookup(f, key).Some?);
          NormalObjectLookup(f, key);
          NormalObjectLookup(g, key);
        }
        SortedDetermined(nf, ng);
      }
    }
  }

  lemma {:induction false} SameNormalItems(a: Items, b: Items)
    requires WellFormedItems(a) && WellFormedItems(b)
    ensures NormalItems(a) == NormalItems(b) <==> SameItems(a, b)
    decreases a
  {
    if a.Item? && b.Item? {
      SameNormal(a.head, b.head);
      SameNormalItems(a.rest, b.rest);
    }
  }

  lemma {:induction false} LookupWellFormed(f: Fields, key: string)
    requires WellFormedFields(f) && Lookup(f, key).Some?
    ensures WellFormed(Lookup(f, key).value)
  {
    if f.key != key {
      LookupWellFormed(f.others, key);
    }
  }

  predicate AgreeAt(f: Fields, g: Fields, key: string) {
    Lookup(f, key).Some? ==> Lookup(g, key).Some? && Normal(Lookup(f, key).value) == Normal(Lookup(g, key).value)
  }

  /** Inclusion, entry by entry, is agreement of normal forms at every key. */
  lemma {:induction false} WithinIsLookup(f: Fields, g: Fields)
    requires WellFormedFields(f) && WellFormedFields(g)
    ensures Within(f, g) <==> forall key :: AgreeAt(f, g, key)
    decreases f
  {
    if f.Field? {
      WithinIsLookup(f.others, g);
      if Lookup(g, f.key).Some? {
        LookupWellFormed(g, f.key);
        SameNormal(f.value, Lookup(g, f.key).value);
      }
      forall key
        ensures AgreeAt(f, g, key) <==> if key == f.key then AgreeAt(f, g, f.key) else AgreeAt(f.others, g, key)
        ensures AgreeAt(f.others, g, f.key)
      {
      }
      assert AgreeAt(f, g, f.key) <==> Lookup(g, f.key).Some? && Same(f.value, Lookup(g, f.key).value);
      if forall key :: AgreeAt(f, g, key) {
        forall key
          ensures AgreeAt(f.others, g, key)
        {
          assert AgreeAt(f, g, key);
        }
      }
    }
  }

  lemma {:induction false} KeysAreLookup(f: Fields, g: Fields)
    ensures HasKeysOf(f, g) <==> forall key | Lookup(g, key).Some? :: Lookup(f, key).Some?
  {
    if g.Field? {
      KeysAreLookup(f, g.others);
      assert Lookup(g, g.key).Some?;
      assert forall key | Lookup(g.others, key).Some? :: Lookup(g, key).Some?;
      assert forall key | Lookup(g, key).Some? :: key == g.key || Lookup(g.others, key).Some?;
    }
  }

  /**
   * Canonical texts are equal exactly when the values are equal up to the order of object keys; so
   * with an injective digest a digest names one value.
   */
  lemma CanonicalDecides(v: Json, w: Json)
    requires WellFormed(v) && WellFormed(w)
    ensures Canonical(v) == Canonical(w) <==> Same(v, w)
  {
    SameNormal(v, w);
    if Canonical(v) == Canonical(w) {
      WriteInjective(Normal(v), Normal(w));
    }
  }

  // ---------------------------------------------------------------- the text as the scripts build it

  /** `Object.entries(value).sort(...).map(...)`: sort first, then write each entry canonically. */
  function CanonicalText(v: Json): string
    decreases v
  {
    match v
    case JArray(items) => ['['] + CanonicalItems(items) + [']']
    case JObject(fields) => ['{'] + JoinFields(SortTexts(FieldTexts(fields))) + ['}']
    case _ => Write(v)
  }

  function CanonicalItems(items: Items): string {
    match items
    case NoItems => ""
    case Item(h, t) => CanonicalText(h) + (if t.NoItems? then "" else [','] + CanonicalItems(t))
  }

  /** Each entry's key with the canonical text of its value. */
  datatype Texts = NoTexts | KeyText(key: string, text: string, others: Texts)

  function FieldTexts(f: Fields): Texts {
    match f
    case NoFields => NoTexts
    case Field(k, v, t) => KeyText(k, CanonicalText(v), FieldTexts(t))
  }

  function InsertText(k: string, x: string, t: Texts): Texts {
    match t
    case NoTexts => KeyText(k, x, NoTexts)
    case KeyText(k', x', r) => if StringLeq(k, k') then KeyText(k, x, t) else KeyText(k', x', InsertText(k, x, r))
  }

  function SortTexts(t: Texts): Texts {
    match t
    case NoTexts => NoTexts
    case KeyText(k, x, r) => InsertText(k, x, SortTexts(r))
  }

  function JoinFields(t: Texts): string {
    match t
    case NoTexts => ""
    case KeyText(k, x, r) => Quote(k) + [':'] + x + (if r.NoTexts? then "" else [','] + JoinFields(r))
  }

  function TextsOf(f: Fields): Texts {
    match f
    case NoFields => NoTexts
    case Field(k, v, t) => KeyText(k, Write(v), TextsOf(t))
  }

  lemma {:induction false} InsertCommutes(k: string, v: Json, f: Fields)
    ensures TextsOf(InsertField(k, v, f)) == InsertText(k, Write(v), TextsOf(f))
  {
    if f.Field? && !StringLeq(k, f.key) {
      InsertCommutes(k, v, f.others);
    }
  }

  lemma {:induction false} SortCommutes(f: Fields)
    ensures TextsOf(SortFields(f)) == SortTexts(TextsOf(f))
  {
    if f.Field? {
      SortCommutes(f.others);
      InsertCommutes(f.key, f.value, SortFields(f.others));
    }
  }

  lemma {:induction false} JoinIsWrite(f: Fields)
    ensures JoinFields(TextsOf(f)) == WriteFields(f)
  {
    if f.Field? {
      JoinIsWrite(f.others);
    }
  }

  /** Writing entries after sorting them is writing the value with its keys sorted. */
  lemma {:induction false} CanonicalTextIsCanonical(v: Json)
    ensures CanonicalText(v) == Canonical(v)
    decreases v
  {
    match v
    case JArray(items) => CanonicalItemsIsCanonical(items);
    case JObject(fields) =>
      FieldTextsIsCanonical(fields);
      SortCommutes(NormalFields(fields));
      JoinIsWrite(SortFields(NormalFields(fields)));
    case _ =>
  }

  lemma {:induction false} CanonicalItemsIsCanonical(items: Items)
    ensures CanonicalItems(items) == WriteItems(NormalItems(items))
    decreases items
  {
    if items.Item? {
      CanonicalTextIsCanonical(items.head);
      CanonicalItemsIsCanonical(items.rest);
    }
  }

  lemma {:induction false} FieldTextsIsCanonical(f: Fields)
    ensures FieldTexts(f) == TextsOf(NormalFields(f))
    decreases f
  {
    if f.Field? {
      CanonicalTextIsCanonical(f.value);
      FieldTextsIsCanonical(f.others);
    }
  }

  // ---------------------------------------------------------------- records

  /** An object with the given entries in the given order. */
  function Obj(es: seq<(string, Json)>): Fields {
    if |es| == 0 then NoFields else Field(es[0].0, es[0].1, Obj(es[1..]))
  }

  predicate DistinctKeys(es: seq<(string, Json)>) {
    forall i, j | 0 <= i < j < |es| :: es[i].0 != es[j].0
  }

  predicate SameKeys(es: seq<(string, Json)>, ds: seq<(string, Json)>) {
    |es| == |ds| && forall i | 0 <= i < |es| :: es[i].0 == ds[i].0
  }

  lemma {:induction false} ObjLookup(es: seq<(string, Json)>, key: string)
    ensures (forall i | 0 <= i < |es| :: es[i].0 != key) ==> Lookup(Obj(es), key).None?
  {
    if |es| > 0 {
      ObjLookup(es[1..], key);
      assert forall i | 0 <= i < |es| - 1 :: es[1..][i] == es[i + 1];
    }
  }

  lemma {:induction false} ObjWellFormed(es: seq<(string, Json)>)
    requires DistinctKeys(es) && forall i | 0 <= i < |es| :: WellFormed(es[i].1)
    ensures WellFormedFields(Obj(es))
  {
    if |es| > 0 {
      ObjLookup(es[1..], es[0].0);
      assert forall i | 0 <= i < |es| - 1 :: es[1..][i] == es[i + 1];
      ObjWellFormed(es[1..]);
    }
  }

  lemma {:induction false} WithinTail(h: Fields, g: Fields)
    requires g.Field? && Lookup(h, g.key).None? && Within(h, g)
    ensures Within(h, g.others)
  {
    if h.Field? {
      WithinTail(h.others, g);
    }
  }

  /** Two records of one shape are the same value exactly when they are field by field. */
  lemma {:induction false} RecordsAgree(es: seq<(string, Json)>, ds: seq<(string, Json)>)
    requires SameKeys(es, ds) && DistinctKeys(es) && Within(Obj(es), Obj(ds))
    ensures forall i | 0 <= i < |es| :: Same(es[i].1, ds[i].1)
  {
    if |es| > 0 {
      assert forall i | 0 <= i < |es| - 1 :: es[1..][i] == es[i + 1] && ds[1..][i] == ds[i + 1];
      ObjLookup(es[1..], es[0].0);
      WithinTail(Obj(es[1..]), Obj(ds));
      RecordsAgree(es[1..], ds[1..]);
      assert Same(es[0].1, ds[0].1);
      forall i | 0 <= i < |es|
        ensures Same(es[i].1, ds[i].1)
      {
        assert i > 0 ==> es[1..][i - 1] == es[i] && ds[1..][i - 1] == ds[i];
      }
    }
  }

  /** Records of one shape with one canonical text agree field by field. */
  lemma RecordTextsAgree(es: seq<(string, Json)>, ds: seq<(string, Json)>)
    requires SameKeys(es, ds) && DistinctKeys(es)
    requires WellFormed(JObject(Obj(es))) && WellFormed(JObject(Obj(ds)))
    requires Canonical(JObject(Obj(es))) == Canonical(JObject(Obj(ds)))
    ensures forall i | 0 <= i < |es| :: Same(es[i].1, ds[i].1)
  {
    CanonicalDecides(JObject(Obj(es)), JObject(Obj(ds)));
    RecordsAgree(es, ds);
  }
}

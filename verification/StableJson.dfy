/**
 The canonical text under the request hash and the bundle hash. The main result
 is that two values have the same canonical text exactly when they are the same
 value up to the order of object keys and to keys whose value is undefined. The
 one exception is an array that holds a single `undefined`: its text is that of
 the empty array, and nothing else collides.
 */
module StableJson {
  import opened Texts
  import opened JsonText
  import Sorting

  /**
   A value handed to `stableStringify`. A number is represented by the text
   `Number::toString` gives it. `Undefined` is the JavaScript value; it is no
   JSON value, but may stand as the value of an object key or in an array.
   */
  datatype Json =
    | Null
    | Bool(b: bool)
    | Num(text: Text)
    | Str(s: Text)
    | Arr(items: seq<Json>)
    | Obj(fields: seq<Field>)
    | Undefined

  datatype Field = Field(key: Text, value: Json)

  predicate KeyLe(a: Field, b: Field) { LexLe(a.key, b.key) }

  function Defined(fs: seq<Field>): (r: seq<Field>)
    ensures forall f :: f in r <==> f in fs && f.value != Undefined
  {
    if fs == [] then []
    else if fs[0].value == Undefined then Defined(fs[1..])
    else [fs[0]] + Defined(fs[1..])
  }

  /** The fields that reach the text, in the order in which they reach it. */
  function Ordered(fs: seq<Field>): (r: seq<Field>)
    ensures forall f :: f in r <==> f in fs && f.value != Undefined
  {
    SortMembers(fs);
    Defined(Sorting.Sort(fs, KeyLe))
  }

  /** `stableStringify(value)`; `undefined` as an array element joins as the empty text. */
  function Stable(v: Json): (t: Text)
    decreases v, 1
  {
    match v
    case Null => Lit("null")
    case Bool(b) => if b then Lit("true") else Lit("false")
    case Num(text) => text
    case Str(s) => Quote(s)
    case Arr(items) => [91] + StableItems(items) + [93]
    case Obj(fields) => [123] + StableFields(v, Ordered(fields)) + [125]
    case Undefined => []
  }

  function StableItems(items: seq<Json>): (t: Text)
    decreases items, 0
  {
    if items == [] then []
    else Stable(items[0]) + (if |items| == 1 then [] else [44] + StableItems(items[1..]))
  }

  function StableField(f: Field): (t: Text)
    decreases f, 2
  {
    Quote(f.key) + ([58] + Stable(f.value))
  }

  function StableFields(owner: Json, fs: seq<Field>): (t: Text)
    requires forall f | f in fs :: f < owner
    decreases owner, 0, |fs|
  {
    if fs == [] then []
    else
      assert fs[0] in fs;
      assert forall f | f in fs[1..] :: f in fs;
      StableField(fs[0]) + (if |fs| == 1 then [] else [44] + StableFields(owner, fs[1..]))
  }

  // ----- JSON values and their equality ----------------------------------

  /** A unit that can occur in the text of a number. */
  predicate NumUnit(u: Unit) { Digit(u) || u == 43 || u == 45 || u == 46 || u == 69 || u == 101 }

  predicate NumText(t: Text) {
    t != [] && (Digit(t[0]) || t[0] == 45) && forall i | 0 <= i < |t| :: NumUnit(t[i])
  }

  predicate DistinctKeys(fs: seq<Field>) {
    forall i, j | 0 <= i < j < |fs| :: fs[i].key != fs[j].key
  }

  /** Finite numbers and distinct keys; `undefined` may stand under a key and in an array. */
  predicate WellFormed(v: Json) {
    match v
    case Num(text) => NumText(text)
    case Arr(items) => forall x | x in items :: x == Undefined || WellFormed(x)
    case Obj(fields) =>
      DistinctKeys(fields) && forall f | f in fields :: f.value == Undefined || WellFormed(f.value)
    case Undefined => false
    case _ => true
  }

  /** A well-formed value in which no array is `[undefined]`. Every JSON value is one. */
  predicate Readable(v: Json) {
    match v
    case Num(text) => NumText(text)
    case Arr(items) => items != [Undefined] && forall x | x in items :: x == Undefined || Readable(x)
    case Obj(fields) =>
      DistinctKeys(fields) && forall f | f in fields :: f.value == Undefined || Readable(f.value)
    case Undefined => false
    case _ => true
  }

  predicate Element(x: Json) { x == Undefined || Readable(x) }

  /** The same value: key order and undefined keys do not matter, at any depth. */
  ghost predicate Same(v: Json, w: Json)
    decreases v, 1
  {
    match v
    case Arr(xs) => w.Arr? && |xs| == |w.items| && forall i | 0 <= i < |xs| :: Same(xs[i], w.items[i])
    case Obj(fs) => w.Obj? && Covered(fs, w.fields) && CoveredBy(fs, w.fields)
    case _ => v == w
  }

  /** Every defined field of `fs` has its equal in `gs`. */
  ghost predicate Covered(fs: seq<Field>, gs: seq<Field>)
    decreases fs, 0
  {
    forall f | f in fs && f.value != Undefined ::
      exists g | g in gs && g.value != Undefined :: f.key == g.key && Same(f.value, g.value)
  }

  /** Every defined field of `gs` has its equal in `fs`. */
  ghost predicate CoveredBy(fs: seq<Field>, gs: seq<Field>)
    decreases fs, 0
  {
    forall g | g in gs && g.value != Undefined ::
      exists f | f in fs && f.value != Undefined :: f.key == g.key && Same(f.value, g.value)
  }

  // ----- sorting by key --------------------------------------------------

  lemma KeyOrder()
    ensures Sorting.TotalPreorder(KeyLe)
  {
    forall a: Field, b: Field ensures KeyLe(a, b) || KeyLe(b, a) { LexTotal(a.key, b.key); }
    forall a: Field, b: Field, c: Field | KeyLe(a, b) && KeyLe(b, c) ensures KeyLe(a, c) {
      LexTransitive(a.key, b.key, c.key);
    }
  }

  lemma SortMembers(fs: seq<Field>)
    ensures forall f :: f in Sorting.Sort(fs, KeyLe) <==> f in fs
  {
    KeyOrder();
    Sorting.SortSorts(fs, KeyLe);
    forall f ensures f in Sorting.Sort(fs, KeyLe) <==> f in fs {
      assert f in multiset(Sorting.Sort(fs, KeyLe)) <==> f in multiset(fs);
    }
  }

  ghost predicate StrictKeys(fs: seq<Field>) {
    forall i, j | 0 <= i < j < |fs| :: LexLe(fs[i].key, fs[j].key) && fs[i].key != fs[j].key
  }

  lemma {:induction false} DefinedStrict(fs: seq<Field>)
    requires StrictKeys(fs)
    ensures StrictKeys(Defined(fs))
  {
    if fs != [] {
      DefinedStrict(fs[1..]);
      var r := Defined(fs[1..]);
      forall j | 0 <= j < |r| ensures LexLe(fs[0].key, r[j].key) && fs[0].key != r[j].key {
        assert r[j] in fs[1..];
      }
    }
  }

  lemma {:induction false} InsertStrict(x: Field, s: seq<Field>)
    requires StrictKeys(s) && forall f | f in s :: f.key != x.key
    ensures StrictKeys(Sorting.Insert(x, s, KeyLe))
  {
    if s == [] {
    } else if KeyLe(x, s[0]) {
      forall j | 0 <= j < |s| ensures LexLe(x.key, s[j].key) && x.key != s[j].key {
        assert s[j] in s;
        if j > 0 { LexTransitive(x.key, s[0].key, s[j].key); }
      }
    } else {
      LexTotal(x.key, s[0].key);
      assert s[0] in s;
      InsertStrict(x, s[1..]);
      KeyOrder();
      Sorting.InsertSorts(x, s[1..], KeyLe);
      var t := Sorting.Insert(x, s[1..], KeyLe);
      forall j | 0 <= j < |t| ensures LexLe(s[0].key, t[j].key) && s[0].key != t[j].key {
        assert t[j] in multiset(t);
        assert t[j] == x || t[j] in s[1..];
      }
    }
  }

  lemma {:induction false} SortStrict(fs: seq<Field>)
    requires DistinctKeys(fs)
    ensures StrictKeys(Sorting.Sort(fs, KeyLe))
  {
    if fs != [] {
      SortStrict(fs[1..]);
      SortMembers(fs[1..]);
      InsertStrict(fs[0], Sorting.Sort(fs[1..], KeyLe));
    }
  }

  lemma OrderedStrict(fs: seq<Field>)
    requires DistinctKeys(fs)
    ensures StrictKeys(Ordered(fs))
  {
    SortStrict(fs);
    DefinedStrict(Sorting.Sort(fs, KeyLe));
  }

  // ----- equality of objects through their ordered fields ----------------

  ghost predicate SameFields(fs: seq<Field>, gs: seq<Field>) {
    |fs| == |gs| && forall i | 0 <= i < |fs| :: fs[i].key == gs[i].key && Same(fs[i].value, gs[i].value)
  }

  ghost predicate Matched(f: Field, gs: seq<Field>) {
    exists g | g in gs :: f.key == g.key && Same(f.value, g.value)
  }

  ghost predicate MatchedBy(g: Field, fs: seq<Field>) {
    exists f | f in fs :: f.key == g.key && Same(f.value, g.value)
  }

  lemma StrictHead(fs: seq<Field>, gs: seq<Field>)
    requires StrictKeys(fs) && StrictKeys(gs) && fs != [] && gs != []
    requires Matched(fs[0], gs) && MatchedBy(gs[0], fs)
    ensures fs[0].key == gs[0].key && Same(fs[0].value, gs[0].value)
  {
    var g :| g in gs && fs[0].key == g.key && Same(fs[0].value, g.value);
    var f :| f in fs && f.key == gs[0].key && Same(f.value, gs[0].value);
    var i :| 0 <= i < |fs| && fs[i] == f;
    var j :| 0 <= j < |gs| && gs[j] == g;
    if i > 0 && j > 0 { LexAntisymmetric(fs[0].key, gs[0].key); }
  }

  /** Two strictly ordered lists whose fields match both ways match position by position. */
  lemma {:induction false} MatchStrict(fs: seq<Field>, gs: seq<Field>)
    requires StrictKeys(fs) && StrictKeys(gs)
    requires forall f | f in fs :: Matched(f, gs)
    requires forall g | g in gs :: MatchedBy(g, fs)
    ensures SameFields(fs, gs)
  {
    if fs == [] {
      assert gs != [] ==> gs[0] in gs && MatchedBy(gs[0], fs);
    } else {
      assert fs[0] in fs && Matched(fs[0], gs);
      assert gs[0] in gs && MatchedBy(gs[0], fs);
      StrictHead(fs, gs);
      forall f | f in fs[1..] ensures Matched(f, gs[1..]) {
        assert f in fs && Matched(f, gs);
        var g :| g in gs && f.key == g.key && Same(f.value, g.value);
        assert g == gs[0] || g in gs[1..];
      }
      forall g | g in gs[1..] ensures MatchedBy(g, fs[1..]) {
        assert g in gs && MatchedBy(g, fs);
        var f :| f in fs && f.key == g.key && Same(f.value, g.value);
        assert f == fs[0] || f in fs[1..];
      }
      MatchStrict(fs[1..], gs[1..]);
      assert forall i | 0 < i < |fs| :: fs[i] == fs[1..][i - 1] && gs[i] == gs[1..][i - 1];
    }
  }

  lemma ObjectsMatch(fs: seq<Field>, gs: seq<Field>)
    requires DistinctKeys(fs) && DistinctKeys(gs) && Same(Obj(fs), Obj(gs))
    ensures SameFields(Ordered(fs), Ordered(gs))
  {
    var a, b := Ordered(fs), Ordered(gs);
    OrderedStrict(fs);
    OrderedStrict(gs);
    forall f | f in a ensures Matched(f, b) {
      assert Covered(fs, gs);
      var g :| g in gs && g.value != Undefined && f.key == g.key && Same(f.value, g.value);
      assert g in b;
    }
    forall g | g in b ensures MatchedBy(g, a) {
      assert CoveredBy(fs, gs);
      var f :| f in fs && f.value != Undefined && f.key == g.key && Same(f.value, g.value);
      assert f in a;
    }
    MatchStrict(a, b);
  }

  lemma FieldsMatch(fs: seq<Field>, gs: seq<Field>)
    requires DistinctKeys(fs) && DistinctKeys(gs) && SameFields(Ordered(fs), Ordered(gs))
    ensures Same(Obj(fs), Obj(gs))
  {
    var a, b := Ordered(fs), Ordered(gs);
    OrderedStrict(fs);
    OrderedStrict(gs);
    forall f | f in fs && f.value != Undefined
      ensures exists g | g in gs && g.value != Undefined :: f.key == g.key && Same(f.value, g.value)
    {
      var i :| 0 <= i < |a| && a[i] == f;
      assert b[i] in b;
    }
    forall g | g in gs && g.value != Undefined
      ensures exists f | f in fs && f.value != Undefined :: f.key == g.key && Same(f.value, g.value)
    {
      var i :| 0 <= i < |b| && b[i] == g;
      assert a[i] in a;
    }
  }

  lemma SameObjects(fs: seq<Field>, gs: seq<Field>)
    requires DistinctKeys(fs) && DistinctKeys(gs)
    ensures Same(Obj(fs), Obj(gs)) <==> SameFields(Ordered(fs), Ordered(gs))
  {
    if Same(Obj(fs), Obj(gs)) { ObjectsMatch(fs, gs); }
    if SameFields(Ordered(fs), Ordered(gs)) { FieldsMatch(fs, gs); }
  }

  // ----- equal values have equal texts -----------------------------------

  lemma {:induction false} SameStable(v: Json, w: Json)
    requires Element(v) && Element(w) && Same(v, w)
    ensures Stable(v) == Stable(w)
    decreases v, 1
  {
    match v
    case Arr(xs) => SameStableItems(xs, w.items);
    case Obj(fs) =>
      SameObjects(fs, w.fields);
      SameStableFields(v, Ordered(fs), w, Ordered(w.fields));
    case _ =>
  }

  lemma {:induction false} SameStableItems(xs: seq<Json>, ys: seq<Json>)
    requires |xs| == |ys| && forall i | 0 <= i < |xs| :: Element(xs[i]) && Element(ys[i]) && Same(xs[i], ys[i])
    ensures StableItems(xs) == StableItems(ys)
    decreases xs, 0
  {
    if xs != [] {
      SameStable(xs[0], ys[0]);
      SameStableItems(xs[1..], ys[1..]);
    }
  }

  lemma {:induction false} SameStableFields(v: Json, fs: seq<Field>, w: Json, gs: seq<Field>)
    requires SameFields(fs, gs)
    requires forall f | f in fs :: f < v && Readable(f.value)
    requires forall g | g in gs :: g < w && Readable(g.value)
    ensures StableFields(v, fs) == StableFields(w, gs)
    decreases v, 0, |fs|
  {
    if fs != [] {
      assert fs[0] in fs && gs[0] in gs;
      SameStable(fs[0].value, gs[0].value);
      Tails(fs);
      Tails(gs);
      SameStableFields(v, fs[1..], w, gs[1..]);
      SameFirst(v, fs, w, gs);
    }
  }

  lemma Tails(fs: seq<Field>)
    requires fs != []
    ensures forall f | f in fs[1..] :: f in fs
  {}

  lemma SameFirst(v: Json, fs: seq<Field>, w: Json, gs: seq<Field>)
    requires fs != [] && |fs| == |gs| && (forall f | f in fs :: f < v) && (forall g | g in gs :: g < w)
    requires fs[0].key == gs[0].key && Stable(fs[0].value) == Stable(gs[0].value)
    requires (forall f | f in fs[1..] :: f < v) && (forall g | g in gs[1..] :: g < w)
    requires StableFields(v, fs[1..]) == StableFields(w, gs[1..])
    ensures StableFields(v, fs) == StableFields(w, gs)
  {}

  // ----- equal texts come from equal values ------------------------------

  /** What may follow a value inside a larger canonical text. */
  predicate Stop(x: Text) { x == [] || x[0] == 44 || x[0] == 93 || x[0] == 125 }

  lemma FirstUnit(v: Json)
    requires Readable(v)
    ensures Stable(v) != []
    ensures match v
            case Null => Stable(v)[0] == 110
            case Bool(b) => Stable(v)[0] == (if b then 116 else 102)
            case Num(_) => Digit(Stable(v)[0]) || Stable(v)[0] == 45
            case Str(_) => Stable(v)[0] == 34
            case Arr(_) => Stable(v)[0] == 91
            case Obj(_) => Stable(v)[0] == 123
            case Undefined => false
  {
    assert Lit("null")[0] == 110 && Lit("true")[0] == 116 && Lit("false")[0] == 102;
  }

  function NumRun(t: Text): (n: nat)
    ensures n <= |t|
  {
    if t == [] || !NumUnit(t[0]) then 0 else 1 + NumRun(t[1..])
  }

  lemma {:induction false} NumRunIs(a: Text, x: Text)
    requires (forall i | 0 <= i < |a| :: NumUnit(a[i])) && Stop(x)
    ensures NumRun(a + x) == |a|
  {
    if a == [] {
      assert a + x == x;
    } else {
      assert (a + x)[1..] == a[1..] + x;
      NumRunIs(a[1..], x);
    }
  }

  lemma NumPrefix(a: Text, x: Text, b: Text, y: Text)
    requires NumText(a) && NumText(b) && Stop(x) && Stop(y) && a + x == b + y
    ensures a == b && x == y
  {
    NumRunIs(a, x);
    NumRunIs(b, y);
    assert (a + x)[..|a|] == a && (b + y)[..|b|] == b;
    SameTail(a, x, y);
  }

  lemma PrefixHead(v: Json, x: Text, w: Json, y: Text)
    requires Element(v) && Element(w) && Stop(x) && Stop(y) && Stable(v) + x == Stable(w) + y
    ensures v.Undefined? == w.Undefined? && v.Null? == w.Null? && v.Bool? == w.Bool? && v.Num? == w.Num?
    ensures v.Str? == w.Str?
    ensures v.Arr? == w.Arr? && v.Obj? == w.Obj?
    ensures v.Bool? && w.Bool? ==> v == w
  {
    if v.Undefined? {
      assert Stable(v) + x == x;
    } else {
      FirstUnit(v);
      assert (Stable(v) + x)[0] == Stable(v)[0];
    }
    if w.Undefined? {
      assert Stable(w) + y == y;
    } else {
      FirstUnit(w);
      assert (Stable(w) + y)[0] == Stable(w)[0];
    }
  }

  lemma SameTail(a: Text, x: Text, y: Text)
    requires a + x == a + y
    ensures x == y
  {
    assert (a + x)[|a|..] == x && (a + y)[|a|..] == y;
  }

  /** A canonical text says where it ends and which value it stands for. */
  lemma {:induction false} StablePrefix(v: Json, x: Text, w: Json, y: Text)
    requires Element(v) && Element(w) && Stop(x) && Stop(y)
    requires Stable(v) + x == Stable(w) + y
    ensures Same(v, w) && x == y
    decreases v, 1
  {
    PrefixHead(v, x, w, y);
    match v
    case Num(a) => NumPrefix(a, x, w.text, y);
    case Str(a) => QuotePrefix(a, x, w.s, y);
    case Arr(xs) =>
      Bracketed(91, StableItems(xs), 93, x);
      Bracketed(91, StableItems(w.items), 93, y);
      SameTail([91], StableItems(xs) + ([93] + x), StableItems(w.items) + ([93] + y));
      ItemsPrefix(xs, x, w.items, y);
    case Obj(fs) =>
      Bracketed(123, StableFields(v, Ordered(fs)), 125, x);
      Bracketed(123, StableFields(w, Ordered(w.fields)), 125, y);
      SameTail([123], StableFields(v, Ordered(fs)) + ([125] + x), StableFields(w, Ordered(w.fields)) + ([125] + y));
      FieldsPrefix(v, Ordered(fs), x, w, Ordered(w.fields), y);
      SameObjects(fs, w.fields);
    case _ => SameTail(Stable(v), x, y);
  }

  lemma Bracketed(open: Unit, body: Text, close: Unit, x: Text)
    ensures [open] + body + [close] + x == [open] + (body + ([close] + x))
  {}

  function ItemsRest(xs: seq<Json>): (t: Text)
    requires xs != []
  {
    if |xs| == 1 then [] else [44] + StableItems(xs[1..])
  }

  predicate Elements(xs: seq<Json>) { forall v | v in xs :: Element(v) }

  lemma {:induction false} ItemsPrefix(xs: seq<Json>, x: Text, ys: seq<Json>, y: Text)
    requires Elements(xs) && Elements(ys) && xs != [Undefined] && ys != [Undefined]
    requires StableItems(xs) + ([93] + x) == StableItems(ys) + ([93] + y)
    ensures |xs| == |ys| && (forall i | 0 <= i < |xs| :: Same(xs[i], ys[i])) && x == y
    decreases xs, 1
  {
    if xs == [] || ys == [] {
      if xs != [] { ItemsOpen(xs, [93] + x); }
      if ys != [] { ItemsOpen(ys, [93] + y); }
      assert StableItems(xs) + ([93] + x) == StableItems(ys) + ([93] + y);
      assert xs == [] ==> StableItems(xs) + ([93] + x) == [93] + x;
      assert ys == [] ==> StableItems(ys) + ([93] + y) == [93] + y;
      SameTail([93], x, y);
    } else {
      ItemsMatch(xs, x, ys, y);
    }
  }

  /** Of two non-empty lists even a single `undefined` is told apart. */
  lemma {:induction false} ItemsMatch(xs: seq<Json>, x: Text, ys: seq<Json>, y: Text)
    requires Elements(xs) && Elements(ys) && xs != [] && ys != []
    requires StableItems(xs) + ([93] + x) == StableItems(ys) + ([93] + y)
    ensures |xs| == |ys| && (forall i | 0 <= i < |xs| :: Same(xs[i], ys[i])) && x == y
    decreases xs, 0
  {
    var p, q := ItemsRest(xs) + ([93] + x), ItemsRest(ys) + ([93] + y);
    Assoc(Stable(xs[0]), ItemsRest(xs), [93] + x);
    Assoc(Stable(ys[0]), ItemsRest(ys), [93] + y);
    assert xs[0] in xs && ys[0] in ys;
    assert p[0] == (if |xs| == 1 then 93 else 44) && q[0] == (if |ys| == 1 then 93 else 44);
    StablePrefix(xs[0], p, ys[0], q);
    if |xs| == 1 {
      assert p == [93] + x && q == [93] + y;
      SameTail([93], x, y);
    } else {
      Assoc([44], StableItems(xs[1..]), [93] + x);
      Assoc([44], StableItems(ys[1..]), [93] + y);
      SameTail([44], StableItems(xs[1..]) + ([93] + x), StableItems(ys[1..]) + ([93] + y));
      ItemsMatch(xs[1..], x, ys[1..], y);
      assert forall i | 0 < i < |xs| :: xs[i] == xs[1..][i - 1] && ys[i] == ys[1..][i - 1];
    }
  }

  lemma ItemsOpen(xs: seq<Json>, x: Text)
    requires xs != [] && xs != [Undefined] && Element(xs[0])
    ensures StableItems(xs) != [] && (StableItems(xs) + x)[0] != 93
  {
    if xs[0] == Undefined {
      assert |xs| > 1;
      assert StableItems(xs)[0] == 44;
    } else {
      FirstUnit(xs[0]);
      assert (StableItems(xs) + x)[0] == Stable(xs[0])[0];
    }
  }

  function FieldsRest(owner: Json, fs: seq<Field>): (t: Text)
    requires fs != [] && forall f | f in fs :: f < owner
  {
    assert forall f | f in fs[1..] :: f in fs;
    if |fs| == 1 then [] else [44] + StableFields(owner, fs[1..])
  }

  lemma FieldOpens(owner: Json, fs: seq<Field>, x: Text)
    requires fs != [] && forall f | f in fs :: f < owner
    ensures StableFields(owner, fs) + x ==
            Quote(fs[0].key) + ([58] + (Stable(fs[0].value) + (FieldsRest(owner, fs) + x)))
    ensures (StableFields(owner, fs) + x)[0] == QUOTE
  {
    assert fs[0] in fs;
    assert StableFields(owner, fs) == StableField(fs[0]) + FieldsRest(owner, fs);
    Assoc(StableField(fs[0]), FieldsRest(owner, fs), x);
    var rest := FieldsRest(owner, fs) + x;
    Assoc(Quote(fs[0].key), [58] + Stable(fs[0].value), rest);
    Assoc([58], Stable(fs[0].value), rest);
  }

  lemma FieldsTail(v: Json, fs: seq<Field>, x: Text, w: Json, gs: seq<Field>, y: Text)
    requires fs != [] && (forall f | f in fs :: f < v)
    requires gs != [] && (forall g | g in gs :: g < w)
    requires FieldsRest(v, fs) + ([125] + x) == FieldsRest(w, gs) + ([125] + y)
    ensures (|fs| == 1) == (|gs| == 1)
    ensures |fs| == 1 ==> x == y
    ensures |fs| > 1 ==> (forall f | f in fs[1..] :: f in fs) && (forall g | g in gs[1..] :: g in gs)
    ensures |fs| > 1 ==> StableFields(v, fs[1..]) + ([125] + x) == StableFields(w, gs[1..]) + ([125] + y)
  {
    var p, q := FieldsRest(v, fs) + ([125] + x), FieldsRest(w, gs) + ([125] + y);
    assert p[0] == (if |fs| == 1 then 125 else 44) && q[0] == (if |gs| == 1 then 125 else 44);
    if |fs| == 1 {
      assert p == [125] + x && q == [125] + y;
      SameTail([125], x, y);
    } else {
      assert (forall f | f in fs[1..] :: f in fs) && (forall g | g in gs[1..] :: g in gs);
      Assoc([44], StableFields(v, fs[1..]), [125] + x);
      Assoc([44], StableFields(w, gs[1..]), [125] + y);
      SameTail([44], StableFields(v, fs[1..]) + ([125] + x), StableFields(w, gs[1..]) + ([125] + y));
    }
  }

  lemma SameFieldsCons(fs: seq<Field>, gs: seq<Field>)
    requires fs != [] && gs != [] && fs[0].key == gs[0].key && Same(fs[0].value, gs[0].value)
    requires SameFields(fs[1..], gs[1..])
    ensures SameFields(fs, gs)
  {
    assert forall i | 0 < i < |fs| :: fs[i] == fs[1..][i - 1];
    assert forall i | 0 < i < |gs| :: gs[i] == gs[1..][i - 1];
  }

  lemma {:induction false} FieldsPrefix(v: Json, fs: seq<Field>, x: Text, w: Json, gs: seq<Field>, y: Text)
    requires forall f | f in fs :: f < v && Readable(f.value)
    requires forall g | g in gs :: g < w && Readable(g.value)
    requires StableFields(v, fs) + ([125] + x) == StableFields(w, gs) + ([125] + y)
    ensures SameFields(fs, gs) && x == y
    decreases v, 0, |fs|
  {
    if fs != [] { FieldOpens(v, fs, [125] + x); }
    if gs != [] { FieldOpens(w, gs, [125] + y); }
    if fs == [] || gs == [] {
      assert fs == [] ==> StableFields(v, fs) + ([125] + x) == [125] + x;
      assert gs == [] ==> StableFields(w, gs) + ([125] + y) == [125] + y;
      SameTail([125], x, y);
    } else {
      var p, q := FieldsRest(v, fs) + ([125] + x), FieldsRest(w, gs) + ([125] + y);
      var a, b := Stable(fs[0].value) + p, Stable(gs[0].value) + q;
      QuotePrefix(fs[0].key, [58] + a, gs[0].key, [58] + b);
      SameTail([58], a, b);
      assert fs[0] in fs && gs[0] in gs;
      StablePrefix(fs[0].value, p, gs[0].value, q);
      FieldsTail(v, fs, x, w, gs, y);
      if |fs| > 1 {
        FieldsPrefix(v, fs[1..], x, w, gs[1..], y);
        SameFieldsCons(fs, gs);
      }
    }
  }

  /** The canonical text is a complete invariant of every value without an `[undefined]` array. */
  lemma StableCanonical(v: Json, w: Json)
    requires Readable(v) && Readable(w)
    ensures Stable(v) == Stable(w) <==> Same(v, w)
  {
    if Same(v, w) { SameStable(v, w); }
    if Stable(v) == Stable(w) {
      assert Stable(v) + [] == Stable(w) + [];
      StablePrefix(v, [], w, []);
    }
  }

  // ----- the only collision ----------------------------------------------

  /** Every `[undefined]` array emptied, at every depth. */
  function Collapse(v: Json): (w: Json)
    decreases v, 0
  {
    match v
    case Arr(items) => if items == [Undefined] then Arr([]) else Arr(CollapseAll(items))
    case Obj(fields) => Obj(CollapseFields(fields))
    case _ => v
  }

  function CollapseAll(items: seq<Json>): (r: seq<Json>)
    ensures |r| == |items| && forall i | 0 <= i < |items| :: r[i] == Collapse(items[i])
    decreases items, 0
  {
    if items == [] then [] else [Collapse(items[0])] + CollapseAll(items[1..])
  }

  function CollapseField(f: Field): (g: Field)
    decreases f, 0
  {
    Field(f.key, Collapse(f.value))
  }

  function CollapseFields(fs: seq<Field>): (gs: seq<Field>)
    ensures |gs| == |fs| && forall i | 0 <= i < |fs| :: gs[i] == CollapseField(fs[i])
    decreases fs, 0
  {
    if fs == [] then [] else [CollapseField(fs[0])] + CollapseFields(fs[1..])
  }

  lemma CollapseObj(fs: seq<Field>)
    ensures Collapse(Obj(fs)) == Obj(CollapseFields(fs)) && CollapseFields(fs) == Sorting.Map(fs, CollapseField)
  {
    assert Sorting.Map(fs, CollapseField) == CollapseFields(fs);
  }

  lemma {:induction false} CollapseReadable(v: Json)
    requires WellFormed(v)
    ensures Readable(Collapse(v))
  {
    match v
    case Arr(items) =>
      if items != [Undefined] {
        var ys := Collapse(v).items;
        forall y | y in ys ensures y == Undefined || Readable(y) {
          var i :| 0 <= i < |ys| && ys[i] == y;
          assert items[i] in items;
          if items[i] != Undefined { CollapseReadable(items[i]); }
        }
        assert |items| == 1 ==> items[0] != Undefined && ys[0] == Collapse(items[0]);
      }
    case Obj(fs) =>
      var gs := Collapse(v).fields;
      forall g | g in gs ensures g.value == Undefined || Readable(g.value) {
        var i :| 0 <= i < |gs| && gs[i] == g;
        assert fs[i] in fs && g == CollapseField(fs[i]);
        assert g.value == Collapse(fs[i].value);
        if fs[i].value != Undefined {
          CollapseReadable(fs[i].value);
        } else {
          assert g.value == Undefined;
        }
      }
    case _ =>
  }

  lemma {:induction false} DefinedMap(fs: seq<Field>)
    ensures Defined(Sorting.Map(fs, CollapseField)) == Sorting.Map(Defined(fs), CollapseField)
  {
    if fs != [] {
      DefinedMap(fs[1..]);
      assert Sorting.Map(fs, CollapseField)[1..] == Sorting.Map(fs[1..], CollapseField);
      assert fs[0].value != Undefined ==> Defined(fs)[1..] == Defined(fs[1..]);
    }
  }

  lemma OrderedMap(fs: seq<Field>)
    ensures Ordered(CollapseFields(fs)) == Sorting.Map(Ordered(fs), CollapseField)
  {
    CollapseObj(fs);
    Sorting.SortMap(fs, CollapseField, KeyLe, KeyLe);
    DefinedMap(Sorting.Sort(fs, KeyLe));
  }

  lemma {:induction false} CollapseItems(xs: seq<Json>, ys: seq<Json>)
    requires |xs| == |ys| && forall i | 0 <= i < |xs| :: ys[i] == Collapse(xs[i])
    ensures StableItems(xs) == StableItems(ys)
    decreases xs, 0
  {
    if xs != [] {
      CollapseStable(xs[0]);
      CollapseItems(xs[1..], ys[1..]);
    }
  }

  lemma {:induction false} CollapseStableFields(v: Json, fs: seq<Field>, w: Json, gs: seq<Field>)
    requires |fs| == |gs| && forall i | 0 <= i < |fs| :: gs[i] == CollapseField(fs[i])
    requires (forall f | f in fs :: f < v) && (forall g | g in gs :: g < w)
    ensures StableFields(v, fs) == StableFields(w, gs)
    decreases v, 0, |fs|
  {
    if fs != [] {
      assert fs[0] in fs && gs[0] in gs;
      CollapseStable(fs[0].value);
      assert (forall f | f in fs[1..] :: f in fs) && (forall g | g in gs[1..] :: g in gs);
      CollapseStableFields(v, fs[1..], w, gs[1..]);
    }
  }

  /** Emptying `[undefined]` arrays never shows in the text. */
  lemma {:induction false} CollapseStable(v: Json)
    ensures Stable(Collapse(v)) == Stable(v)
    decreases v, 1
  {
    match v
    case Arr(items) =>
      if items == [Undefined] {
        assert StableItems(items) == [];
      } else {
        CollapseItems(items, Collapse(v).items);
      }
    case Obj(fs) =>
      CollapseObj(fs);
      OrderedMap(fs);
      CollapseStableFields(v, Ordered(fs), Collapse(v), Ordered(CollapseFields(fs)));
    case _ =>
  }

  /** Two well-formed values collide exactly when they differ in nothing but emptied arrays. */
  lemma StableExactly(v: Json, w: Json)
    requires WellFormed(v) && WellFormed(w)
    ensures Stable(v) == Stable(w) <==> Same(Collapse(v), Collapse(w))
  {
    CollapseStable(v);
    CollapseStable(w);
    CollapseReadable(v);
    CollapseReadable(w);
    StableCanonical(Collapse(v), Collapse(w));
  }

  lemma {:induction false} SameSelf(v: Json)
    ensures Same(v, v)
  {
    match v
    case Arr(items) => forall i | 0 <= i < |items| ensures Same(items[i], items[i]) { SameSelf(items[i]); }
    case Obj(fs) => forall f | f in fs ensures Same(f.value, f.value) { SameSelf(f.value); }
    case _ =>
  }

  lemma {:induction false} CollapseFixes(v: Json)
    requires Readable(v)
    ensures Collapse(v) == v
  {
    match v
    case Arr(items) =>
      forall i | 0 <= i < |items| ensures Collapse(items[i]) == items[i] {
        assert items[i] in items;
        if items[i] != Undefined { CollapseFixes(items[i]); }
      }
      assert Collapse(v).items == items;
    case Obj(fs) =>
      forall i | 0 <= i < |fs| ensures CollapseField(fs[i]) == fs[i] {
        assert fs[i] in fs;
        if fs[i].value != Undefined { CollapseFixes(fs[i].value); }
      }
      CollapseObj(fs);
      assert CollapseFields(fs) == fs;
    case _ =>
  }

  lemma {:induction false} SameCollapseReadable(v: Json)
    requires WellFormed(v) && Same(v, Collapse(v))
    ensures Readable(v)
  {
    match v
    case Arr(items) =>
      forall x | x in items ensures x == Undefined || Readable(x) {
        var i :| 0 <= i < |items| && items[i] == x;
        assert Same(items[i], Collapse(v).items[i]);
        if x != Undefined { SameCollapseReadable(x); }
      }
    case Obj(fs) =>
      CollapseObj(fs);
      assert Covered(fs, CollapseFields(fs));
      forall f | f in fs ensures f.value == Undefined || Readable(f.value) {
        if f.value != Undefined {
          MatchedItself(fs, f);
          SameCollapseReadable(f.value);
        }
      }
    case _ =>
  }

  lemma MatchedItself(fs: seq<Field>, f: Field)
    requires f in fs && f.value != Undefined && DistinctKeys(fs) && Covered(fs, CollapseFields(fs))
    ensures Same(f.value, Collapse(f.value))
  {
    var g :| g in CollapseFields(fs) && g.value != Undefined && f.key == g.key && Same(f.value, g.value);
    SameKey(fs, f, g);
  }

  lemma SameKey(fs: seq<Field>, f: Field, g: Field)
    requires f in fs && DistinctKeys(fs) && g in CollapseFields(fs) && g.key == f.key
    ensures g == CollapseField(f)
  {
    var i :| 0 <= i < |fs| && fs[i] == f;
    var j :| 0 <= j < |fs| && CollapseFields(fs)[j] == g;
    assert fs[j].key == fs[i].key;
  }

  /**
   Every value with an `[undefined]` array in it collides: emptying the array gives
   a different value with the same text. Every other value is left as it is.
   */
  lemma UndefinedElementCollides(v: Json)
    requires WellFormed(v)
    ensures Stable(Collapse(v)) == Stable(v)
    ensures Same(v, Collapse(v)) <==> Readable(v)
  {
    CollapseStable(v);
    if Readable(v) {
      CollapseFixes(v);
      SameSelf(v);
    }
    if Same(v, Collapse(v)) { SameCollapseReadable(v); }
  }
}

/**
 The canonical text is JSON (RFC 8259) without white space, with the keys of every
 object in ascending order: a plain reader of the grammar gives the value back.
 */
module JsonReader {
  import opened Texts
  import opened Wrappers
  import opened JsonText
  import opened StableJson

  // ----- a reader of the grammar -----------------------------------------

  lemma {:induction false} BodyShorter(t: Text)
    ensures ParseBody(t).Some? ==> |ParseBody(t).value.1| < |t|
    decreases |t|
  {
    if t != [] && t[0] >= 32 && t[0] != QUOTE {
      if t[0] != 92 {
        BodyShorter(t[1..]);
      } else if |t| >= 2 {
        if t[1] == 117 {
          if |t| >= 6 { BodyShorter(t[6..]); }
        } else {
          BodyShorter(t[2..]);
        }
      }
    }
  }

  /** A string literal at the start of the text, and what follows it. */
  function ReadString(t: Text): (r: Option<(Text, Text)>)
    ensures r.Some? ==> |r.value.1| < |t|
  {
    BodyShorter(if t == [] then [] else t[1..]);
    if t == [] || t[0] != QUOTE then None else ParseBody(t[1..])
  }

  /** One of the three literal names. */
  function ReadName(t: Text, name: Text, v: Json): (r: Option<(Json, Text)>)
    requires name != []
    ensures r.Some? ==> |r.value.1| < |t|
  {
    if |name| <= |t| && t[..|name|] == name then Some((v, t[|name|..])) else None
  }

  /** A value at the start of the text, and what follows it. */
  function Read(t: Text): (r: Option<(Json, Text)>)
    ensures r.Some? ==> |r.value.1| < |t|
    decreases |t|, 0
  {
    if t == [] then None
    else if t[0] == QUOTE then
      var (s, rest) :- ReadString(t);
      Some((Str(s), rest))
    else if t[0] == 91 then
      if |t| > 1 && t[1] == 93 then Some((Arr([]), t[2..]))
      else
        var (items, rest) :- ReadItems(t[1..]);
        Some((Arr(items), rest))
    else if t[0] == 123 then
      if |t| > 1 && t[1] == 125 then Some((Obj([]), t[2..]))
      else
        var (fields, rest) :- ReadFields(t[1..]);
        Some((Obj(fields), rest))
    else if t[0] == 110 then ReadName(t, Lit("null"), Null)
    else if t[0] == 116 then ReadName(t, Lit("true"), Bool(true))
    else if t[0] == 102 then ReadName(t, Lit("false"), Bool(false))
    else if Digit(t[0]) || t[0] == 45 then
      assert NumRun(t) >= 1;
      Some((Num(t[..NumRun(t)]), t[NumRun(t)..]))
    else None
  }

  /** The rest of a non-empty array. */
  function ReadItems(t: Text): (r: Option<(seq<Json>, Text)>)
    ensures r.Some? ==> |r.value.1| < |t|
    decreases |t|, 1
  {
    var (v, rest) :- Read(t);
    if rest != [] && rest[0] == 93 then Some(([v], rest[1..]))
    else if rest != [] && rest[0] == 44 then
      var (vs, after) :- ReadItems(rest[1..]);
      Some(([v] + vs, after))
    else None
  }

  /** The rest of a non-empty object. */
  function ReadFields(t: Text): (r: Option<(seq<Field>, Text)>)
    ensures r.Some? ==> |r.value.1| < |t|
    decreases |t|, 1
  {
    var (key, colon) :- ReadString(t);
    if colon == [] || colon[0] != 58 then None
    else
      var (v, rest) :- Read(colon[1..]);
      if rest != [] && rest[0] == 125 then Some(([Field(key, v)], rest[1..]))
      else if rest != [] && rest[0] == 44 then
        var (fs, after) :- ReadFields(rest[1..]);
        Some(([Field(key, v)] + fs, after))
      else None
  }

  // ----- values ----------------------------------------------------------

  /** A JSON value; an object may have keys whose value is undefined, which are not printed. */
  predicate JsonValue(v: Json) {
    match v
    case Num(text) => NumText(text)
    case Arr(items) => forall x | x in items :: x != Undefined && JsonValue(x)
    case Obj(fields) =>
      DistinctKeys(fields) && forall f | f in fields :: f.value == Undefined || JsonValue(f.value)
    case Undefined => false
    case _ => true
  }

  /** Nothing undefined, and the keys of every object in ascending order. */
  ghost predicate Tidy(v: Json) {
    match v
    case Arr(items) => forall x | x in items :: Tidy(x)
    case Obj(fields) => StrictKeys(fields) && forall f | f in fields :: Tidy(f.value)
    case Undefined => false
    case _ => true
  }

  // ----- reading what was printed ----------------------------------------

  lemma ReadQuoted(s: Text, x: Text)
    ensures ReadString(Quote(s) + x) == Some((s, x))
  {
    ParseEscape(s, x);
    QuoteTail(s, x);
    assert (Quote(s) + x)[0] == QUOTE;
  }

  lemma ReadNamed(name: Text, v: Json, x: Text)
    requires name != []
    ensures ReadName(name + x, name, v) == Some((v, x))
  {
    assert (name + x)[..|name|] == name && (name + x)[|name|..] == x;
  }

  lemma ReadNumber(text: Text, x: Text)
    requires NumText(text) && Stop(x)
    ensures Read(text + x) == Some((Num(text), x))
  {
    NumRunIs(text, x);
    assert (text + x)[0] == text[0];
    assert (text + x)[..|text|] == text && (text + x)[|text|..] == x;
  }

  lemma ValueReadable(v: Json)
    requires JsonValue(v)
    ensures Readable(v)
  {
    match v
    case Arr(items) =>
      if items != [] { assert items[0] in items; }
      forall x | x in items ensures Readable(x) { ValueReadable(x); }
    case Obj(fields) =>
      forall f | f in fields && f.value != Undefined ensures Readable(f.value) { ValueReadable(f.value); }
    case _ =>
  }

  lemma EmptyReads(open: Unit, close: Unit, x: Text)
    ensures var t := [open] + [] + [close] + x; |t| > 1 && t[0] == open && t[1] == close && t[2..] == x
  {}

  lemma ArrayReads(items: seq<Json>, ws: seq<Json>, x: Text)
    requires items != [] && forall v | v in items :: v != Undefined && JsonValue(v)
    requires ReadItems(StableItems(items) + ([93] + x)) == Some((ws, x))
    ensures Read(Stable(Arr(items)) + x) == Some((Arr(ws), x))
  {
    var t := Stable(Arr(items)) + x;
    Bracketed(91, StableItems(items), 93, x);
    assert t[0] == 91 && t[1..] == StableItems(items) + ([93] + x);
    ItemsOpen(items, [93] + x);
  }

  lemma ObjectReads(v: Json, fs: seq<Field>, gs: seq<Field>, x: Text)
    requires v.Obj? && fs == Ordered(v.fields) && fs != []
    requires forall f | f in fs :: f < v
    requires ReadFields(StableFields(v, fs) + ([125] + x)) == Some((gs, x))
    ensures Read(Stable(v) + x) == Some((Obj(gs), x))
  {
    var t := Stable(v) + x;
    Bracketed(123, StableFields(v, fs), 125, x);
    assert t[0] == 123 && t[1..] == StableFields(v, fs) + ([125] + x);
    FieldOpens(v, fs, [125] + x);
  }

  /** A printed value is read back, and what follows it is left. */
  lemma {:induction false} ReadStable(v: Json, x: Text) returns (w: Json)
    requires JsonValue(v) && Stop(x)
    ensures Read(Stable(v) + x) == Some((w, x)) && Same(v, w) && Tidy(w)
    decreases v, 1
  {
    w := v;
    ValueReadable(v);
    FirstUnit(v);
    var t := Stable(v) + x;
    assert t[0] == Stable(v)[0];
    match v
    case Null => ReadNamed(Lit("null"), Null, x);
    case Bool(b) => ReadNamed(Lit(if b then "true" else "false"), v, x);
    case Num(text) => ReadNumber(text, x);
    case Str(s) => ReadQuoted(s, x);
    case Arr(items) =>
      if items == [] {
        EmptyReads(91, 93, x);
      } else {
        var ws := ReadItemsStable(items, x);
        ArrayReads(items, ws, x);
        SameArrays(items, ws);
        w := Arr(ws);
      }
    case Obj(fields) =>
      var fs := Ordered(fields);
      OrderedStrict(fields);
      if fs == [] {
        EmptyReads(123, 125, x);
        w := Obj([]);
        SameOrdered(fields, []);
      } else {
        var gs := ReadFieldsStable(v, fs, x);
        ObjectReads(v, fs, gs, x);
        w := Obj(gs);
        SameOrdered(fields, gs);
      }
  }

  /** The text of a non-empty array does not start like the end of one. */
  lemma ItemsOpen(items: seq<Json>, x: Text)
    requires items != [] && forall v | v in items :: v != Undefined && JsonValue(v)
    ensures StableItems(items) + x != [] && (StableItems(items) + x)[0] != 93
  {
    assert items[0] in items;
    ValueReadable(items[0]);
    FirstUnit(items[0]);
    assert (StableItems(items) + x)[0] == Stable(items[0])[0];
  }

  lemma LastItem(t: Text, w: Json, x: Text)
    requires Read(t) == Some((w, [93] + x))
    ensures ReadItems(t) == Some(([w], x))
  {
    assert ([93] + x)[1..] == x;
  }

  lemma NextItem(t: Text, w: Json, u: Text, ws: seq<Json>, x: Text)
    requires Read(t) == Some((w, [44] + u)) && ReadItems(u) == Some((ws, x))
    ensures ReadItems(t) == Some(([w] + ws, x))
  {
    assert ([44] + u)[1..] == u;
  }

  /** The values are the same and tidy, one by one. */
  ghost predicate SameTidy(vs: seq<Json>, ws: seq<Json>) {
    |ws| == |vs| && forall i | 0 <= i < |vs| :: SameTidyAt(vs[i], ws[i])
  }

  ghost predicate SameTidyAt(v: Json, w: Json) { Same(v, w) && Tidy(w) }

  lemma SameTidyCons(v: Json, w: Json, vs: seq<Json>, ws: seq<Json>)
    requires SameTidyAt(v, w) && SameTidy(vs, ws)
    ensures SameTidy([v] + vs, [w] + ws)
  {}

  lemma SameArrays(vs: seq<Json>, ws: seq<Json>)
    requires SameTidy(vs, ws)
    ensures Same(Arr(vs), Arr(ws)) && Tidy(Arr(ws))
  {
    assert forall i | 0 <= i < |vs| :: SameTidyAt(vs[i], ws[i]);
  }

  lemma OneItem(items: seq<Json>, x: Text, w: Json)
    requires |items| == 1
    requires Read(Stable(items[0]) + (ItemsRest(items) + ([93] + x))) == Some((w, ItemsRest(items) + ([93] + x)))
    ensures ReadItems(StableItems(items) + ([93] + x)) == Some(([w], x))
  {
    var end := [93] + x;
    Assoc(Stable(items[0]), ItemsRest(items), end);
    assert ItemsRest(items) + end == end;
    LastItem(StableItems(items) + end, w, x);
  }

  lemma MoreItems(items: seq<Json>, x: Text, w: Json, more: seq<Json>)
    requires |items| > 1
    requires Read(Stable(items[0]) + (ItemsRest(items) + ([93] + x))) == Some((w, ItemsRest(items) + ([93] + x)))
    requires ReadItems(StableItems(items[1..]) + ([93] + x)) == Some((more, x))
    ensures ReadItems(StableItems(items) + ([93] + x)) == Some(([w] + more, x))
  {
    var end := [93] + x;
    Assoc(Stable(items[0]), ItemsRest(items), end);
    Assoc([44], StableItems(items[1..]), end);
    NextItem(StableItems(items) + end, w, StableItems(items[1..]) + end, more, x);
  }

  predicate AllValues(items: seq<Json>) { forall v | v in items :: v != Undefined && JsonValue(v) }

  lemma RestStops(items: seq<Json>, x: Text)
    requires items != []
    ensures Stop(ItemsRest(items) + ([93] + x))
  {}

  lemma {:induction false} ReadItemsStable(items: seq<Json>, x: Text) returns (ws: seq<Json>)
    requires items != [] && AllValues(items)
    ensures ReadItems(StableItems(items) + ([93] + x)) == Some((ws, x)) && SameTidy(items, ws)
    decreases items, 0
  {
    assert items[0] in items && forall v | v in items[1..] :: v in items;
    RestStops(items, x);
    var w := ReadStable(items[0], ItemsRest(items) + ([93] + x));
    if |items| == 1 {
      OneItem(items, x, w);
      ws := [w];
    } else {
      var more := ReadItemsStable(items[1..], x);
      MoreItems(items, x, w, more);
      ws := [w] + more;
      SameTidyCons(items[0], w, items[1..], more);
      assert items == [items[0]] + items[1..];
    }
  }

  lemma LastField(t: Text, key: Text, colon: Text, w: Json, x: Text)
    requires ReadString(t) == Some((key, [58] + colon)) && Read(colon) == Some((w, [125] + x))
    ensures ReadFields(t) == Some(([Field(key, w)], x))
  {
    assert ([58] + colon)[1..] == colon && ([125] + x)[1..] == x;
  }

  lemma NextField(t: Text, key: Text, colon: Text, w: Json, u: Text, gs: seq<Field>, x: Text)
    requires ReadString(t) == Some((key, [58] + colon)) && Read(colon) == Some((w, [44] + u))
    requires ReadFields(u) == Some((gs, x))
    ensures ReadFields(t) == Some(([Field(key, w)] + gs, x))
  {
    assert ([58] + colon)[1..] == colon && ([44] + u)[1..] == u;
  }

  /** The fields have the same keys and the same, tidy, values. */
  ghost predicate SameTidyFields(fs: seq<Field>, gs: seq<Field>) {
    |gs| == |fs| && forall i | 0 <= i < |fs| :: SameTidyField(fs[i], gs[i])
  }

  ghost predicate SameTidyField(f: Field, g: Field) { f.key == g.key && SameTidyAt(f.value, g.value) }

  lemma SameFieldsTidyCons(f: Field, g: Field, fs: seq<Field>, gs: seq<Field>)
    requires SameTidyField(f, g) && SameTidyFields(fs, gs)
    ensures SameTidyFields([f] + fs, [g] + gs)
  {}

  lemma FieldsGoOn(owner: Json, fs: seq<Field>, end: Text)
    requires |fs| > 1 && (forall f | f in fs :: f < owner) && forall f | f in fs[1..] :: f < owner
    ensures FieldsRest(owner, fs) + end == [44] + (StableFields(owner, fs[1..]) + end)
  {
    Assoc([44], StableFields(owner, fs[1..]), end);
  }

  lemma FieldsStop(owner: Json, fs: seq<Field>, end: Text)
    requires |fs| == 1 && forall f | f in fs :: f < owner
    ensures FieldsRest(owner, fs) + end == end
  {}

  /** The text of fields opens with the first key. */
  lemma FieldsOpen(owner: Json, fs: seq<Field>, end: Text)
    requires fs != [] && forall f | f in fs :: f < owner
    ensures ReadString(StableFields(owner, fs) + end) ==
            Some((fs[0].key, [58] + (Stable(fs[0].value) + (FieldsRest(owner, fs) + end))))
  {
    FieldOpens(owner, fs, end);
    ReadQuoted(fs[0].key, [58] + (Stable(fs[0].value) + (FieldsRest(owner, fs) + end)));
  }

  lemma OneField(owner: Json, fs: seq<Field>, x: Text, w: Json)
    requires |fs| == 1 && forall f | f in fs :: f < owner
    requires Read(Stable(fs[0].value) + (FieldsRest(owner, fs) + ([125] + x))) ==
             Some((w, FieldsRest(owner, fs) + ([125] + x)))
    ensures ReadFields(StableFields(owner, fs) + ([125] + x)) == Some(([Field(fs[0].key, w)], x))
  {
    var end := [125] + x;
    FieldsOpen(owner, fs, end);
    FieldsStop(owner, fs, end);
    LastField(StableFields(owner, fs) + end, fs[0].key, Stable(fs[0].value) + (FieldsRest(owner, fs) + end), w, x);
  }

  lemma MoreFields(owner: Json, fs: seq<Field>, x: Text, w: Json, more: seq<Field>)
    requires |fs| > 1 && (forall f | f in fs :: f < owner) && forall f | f in fs[1..] :: f < owner
    requires Read(Stable(fs[0].value) + (FieldsRest(owner, fs) + ([125] + x))) ==
             Some((w, FieldsRest(owner, fs) + ([125] + x)))
    requires ReadFields(StableFields(owner, fs[1..]) + ([125] + x)) == Some((more, x))
    ensures ReadFields(StableFields(owner, fs) + ([125] + x)) == Some(([Field(fs[0].key, w)] + more, x))
  {
    var end := [125] + x;
    FieldsOpen(owner, fs, end);
    FieldsGoOn(owner, fs, end);
    NextField(StableFields(owner, fs) + end, fs[0].key, Stable(fs[0].value) + (FieldsRest(owner, fs) + end), w,
              StableFields(owner, fs[1..]) + end, more, x);
  }

  lemma FieldsRestStops(owner: Json, fs: seq<Field>, x: Text)
    requires fs != [] && forall f | f in fs :: f < owner
    ensures Stop(FieldsRest(owner, fs) + ([125] + x))
  {}

  ghost predicate AllFields(owner: Json, fs: seq<Field>) {
    forall f | f in fs :: f < owner && f.value != Undefined && JsonValue(f.value)
  }

  lemma AllFieldsTail(owner: Json, fs: seq<Field>)
    requires fs != [] && AllFields(owner, fs)
    ensures AllFields(owner, fs[1..]) && fs[0] < owner && fs[0].value != Undefined && JsonValue(fs[0].value)
    ensures forall f | f in fs[1..] :: f < owner
  {
    assert fs[0] in fs && forall f | f in fs[1..] :: f in fs;
  }

  lemma TidyFirst(fs: seq<Field>, w: Json)
    requires |fs| == 1 && SameTidyAt(fs[0].value, w)
    ensures SameTidyFields(fs, [Field(fs[0].key, w)])
  {}

  lemma TidyMore(fs: seq<Field>, w: Json, more: seq<Field>)
    requires fs != [] && SameTidyAt(fs[0].value, w) && SameTidyFields(fs[1..], more)
    ensures SameTidyFields(fs, [Field(fs[0].key, w)] + more)
  {
    SameFieldsTidyCons(fs[0], Field(fs[0].key, w), fs[1..], more);
    assert fs == [fs[0]] + fs[1..];
  }

  lemma {:induction false} ReadFieldsStable(owner: Json, fs: seq<Field>, x: Text) returns (gs: seq<Field>)
    requires fs != [] && AllFields(owner, fs)
    ensures ReadFields(StableFields(owner, fs) + ([125] + x)) == Some((gs, x)) && SameTidyFields(fs, gs)
    decreases owner, 0, |fs|
  {
    AllFieldsTail(owner, fs);
    FieldsRestStops(owner, fs, x);
    var w := ReadStable(fs[0].value, FieldsRest(owner, fs) + ([125] + x));
    if |fs| == 1 {
      OneField(owner, fs, x, w);
      TidyFirst(fs, w);
      gs := [Field(fs[0].key, w)];
    } else {
      var more := ReadFieldsStable(owner, fs[1..], x);
      MoreFields(owner, fs, x, w, more);
      TidyMore(fs, w, more);
      gs := [Field(fs[0].key, w)] + more;
    }
  }

  lemma OrderedCovered(fields: seq<Field>, gs: seq<Field>)
    requires SameTidyFields(Ordered(fields), gs)
    ensures Covered(fields, gs)
  {
    var fs := Ordered(fields);
    forall f | f in fields && f.value != Undefined
      ensures exists g | g in gs && g.value != Undefined :: f.key == g.key && Same(f.value, g.value)
    {
      var i :| 0 <= i < |fs| && fs[i] == f;
      assert SameTidyField(fs[i], gs[i]) && gs[i] in gs;
    }
  }

  lemma OrderedCoveredBy(fields: seq<Field>, gs: seq<Field>)
    requires SameTidyFields(Ordered(fields), gs)
    ensures CoveredBy(fields, gs)
  {
    var fs := Ordered(fields);
    forall g | g in gs && g.value != Undefined
      ensures exists f | f in fields && f.value != Undefined :: f.key == g.key && Same(f.value, g.value)
    {
      var i :| 0 <= i < |gs| && gs[i] == g;
      assert SameTidyField(fs[i], gs[i]) && fs[i] in fs;
    }
  }

  lemma SameOrdered(fields: seq<Field>, gs: seq<Field>)
    requires SameTidyFields(Ordered(fields), gs) && StrictKeys(Ordered(fields))
    ensures Same(Obj(fields), Obj(gs)) && Tidy(Obj(gs))
  {
    OrderedCovered(fields, gs);
    OrderedCoveredBy(fields, gs);
    TidyObject(Ordered(fields), gs);
  }

  lemma TidyObject(fs: seq<Field>, gs: seq<Field>)
    requires SameTidyFields(fs, gs) && StrictKeys(fs)
    ensures Tidy(Obj(gs))
  {
    assert forall i | 0 <= i < |fs| :: SameTidyField(fs[i], gs[i]);
  }

  /**
   The canonical text of a JSON value is JSON: read back it is the same value, with
   nothing left over, and the keys of every object are in ascending order.
   */
  lemma StableReadsBack(v: Json) returns (w: Json)
    requires JsonValue(v)
    ensures Read(Stable(v)) == Some((w, [])) && Same(v, w) && Tidy(w)
  {
    w := ReadStable(v, []);
    assert Stable(v) + [] == Stable(v);
  }
}

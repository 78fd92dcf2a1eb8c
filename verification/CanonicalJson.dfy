/** The canonical serializer of lib/idempotency.ts and the fingerprint taken of it. Strings
    and text are sequences of UTF-16 code units, as in the source's language. */
module CanonicalJson {

  type Unit = u: int | 0 <= u < 0x10000
  type Text = seq<Unit>

  /** A value the serializer may be given. A finite number is its shortest decimal text;
      an object lists its own entries in insertion order. */
  datatype Json =
    | Null
    | Undefined
    | NonFinite
    | Bool(b: bool)
    | Num(token: Text)
    | Str(s: Text)
    | Arr(items: seq<Json>)
    | Obj(fields: seq<Field>)

  datatype Field = Field(key: Text, value: Json)

  // ----- characters ---------------------------------------------------------

  const QUOTE: Unit := 0x22
  const BACKSLASH: Unit := 0x5c
  const COMMA: Unit := 0x2c
  const COLON: Unit := 0x3a
  const OPEN_BRACKET: Unit := 0x5b
  const CLOSE_BRACKET: Unit := 0x5d
  const OPEN_BRACE: Unit := 0x7b
  const CLOSE_BRACE: Unit := 0x7d
  const LETTER_U: Unit := 0x75

  const NULL_TEXT: Text := [0x6e, 0x75, 0x6c, 0x6c]
  const TRUE_TEXT: Text := [0x74, 0x72, 0x75, 0x65]
  const FALSE_TEXT: Text := [0x66, 0x61, 0x6c, 0x73, 0x65]

  /** Digits, sign, point and exponent. */
  predicate NumUnit(u: Unit) {
    0x30 <= u <= 0x39 || u in {0x2d, 0x2b, 0x2e, 0x65}
  }

  predicate IsToken(t: Text) {
    t != [] && (0x30 <= t[0] <= 0x39 || t[0] == 0x2d) && forall i :: 0 <= i < |t| ==> NumUnit(t[i])
  }

  // ----- strings ------------------------------------------------------------

  predicate IsHigh(u: Unit) {
    0xd800 <= u <= 0xdbff
  }

  predicate IsLow(u: Unit) {
    0xdc00 <= u <= 0xdfff
  }

  /** A surrogate without its partner. */
  predicate Lone(s: Text, i: nat)
    requires i < |s|
  {
    || (IsHigh(s[i]) && !(i + 1 < |s| && IsLow(s[i + 1])))
    || (IsLow(s[i]) && !(i > 0 && IsHigh(s[i - 1])))
  }

  /** The letter of a two-unit escape, if the unit has one. */
  function ShortEscape(u: Unit): (e: Unit)
    ensures e != LETTER_U
  {
    if u == 0x08 then 0x62
    else if u == 0x09 then 0x74
    else if u == 0x0a then 0x6e
    else if u == 0x0c then 0x66
    else if u == 0x0d then 0x72
    else if u == QUOTE then QUOTE
    else if u == BACKSLASH then BACKSLASH
    else 0
  }

  function HexDigit(d: nat): Unit
    requires d < 16
  {
    if d < 10 then 0x30 + d else 0x61 + (d - 10)
  }

  function Hex4(u: Unit): Text {
    [HexDigit(u / 4096), HexDigit(u / 256 % 16), HexDigit(u / 16 % 16), HexDigit(u % 16)]
  }

  /** One unit of a quoted string. */
  function Chunk(u: Unit, lone: bool): Text {
    if ShortEscape(u) != 0 then [BACKSLASH, ShortEscape(u)]
    else if u < 0x20 || lone then [BACKSLASH, LETTER_U] + Hex4(u)
    else [u]
  }

  function Body(s: Text, i: nat): Text
    requires i <= |s|
    decreases |s| - i
  {
    if i == |s| then [] else Chunk(s[i], Lone(s, i)) + Body(s, i + 1)
  }

  function Quoted(s: Text): Text {
    [QUOTE] + (Body(s, 0) + [QUOTE])
  }

  // ----- values -------------------------------------------------------------

  /** JavaScript's string order: by code unit, a prefix first. */
  predicate Less(a: Text, b: Text) {
    b != [] && (a == [] || a[0] < b[0] || (a[0] == b[0] && Less(a[1..], b[1..])))
  }

  /** An entry with its value serialized. The sort looks at keys alone, so serializing
      before it gives the same text. */
  datatype Pair = Pair(key: Text, text: Text)

  function InsertPair(p: Pair, ps: seq<Pair>): seq<Pair> {
    if ps == [] || Less(p.key, ps[0].key) then [p] + ps else [ps[0]] + InsertPair(p, ps[1..])
  }

  function SortPairs(ps: seq<Pair>): seq<Pair> {
    if ps == [] then [] else InsertPair(ps[0], SortPairs(ps[1..]))
  }

  function Canonical(v: Json): Text {
    match v
    case Null => NULL_TEXT
    case Undefined => NULL_TEXT
    case NonFinite => NULL_TEXT
    case Bool(b) => if b then TRUE_TEXT else FALSE_TEXT
    case Num(t) => t
    case Str(s) => Quoted(s)
    case Arr(items) => [OPEN_BRACKET] + Items(items)
    case Obj(fields) => [OPEN_BRACE] + Entries(SortPairs(Pairs(fields)))
  }

  /** Items joined by commas, with the closing bracket. */
  function Items(vs: seq<Json>): Text {
    if vs == [] then [CLOSE_BRACKET]
    else Canonical(vs[0]) + (if |vs| == 1 then [CLOSE_BRACKET] else [COMMA] + Items(vs[1..]))
  }

  /** Entries whose value is undefined are dropped. */
  function Pairs(fs: seq<Field>): seq<Pair> {
    if fs == [] then []
    else (if fs[0].value.Undefined? then [] else [Pair(fs[0].key, Canonical(fs[0].value))]) + Pairs(fs[1..])
  }

  function Entries(ps: seq<Pair>): Text {
    if ps == [] then [CLOSE_BRACE]
    else
      Quoted(ps[0].key) + ([COLON] + (ps[0].text + (if |ps| == 1 then [CLOSE_BRACE] else [COMMA] + Entries(ps[1..]))))
  }

  // ----- equality as JSON ---------------------------------------------------

  /** A value as JSON with unordered keys: what has no JSON form reads as null, or is absent
      from its object. */
  datatype Norm =
    | NNull
    | NBool(b: bool)
    | NNum(token: Text)
    | NStr(s: Text)
    | NArr(items: seq<Norm>)
    | NObj(fields: map<Text, Norm>)

  function Meaning(v: Json): Norm {
    match v
    case Null => NNull
    case Undefined => NNull
    case NonFinite => NNull
    case Bool(b) => NBool(b)
    case Num(t) => NNum(t)
    case Str(s) => NStr(s)
    case Arr(items) => NArr(Meanings(items))
    case Obj(fields) => NObj(FieldMeanings(fields))
  }

  function Meanings(vs: seq<Json>): seq<Norm> {
    if vs == [] then [] else [Meaning(vs[0])] + Meanings(vs[1..])
  }

  function FieldMeanings(fs: seq<Field>): map<Text, Norm> {
    if fs == [] then map[]
    else
      var rest := FieldMeanings(fs[1..]);
      if fs[0].value.Undefined? then rest else rest[fs[0].key := Meaning(fs[0].value)]
  }

  predicate DistinctKeys(fs: seq<Field>) {
    forall i, j :: 0 <= i < j < |fs| ==> fs[i].key != fs[j].key
  }

  /** An object has each key once, and number texts are numbers. */
  predicate WellFormed(v: Json) {
    match v
    case Num(t) => IsToken(t)
    case Arr(items) => forall i :: 0 <= i < |items| ==> WellFormed(items[i])
    case Obj(fields) => DistinctKeys(fields) && forall i :: 0 <= i < |fields| ==> WellFormed(fields[i].value)
    case _ => true
  }

  // ----- a quoted string ends where it ends ---------------------------------

  lemma HexDigitInjective(d: nat, e: nat)
    requires d < 16 && e < 16 && HexDigit(d) == HexDigit(e)
    ensures d == e
  {
  }

  lemma Nibbles(u: Unit)
    ensures u == 16 * (16 * (16 * (u / 4096) + u / 256 % 16) + u / 16 % 16) + u % 16
  {
    assert u == 16 * (u / 16) + u % 16;
    assert u / 16 == 16 * (u / 256) + u / 16 % 16;
    assert u / 256 == 16 * (u / 4096) + u / 256 % 16;
  }

  lemma Hex4Injective(u: Unit, v: Unit)
    requires Hex4(u) == Hex4(v)
    ensures u == v
  {
    SameDigits(Hex4(u), Hex4(v), u, v);
    Nibbles(u);
    Nibbles(v);
  }

  lemma SameDigits(x: Text, y: Text, u: Unit, v: Unit)
    requires x == Hex4(u) && y == Hex4(v) && x == y
    ensures u / 4096 == v / 4096 && u / 256 % 16 == v / 256 % 16 && u / 16 % 16 == v / 16 % 16 && u % 16 == v % 16
  {
    assert x[0] == y[0] && x[1] == y[1] && x[2] == y[2] && x[3] == y[3];
    HexDigitInjective(u / 4096, v / 4096);
    HexDigitInjective(u / 256 % 16, v / 256 % 16);
    HexDigitInjective(u / 16 % 16, v / 16 % 16);
    HexDigitInjective(u % 16, v % 16);
  }

  lemma ShortEscapeInjective(u: Unit, v: Unit)
    requires ShortEscape(u) == ShortEscape(v) != 0
    ensures u == v
  {
  }

  /** No chunk is a proper prefix of another, and none starts with a quote. */
  lemma ChunkIsPrefixFree(u: Unit, lu: bool, v: Unit, lv: bool, a: Text, b: Text)
    requires Chunk(u, lu) + a == Chunk(v, lv) + b
    ensures u == v && a == b
  {
    var c, d := Chunk(u, lu), Chunk(v, lv);
    assert (c + a)[0] == c[0] && (d + b)[0] == d[0];
    if |c| > 1 && |d| > 1 {
      assert (c + a)[1] == c[1] && (d + b)[1] == d[1];
      if |c| == 2 {
        ShortEscapeInjective(u, v);
      } else {
        assert c[2..] == Hex4(u) && d[2..] == Hex4(v);
        assert (c + a)[2..6] == c[2..] && (d + b)[2..6] == d[2..];
        Hex4Injective(u, v);
      }
    }
    assert |c| == |d|;
    assert (c + a)[|c|..] == a && (d + b)[|d|..] == b;
  }

  lemma BodyUnfolds(s: Text, i: nat, a: Text)
    requires i < |s|
    ensures Body(s, i) + [QUOTE] + a == Chunk(s[i], Lone(s, i)) + (Body(s, i + 1) + [QUOTE] + a)
    ensures (Body(s, i) + [QUOTE] + a)[0] != QUOTE
  {
  }

  lemma {:induction false} BodyIsPrefixFree(s: Text, i: nat, t: Text, j: nat, a: Text, b: Text)
    requires i <= |s| && j <= |t| && Body(s, i) + [QUOTE] + a == Body(t, j) + [QUOTE] + b
    ensures s[i..] == t[j..] && a == b
    decreases |s| - i
  {
    if i == |s| && j == |t| {
      var x, y := Body(s, i) + [QUOTE] + a, Body(t, j) + [QUOTE] + b;
      assert x[1..] == a;
      assert y[1..] == b;
    } else if i == |s| {
      BodyUnfolds(t, j, b);
    } else if j == |t| {
      BodyUnfolds(s, i, a);
    } else {
      BodyUnfolds(s, i, a);
      BodyUnfolds(t, j, b);
      ChunkIsPrefixFree(s[i], Lone(s, i), t[j], Lone(t, j), Body(s, i + 1) + [QUOTE] + a, Body(t, j + 1) + [QUOTE] + b);
      BodyIsPrefixFree(s, i + 1, t, j + 1, a, b);
      assert s[i..] == [s[i]] + s[i + 1..] && t[j..] == [t[j]] + t[j + 1..];
    }
  }

  /** A string can be read off the front of a text in one way only. */
  lemma QuotedIsPrefixFree(s: Text, t: Text, a: Text, b: Text)
    requires Quoted(s) + a == Quoted(t) + b
    ensures s == t && a == b
  {
    assert (Quoted(s) + a)[1..] == Body(s, 0) + [QUOTE] + a;
    assert (Quoted(t) + b)[1..] == Body(t, 0) + [QUOTE] + b;
    BodyIsPrefixFree(s, 0, t, 0, a, b);
    assert s[0..] == s && t[0..] == t;
  }

  // ----- numbers ------------------------------------------------------------

  /** What may follow a value. */
  predicate Delimited(a: Text) {
    a == [] || !NumUnit(a[0])
  }

  lemma TokenIsPrefixFree(t: Text, u: Text, a: Text, b: Text)
    requires t + a == u + b && Delimited(a) && Delimited(b)
    requires (forall i :: 0 <= i < |t| ==> NumUnit(t[i])) && (forall i :: 0 <= i < |u| ==> NumUnit(u[i]))
    ensures t == u && a == b
  {
    TokenNotLonger(t, u, a, b);
    TokenNotLonger(u, t, b, a);
    assert (t + a)[..|t|] == t && (u + b)[..|u|] == u;
    assert (t + a)[|t|..] == a && (u + b)[|u|..] == b;
  }

  lemma TokenNotLonger(t: Text, u: Text, a: Text, b: Text)
    requires t + a == u + b && Delimited(a) && forall i :: 0 <= i < |u| ==> NumUnit(u[i])
    ensures |u| <= |t|
  {
    if |t| < |u| {
      RestStartsInside(t, u, a, b);
    }
  }

  lemma RestStartsInside(t: Text, u: Text, a: Text, b: Text)
    requires t + a == u + b && |t| < |u|
    ensures a != [] && a[0] == u[|t|]
  {
    assert |t + a| == |u + b|;
    assert (t + a)[|t|] == a[0] && (u + b)[|t|] == u[|t|];
  }

  // ----- values are prefix-free ---------------------------------------------

  predicate Starts(m: Norm, t: Text)
    requires t != []
  {
    match m
    case NNull => t == NULL_TEXT
    case NBool(b) => t == if b then TRUE_TEXT else FALSE_TEXT
    case NNum(_) => IsToken(t)
    case NStr(_) => t[0] == QUOTE
    case NArr(_) => t[0] == OPEN_BRACKET
    case NObj(_) => t[0] == OPEN_BRACE
  }

  lemma CanonicalStarts(v: Json)
    requires WellFormed(v)
    ensures Canonical(v) != [] && Starts(Meaning(v), Canonical(v))
  {
  }

  /** The first unit tells what kind of value follows. */
  lemma FirstUnitTellsKind(v: Json, w: Json, a: Text, b: Text)
    requires WellFormed(v) && WellFormed(w) && Canonical(v) + a == Canonical(w) + b
    ensures var m, n := Meaning(v), Meaning(w);
      && m.NNull? == n.NNull? && m.NBool? == n.NBool? && m.NNum? == n.NNum?
      && m.NStr? == n.NStr? && m.NArr? == n.NArr? && m.NObj? == n.NObj?
      && (m.NNull? || m.NBool? ==> m == n && a == b)
  {
    CanonicalStarts(v);
    CanonicalStarts(w);
    var t, u := Canonical(v), Canonical(w);
    assert t[0] == (t + a)[0] && u[0] == (u + b)[0];
    if Meaning(v).NNull? || Meaning(v).NBool? {
      assert |t| == |u| ==> (t + a)[|t|..] == a && (u + b)[|u|..] == b;
    }
  }

  /** What follows the first item, and the first entry. */
  function AfterItem(vs: seq<Json>): Text
    requires vs != []
  {
    if |vs| == 1 then [CLOSE_BRACKET] else [COMMA] + Items(vs[1..])
  }

  function AfterEntry(ps: seq<Pair>): Text
    requires ps != []
  {
    if |ps| == 1 then [CLOSE_BRACE] else [COMMA] + Entries(ps[1..])
  }

  lemma ItemsUnfold(vs: seq<Json>, a: Text)
    requires vs != []
    ensures Items(vs) + a == Canonical(vs[0]) + (AfterItem(vs) + a) && Delimited(AfterItem(vs) + a)
    ensures WellFormed(vs[0]) ==> (Items(vs) + a)[0] != CLOSE_BRACKET
  {
    if WellFormed(vs[0]) {
      CanonicalStarts(vs[0]);
    }
  }

  lemma EntriesUnfold(ps: seq<Pair>, a: Text)
    requires ps != []
    ensures Entries(ps) + a == Quoted(ps[0].key) + ([COLON] + (ps[0].text + (AfterEntry(ps) + a)))
    ensures Delimited(AfterEntry(ps) + a) && (Entries(ps) + a)[0] == QUOTE
  {
    assert Entries(ps) == Quoted(ps[0].key) + ([COLON] + (ps[0].text + AfterEntry(ps)));
    Regroup(Quoted(ps[0].key), [COLON], ps[0].text, AfterEntry(ps), a);
  }

  lemma Regroup(x: Text, y: Text, z: Text, r: Text, a: Text)
    ensures x + (y + (z + r)) + a == x + (y + (z + (r + a)))
  {
    assert z + r + a == z + (r + a);
    assert y + (z + r) + a == y + (z + r + a);
    assert x + (y + (z + r)) + a == x + (y + (z + r) + a);
  }

  lemma StripUnit(u: Unit, x: Text, y: Text)
    requires [u] + x == [u] + y
    ensures x == y
  {
    assert ([u] + x)[1..] == x;
    assert ([u] + y)[1..] == y;
  }

  /** One unit more in front of both. */
  lemma Strip(u: Unit, x: Text, y: Text, a: Text, b: Text)
    requires [u] + x + a == [u] + y + b
    ensures x + a == y + b
  {
    assert ([u] + x + a)[1..] == x + a;
    assert ([u] + y + b)[1..] == y + b;
  }

  /** Unique decodability: from the front of a text at most one value can be read, up to the
      order of keys, and what follows it is determined. */
  lemma {:induction false} ValuesArePrefixFree(v: Json, w: Json, a: Text, b: Text)
    requires WellFormed(v) && WellFormed(w) && Delimited(a) && Delimited(b)
    requires Canonical(v) + a == Canonical(w) + b
    ensures Meaning(v) == Meaning(w) && a == b
    decreases v
  {
    FirstUnitTellsKind(v, w, a, b);
    match v
    case Num(t) => TokenIsPrefixFree(t, w.token, a, b);
    case Str(s) => QuotedIsPrefixFree(s, w.s, a, b);
    case Arr(items) =>
      Strip(OPEN_BRACKET, Items(items), Items(w.items), a, b);
      ItemsArePrefixFree(items, w.items, a, b);
    case Obj(fields) =>
      Strip(OPEN_BRACE, Entries(SortPairs(Pairs(fields))), Entries(SortPairs(Pairs(w.fields))), a, b);
      ObjectsArePrefixFree(fields, w.fields, a, b);
    case _ =>
  }

  lemma {:induction false} ItemsArePrefixFree(vs: seq<Json>, ws: seq<Json>, a: Text, b: Text)
    requires (forall i :: 0 <= i < |vs| ==> WellFormed(vs[i])) && (forall i :: 0 <= i < |ws| ==> WellFormed(ws[i]))
    requires Items(vs) + a == Items(ws) + b
    ensures Meanings(vs) == Meanings(ws) && a == b
    decreases vs
  {
    if vs == [] && ws == [] {
      StripUnit(CLOSE_BRACKET, a, b);
    } else if vs == [] {
      ItemsUnfold(ws, b);
    } else if ws == [] {
      ItemsUnfold(vs, a);
    } else {
      ItemsUnfold(vs, a);
      ItemsUnfold(ws, b);
      ValuesArePrefixFree(vs[0], ws[0], AfterItem(vs) + a, AfterItem(ws) + b);
      AfterItemAgrees(vs, ws, a, b);
      if |vs| > 1 {
        ItemsArePrefixFree(vs[1..], ws[1..], a, b);
      }
    }
  }

  lemma AfterItemAgrees(vs: seq<Json>, ws: seq<Json>, a: Text, b: Text)
    requires vs != [] && ws != [] && AfterItem(vs) + a == AfterItem(ws) + b
    ensures |vs| == 1 <==> |ws| == 1
    ensures |vs| == 1 ==> a == b && vs[1..] == [] && ws[1..] == []
    ensures |vs| > 1 ==> Items(vs[1..]) + a == Items(ws[1..]) + b
  {
    assert (AfterItem(vs) + a)[0] == AfterItem(vs)[0] && (AfterItem(ws) + b)[0] == AfterItem(ws)[0];
    if |vs| == 1 {
      StripUnit(CLOSE_BRACKET, a, b);
    } else {
      Strip(COMMA, Items(vs[1..]), Items(ws[1..]), a, b);
    }
  }

  // ----- objects ------------------------------------------------------------

  /** A pair is a field of the object, serialized. */
  ghost predicate IsEntry(fs: seq<Field>, p: Pair) {
    exists j :: 0 <= j < |fs| && fs[j].key == p.key && !fs[j].value.Undefined? && p.text == Canonical(fs[j].value)
  }

  lemma {:induction false} PairsAreEntries(fs: seq<Field>, p: Pair)
    ensures p in Pairs(fs) <==> IsEntry(fs, p)
  {
    if fs != [] {
      PairsAreEntries(fs[1..], p);
      var head := if fs[0].value.Undefined? then [] else [Pair(fs[0].key, Canonical(fs[0].value))];
      assert Pairs(fs) == head + Pairs(fs[1..]);
      if IsEntry(fs[1..], p) {
        var j :| 0 <= j < |fs[1..]| && fs[1..][j].key == p.key && !fs[1..][j].value.Undefined?
          && p.text == Canonical(fs[1..][j].value);
        assert fs[j + 1] == fs[1..][j];
      }
      if IsEntry(fs, p) {
        var j :| 0 <= j < |fs| && fs[j].key == p.key && !fs[j].value.Undefined? && p.text == Canonical(fs[j].value);
        if j > 0 {
          assert fs[1..][j - 1] == fs[j];
        }
      }
    }
  }

  lemma {:induction false} InsertKeeps(p: Pair, ps: seq<Pair>, q: Pair)
    ensures q in InsertPair(p, ps) <==> q == p || q in ps
  {
    if ps != [] && !Less(p.key, ps[0].key) {
      InsertKeeps(p, ps[1..], q);
      assert ps == [ps[0]] + ps[1..];
    }
  }

  lemma {:induction false} SortKeeps(ps: seq<Pair>, q: Pair)
    ensures q in SortPairs(ps) <==> q in ps
  {
    if ps != [] {
      SortKeeps(ps[1..], q);
      InsertKeeps(ps[0], SortPairs(ps[1..]), q);
      assert ps == [ps[0]] + ps[1..];
    }
  }

  lemma {:induction false} FieldHasMeaning(fs: seq<Field>, j: nat)
    requires DistinctKeys(fs) && j < |fs| && !fs[j].value.Undefined?
    ensures fs[j].key in FieldMeanings(fs) && FieldMeanings(fs)[fs[j].key] == Meaning(fs[j].value)
  {
    if j > 0 {
      assert fs[1..][j - 1] == fs[j];
      FieldHasMeaning(fs[1..], j - 1);
    }
  }

  lemma {:induction false} MeaningHasField(fs: seq<Field>, k: Text) returns (j: nat)
    requires k in FieldMeanings(fs)
    ensures j < |fs| && fs[j].key == k && !fs[j].value.Undefined?
  {
    if !fs[0].value.Undefined? && fs[0].key == k {
      j := 0;
    } else {
      var i := MeaningHasField(fs[1..], k);
      j := i + 1;
    }
  }

  /** The same key, with the same meaning on both sides. */
  ghost predicate SameAt(fs: seq<Field>, gs: seq<Field>, k: Text) {
    k in FieldMeanings(fs) && k in FieldMeanings(gs) && FieldMeanings(fs)[k] == FieldMeanings(gs)[k]
  }

  lemma HeadAndTailAgree(fs: seq<Field>, gs: seq<Field>, ps: seq<Pair>, qs: seq<Pair>)
    requires ps != [] && |ps| == |qs| && ps[0].key == qs[0].key && SameAt(fs, gs, ps[0].key)
    requires forall i :: 0 <= i < |ps[1..]| ==> ps[1..][i].key == qs[1..][i].key && SameAt(fs, gs, ps[1..][i].key)
    ensures forall i :: 0 <= i < |ps| ==> ps[i].key == qs[i].key && SameAt(fs, gs, ps[i].key)
  {
    forall i | 0 <= i < |ps| ensures ps[i].key == qs[i].key && SameAt(fs, gs, ps[i].key) {
      assert i > 0 ==> ps[i] == ps[1..][i - 1] && qs[i] == qs[1..][i - 1];
    }
  }

  lemma {:induction false} EntriesArePrefixFree(fs: seq<Field>, ps: seq<Pair>, gs: seq<Field>, qs: seq<Pair>,
      a: Text, b: Text)
    requires WellFormed(Obj(fs)) && WellFormed(Obj(gs))
    requires (forall i :: 0 <= i < |ps| ==> IsEntry(fs, ps[i])) && (forall i :: 0 <= i < |qs| ==> IsEntry(gs, qs[i]))
    requires Entries(ps) + a == Entries(qs) + b
    ensures |ps| == |qs| && a == b
    ensures forall i :: 0 <= i < |ps| ==> ps[i].key == qs[i].key && SameAt(fs, gs, ps[i].key)
    decreases fs, |ps|
  {
    if ps == [] && qs == [] {
      StripUnit(CLOSE_BRACE, a, b);
    } else if ps == [] {
      EntriesUnfold(qs, b);
    } else if qs == [] {
      EntriesUnfold(ps, a);
    } else {
      HeadsAgree(ps, qs, a, b);
      var j := EntryOf(fs, ps[0]);
      var l := EntryOf(gs, qs[0]);
      ValuesArePrefixFree(fs[j].value, gs[l].value, AfterEntry(ps) + a, AfterEntry(qs) + b);
      FieldHasMeaning(fs, j);
      FieldHasMeaning(gs, l);
      assert SameAt(fs, gs, ps[0].key);
      AfterEntryAgrees(ps, qs, a, b);
      if |ps| > 1 {
        EntriesArePrefixFree(fs, ps[1..], gs, qs[1..], a, b);
        HeadAndTailAgree(fs, gs, ps, qs);
      }
    }
  }

  lemma EntryOf(fs: seq<Field>, p: Pair) returns (j: nat)
    requires IsEntry(fs, p)
    ensures j < |fs| && fs[j].key == p.key && !fs[j].value.Undefined? && p.text == Canonical(fs[j].value)
  {
    j :| 0 <= j < |fs| && fs[j].key == p.key && !fs[j].value.Undefined? && p.text == Canonical(fs[j].value);
  }

  lemma HeadsAgree(ps: seq<Pair>, qs: seq<Pair>, a: Text, b: Text)
    requires ps != [] && qs != [] && Entries(ps) + a == Entries(qs) + b
    ensures ps[0].key == qs[0].key && ps[0].text + (AfterEntry(ps) + a) == qs[0].text + (AfterEntry(qs) + b)
    ensures Delimited(AfterEntry(ps) + a) && Delimited(AfterEntry(qs) + b)
  {
    EntriesUnfold(ps, a);
    EntriesUnfold(qs, b);
    var x, y := ps[0].text + (AfterEntry(ps) + a), qs[0].text + (AfterEntry(qs) + b);
    QuotedIsPrefixFree(ps[0].key, qs[0].key, [COLON] + x, [COLON] + y);
    StripUnit(COLON, x, y);
  }

  lemma AfterEntryAgrees(ps: seq<Pair>, qs: seq<Pair>, a: Text, b: Text)
    requires ps != [] && qs != [] && AfterEntry(ps) + a == AfterEntry(qs) + b
    ensures |ps| == 1 <==> |qs| == 1
    ensures |ps| == 1 ==> a == b
    ensures |ps| > 1 ==> Entries(ps[1..]) + a == Entries(qs[1..]) + b
  {
    assert (AfterEntry(ps) + a)[0] == AfterEntry(ps)[0] && (AfterEntry(qs) + b)[0] == AfterEntry(qs)[0];
    if |ps| == 1 {
      StripUnit(CLOSE_BRACE, a, b);
    } else {
      Strip(COMMA, Entries(ps[1..]), Entries(qs[1..]), a, b);
    }
  }

  lemma SortedPairsAreEntries(fs: seq<Field>)
    ensures var ps := SortPairs(Pairs(fs)); forall i :: 0 <= i < |ps| ==> IsEntry(fs, ps[i])
  {
    var ps := SortPairs(Pairs(fs));
    forall i | 0 <= i < |ps| ensures IsEntry(fs, ps[i]) {
      SortKeeps(Pairs(fs), ps[i]);
      PairsAreEntries(fs, ps[i]);
    }
  }

  /** Every key of an object is among its sorted pairs. */
  lemma KeyIsSorted(fs: seq<Field>, k: Text) returns (i: nat)
    requires k in FieldMeanings(fs)
    ensures var ps := SortPairs(Pairs(fs)); i < |ps| && ps[i].key == k
  {
    var j := MeaningHasField(fs, k);
    var p := Pair(k, Canonical(fs[j].value));
    assert IsEntry(fs, p);
    PairsAreEntries(fs, p);
    SortKeeps(Pairs(fs), p);
    i :| 0 <= i < |SortPairs(Pairs(fs))| && SortPairs(Pairs(fs))[i] == p;
  }

  lemma {:induction false} ObjectsArePrefixFree(fs: seq<Field>, gs: seq<Field>, a: Text, b: Text)
    requires WellFormed(Obj(fs)) && WellFormed(Obj(gs))
    requires Entries(SortPairs(Pairs(fs))) + a == Entries(SortPairs(Pairs(gs))) + b
    ensures FieldMeanings(fs) == FieldMeanings(gs) && a == b
    decreases fs, |SortPairs(Pairs(fs))| + 1
  {
    var ps, qs := SortPairs(Pairs(fs)), SortPairs(Pairs(gs));
    SortedPairsAreEntries(fs);
    SortedPairsAreEntries(gs);
    EntriesArePrefixFree(fs, ps, gs, qs, a, b);
    forall k: Text | k in FieldMeanings(fs) || k in FieldMeanings(gs) ensures SameAt(fs, gs, k) {
      if k in FieldMeanings(fs) {
        var i := KeyIsSorted(fs, k);
      } else {
        var i := KeyIsSorted(gs, k);
      }
    }
    MapsAgree(fs, gs);
  }

  lemma MapsAgree(fs: seq<Field>, gs: seq<Field>)
    requires forall k: Text :: k in FieldMeanings(fs) || k in FieldMeanings(gs) ==> SameAt(fs, gs, k)
    ensures FieldMeanings(fs) == FieldMeanings(gs)
  {
    var m, n := FieldMeanings(fs), FieldMeanings(gs);
    forall k: Text | k in m || k in n ensures k in m && k in n && m[k] == n[k] {
      assert SameAt(fs, gs, k);
    }
    assert m.Keys == n.Keys;
  }

  // ----- equal meaning, equal text ------------------------------------------

  /** Keys in strictly rising order. */
  ghost predicate Rising(ps: seq<Pair>) {
    forall i, j :: 0 <= i < j < |ps| ==> Less(ps[i].key, ps[j].key)
  }

  lemma {:induction false} LessIsTotal(a: Text, b: Text)
    ensures Less(a, b) || Less(b, a) || a == b
    ensures !(Less(a, b) && Less(b, a)) && !Less(a, a)
  {
    if a != [] && b != [] {
      LessIsTotal(a[1..], b[1..]);
      LessIsTotal(a[1..], a[1..]);
      assert a == [a[0]] + a[1..] && b == [b[0]] + b[1..];
    } else if a != [] {
      LessIsTotal(a[1..], a[1..]);
    }
  }

  lemma {:induction false} LessIsTransitive(a: Text, b: Text, c: Text)
    requires Less(a, b) && Less(b, c)
    ensures Less(a, c)
  {
    if a != [] && a[0] == b[0] == c[0] {
      LessIsTransitive(a[1..], b[1..], c[1..]);
    }
  }

  lemma {:induction false} InsertRises(p: Pair, ps: seq<Pair>)
    requires Rising(ps) && forall i :: 0 <= i < |ps| ==> ps[i].key != p.key
    ensures Rising(InsertPair(p, ps))
  {
    if ps == [] {
    } else if Less(p.key, ps[0].key) {
      forall i | 0 < i < |ps| ensures Less(p.key, ps[i].key) {
        LessIsTransitive(p.key, ps[0].key, ps[i].key);
      }
    } else {
      LessIsTotal(p.key, ps[0].key);
      InsertRises(p, ps[1..]);
      var rest := InsertPair(p, ps[1..]);
      forall i | 0 <= i < |rest| ensures Less(ps[0].key, rest[i].key) {
        InsertKeeps(p, ps[1..], rest[i]);
      }
    }
  }

  ghost predicate DistinctPairs(ps: seq<Pair>) {
    forall i, j :: 0 <= i < j < |ps| ==> ps[i].key != ps[j].key
  }

  lemma {:induction false} SortRises(ps: seq<Pair>)
    requires DistinctPairs(ps)
    ensures Rising(SortPairs(ps))
  {
    if ps != [] {
      SortRises(ps[1..]);
      var rest := SortPairs(ps[1..]);
      forall i | 0 <= i < |rest| ensures rest[i].key != ps[0].key {
        SortKeeps(ps[1..], rest[i]);
      }
      InsertRises(ps[0], rest);
    }
  }

  lemma {:induction false} PairsAreDistinct(fs: seq<Field>)
    requires DistinctKeys(fs)
    ensures DistinctPairs(Pairs(fs))
  {
    if fs != [] {
      PairsAreDistinct(fs[1..]);
      var rest := Pairs(fs[1..]);
      forall i | 0 <= i < |rest| ensures rest[i].key != fs[0].key {
        PairsAreEntries(fs[1..], rest[i]);
        var j := EntryOf(fs[1..], rest[i]);
        assert fs[j + 1] == fs[1..][j];
      }
    }
  }

  /** A rising sequence is determined by its elements. */
  lemma {:induction false} RisingIsUnique(ps: seq<Pair>, qs: seq<Pair>)
    requires Rising(ps) && Rising(qs) && forall p: Pair :: p in ps <==> p in qs
    ensures ps == qs
  {
    assert qs != [] ==> qs[0] in qs;
    if ps != [] {
      assert ps[0] in ps;
      FirstIsLeast(ps, qs);
      var x, y := ps[1..], qs[1..];
      forall p: Pair ensures p in x <==> p in y {
        RestLacksFirst(ps, p);
        RestLacksFirst(qs, p);
      }
      RisingIsUnique(x, y);
    }
  }

  lemma FirstIsLeast(ps: seq<Pair>, qs: seq<Pair>)
    requires Rising(ps) && Rising(qs) && ps != [] && qs != [] && ps[0] in qs && qs[0] in ps
    ensures ps[0] == qs[0]
  {
    var i :| 0 <= i < |qs| && qs[i] == ps[0];
    var j :| 0 <= j < |ps| && ps[j] == qs[0];
    if i > 0 && j > 0 {
      LessIsTotal(ps[0].key, qs[0].key);
    }
  }

  lemma RestLacksFirst(ps: seq<Pair>, p: Pair)
    requires Rising(ps) && ps != []
    ensures p in ps[1..] <==> p in ps && p != ps[0]
  {
    assert ps == [ps[0]] + ps[1..];
    if p in ps[1..] {
      var i :| 0 <= i < |ps[1..]| && ps[1..][i] == p;
      assert Less(ps[0].key, ps[i + 1].key);
      LessIsTotal(ps[0].key, ps[0].key);
    }
  }

  /** The order is by the first unit that differs, a prefix first. */
  lemma {:induction false} LessMeans(a: Text, b: Text)
    ensures Less(a, b) <==>
      exists k :: 0 <= k <= |a| && k < |b| && a[..k] == b[..k] && (k == |a| || a[k] < b[k])
  {
    if b != [] && a != [] && a[0] == b[0] {
      LessMeans(a[1..], b[1..]);
      FirstDiffersLater(a, b);
    } else if Less(a, b) {
      assert a[..0] == b[..0];
    }
  }

  /** The first difference of two texts with the same head is that of their tails. */
  lemma FirstDiffersLater(a: Text, b: Text)
    requires a != [] && b != [] && a[0] == b[0]
    ensures (exists k :: 0 <= k <= |a| && k < |b| && a[..k] == b[..k] && (k == |a| || a[k] < b[k])) <==>
      var x, y := a[1..], b[1..];
      exists k :: 0 <= k <= |x| && k < |y| && x[..k] == y[..k] && (k == |x| || x[k] < y[k])
  {
    var x, y := a[1..], b[1..];
    assert a == [a[0]] + x && b == [b[0]] + y;
    if k :| 0 <= k <= |a| && k < |b| && a[..k] == b[..k] && (k == |a| || a[k] < b[k]) {
      assert k > 0;
      assert a[..k][1..] == x[..k - 1] && b[..k][1..] == y[..k - 1];
    }
    if k :| 0 <= k <= |x| && k < |y| && x[..k] == y[..k] && (k == |x| || x[k] < y[k]) {
      assert a[..k + 1] == [a[0]] + x[..k] && b[..k + 1] == [b[0]] + y[..k];
    }
  }

  /** An object's entries are written in rising order of their keys, whatever order they were
      inserted in. */
  lemma KeysRise(fs: seq<Field>)
    requires DistinctKeys(fs)
    ensures Rising(SortPairs(Pairs(fs)))
    ensures forall p: Pair :: p in SortPairs(Pairs(fs)) <==> p in Pairs(fs)
  {
    PairsAreDistinct(fs);
    SortRises(Pairs(fs));
    forall p: Pair ensures p in SortPairs(Pairs(fs)) <==> p in Pairs(fs) {
      SortKeeps(Pairs(fs), p);
    }
  }

  /** Values that mean the same are written the same. */
  lemma {:induction false} SameMeaningSameText(v: Json, w: Json)
    requires WellFormed(v) && WellFormed(w) && Meaning(v) == Meaning(w)
    ensures Canonical(v) == Canonical(w)
    decreases v
  {
    match v
    case Arr(items) => SameItems(items, w.items);
    case Obj(fields) => SameEntries(fields, w.fields);
    case _ =>
  }

  lemma {:induction false} SameItems(vs: seq<Json>, ws: seq<Json>)
    requires (forall i :: 0 <= i < |vs| ==> WellFormed(vs[i])) && (forall i :: 0 <= i < |ws| ==> WellFormed(ws[i]))
    requires Meanings(vs) == Meanings(ws)
    ensures Items(vs) == Items(ws)
    decreases vs
  {
    if vs != [] {
      assert Meanings(vs)[0] == Meaning(vs[0]) && Meanings(ws)[0] == Meaning(ws[0]);
      assert Meanings(vs)[1..] == Meanings(vs[1..]) && Meanings(ws)[1..] == Meanings(ws[1..]);
      SameMeaningSameText(vs[0], ws[0]);
      SameItems(vs[1..], ws[1..]);
    }
  }

  lemma {:induction false} SameEntries(fs: seq<Field>, gs: seq<Field>)
    requires WellFormed(Obj(fs)) && WellFormed(Obj(gs)) && FieldMeanings(fs) == FieldMeanings(gs)
    ensures SortPairs(Pairs(fs)) == SortPairs(Pairs(gs))
    decreases fs
  {
    forall p: Pair ensures p in SortPairs(Pairs(fs)) <==> p in SortPairs(Pairs(gs)) {
      SortKeeps(Pairs(fs), p);
      SortKeeps(Pairs(gs), p);
      PairsAreEntries(fs, p);
      PairsAreEntries(gs, p);
      if IsEntry(fs, p) {
        var j := EntryOf(fs, p);
        FieldHasMeaning(fs, j);
        var l := MeaningHasField(gs, p.key);
        FieldHasMeaning(gs, l);
        SameMeaningSameText(fs[j].value, gs[l].value);
      } else if IsEntry(gs, p) {
        var l := EntryOf(gs, p);
        FieldHasMeaning(gs, l);
        var j := MeaningHasField(fs, p.key);
        FieldHasMeaning(fs, j);
        SameMeaningSameText(fs[j].value, gs[l].value);
      }
    }
    PairsAreDistinct(fs);
    PairsAreDistinct(gs);
    SortRises(Pairs(fs));
    SortRises(Pairs(gs));
    RisingIsUnique(SortPairs(Pairs(fs)), SortPairs(Pairs(gs)));
  }

  /** Two values have the same canonical text if and only if they are equal as JSON with
      unordered keys. */
  lemma CanonicalIsExact(v: Json, w: Json)
    requires WellFormed(v) && WellFormed(w)
    ensures Canonical(v) == Canonical(w) <==> Meaning(v) == Meaning(w)
  {
    if Meaning(v) == Meaning(w) {
      SameMeaningSameText(v, w);
    }
    if Canonical(v) == Canonical(w) {
      assert Canonical(v) + [] == Canonical(w) + [];
      ValuesArePrefixFree(v, w, [], []);
    }
  }

  // ----- the text has an exact encoding -------------------------------------

  /** No surrogate without its partner: what UTF-8 can encode without loss. */
  ghost predicate Paired(t: Text) {
    forall i :: 0 <= i < |t| ==> !Lone(t, i)
  }

  lemma PairedConcat(a: Text, b: Text)
    requires Paired(a) && Paired(b)
    ensures Paired(a + b)
  {
    forall i | 0 <= i < |a + b| ensures !Lone(a + b, i) {
      if i < |a| {
        assert !Lone(a, i);
      } else {
        assert !Lone(b, i - |a|);
      }
    }
  }

  /** A unit written alone or escaped is no half of a pair. */
  lemma ChunkIsPaired(u: Unit, lone: bool)
    requires IsHigh(u) || IsLow(u) ==> lone
    ensures Paired(Chunk(u, lone))
  {
  }

  lemma PairIsPaired(high: Unit, low: Unit, rest: Text)
    requires IsHigh(high) && IsLow(low) && Paired(rest)
    ensures Paired([high] + ([low] + rest))
  {
    PairedConcat([high, low], rest);
    assert [high] + ([low] + rest) == [high, low] + rest;
  }

  lemma {:induction false} BodyIsPaired(s: Text, i: nat)
    requires i <= |s| && !(0 < i < |s| && IsHigh(s[i - 1]) && IsLow(s[i]))
    ensures Paired(Body(s, i))
    decreases |s| - i
  {
    if i == |s| {
    } else if i + 1 < |s| && IsHigh(s[i]) && IsLow(s[i + 1]) {
      BodyIsPaired(s, i + 2);
      PairIsPaired(s[i], s[i + 1], Body(s, i + 2));
      assert Body(s, i + 1) == [s[i + 1]] + Body(s, i + 2);
    } else {
      ChunkIsPaired(s[i], Lone(s, i));
      BodyIsPaired(s, i + 1);
      PairedConcat(Chunk(s[i], Lone(s, i)), Body(s, i + 1));
    }
  }

  lemma QuotedIsPaired(s: Text)
    ensures Paired(Quoted(s))
  {
    BodyIsPaired(s, 0);
    PairedConcat(Body(s, 0), [QUOTE]);
    PairedConcat([QUOTE], Body(s, 0) + [QUOTE]);
  }

  /** Whatever strings a value holds, lone surrogates included, its canonical text has none:
      the bytes that are hashed tell texts apart. */
  lemma {:induction false} CanonicalIsPaired(v: Json)
    requires WellFormed(v)
    ensures Paired(Canonical(v))
    decreases v
  {
    match v
    case Str(s) => QuotedIsPaired(s);
    case Arr(items) =>
      ItemsArePaired(items);
      PairedConcat([OPEN_BRACKET], Items(items));
    case Obj(fields) =>
      FieldsArePaired(fields);
      PairedConcat([OPEN_BRACE], Entries(SortPairs(Pairs(fields))));
    case _ =>
  }

  lemma {:induction false} FieldsArePaired(fs: seq<Field>)
    requires forall i :: 0 <= i < |fs| ==> WellFormed(fs[i].value)
    ensures Paired(Entries(SortPairs(Pairs(fs))))
    decreases fs
  {
    var ps := SortPairs(Pairs(fs));
    forall i | 0 <= i < |ps| ensures Paired(ps[i].text) {
      SortKeeps(Pairs(fs), ps[i]);
      PairsAreEntries(fs, ps[i]);
      var j := EntryOf(fs, ps[i]);
      CanonicalIsPaired(fs[j].value);
    }
    EntriesArePaired(ps);
  }

  lemma {:induction false} ItemsArePaired(vs: seq<Json>)
    requires forall i :: 0 <= i < |vs| ==> WellFormed(vs[i])
    ensures Paired(Items(vs))
    decreases vs
  {
    if vs != [] {
      CanonicalIsPaired(vs[0]);
      ItemsArePaired(vs[1..]);
      PairedConcat([COMMA], Items(vs[1..]));
      PairedConcat(Canonical(vs[0]), if |vs| == 1 then [CLOSE_BRACKET] else [COMMA] + Items(vs[1..]));
    }
  }

  lemma {:induction false} EntriesArePaired(ps: seq<Pair>)
    requires forall i :: 0 <= i < |ps| ==> Paired(ps[i].text)
    ensures Paired(Entries(ps))
  {
    if ps != [] {
      EntriesArePaired(ps[1..]);
      var rest := if |ps| == 1 then [CLOSE_BRACE] else [COMMA] + Entries(ps[1..]);
      PairedConcat([COMMA], Entries(ps[1..]));
      PairedConcat(ps[0].text, rest);
      PairedConcat([COLON], ps[0].text + rest);
      QuotedIsPaired(ps[0].key);
      PairedConcat(Quoted(ps[0].key), [COLON] + (ps[0].text + rest));
    }
  }

  // ----- the fingerprint ----------------------------------------------------

  /** The body a request is fingerprinted as: an absent or null one counts as empty. */
  function FingerprintBody(body: Json): Json {
    if body.Null? || body.Undefined? then Obj([]) else body
  }

  function HashRequest(sha: Text -> Text, body: Json): Text {
    sha(Canonical(body))
  }

  /** Requests with the same fingerprint had the same body up to key order, or their texts
      collide; and the same body, however its keys were ordered, has the same fingerprint. */
  lemma FingerprintMeans(sha: Text -> Text, v: Json, w: Json)
    requires WellFormed(v) && WellFormed(w)
    ensures Meaning(v) == Meaning(w) ==> HashRequest(sha, v) == HashRequest(sha, w)
    ensures HashRequest(sha, v) == HashRequest(sha, w) ==>
      Meaning(v) == Meaning(w) || (Canonical(v) != Canonical(w) && sha(Canonical(v)) == sha(Canonical(w)))
  {
    CanonicalIsExact(v, w);
  }

  /** What the fingerprint cannot tell apart: a number too large to be finite from null, and a
      missing body from an empty object. */
  lemma FingerprintBlindSpots(sha: Text -> Text, key: Text)
    ensures HashRequest(sha, Obj([Field(key, NonFinite)])) == HashRequest(sha, Obj([Field(key, Null)]))
    ensures HashRequest(sha, FingerprintBody(Null)) == HashRequest(sha, FingerprintBody(Obj([])))
  {
    var v, w := Obj([Field(key, NonFinite)]), Obj([Field(key, Null)]);
    assert [Field(key, NonFinite)][1..] == [] && [Field(key, Null)][1..] == [];
    assert FieldMeanings(v.fields) == map[][key := NNull];
    assert FieldMeanings(w.fields) == map[][key := NNull];
    SameMeaningSameText(v, w);
  }
}

/**
 * `stableStringify` of packages/cre/src/evidence.ts: one text per JSON value, whatever order its keys were inserted in.
 */
module StableJson {
  import opened Wrappers
  import opened JsonText
  import N = NumberText

  type Numeral = n: N.Number | N.Canonical(n) witness N.Zero

  /** One property of an object, in insertion order within it. */
  datatype Field = Field(key: Text, value: Json)

  /** `Other` is what JSON has no form for: functions, symbols and bigints. */
  datatype Json =
    | Null
    | Bool(b: bool)
    | Num(n: Numeral)
    | Str(s: Text)
    | Arr(items: seq<Json>)
    | Obj(fields: seq<Field>)
    | Undefined
    | NotANumber
    | Infinite
    | Other(truthy: bool)

  const COMMA: Unit := 44
  const COLON: Unit := 58
  const OPEN_ARRAY: Unit := 91
  const CLOSE_ARRAY: Unit := 93
  const OPEN_OBJECT: Unit := 123
  const CLOSE_OBJECT: Unit := 125

  // ---- Key order ----

  /** The order of `sort()`: by UTF-16 code units. */
  predicate Less(a: Text, b: Text) {
    if b == [] then false
    else if a == [] then true
    else if a[0] != b[0] then a[0] < b[0]
    else Less(a[1..], b[1..])
  }

  function Insert(f: Field, fs: seq<Field>): seq<Field> {
    if fs == [] || Less(f.key, fs[0].key) then [f] + fs else [fs[0]] + Insert(f, fs[1..])
  }

  function Sort(fs: seq<Field>): (r: seq<Field>)
    ensures |r| == |fs|
    ensures forall f :: f in r <==> f in fs
  {
    if fs == [] then []
    else
      InsertElements(fs[0], Sort(fs[1..]));
      assert fs == [fs[0]] + fs[1..];
      Insert(fs[0], Sort(fs[1..]))
  }

  lemma {:induction false} InsertElements(f: Field, fs: seq<Field>)
    ensures |Insert(f, fs)| == |fs| + 1
    ensures forall g :: g in Insert(f, fs) <==> g == f || g in fs
  {
    if fs != [] && !Less(f.key, fs[0].key) {
      InsertElements(f, fs[1..]);
      assert fs == [fs[0]] + fs[1..];
    }
  }

  ghost predicate DistinctKeys(fs: seq<Field>) {
    forall i, j :: 0 <= i < j < |fs| ==> fs[i].key != fs[j].key
  }

  ghost predicate Sorted(fs: seq<Field>) {
    forall i, j :: 0 <= i < j < |fs| ==> Less(fs[i].key, fs[j].key)
  }

  lemma {:induction false} LessIsTotal(a: Text, b: Text)
    ensures a == b || Less(a, b) || Less(b, a)
    ensures !(Less(a, b) && Less(b, a)) && !Less(a, a)
  {
    if a != [] && b != [] {
      LessIsTotal(a[1..], b[1..]);
      assert a == [a[0]] + a[1..] && b == [b[0]] + b[1..];
    }
    if a != [] {
      LessIsTotal(a[1..], a[1..]);
    }
  }

  lemma {:induction false} LessChains(a: Text, b: Text, c: Text)
    requires Less(a, b) && Less(b, c)
    ensures Less(a, c)
  {
    if a != [] && a[0] == b[0] == c[0] {
      LessChains(a[1..], b[1..], c[1..]);
    }
  }

  lemma {:induction false} InsertSorted(f: Field, fs: seq<Field>)
    requires Sorted(fs) && forall g :: g in fs ==> g.key != f.key
    ensures Sorted(Insert(f, fs))
  {
    if fs == [] {
    } else if Less(f.key, fs[0].key) {
      var r := [f] + fs;
      forall j | 0 < j < |r|
        ensures Less(f.key, r[j].key)
      {
        if j > 1 {
          LessChains(f.key, fs[0].key, fs[j - 1].key);
        }
      }
    } else {
      InsertSorted(f, fs[1..]);
      InsertElements(f, fs[1..]);
      LessIsTotal(f.key, fs[0].key);
      var tail := Insert(f, fs[1..]);
      forall j | 0 <= j < |tail|
        ensures Less(fs[0].key, tail[j].key)
      {
        assert tail[j] in tail;
        if tail[j] != f {
          var k :| 0 <= k < |fs[1..]| && fs[1..][k] == tail[j];
          assert fs[k + 1] == tail[j];
        }
      }
    }
  }

  lemma {:induction false} SortSorted(fs: seq<Field>)
    requires DistinctKeys(fs)
    ensures Sorted(Sort(fs))
  {
    if fs != [] {
      SortSorted(fs[1..]);
      forall g | g in Sort(fs[1..])
        ensures g.key != fs[0].key
      {
        var k :| 0 <= k < |fs[1..]| && fs[1..][k] == g;
        assert fs[k + 1] == g;
      }
      InsertSorted(fs[0], Sort(fs[1..]));
    }
  }

  // ---- Writing ----

  /** Values `stableStringify` accepts; an object's keys are distinct. */
  ghost predicate Supported(v: Json) {
    match v
    case Null => true
    case Bool(_) => true
    case Num(_) => true
    case Str(_) => true
    case Arr(items) => forall i :: 0 <= i < |items| ==> Supported(items[i])
    case Obj(fields) => DistinctKeys(fields) && forall i :: 0 <= i < |fields| ==> Supported(fields[i].value)
    case _ => false
  }

  function TailText(texts: seq<Text>, k: nat): Text
    requires k < |texts|
    decreases |texts| - k
  {
    if k + 1 == |texts| then texts[k] else texts[k] + ([COMMA] + TailText(texts, k + 1))
  }

  /** `join(',')` */
  function Join(texts: seq<Text>): Text {
    if texts == [] then [] else TailText(texts, 0)
  }

  const TRUE: Text := [116, 114, 117, 101]
  const FALSE: Text := [102, 97, 108, 115, 101]
  const NULL: Text := [110, 117, 108, 108]

  /** The text of a supported value. */
  ghost function Stringify(v: Json): Text
    requires Supported(v)
    decreases v, 1
  {
    match v
    case Null => NULL
    case Bool(b) => if b then TRUE else FALSE
    case Num(n) => N.Text(n)
    case Str(s) => Quote(s)
    case Arr(_) => [OPEN_ARRAY] + Join(ItemTexts(v)) + [CLOSE_ARRAY]
    case Obj(_) => [OPEN_OBJECT] + Join(FieldTexts(v)) + [CLOSE_OBJECT]
  }

  ghost function ItemTexts(v: Json): (r: seq<Text>)
    requires Supported(v) && v.Arr?
    ensures |r| == |v.items|
    decreases v, 0
  {
    seq(|v.items|, i requires 0 <= i < |v.items| => Stringify(v.items[i]))
  }

  /** A supported object's fields, by key. */
  ghost function SortedFields(v: Json): (r: seq<Field>)
    requires Supported(v) && v.Obj?
    ensures |r| == |v.fields|
    ensures forall i :: 0 <= i < |r| ==> r[i] in v.fields && Supported(r[i].value)
  {
    var r := Sort(v.fields);
    assert forall i :: 0 <= i < |r| ==> r[i] in v.fields;
    r
  }

  ghost function FieldText(f: Field): Text
    requires Supported(f.value)
    decreases f
  {
    Quote(f.key) + ([COLON] + Stringify(f.value))
  }

  ghost function FieldTexts(v: Json): (r: seq<Text>)
    requires Supported(v) && v.Obj?
    ensures |r| == |v.fields|
    decreases v, 0
  {
    var sorted := SortedFields(v);
    seq(|sorted|, i requires 0 <= i < |sorted| => FieldText(sorted[i]))
  }

  // ---- What is refused ----

  datatype Refusal = HoldsUndefined | HoldsNonFinite | HoldsUnsupported

  /** What every JavaScript value satisfies: an object's keys are distinct. */
  ghost predicate WellFormed(v: Json) {
    match v
    case Arr(items) => forall i :: 0 <= i < |items| ==> WellFormed(items[i])
    case Obj(fields) => DistinctKeys(fields) && forall i :: 0 <= i < |fields| ==> WellFormed(fields[i].value)
    case _ => true
  }

  /** The texts, or the first refusal among them, as `map` would throw it. */
  function Collect(rs: seq<Result<Text, Refusal>>): (r: Result<seq<Text>, Refusal>)
    ensures r.Ok? ==> |r.value| == |rs| && forall i :: 0 <= i < |rs| ==> rs[i] == Ok(r.value[i])
    ensures r.Err? ==> exists i :: 0 <= i < |rs| && rs[i] == Err(r.error)
  {
    if rs == [] then Ok([])
    else if rs[0].Err? then Err(rs[0].error)
    else
      match Collect(rs[1..])
      case Err(e) => Err(e)
      case Ok(more) => Ok([rs[0].value] + more)
  }

  function StableStringify(v: Json): Result<Text, Refusal> {
    match v
    case Null => Ok(NULL)
    case Bool(b) => Ok(if b then TRUE else FALSE)
    case Num(n) => Ok(N.Text(n))
    case NotANumber => Err(HoldsNonFinite)
    case Infinite => Err(HoldsNonFinite)
    case Str(s) => Ok(Quote(s))
    case Arr(items) =>
      Enclosed(OPEN_ARRAY, Collect(seq(|items|, i requires 0 <= i < |items| => StableStringify(items[i]))), CLOSE_ARRAY)
    case Obj(fields) =>
      var sorted := Sort(fields);
      Enclosed(OPEN_OBJECT,
               Collect(seq(|sorted|, i requires 0 <= i < |sorted| => assert sorted[i] in fields; EntryOf(sorted[i]))),
               CLOSE_OBJECT)
    case _ => Err(HoldsUnsupported)
  }

  /** `"key":value`; a property that is `undefined` has a refusal of its own. */
  function EntryOf(f: Field): Result<Text, Refusal> {
    if f.value.Undefined? then Err(HoldsUndefined)
    else
      match StableStringify(f.value)
      case Err(e) => Err(e)
      case Ok(text) => Ok(Quote(f.key) + ([COLON] + text))
  }

  function Enclosed(left: Unit, parts: Result<seq<Text>, Refusal>, right: Unit): Result<Text, Refusal> {
    if parts.Err? then Err(parts.error) else Ok([left] + Join(parts.value) + [right])
  }

  lemma ArrayWrites(items: seq<Json>)
    requires forall i :: 0 <= i < |items| ==> Writes(items[i])
    ensures Writes(Arr(items))
  {
    var v := Arr(items);
    var rs := seq(|items|, i requires 0 <= i < |items| => StableStringify(items[i]));
    if Supported(v) {
      assert forall i :: 0 <= i < |items| ==> rs[i] == Ok(ItemTexts(v)[i]);
      assert Collect(rs).value == ItemTexts(v);
    } else {
      var k :| 0 <= k < |items| && !Supported(items[k]);
      assert rs[k].Err?;
    }
  }

  /** A property's entry is its text, or a refusal. */
  ghost predicate EntryWrites(f: Field) {
    if Supported(f.value) then EntryOf(f) == Ok(FieldText(f)) else EntryOf(f).Err?
  }

  lemma EntryFollowsValue(f: Field)
    requires Writes(f.value)
    ensures EntryWrites(f)
  {
  }

  lemma SortedEntriesWrite(fields: seq<Field>)
    requires forall i :: 0 <= i < |fields| ==> Writes(fields[i].value)
    ensures forall i :: 0 <= i < |fields| ==> EntryWrites(Sort(fields)[i])
  {
    var sorted := Sort(fields);
    forall i | 0 <= i < |sorted|
      ensures EntryWrites(sorted[i])
    {
      assert sorted[i] in fields;
      EntryFollowsValue(sorted[i]);
    }
  }

  function Entries(sorted: seq<Field>): (r: seq<Result<Text, Refusal>>)
    ensures |r| == |sorted| && forall i :: 0 <= i < |r| ==> r[i] == EntryOf(sorted[i])
  {
    seq(|sorted|, i requires 0 <= i < |sorted| => EntryOf(sorted[i]))
  }

  lemma WritesEntries(fields: seq<Field>)
    ensures StableStringify(Obj(fields)) == Enclosed(OPEN_OBJECT, Collect(Entries(Sort(fields))), CLOSE_OBJECT)
  {
    var sorted := Sort(fields);
    assert Entries(sorted) == seq(|sorted|, i requires 0 <= i < |sorted| => EntryOf(sorted[i]));
  }

  lemma ObjectWrites(fields: seq<Field>)
    requires DistinctKeys(fields) && forall i :: 0 <= i < |fields| ==> Writes(fields[i].value)
    ensures Writes(Obj(fields))
  {
    var v, rs := Obj(fields), Entries(Sort(fields));
    WritesEntries(fields);
    SortedEntriesWrite(fields);
    if Supported(v) {
      assert forall i :: 0 <= i < |rs| ==> EntryWrites(Sort(fields)[i]) && rs[i] == Ok(FieldTexts(v)[i]);
      assert Collect(rs).value == FieldTexts(v);
    } else {
      var k :| 0 <= k < |fields| && !Supported(fields[k].value);
      assert fields[k] in Sort(fields);
      var i :| 0 <= i < |rs| && Sort(fields)[i] == fields[k];
      assert EntryWrites(Sort(fields)[i]);
      assert rs[i].Err?;
    }
  }

  /** `stableStringify` gives a value's text when the value is supported throughout, and refuses it otherwise. */
  ghost predicate Writes(v: Json) {
    if Supported(v) then StableStringify(v) == Ok(Stringify(v)) else StableStringify(v).Err?
  }

  lemma {:induction false} WritesExactlyTheSupported(v: Json)
    requires WellFormed(v)
    ensures Writes(v)
  {
    match v
    case Arr(items) =>
      forall i | 0 <= i < |items|
        ensures Writes(items[i])
      {
        WritesExactlyTheSupported(items[i]);
      }
      ArrayWrites(items);
    case Obj(fields) =>
      forall i | 0 <= i < |fields|
        ensures Writes(fields[i].value)
      {
        WritesExactlyTheSupported(fields[i].value);
      }
      ObjectWrites(fields);
    case _ =>
  }

  // ---- Reading ----

  /** How much of `t`'s head could belong to a number. */
  function NumberLength(t: Text): (r: nat)
    ensures r <= |t|
  {
    if t == [] || !N.IsNumberUnit(t[0]) then 0 else 1 + NumberLength(t[1..])
  }

  function ReadNumber(t: Text): (r: Option<(Json, Text)>)
    ensures r.Some? ==> |r.value.1| < |t|
  {
    var k := NumberLength(t);
    if k == 0 || !N.Canonical(N.Read(t[..k])) then None else Some((Num(N.Read(t[..k])), t[k..]))
  }

  function ReadWord(t: Text): (r: Option<(Json, Text)>)
    ensures r.Some? ==> |r.value.1| < |t|
  {
    if TRUE <= t then Some((Bool(true), t[4..]))
    else if FALSE <= t then Some((Bool(false), t[5..]))
    else if NULL <= t then Some((Null, t[4..]))
    else ReadNumber(t)
  }

  /** A value at the head of `t` and the text after it. */
  function ReadValue(t: Text): (r: Option<(Json, Text)>)
    ensures r.Some? ==> |r.value.1| < |t|
    decreases |t|, 2
  {
    if t == [] then None
    else if t[0] == QUOTE then
      match ReadString(t[1..])
      case None => None
      case Some((s, rest)) => Some((Str(s), rest))
    else if t[0] == OPEN_ARRAY then
      if |t| > 1 && t[1] == CLOSE_ARRAY then Some((Arr([]), t[2..]))
      else
        (match ReadItems(t[1..])
         case None => None
         case Some((items, rest)) => Some((Arr(items), rest)))
    else if t[0] == OPEN_OBJECT then
      if |t| > 1 && t[1] == CLOSE_OBJECT then Some((Obj([]), t[2..]))
      else
        (match ReadFields(t[1..])
         case None => None
         case Some((fields, rest)) => Some((Obj(fields), rest)))
    else ReadWord(t)
  }

  function ReadItems(t: Text): (r: Option<(seq<Json>, Text)>)
    ensures r.Some? ==> |r.value.1| < |t|
    decreases |t|, 3
  {
    match ReadValue(t)
    case None => None
    case Some((v, rest)) =>
      if rest == [] then None
      else if rest[0] == CLOSE_ARRAY then Some(([v], rest[1..]))
      else if rest[0] != COMMA then None
      else
        match ReadItems(rest[1..])
        case None => None
        case Some((vs, end)) => Some(([v] + vs, end))
  }

  function ReadField(t: Text): (r: Option<(Field, Text)>)
    ensures r.Some? ==> |r.value.1| < |t|
    decreases |t|, 3
  {
    if t == [] || t[0] != QUOTE then None
    else
      match ReadString(t[1..])
      case None => None
      case Some((key, rest)) =>
        if rest == [] || rest[0] != COLON then None
        else
          match ReadValue(rest[1..])
          case None => None
          case Some((v, end)) => Some((Field(key, v), end))
  }

  function ReadFields(t: Text): (r: Option<(seq<Field>, Text)>)
    ensures r.Some? ==> |r.value.1| < |t|
    decreases |t|, 4
  {
    match ReadField(t)
    case None => None
    case Some((f, rest)) =>
      if rest == [] then None
      else if rest[0] == CLOSE_OBJECT then Some(([f], rest[1..]))
      else if rest[0] != COMMA then None
      else
        match ReadFields(rest[1..])
        case None => None
        case Some((fs, end)) => Some(([f] + fs, end))
  }

  // ---- Reading undoes writing, up to key order ----

  /** The value with every object's fields in key order. */
  ghost function Canon(v: Json): Json
    requires Supported(v)
    decreases v, 1
  {
    match v
    case Arr(_) => Arr(CanonItems(v))
    case Obj(_) => Obj(CanonFields(v))
    case _ => v
  }

  ghost function CanonItems(v: Json): (r: seq<Json>)
    requires Supported(v) && v.Arr?
    ensures |r| == |v.items|
    decreases v, 0
  {
    seq(|v.items|, i requires 0 <= i < |v.items| => Canon(v.items[i]))
  }

  ghost function CanonFields(v: Json): (r: seq<Field>)
    requires Supported(v) && v.Obj?
    ensures |r| == |v.fields|
    decreases v, 0
  {
    var sorted := SortedFields(v);
    seq(|sorted|, i requires 0 <= i < |sorted| => Field(sorted[i].key, Canon(sorted[i].value)))
  }

  /** A text after which no number could go on. */
  predicate Ends(t: Text) {
    t == [] || !N.IsNumberUnit(t[0])
  }

  lemma {:induction false} NumberLengthOf(t: Text, rest: Text)
    requires N.AllNumberUnits(t) && Ends(rest)
    ensures NumberLength(t + rest) == |t|
  {
    if t == [] {
      assert t + rest == rest;
    } else {
      NumberLengthOf(t[1..], rest);
      assert (t + rest)[1..] == t[1..] + rest;
    }
  }

  lemma ReadNumberBack(n: Numeral, rest: Text)
    requires Ends(rest)
    ensures ReadNumber(N.Text(n) + rest) == Some((Num(n), rest))
  {
    var t := N.Text(n);
    N.TextUnits(n);
    NumberLengthOf(t, rest);
    N.ReadText(n);
    assert (t + rest)[..|t|] == t && (t + rest)[|t|..] == rest;
  }

  /** What begins a value's text: enough to tell an empty list from another, and one kind of value from the next. */
  lemma FirstUnit(v: Json)
    requires Supported(v)
    ensures Stringify(v) != []
    ensures Stringify(v)[0] != CLOSE_ARRAY
  {
    if v.Num? {
      N.TextUnits(v.n);
    }
  }

  /** Reading a value's text gives its canonical form and leaves what follows. */
  ghost predicate ReadsBack(v: Json, rest: Text)
    requires Supported(v)
  {
    ReadValue(Stringify(v) + rest) == Some((Canon(v), rest))
  }

  lemma ReadsAsNumber(t: Text)
    requires t != [] && (48 <= t[0] <= 57 || t[0] == N.MINUS)
    ensures ReadValue(t) == ReadNumber(t)
  {
    NoWord(t);
  }

  lemma NoWord(t: Text)
    requires t != [] && (48 <= t[0] <= 57 || t[0] == N.MINUS)
    ensures ReadWord(t) == ReadNumber(t)
  {
    PrefixStarts(TRUE, t);
    PrefixStarts(FALSE, t);
    PrefixStarts(NULL, t);
  }

  lemma PrefixStarts(p: Text, t: Text)
    requires p != []
    ensures p <= t ==> t != [] && t[0] == p[0]
  {
  }

  lemma NumReadsBack(v: Json, rest: Text)
    requires v.Num? && Ends(rest)
    ensures ReadsBack(v, rest)
  {
    N.TextUnits(v.n);
    ReadNumberBack(v.n, rest);
    ReadsAsNumber(N.Text(v.n) + rest);
  }

  lemma StrReadsBack(v: Json, rest: Text)
    requires v.Str?
    ensures ReadsBack(v, rest)
  {
    ReadQuoted(v.s, rest);
    assert Quote(v.s) + rest == [QUOTE] + Closed(v.s, rest);
  }

  lemma WordReadsBack(v: Json, rest: Text)
    requires v.Bool? || v.Null?
    ensures ReadsBack(v, rest)
  {
    var w := Stringify(v);
    assert (w + rest)[|w|..] == rest;
    assert (w + rest)[..|w|] == w;
  }

  lemma ReadFieldParts(body: Text, key: Text, value: Text, v: Json, rest: Text)
    requires ReadString(body) == Some((key, [COLON] + value)) && ReadValue(value) == Some((v, rest))
    ensures ReadField([QUOTE] + body) == Some((Field(key, v), rest))
  {
    assert ([QUOTE] + body)[1..] == body;
    assert ([COLON] + value)[1..] == value;
  }

  lemma QuoteThen(key: Text, value: Text, rest: Text)
    ensures (Quote(key) + ([COLON] + value)) + rest == [QUOTE] + Closed(key, [COLON] + (value + rest))
  {
  }

  lemma FieldReadsBack(f: Field, rest: Text)
    requires Supported(f.value) && ReadsBack(f.value, rest)
    ensures ReadField(FieldText(f) + rest) == Some((Field(f.key, Canon(f.value)), rest))
  {
    var value := Stringify(f.value);
    QuoteThen(f.key, value, rest);
    ReadQuoted(f.key, [COLON] + (value + rest));
    ReadFieldParts(Closed(f.key, [COLON] + (value + rest)), f.key, value + rest, Canon(f.value), rest);
  }

  // Lists: one element, then the rest of the list.

  /** What follows element `k` of a list of texts, up to the closing unit and the text after it. */
  function After(texts: seq<Text>, k: nat, close: Unit, rest: Text): Text
    requires k < |texts|
  {
    if k + 1 == |texts| then [close] + rest else [COMMA] + (TailText(texts, k + 1) + ([close] + rest))
  }

  lemma TailSplits(texts: seq<Text>, k: nat, close: Unit, rest: Text)
    requires k < |texts|
    ensures TailText(texts, k) + ([close] + rest) == texts[k] + After(texts, k, close, rest)
  {
    if k + 1 < |texts| {
      Assoc(texts[k], [COMMA] + TailText(texts, k + 1), [close] + rest);
      Assoc([COMMA], TailText(texts, k + 1), [close] + rest);
    }
  }

  lemma ReadLastItem(t: Text, v: Json, rest: Text)
    requires ReadValue(t) == Some((v, [CLOSE_ARRAY] + rest))
    ensures ReadItems(t) == Some(([v], rest))
  {
    assert ([CLOSE_ARRAY] + rest)[1..] == rest;
  }

  lemma ReadFirstItem(t: Text, v: Json, more: Text, vs: seq<Json>, rest: Text)
    requires ReadValue(t) == Some((v, [COMMA] + more)) && ReadItems(more) == Some((vs, rest))
    ensures ReadItems(t) == Some(([v] + vs, rest))
  {
    assert ([COMMA] + more)[1..] == more;
  }

  lemma ReadLastField(t: Text, f: Field, rest: Text)
    requires ReadField(t) == Some((f, [CLOSE_OBJECT] + rest))
    ensures ReadFields(t) == Some(([f], rest))
  {
    assert ([CLOSE_OBJECT] + rest)[1..] == rest;
  }

  lemma ReadFirstField(t: Text, f: Field, more: Text, fs: seq<Field>, rest: Text)
    requires ReadField(t) == Some((f, [COMMA] + more)) && ReadFields(more) == Some((fs, rest))
    ensures ReadFields(t) == Some(([f] + fs, rest))
  {
    assert ([COMMA] + more)[1..] == more;
  }

  lemma From<T>(s: seq<T>, k: nat)
    requires k < |s|
    ensures s[k..] == [s[k]] + s[k + 1..]
  {
  }

  lemma ItemAtReadsBack(v: Json, k: nat, rest: Text)
    requires Supported(v) && v.Arr? && k < |v.items|
    requires ReadsBack(v.items[k], After(ItemTexts(v), k, CLOSE_ARRAY, rest))
    ensures ReadValue(TailText(ItemTexts(v), k) + ([CLOSE_ARRAY] + rest))
         == Some((CanonItems(v)[k], After(ItemTexts(v), k, CLOSE_ARRAY, rest)))
  {
    TailSplits(ItemTexts(v), k, CLOSE_ARRAY, rest);
  }

  lemma {:induction false} ItemsReadBack(v: Json, k: nat, rest: Text)
    requires Supported(v) && v.Arr? && k < |v.items|
    ensures ReadItems(TailText(ItemTexts(v), k) + ([CLOSE_ARRAY] + rest)) == Some((CanonItems(v)[k..], rest))
    decreases v, 0, |v.items| - k
  {
    var texts, items := ItemTexts(v), CanonItems(v);
    var t := TailText(texts, k) + ([CLOSE_ARRAY] + rest);
    ReadBack(v.items[k], After(texts, k, CLOSE_ARRAY, rest));
    ItemAtReadsBack(v, k, rest);
    if k + 1 == |v.items| {
      ReadLastItem(t, items[k], rest);
      assert items[k..] == [items[k]];
    } else {
      ItemsReadBack(v, k + 1, rest);
      From(items, k);
      ReadFirstItem(t, items[k], TailText(texts, k + 1) + ([CLOSE_ARRAY] + rest), items[k + 1..], rest);
    }
  }

  lemma FieldAtReadsBack(v: Json, k: nat, rest: Text)
    requires Supported(v) && v.Obj? && k < |v.fields|
    requires ReadsBack(SortedFields(v)[k].value, After(FieldTexts(v), k, CLOSE_OBJECT, rest))
    ensures ReadField(TailText(FieldTexts(v), k) + ([CLOSE_OBJECT] + rest))
         == Some((CanonFields(v)[k], After(FieldTexts(v), k, CLOSE_OBJECT, rest)))
  {
    TailSplits(FieldTexts(v), k, CLOSE_OBJECT, rest);
    FieldReadsBack(SortedFields(v)[k], After(FieldTexts(v), k, CLOSE_OBJECT, rest));
  }

  lemma {:induction false} FieldsReadBack(v: Json, k: nat, rest: Text)
    requires Supported(v) && v.Obj? && k < |v.fields|
    ensures ReadFields(TailText(FieldTexts(v), k) + ([CLOSE_OBJECT] + rest)) == Some((CanonFields(v)[k..], rest))
    decreases v, 0, |v.fields| - k
  {
    var texts, fs := FieldTexts(v), CanonFields(v);
    var t := TailText(texts, k) + ([CLOSE_OBJECT] + rest);
    ReadBack(SortedFields(v)[k].value, After(texts, k, CLOSE_OBJECT, rest));
    FieldAtReadsBack(v, k, rest);
    if k + 1 == |v.fields| {
      ReadLastField(t, fs[k], rest);
      assert fs[k..] == [fs[k]];
    } else {
      FieldsReadBack(v, k + 1, rest);
      From(fs, k);
      ReadFirstField(t, fs[k], TailText(texts, k + 1) + ([CLOSE_OBJECT] + rest), fs[k + 1..], rest);
    }
  }

  lemma EmptyListReads(open: Unit, close: Unit, rest: Text)
    requires (open == OPEN_ARRAY && close == CLOSE_ARRAY) || (open == OPEN_OBJECT && close == CLOSE_OBJECT)
    ensures ReadValue(([open] + [] + [close]) + rest) == Some((if open == OPEN_ARRAY then Arr([]) else Obj([]), rest))
  {
    var t := ([open] + [] + [close]) + rest;
    assert t[2..] == rest;
  }

  lemma ReadArray(body: Text, items: seq<Json>, rest: Text)
    requires body != [] && body[0] != CLOSE_ARRAY && ReadItems(body) == Some((items, rest))
    ensures ReadValue([OPEN_ARRAY] + body) == Some((Arr(items), rest))
  {
    assert ([OPEN_ARRAY] + body)[1..] == body;
  }

  lemma ReadObject(body: Text, fields: seq<Field>, rest: Text)
    requires body != [] && body[0] != CLOSE_OBJECT && ReadFields(body) == Some((fields, rest))
    ensures ReadValue([OPEN_OBJECT] + body) == Some((Obj(fields), rest))
  {
    assert ([OPEN_OBJECT] + body)[1..] == body;
  }

  lemma EnclosedThen(open: Unit, body: Text, close: Unit, rest: Text)
    ensures ([open] + body + [close]) + rest == [open] + (body + ([close] + rest))
  {
  }

  lemma TailStarts(texts: seq<Text>, k: nat)
    requires k < |texts| && texts[k] != []
    ensures TailText(texts, k) != [] && TailText(texts, k)[0] == texts[k][0]
  {
  }

  lemma {:induction false} ArrReadsBack(v: Json, rest: Text)
    requires Supported(v) && v.Arr?
    ensures ReadsBack(v, rest)
    decreases v, 1
  {
    if v.items == [] {
      EmptyListReads(OPEN_ARRAY, CLOSE_ARRAY, rest);
      assert CanonItems(v) == [];
    } else {
      ItemsReadBack(v, 0, rest);
      FirstUnit(v.items[0]);
      TailStarts(ItemTexts(v), 0);
      EnclosedThen(OPEN_ARRAY, TailText(ItemTexts(v), 0), CLOSE_ARRAY, rest);
      ReadArray(TailText(ItemTexts(v), 0) + ([CLOSE_ARRAY] + rest), CanonItems(v), rest);
    }
  }

  lemma {:induction false} ObjReadsBack(v: Json, rest: Text)
    requires Supported(v) && v.Obj?
    ensures ReadsBack(v, rest)
    decreases v, 1
  {
    if v.fields == [] {
      EmptyListReads(OPEN_OBJECT, CLOSE_OBJECT, rest);
      assert CanonFields(v) == [];
    } else {
      FieldsReadBack(v, 0, rest);
      assert FieldTexts(v)[0][0] == QUOTE;
      TailStarts(FieldTexts(v), 0);
      EnclosedThen(OPEN_OBJECT, TailText(FieldTexts(v), 0), CLOSE_OBJECT, rest);
      ReadObject(TailText(FieldTexts(v), 0) + ([CLOSE_OBJECT] + rest), CanonFields(v), rest);
    }
  }

  lemma {:induction false} ReadBack(v: Json, rest: Text)
    requires Supported(v) && Ends(rest)
    ensures ReadsBack(v, rest)
    decreases v, 2
  {
    match v
    case Num(_) => NumReadsBack(v, rest);
    case Str(_) => StrReadsBack(v, rest);
    case Arr(_) => ArrReadsBack(v, rest);
    case Obj(_) => ObjReadsBack(v, rest);
    case _ => WordReadsBack(v, rest);
  }

  // ---- One text per value ----

  ghost function Keys(fs: seq<Field>): set<Text> {
    set f | f in fs :: f.key
  }

  /** Equal as JSON values: arrays item by item, objects as maps from keys to values. */
  ghost predicate SameJson(v: Json, w: Json) {
    match (v, w)
    case (Arr(a), Arr(b)) => |a| == |b| && forall i :: 0 <= i < |a| ==> SameJson(a[i], b[i])
    case (Obj(a), Obj(b)) =>
      && Keys(a) == Keys(b)
      && forall i, j :: 0 <= i < |a| && 0 <= j < |b| && a[i].key == b[j].key ==> SameJson(a[i].value, b[j].value)
    case _ => v == w
  }

  /** A set of keys can be listed in order in one way only. */
  lemma {:induction false} SortedKeysUnique(a: seq<Field>, b: seq<Field>)
    requires Sorted(a) && Sorted(b) && Keys(a) == Keys(b)
    ensures |a| == |b| && forall i :: 0 <= i < |a| ==> a[i].key == b[i].key
  {
    assert |b| > 0 ==> b[0].key in Keys(b);
    if a != [] {
      SameHead(a, b);
      TailKeys(a);
      TailKeys(b);
      SortedKeysUnique(a[1..], b[1..]);
      assert forall i :: 0 < i < |a| ==> a[i] == a[1..][i - 1] && b[i] == b[1..][i - 1];
    }
  }

  lemma SameHead(a: seq<Field>, b: seq<Field>)
    requires Sorted(a) && Sorted(b) && Keys(a) == Keys(b) && a != []
    ensures b != [] && a[0].key == b[0].key
  {
    assert a[0].key in Keys(b);
    var i :| 0 <= i < |b| && b[i].key == a[0].key;
    assert b[0].key in Keys(a);
    var j :| 0 <= j < |a| && a[j].key == b[0].key;
    if i > 0 && j > 0 {
      LessIsTotal(a[0].key, b[0].key);
    }
  }

  lemma TailKeys(a: seq<Field>)
    requires Sorted(a) && a != []
    ensures Keys(a[1..]) == Keys(a) - {a[0].key}
  {
    assert a == [a[0]] + a[1..];
    forall k | 0 < k < |a|
      ensures a[k].key != a[0].key
    {
      LessIsTotal(a[0].key, a[k].key);
    }
  }

  lemma SameSortedKeys(v: Json, w: Json)
    requires Supported(v) && Supported(w) && v.Obj? && w.Obj? && Keys(v.fields) == Keys(w.fields)
    ensures |v.fields| == |w.fields|
    ensures forall i :: 0 <= i < |v.fields| ==> SortedFields(v)[i].key == SortedFields(w)[i].key
  {
    SortSorted(v.fields);
    SortSorted(w.fields);
    assert Keys(Sort(v.fields)) == Keys(v.fields) && Keys(Sort(w.fields)) == Keys(w.fields);
    SortedKeysUnique(SortedFields(v), SortedFields(w));
  }

  lemma {:induction false} SameFieldTexts(v: Json, w: Json)
    requires Supported(v) && Supported(w) && v.Obj? && w.Obj? && SameJson(v, w)
    ensures FieldTexts(v) == FieldTexts(w)
    decreases v, 0
  {
    SameSortedKeys(v, w);
    var a, b := SortedFields(v), SortedFields(w);
    forall i | 0 <= i < |a|
      ensures FieldText(a[i]) == FieldText(b[i])
    {
      assert a[i] in v.fields && b[i] in w.fields;
      SameText(a[i].value, b[i].value);
    }
  }

  lemma {:induction false} SameText(v: Json, w: Json)
    requires Supported(v) && Supported(w) && SameJson(v, w)
    ensures Stringify(v) == Stringify(w)
    decreases v, 1
  {
    match (v, w)
    case (Arr(a), Arr(b)) =>
      forall i | 0 <= i < |a|
        ensures Stringify(a[i]) == Stringify(b[i])
      {
        SameText(a[i], b[i]);
      }
      assert ItemTexts(v) == ItemTexts(w);
    case (Obj(_), Obj(_)) => SameFieldTexts(v, w);
    case _ =>
  }

  lemma CanonKeys(v: Json)
    requires Supported(v) && v.Obj?
    ensures Keys(CanonFields(v)) == Keys(v.fields)
  {
    var sorted, canon := SortedFields(v), CanonFields(v);
    forall f | f in v.fields
      ensures f.key in Keys(canon)
    {
      assert f in Sort(v.fields);
      var i :| 0 <= i < |sorted| && sorted[i] == f;
      assert canon[i] in canon;
    }
    forall g | g in canon
      ensures g.key in Keys(v.fields)
    {
      var i :| 0 <= i < |canon| && canon[i] == g;
      assert sorted[i] in v.fields;
    }
  }

  lemma {:induction false} SameCanonFields(v: Json, w: Json, i: nat, j: nat)
    requires Supported(v) && Supported(w) && v.Obj? && w.Obj? && CanonFields(v) == CanonFields(w)
    requires i < |v.fields| && j < |w.fields| && v.fields[i].key == w.fields[j].key
    ensures SameJson(v.fields[i].value, w.fields[j].value)
    decreases v, 0
  {
    var a, b := SortedFields(v), SortedFields(w);
    assert v.fields[i] in Sort(v.fields) && w.fields[j] in Sort(w.fields);
    var p :| 0 <= p < |a| && a[p] == v.fields[i];
    var q :| 0 <= q < |b| && b[q] == w.fields[j];
    assert CanonFields(v)[q].key == b[q].key;
    SortSorted(v.fields);
    LessIsTotal(a[p].key, a[q].key);
    assert p == q;
    assert CanonFields(v)[p].value == CanonFields(w)[p].value;
    SameCanon(v.fields[i].value, w.fields[j].value);
  }

  lemma {:induction false} SameCanon(v: Json, w: Json)
    requires Supported(v) && Supported(w) && Canon(v) == Canon(w)
    ensures SameJson(v, w)
    decreases v, 1
  {
    match (v, w)
    case (Arr(a), Arr(b)) =>
      forall i | 0 <= i < |a|
        ensures SameJson(a[i], b[i])
      {
        assert CanonItems(v)[i] == CanonItems(w)[i];
        SameCanon(a[i], b[i]);
      }
    case (Obj(a), Obj(b)) =>
      CanonKeys(v);
      CanonKeys(w);
      forall i, j | 0 <= i < |a| && 0 <= j < |b| && a[i].key == b[j].key
        ensures SameJson(a[i].value, b[j].value)
      {
        SameCanonFields(v, w, i, j);
      }
    case _ =>
  }

  /** Two values are written alike exactly when they are the same value, whatever order their keys were added in. */
  lemma SameTextIffSameValue(v: Json, w: Json)
    requires Supported(v) && Supported(w)
    ensures Stringify(v) == Stringify(w) <==> SameJson(v, w)
  {
    if SameJson(v, w) {
      SameText(v, w);
    }
    if Stringify(v) == Stringify(w) {
      ReadBack(v, []);
      ReadBack(w, []);
      SameCanon(v, w);
    }
  }
}

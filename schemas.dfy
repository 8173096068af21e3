/**
  The marshmallow 3 `Schema.load` behaviour the client's schemas rely on,
  over a declarative field table.

  A schema is a sequence of fields in declaration order.  Each field names the
  attribute it fills, the input key it reads, a coercion kind, and the
  `required` and `allow_none` flags.  Loading an object:

  1. decodes every field in order.  Invalid input (a missing required key, a
     null where nulls are not allowed, a value the coercion refuses) is recorded
     as a ValidationError and decoding continues.  Any other exception raised by
     a field (the parse functions of `fields.Function` raise ValueError,
     TypeError or OverflowError) escapes at once;
  2. raises ValidationError if anything was recorded;
  3. otherwise runs the `post_load` hook, which builds the namedtuple from the
     decoded attributes (`Record(**js)`).

  With `many=True` step 1 runs over every item of a list before step 3 runs
  on each item.  Nested schemas load recursively in the same way.
*/
module Schemas {
  import opened Wrappers
  import opened Exceptions
  import opened Civil
  import opened PyJson

  /**
    The scalar coercions of marshmallow, left abstract.  Each one takes a
    non-null JSON value and either gives the coerced value or refuses it
    (a ValidationError).
  */
  datatype Coercions = Coercions(
    integer: Json -> Option<int>,          // fields.Integer
    float: Json -> Option<Float>,          // fields.Float
    boolean: Json -> Option<bool>,         // fields.Boolean
    absoluteUrl: string -> bool,           // fields.Url(relative=False)'s validator
    isoDateTime: string -> Option<DateTime>,  // fields.DateTime(format='iso')
    rfcDateTime: string -> Option<DateTime>)  // fields.DateTime(format='rfc')

  /**
    How `post_load` turns the decoded attributes into a record.  `AsWritten` is
    `Record(**js)`, which raises TypeError when an attribute is absent.
    `FillAbsent` gives absent attributes the value None.
  */
  datatype Construction = AsWritten | FillAbsent

  /**
    The environment of one load: the coercions, the moment "now" that the
    parse functions fall back to, and the construction policy.  `fields.Function`
    passes the schema context (an empty dict) as `relative_to`, which is falsy,
    so the parse functions always measure from now.
  */
  datatype Ctx = Ctx(env: Coercions, now: DateTime, construction: Construction)

  datatype Kind =
    | KString
    | KInteger
    | KFloat
    | KBoolean
    | KUrl
    | KIsoDateTime
    | KRfcDateTime
    | KFunction(parse: (string, DateTime) -> Result<DateTime, PyException>)
    | KNested(schema: Schema)
    | KNestedList(schema: Schema)

  datatype Field = Field(name: string, key: string, kind: Kind, required: bool, allowNone: bool)

  datatype Schema = Schema(fields: seq<Field>)

  /** A loaded value; a namedtuple is the map from its attribute names to values. */
  datatype Value =
    | VNone
    | VInt(i: int)
    | VFloat(f: Float)
    | VBool(b: bool)
    | VStr(s: string)
    | VTime(t: DateTime)
    | VRecord(attrs: map<string, Value>)
    | VList(items: seq<Value>)

  /** What loading something gives: a value, a ValidationError, or an escaping exception. */
  datatype Outcome<+T> = Ok(value: T) | Invalid | Escaped(e: PyException)

  /** What decoding one field gives: a value, nothing (absent and optional), a ValidationError, or an escape. */
  datatype FieldOutcome = Loaded(v: Value) | Skipped | Rejected | Raised(e: PyException)

  /** What `schema.load` / `schema.loads` report to their caller. */
  datatype LoadError = ValidationError | Uncaught(e: PyException)

  /** A simple field: `fields.X(required=True)`. */
  function Req(name: string, kind: Kind): Field {
    Field(name, name, kind, true, false)
  }

  /** `fields.X(required=True, allow_none=True)`. */
  function ReqNullable(name: string, kind: Kind): Field {
    Field(name, name, kind, true, true)
  }

  /** `fields.X()`: optional, not nullable. */
  function Opt(name: string, kind: Kind): Field {
    Field(name, name, kind, false, false)
  }

  function NamesOf(fs: seq<Field>): set<string> {
    set i | 0 <= i < |fs| :: fs[i].name
  }

  predicate DistinctNames(fs: seq<Field>) {
    forall i, j | 0 <= i < j < |fs| :: fs[i].name != fs[j].name
  }

  predicate AllRequired(fs: seq<Field>) {
    forall i | 0 <= i < |fs| :: fs[i].required
  }

  predicate Accepted(r: FieldOutcome) {
    r.Loaded? || r.Skipped?
  }

  // ---------------------------------------------------------------------
  // Decoding

  function DecodeValue(ctx: Ctx, kind: Kind, j: Json): Outcome<Value>
    decreases j, 2, 0
  {
    match kind
    case KString => if j.JString? then Ok(VStr(j.s)) else Invalid
    case KInteger => if ctx.env.integer(j).Some? then Ok(VInt(ctx.env.integer(j).value)) else Invalid
    case KFloat => if ctx.env.float(j).Some? then Ok(VFloat(ctx.env.float(j).value)) else Invalid
    case KBoolean => if ctx.env.boolean(j).Some? then Ok(VBool(ctx.env.boolean(j).value)) else Invalid
    case KUrl => if j.JString? && ctx.env.absoluteUrl(j.s) then Ok(VStr(j.s)) else Invalid
    case KIsoDateTime =>
      if j.JString? && ctx.env.isoDateTime(j.s).Some? then Ok(VTime(ctx.env.isoDateTime(j.s).value)) else Invalid
    case KRfcDateTime =>
      if j.JString? && ctx.env.rfcDateTime(j.s).Some? then Ok(VTime(ctx.env.rfcDateTime(j.s).value)) else Invalid
    case KFunction(parse) =>
      // strptime on a non-string raises TypeError, which nothing catches.
      if !j.JString? then Escaped(TypeError)
      else if parse(j.s, ctx.now).Success? then Ok(VTime(parse(j.s, ctx.now).value))
      else Escaped(parse(j.s, ctx.now).error)
    case KNested(sc) =>
      (match j
       case JObject(o) => LoadObject(ctx, sc, o)
       case _ => Invalid)
    case KNestedList(sc) =>
      (match j
       case JArray(items) => LoadList(ctx, sc, items)
       case _ => Invalid)
  }

  function DecodeField(ctx: Ctx, f: Field, o: map<string, Json>): FieldOutcome
    decreases JObject(o), 0, 0
  {
    if f.key !in o then (if f.required then Rejected else Skipped)
    else if o[f.key].JNull? then (if f.allowNone then Loaded(VNone) else Rejected)
    else
      match DecodeValue(ctx, f.kind, o[f.key])
      case Ok(v) => Loaded(v)
      case Invalid => Rejected
      case Escaped(e) => Raised(e)
  }

  /** Step 1 and 2 on one object: the decoded attributes, keyed by field name. */
  function DecodeFields(ctx: Ctx, fs: seq<Field>, o: map<string, Json>): Outcome<map<string, Value>>
    decreases JObject(o), 0, |fs|
  {
    if fs == [] then Ok(map[])
    else
      var head := DecodeField(ctx, fs[0], o);
      if head.Raised? then Escaped(head.e)
      else
        var tail := DecodeFields(ctx, fs[1..], o);
        if tail.Escaped? then tail
        else if head.Rejected? || tail.Invalid? then Invalid
        else if head.Loaded? then Ok(tail.value[fs[0].name := head.v])
        else tail
  }

  predicate Complete(sc: Schema, m: map<string, Value>) {
    forall i | 0 <= i < |sc.fields| :: sc.fields[i].name in m
  }

  /** The attributes with every absent one set to None. */
  function Filled(sc: Schema, m: map<string, Value>): map<string, Value> {
    m + map n | n in NamesOf(sc.fields) && n !in m :: VNone
  }

  /** Step 3: `post_load`. */
  function Construct(c: Construction, sc: Schema, m: map<string, Value>): Outcome<Value> {
    match c
    case AsWritten => if Complete(sc, m) then Ok(VRecord(m)) else Escaped(TypeError)
    case FillAbsent => Ok(VRecord(Filled(sc, m)))
  }

  function LoadObject(ctx: Ctx, sc: Schema, o: map<string, Json>): Outcome<Value>
    decreases JObject(o), 1, 0
  {
    match DecodeFields(ctx, sc.fields, o)
    case Ok(m) => Construct(ctx.construction, sc, m)
    case Invalid => Invalid
    case Escaped(e) => Escaped(e)
  }

  /** Steps 1 and 2 over the items of a list, from index `i` on; a non-object item is invalid. */
  function DecodeItems(ctx: Ctx, sc: Schema, items: seq<Json>, i: nat): Outcome<seq<map<string, Value>>>
    requires i <= |items|
    decreases JArray(items), 0, |items| - i
  {
    if i == |items| then Ok([])
    else
      var head := match items[i] case JObject(o) => DecodeFields(ctx, sc.fields, o) case _ => Invalid;
      if head.Escaped? then Escaped(head.e)
      else
        var tail := DecodeItems(ctx, sc, items, i + 1);
        if tail.Escaped? then tail
        else if head.Invalid? || tail.Invalid? then Invalid
        else Ok([head.value] + tail.value)
  }

  /** Step 3 on each item in order; the first TypeError escapes. */
  function ConstructAll(c: Construction, sc: Schema, ms: seq<map<string, Value>>): Outcome<seq<Value>> {
    if ms == [] then Ok([])
    else
      match Construct(c, sc, ms[0])
      case Ok(v) =>
        (match ConstructAll(c, sc, ms[1..])
         case Ok(vs) => Ok([v] + vs)
         case Invalid => Invalid
         case Escaped(e) => Escaped(e))
      case Invalid => Invalid
      case Escaped(e) => Escaped(e)
  }

  function LoadList(ctx: Ctx, sc: Schema, items: seq<Json>): Outcome<Value>
    decreases JArray(items), 1, 0
  {
    match DecodeItems(ctx, sc, items, 0)
    case Ok(ms) =>
      (match ConstructAll(ctx.construction, sc, ms)
       case Ok(vs) => Ok(VList(vs))
       case Invalid => Invalid
       case Escaped(e) => Escaped(e))
    case Invalid => Invalid
    case Escaped(e) => Escaped(e)
  }

  /** `Schema(many=many).load(j)`. */
  function LoadJson(ctx: Ctx, sc: Schema, many: bool, j: Json): Outcome<Value> {
    if many then (match j case JArray(items) => LoadList(ctx, sc, items) case _ => Invalid)
    else (match j case JObject(o) => LoadObject(ctx, sc, o) case _ => Invalid)
  }

  function Report(r: Outcome<Value>): Result<Value, LoadError> {
    match r
    case Ok(v) => Success(v)
    case Invalid => Failure(ValidationError)
    case Escaped(e) => Failure(Uncaught(e))
  }

  /** `Schema(many=many).loads(text)`: text that is not JSON raises ValueError. */
  function Loads(ctx: Ctx, sc: Schema, many: bool, body: Body): (r: Result<Value, LoadError>)
    ensures body.NotJson? ==> r == Failure(Uncaught(ValueError))
    ensures body.Parsed? && r.Success? ==> LoadJson(ctx, sc, many, body.json) == Ok(r.value)
    ensures body.Parsed? && many && !body.json.JArray? ==> r == Failure(ValidationError)
    ensures body.Parsed? && !many && !body.json.JObject? ==> r == Failure(ValidationError)
    ensures body.Parsed? ==>
      var o := LoadJson(ctx, sc, many, body.json);
      && (o.Ok? <==> r.Success?)
      && (o.Ok? ==> r.value == o.value)
      && (o.Invalid? ==> r == Failure(ValidationError))
      && (o.Escaped? ==> r == Failure(Uncaught(o.e)))
  {
    match body
    case NotJson => Failure(Uncaught(ValueError))
    case Parsed(j) => Report(LoadJson(ctx, sc, many, j))
  }

  // ---------------------------------------------------------------------
  // Lemmas

  /** Decoding an object's fields succeeds exactly when every field is loaded or skipped. */
  lemma {:induction false} DecodeFieldsOkIff(ctx: Ctx, fs: seq<Field>, o: map<string, Json>)
    ensures DecodeFields(ctx, fs, o).Ok? <==> forall i | 0 <= i < |fs| :: Accepted(DecodeField(ctx, fs[i], o))
    decreases |fs|
  {
    if fs != [] {
      DecodeFieldsOkIff(ctx, fs[1..], o);
      assert forall i | 1 <= i < |fs| :: fs[i] == fs[1..][i - 1];
    }
  }

  /**
    With distinct attribute names, the decoded attributes are exactly the loaded
    fields, each with the value its field decoded to.
  */
  lemma {:induction false} DecodeFieldsContents(ctx: Ctx, fs: seq<Field>, o: map<string, Json>)
    requires DistinctNames(fs)
    requires DecodeFields(ctx, fs, o).Ok?
    ensures var m := DecodeFields(ctx, fs, o).value;
      && m.Keys <= NamesOf(fs)
      && forall i | 0 <= i < |fs| ::
           && (fs[i].name in m <==> DecodeField(ctx, fs[i], o).Loaded?)
           && (fs[i].name in m ==> m[fs[i].name] == DecodeField(ctx, fs[i], o).v)
    decreases |fs|
  {
    if fs != [] {
      var tl := fs[1..];
      assert forall i | 1 <= i < |fs| :: fs[i] == tl[i - 1];
      assert DistinctNames(tl) by {
        forall i, j | 0 <= i < j < |tl| ensures tl[i].name != tl[j].name {
          assert tl[i] == fs[i + 1] && tl[j] == fs[j + 1];
        }
      }
      DecodeFieldsContents(ctx, tl, o);
      assert NamesOf(fs) == {fs[0].name} + NamesOf(tl) by {
        forall n | n in NamesOf(tl) ensures n in NamesOf(fs) {
          var k :| 0 <= k < |tl| && tl[k].name == n;
          assert fs[k + 1].name == n;
        }
      }
      assert forall i | 1 <= i < |fs| :: fs[i].name != fs[0].name;
    }
  }

  /** A field that is refused anywhere in the table fails the whole object: no partial record. */
  lemma FailingFieldFailsObject(ctx: Ctx, sc: Schema, o: map<string, Json>, i: int)
    requires 0 <= i < |sc.fields|
    requires !Accepted(DecodeField(ctx, sc.fields[i], o))
    ensures !LoadObject(ctx, sc, o).Ok?
  {
    DecodeFieldsOkIff(ctx, sc.fields, o);
  }

  /** A missing required key, or a null for a field that does not allow None, fails the object. */
  lemma MissingOrNullFails(ctx: Ctx, sc: Schema, o: map<string, Json>, i: int)
    requires 0 <= i < |sc.fields|
    requires var f := sc.fields[i];
      (f.required && f.key !in o) || (!f.allowNone && f.key in o && o[f.key] == JNull)
    ensures !LoadObject(ctx, sc, o).Ok?
  {
    FailingFieldFailsObject(ctx, sc, o, i);
  }

  /**
    When every field is required and names are distinct, a loaded object carries
    exactly the table's attributes, and every key was in the input.
  */
  lemma AllRequiredLoad(ctx: Ctx, sc: Schema, o: map<string, Json>)
    requires AllRequired(sc.fields) && DistinctNames(sc.fields)
    requires LoadObject(ctx, sc, o).Ok?
    ensures DecodeFields(ctx, sc.fields, o).Ok?
    ensures forall i | 0 <= i < |sc.fields| :: sc.fields[i].key in o
    ensures LoadObject(ctx, sc, o) == Ok(VRecord(DecodeFields(ctx, sc.fields, o).value))
    ensures DecodeFields(ctx, sc.fields, o).value.Keys == NamesOf(sc.fields)
  {
    DecodeFieldsOkIff(ctx, sc.fields, o);
    DecodeFieldsContents(ctx, sc.fields, o);
    var m := DecodeFields(ctx, sc.fields, o).value;
    forall i | 0 <= i < |sc.fields| ensures sc.fields[i].key in o && sc.fields[i].name in m {
      assert Accepted(DecodeField(ctx, sc.fields[i], o));
    }
    assert Complete(sc, m);
    assert Filled(sc, m) == m;
  }

  /**
    The value of one attribute of a loaded object: a present, nullable null is
    None; otherwise it is what the field's coercion gave.
  */
  lemma LoadedAttribute(ctx: Ctx, sc: Schema, o: map<string, Json>, i: int)
    requires DistinctNames(sc.fields) && 0 <= i < |sc.fields|
    requires LoadObject(ctx, sc, o).Ok?
    requires sc.fields[i].key in o
    ensures var f := sc.fields[i];
      && LoadObject(ctx, sc, o).value.VRecord?
      && f.name in LoadObject(ctx, sc, o).value.attrs
      && (o[f.key] == JNull ==> f.allowNone && LoadObject(ctx, sc, o).value.attrs[f.name] == VNone)
      && (o[f.key] != JNull ==>
            DecodeValue(ctx, f.kind, o[f.key]) == Ok(LoadObject(ctx, sc, o).value.attrs[f.name]))
  {
    DecodeFieldsOkIff(ctx, sc.fields, o);
    DecodeFieldsContents(ctx, sc.fields, o);
    assert Accepted(DecodeField(ctx, sc.fields[i], o));
    var m := DecodeFields(ctx, sc.fields, o).value;
    assert sc.fields[i].name in m;
    assert Filled(sc, m)[sc.fields[i].name] == m[sc.fields[i].name];
  }

  /** An optional key that is absent leaves the attribute out of the decoded attributes. */
  lemma AbsentOptionalSkipped(ctx: Ctx, sc: Schema, o: map<string, Json>, i: int)
    requires DistinctNames(sc.fields) && 0 <= i < |sc.fields|
    requires !sc.fields[i].required && sc.fields[i].key !in o
    requires DecodeFields(ctx, sc.fields, o).Ok?
    ensures sc.fields[i].name !in DecodeFields(ctx, sc.fields, o).value
  {
    DecodeFieldsContents(ctx, sc.fields, o);
  }

  /** A coercion that can only refuse, never raise. */
  predicate Plain(kind: Kind) {
    !kind.KFunction? && !kind.KNested? && !kind.KNestedList?
  }

  lemma PlainFieldNeverRaises(ctx: Ctx, f: Field, o: map<string, Json>)
    requires Plain(f.kind)
    ensures !DecodeField(ctx, f, o).Raised?
  {
  }

  /**
    The first field in declaration order whose decoding raises decides the
    outcome: its exception escapes, whatever refusals came before or after.
  */
  lemma {:induction false} FirstEscapeWins(ctx: Ctx, fs: seq<Field>, o: map<string, Json>, i: int)
    requires 0 <= i < |fs|
    requires forall k | 0 <= k < i :: !DecodeField(ctx, fs[k], o).Raised?
    requires DecodeField(ctx, fs[i], o).Raised?
    ensures DecodeFields(ctx, fs, o) == Escaped(DecodeField(ctx, fs[i], o).e)
    decreases i
  {
    if i > 0 {
      assert forall k | 0 <= k < i - 1 :: fs[1..][k] == fs[k + 1];
      FirstEscapeWins(ctx, fs[1..], o, i - 1);
    }
  }

  lemma {:induction false} DecodeItemsOkIff(ctx: Ctx, sc: Schema, items: seq<Json>, i: nat)
    requires i <= |items|
    ensures DecodeItems(ctx, sc, items, i).Ok? <==>
      forall k | i <= k < |items| :: items[k].JObject? && DecodeFields(ctx, sc.fields, items[k].fields).Ok?
    ensures DecodeItems(ctx, sc, items, i).Ok? ==>
      var ms := DecodeItems(ctx, sc, items, i).value;
      && |ms| == |items| - i
      && forall k | i <= k < |items| :: ms[k - i] == DecodeFields(ctx, sc.fields, items[k].fields).value
    decreases |items| - i
  {
    if i < |items| {
      DecodeItemsOkIff(ctx, sc, items, i + 1);
    }
  }

  lemma {:induction false} ConstructAllOkIff(c: Construction, sc: Schema, ms: seq<map<string, Value>>)
    ensures ConstructAll(c, sc, ms).Ok? <==> forall k | 0 <= k < |ms| :: Construct(c, sc, ms[k]).Ok?
    ensures ConstructAll(c, sc, ms).Ok? ==>
      var vs := ConstructAll(c, sc, ms).value;
      |vs| == |ms| && forall k | 0 <= k < |ms| :: vs[k] == Construct(c, sc, ms[k]).value
  {
    if ms != [] {
      ConstructAllOkIff(c, sc, ms[1..]);
      assert forall k | 1 <= k < |ms| :: ms[k] == ms[1..][k - 1];
    }
  }

  /**
    A nested list loads exactly when every item is an object that loads on its
    own; it then gives those records in the same order, one per item.  So any
    failing item fails the whole list.
  */
  lemma LoadListElementwise(ctx: Ctx, sc: Schema, items: seq<Json>)
    ensures LoadList(ctx, sc, items).Ok? <==>
      forall k | 0 <= k < |items| :: items[k].JObject? && LoadObject(ctx, sc, items[k].fields).Ok?
    ensures LoadList(ctx, sc, items).Ok? ==>
      && LoadList(ctx, sc, items).value.VList?
      && |LoadList(ctx, sc, items).value.items| == |items|
      && forall k | 0 <= k < |items| ::
           LoadList(ctx, sc, items).value.items[k] == LoadObject(ctx, sc, items[k].fields).value
  {
    DecodeItemsOkIff(ctx, sc, items, 0);
    var d := DecodeItems(ctx, sc, items, 0);
    if d.Ok? {
      ConstructAllOkIff(ctx.construction, sc, d.value);
    }
    if forall k | 0 <= k < |items| :: items[k].JObject? && LoadObject(ctx, sc, items[k].fields).Ok? {
      assert d.Ok?;
      forall k | 0 <= k < |d.value| ensures Construct(ctx.construction, sc, d.value[k]).Ok? {
        assert LoadObject(ctx, sc, items[k].fields).Ok?;
      }
    }
  }

  // ---------------------------------------------------------------------
  // The two construction policies differ only where `AsWritten` raised.

  /** `b` agrees with `a` wherever `a` did not escape. */
  predicate Agrees<T(==)>(a: Outcome<T>, b: Outcome<T>) {
    a.Escaped? || a == b
  }

  function WithConstruction(ctx: Ctx, c: Construction): Ctx {
    ctx.(construction := c)
  }

  lemma {:induction false} AgreeValue(ctx: Ctx, kind: Kind, j: Json)
    ensures Agrees(DecodeValue(WithConstruction(ctx, AsWritten), kind, j), DecodeValue(WithConstruction(ctx, FillAbsent), kind, j))
    decreases j, 2, 0
  {
    match kind
    case KNested(sc) =>
      match j {
        case JObject(o) => AgreeObject(ctx, sc, o);
        case _ =>
      }
    case KNestedList(sc) =>
      match j {
        case JArray(items) => AgreeList(ctx, sc, items);
        case _ =>
      }
    case _ =>
  }

  lemma {:induction false} AgreeField(ctx: Ctx, f: Field, o: map<string, Json>)
    ensures var a := DecodeField(WithConstruction(ctx, AsWritten), f, o);
      a.Raised? || a == DecodeField(WithConstruction(ctx, FillAbsent), f, o)
    decreases JObject(o), 0, 0
  {
    if f.key in o && !o[f.key].JNull? {
      AgreeValue(ctx, f.kind, o[f.key]);
    }
  }

  lemma {:induction false} AgreeFields(ctx: Ctx, fs: seq<Field>, o: map<string, Json>)
    ensures Agrees(DecodeFields(WithConstruction(ctx, AsWritten), fs, o), DecodeFields(WithConstruction(ctx, FillAbsent), fs, o))
    decreases JObject(o), 0, |fs|
  {
    if fs != [] {
      AgreeField(ctx, fs[0], o);
      AgreeFields(ctx, fs[1..], o);
    }
  }

  lemma {:induction false} AgreeObject(ctx: Ctx, sc: Schema, o: map<string, Json>)
    ensures Agrees(LoadObject(WithConstruction(ctx, AsWritten), sc, o), LoadObject(WithConstruction(ctx, FillAbsent), sc, o))
    decreases JObject(o), 1, 0
  {
    AgreeFields(ctx, sc.fields, o);
    var d := DecodeFields(WithConstruction(ctx, AsWritten), sc.fields, o);
    if d.Ok? {
      AgreeConstruct(sc, d.value);
    }
  }

  lemma AgreeConstruct(sc: Schema, m: map<string, Value>)
    ensures Agrees(Construct(AsWritten, sc, m), Construct(FillAbsent, sc, m))
  {
    if Complete(sc, m) {
      assert Filled(sc, m) == m;
    }
  }

  lemma {:induction false} AgreeItems(ctx: Ctx, sc: Schema, items: seq<Json>, i: nat)
    requires i <= |items|
    ensures Agrees(DecodeItems(WithConstruction(ctx, AsWritten), sc, items, i), DecodeItems(WithConstruction(ctx, FillAbsent), sc, items, i))
    decreases JArray(items), 0, |items| - i
  {
    if i < |items| {
      match items[i] {
        case JObject(o) => AgreeFields(ctx, sc.fields, o);
        case _ =>
      }
      AgreeItems(ctx, sc, items, i + 1);
    }
  }

  lemma {:induction false} AgreeConstructAll(sc: Schema, ms: seq<map<string, Value>>)
    ensures Agrees(ConstructAll(AsWritten, sc, ms), ConstructAll(FillAbsent, sc, ms))
  {
    if ms != [] {
      AgreeConstruct(sc, ms[0]);
      AgreeConstructAll(sc, ms[1..]);
    }
  }

  lemma {:induction false} AgreeList(ctx: Ctx, sc: Schema, items: seq<Json>)
    ensures Agrees(LoadList(WithConstruction(ctx, AsWritten), sc, items), LoadList(WithConstruction(ctx, FillAbsent), sc, items))
    decreases JArray(items), 1, 0
  {
    AgreeItems(ctx, sc, items, 0);
    var d := DecodeItems(WithConstruction(ctx, AsWritten), sc, items, 0);
    if d.Ok? {
      AgreeConstructAll(sc, d.value);
    }
  }

  /**
    Filling absent attributes with None changes a load's outcome only where
    `Record(**js)` as written raised: every success and every ValidationError
    is the same under both policies.
  */
  lemma FillAbsentIsConservative(ctx: Ctx, sc: Schema, many: bool, body: Body)
    ensures var a := Loads(WithConstruction(ctx, AsWritten), sc, many, body);
      (a.Failure? && a.error.Uncaught?) || a == Loads(WithConstruction(ctx, FillAbsent), sc, many, body)
  {
    if body.Parsed? {
      match body.json {
        case JArray(items) => AgreeList(ctx, sc, items);
        case JObject(o) => AgreeObject(ctx, sc, o);
        case _ =>
      }
    }
  }

  // ---------------------------------------------------------------------
  // Nested records

  predicate WellFormed(sc: Schema) {
    AllRequired(sc.fields) && DistinctNames(sc.fields)
  }

  /** A successful load found every key and gives a record with exactly the table's attributes. */
  predicate LoadsExactly(ctx: Ctx, sc: Schema, o: map<string, Json>) {
    LoadObject(ctx, sc, o).Ok? ==>
      && (forall i | 0 <= i < |sc.fields| :: sc.fields[i].key in o)
      && LoadObject(ctx, sc, o).value.VRecord?
      && LoadObject(ctx, sc, o).value.attrs.Keys == NamesOf(sc.fields)
  }

  /** The attribute `name` of a loaded record (None where there is no such attribute). */
  function Attr(r: Outcome<Value>, name: string): Value {
    if r.Ok? && r.value.VRecord? && name in r.value.attrs then r.value.attrs[name] else VNone
  }

  /** `o[key]` is an object that `inner` loads to `v`. */
  predicate LoadsTo(ctx: Ctx, inner: Schema, o: map<string, Json>, key: string, v: Value) {
    key in o && o[key].JObject? && LoadObject(ctx, inner, o[key].fields) == Ok(v)
  }

  /** `o[key]` is a list whose items `inner` loads, one by one and in order, to the items of `v`. */
  predicate LoadsListTo(ctx: Ctx, inner: Schema, o: map<string, Json>, key: string, v: Value) {
    && key in o && o[key].JArray? && v.VList?
    && |v.items| == |o[key].items|
    && forall k | 0 <= k < |v.items| ::
         o[key].items[k].JObject? && LoadObject(ctx, inner, o[key].items[k].fields) == Ok(v.items[k])
  }

  /** An item that `inner` does not load. */
  predicate ItemFails(ctx: Ctx, inner: Schema, j: Json) {
    !j.JObject? || !LoadObject(ctx, inner, j.fields).Ok?
  }

  /** Some item of the list at `o[key]` fails to load. */
  predicate SomeItemFails(ctx: Ctx, inner: Schema, o: map<string, Json>, key: string) {
    key in o && o[key].JArray? && exists k | 0 <= k < |o[key].items| :: ItemFails(ctx, inner, o[key].items[k])
  }

  /** The object at `o[key]` fails to load. */
  predicate ObjectFails(ctx: Ctx, inner: Schema, o: map<string, Json>, key: string) {
    key in o && o[key].JObject? && !LoadObject(ctx, inner, o[key].fields).Ok?
  }

  /** The value of a nested-object attribute is the record its own schema loads. */
  lemma NestedAttribute(ctx: Ctx, sc: Schema, inner: Schema, o: map<string, Json>, i: int)
    requires WellFormed(sc) && 0 <= i < |sc.fields| && sc.fields[i].kind == KNested(inner) && !sc.fields[i].allowNone
    requires LoadObject(ctx, sc, o).Ok?
    ensures LoadsTo(ctx, inner, o, sc.fields[i].key, Attr(LoadObject(ctx, sc, o), sc.fields[i].name))
  {
    AllRequiredLoad(ctx, sc, o);
    LoadedAttribute(ctx, sc, o, i);
  }

  /** The value of a nested-list attribute is the list of records its schema loads, item by item, in order. */
  lemma NestedListAttribute(ctx: Ctx, sc: Schema, inner: Schema, o: map<string, Json>, i: int)
    requires WellFormed(sc) && 0 <= i < |sc.fields| && sc.fields[i].kind == KNestedList(inner) && !sc.fields[i].allowNone
    requires LoadObject(ctx, sc, o).Ok?
    ensures LoadsListTo(ctx, inner, o, sc.fields[i].key, Attr(LoadObject(ctx, sc, o), sc.fields[i].name))
  {
    AllRequiredLoad(ctx, sc, o);
    LoadedAttribute(ctx, sc, o, i);
    LoadListElementwise(ctx, inner, o[sc.fields[i].key].items);
  }

  /** For an all-required table, the object loads exactly when every field is accepted. */
  lemma AllRequiredOkIff(ctx: Ctx, sc: Schema, o: map<string, Json>)
    requires WellFormed(sc)
    ensures LoadObject(ctx, sc, o).Ok? <==> forall i | 0 <= i < |sc.fields| :: Accepted(DecodeField(ctx, sc.fields[i], o))
  {
    DecodeFieldsOkIff(ctx, sc.fields, o);
    if DecodeFields(ctx, sc.fields, o).Ok? {
      DecodeFieldsContents(ctx, sc.fields, o);
      var m := DecodeFields(ctx, sc.fields, o).value;
      forall i | 0 <= i < |sc.fields| ensures sc.fields[i].name in m {
        assert Accepted(DecodeField(ctx, sc.fields[i], o));
      }
      assert Complete(sc, m);
    }
  }

  /** A nested object that does not load fails the record holding it. */
  lemma NestedFailureFails(ctx: Ctx, sc: Schema, inner: Schema, o: map<string, Json>, i: int)
    requires 0 <= i < |sc.fields| && sc.fields[i].kind == KNested(inner)
    requires ObjectFails(ctx, inner, o, sc.fields[i].key)
    ensures !LoadObject(ctx, sc, o).Ok?
  {
    FailingFieldFailsObject(ctx, sc, o, i);
  }

  /** One item of a nested list that does not load fails the record holding the list. */
  lemma NestedItemFailureFails(ctx: Ctx, sc: Schema, inner: Schema, o: map<string, Json>, i: int)
    requires 0 <= i < |sc.fields| && sc.fields[i].kind == KNestedList(inner)
    requires SomeItemFails(ctx, inner, o, sc.fields[i].key)
    ensures !LoadObject(ctx, sc, o).Ok?
  {
    LoadListElementwise(ctx, inner, o[sc.fields[i].key].items);
    FailingFieldFailsObject(ctx, sc, o, i);
  }

  /** The attribute a field contributes once absent attributes are filled with None. */
  function FilledAttr(ctx: Ctx, f: Field, o: map<string, Json>): Value {
    if DecodeField(ctx, f, o).Loaded? then DecodeField(ctx, f, o).v else VNone
  }

  /**
    With absent attributes filled with None, an object loads exactly when every
    field is accepted, and the record then has one attribute per field: the
    decoded value, or None where the key was absent.
  */
  lemma FilledLoad(ctx: Ctx, sc: Schema, o: map<string, Json>)
    requires DistinctNames(sc.fields) && ctx.construction == FillAbsent
    ensures LoadObject(ctx, sc, o).Ok? <==> forall i | 0 <= i < |sc.fields| :: Accepted(DecodeField(ctx, sc.fields[i], o))
    ensures LoadObject(ctx, sc, o).Ok? ==>
      && LoadObject(ctx, sc, o).value.VRecord?
      && LoadObject(ctx, sc, o).value.attrs.Keys == NamesOf(sc.fields)
      && forall i | 0 <= i < |sc.fields| ::
           LoadObject(ctx, sc, o).value.attrs[sc.fields[i].name] == FilledAttr(ctx, sc.fields[i], o)
  {
    DecodeFieldsOkIff(ctx, sc.fields, o);
    if DecodeFields(ctx, sc.fields, o).Ok? {
      DecodeFieldsContents(ctx, sc.fields, o);
      var m := DecodeFields(ctx, sc.fields, o).value;
      assert LoadObject(ctx, sc, o) == Ok(VRecord(Filled(sc, m)));
      forall i | 0 <= i < |sc.fields|
        ensures Filled(sc, m)[sc.fields[i].name] == FilledAttr(ctx, sc.fields[i], o)
      {
        assert sc.fields[i].name in NamesOf(sc.fields);
      }
    }
  }

  /**
    As written, `Record(**js)` needs every attribute: an object whose fields are
    all accepted loads exactly when every field was loaded, and raises TypeError
    when one was skipped.
  */
  lemma CompleteLoad(ctx: Ctx, sc: Schema, o: map<string, Json>)
    requires DistinctNames(sc.fields) && ctx.construction == AsWritten
    requires forall i | 0 <= i < |sc.fields| :: Accepted(DecodeField(ctx, sc.fields[i], o))
    ensures LoadObject(ctx, sc, o).Ok? <==> forall i | 0 <= i < |sc.fields| :: DecodeField(ctx, sc.fields[i], o).Loaded?
    ensures !LoadObject(ctx, sc, o).Ok? ==> LoadObject(ctx, sc, o) == Escaped(TypeError)
  {
    DecodeFieldsOkIff(ctx, sc.fields, o);
    DecodeFieldsContents(ctx, sc.fields, o);
  }
}

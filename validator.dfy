/**
 * The request validators (`backend/validators/productoValidator.js`): the
 * Joi schemas of a product, of a partial update and of the list filters,
 * and what Joi's `validate` makes of a payload under them.
 *
 * A schema is a list of fields in declaration order. Validation checks every
 * field against the payload's value for its key, in that order, then reports
 * every payload key the schema does not declare. A field's value is converted
 * (numbers read from decimal text) or defaulted, and the converted payload is
 * what the caller receives when nothing was reported.
 */
module Validator {
  import opened Wrappers
  import opened Text
  import opened JsValue
  import opened Numeric

  /** The Joi error types these schemas raise. */
  datatype Code =
    | AnyRequired
    | ObjectUnknown
    | StringBase
    | StringEmpty
    | StringMin
    | StringMax
    | NumberBase
    | NumberInteger
    | NumberMin
    | NumberMax
    | ArrayBase

  /** The type of a key and its rules, in the order they are declared. */
  datatype Check =
    /** `Joi.string()` with optional `min`/`max`; `blank` is `.allow('', null)`. */
    | Text(minLength: Option<nat>, maxLength: Option<nat>, blank: bool)
    /** `Joi.number()` with optional `integer()`, `min` and `max`. */
    | Number(integer: bool, min: Option<int>, max: Option<int>)
    /** `Joi.array().items(Joi.string())`. */
    | Photos

  /** One key of a schema: its check, `required()` and `default(...)`. */
  datatype Field = Field(key: string, check: Check, required: bool, default: Option<Value>)

  type Schema = seq<Field>

  /** The `.messages({...})` of a schema: for a key and an error type, the text that replaces Joi's own. */
  type Messages = seq<(string, Code, string)>

  /** One entry of `error.details`: the key and the error type. */
  datatype Issue = Issue(key: string, code: Code)

  /** A key's converted value and the error types it raises, in rule order. */
  datatype Checked = Checked(value: Value, codes: seq<Code>)

  /** Whether a number is a whole number. */
  predicate Integral(x: real)
  {
    x.Floor as real == x
  }

  // ---------------------------------------------------------------------
  // One key

  /**
   * Joi's check of one value: an absent value is `required` or takes the
   * default; an allowed value passes at once; a value of the wrong type
   * stops at the type error; otherwise every rule that fails is reported.
   */
  function CheckField(f: Field, v: Value): (r: Checked)
    ensures v != Undefined && f.check.Number? && r.codes == [] ==> r.value.Num? && JoiNumber(v) == Some(r.value.x)
    ensures r.value == Undefined ==> v == Undefined
    ensures v != Undefined && !f.check.Number? ==> r.value == v
  {
    if v == Undefined then
      if f.required then Checked(v, [AnyRequired])
      else Checked(if f.default.Some? && f.default.value != Undefined then f.default.value else Undefined, [])
    else
      match f.check
      case Text(min, max, blank) =>
        if blank && (v == Str("") || v == Null) then Checked(v, [])
        else if !v.Str? then Checked(v, [StringBase])
        else if v.s == "" then Checked(v, if min == Some(0) then [] else [StringEmpty])
        else Checked(v, (if min.Some? && |v.s| < min.value then [StringMin] else [])
                        + (if max.Some? && |v.s| > max.value then [StringMax] else []))
      case Number(integer, min, max) =>
        (match JoiNumber(v)
         case None => Checked(v, [NumberBase])
         case Some(x) =>
           Checked(Num(x), (if integer && !Integral(x) then [NumberInteger] else [])
                           + (if min.Some? && x < min.value as real then [NumberMin] else [])
                           + (if max.Some? && x > max.value as real then [NumberMax] else [])))
      case Photos =>
        if v.List? then Checked(v, []) else Checked(v, [ArrayBase])
  }

  /** The issues of one key. */
  function IssuesOf(key: string, codes: seq<Code>): (r: seq<Issue>)
    ensures |r| == |codes| && forall i :: 0 <= i < |codes| ==> r[i] == Issue(key, codes[i])
  {
    seq(|codes|, i requires 0 <= i < |codes| => Issue(key, codes[i]))
  }

  // ---------------------------------------------------------------------
  // A whole payload

  function SchemaKeys(schema: Schema): (ks: seq<string>)
    ensures |ks| == |schema| && forall i :: 0 <= i < |schema| ==> ks[i] == schema[i].key
  {
    seq(|schema|, i requires 0 <= i < |schema| => schema[i].key)
  }

  /** The issues of the declared keys, key by key in declaration order. */
  function FieldIssues(schema: Schema, data: Object): seq<Issue>
  {
    if schema == [] then []
    else IssuesOf(schema[0].key, CheckField(schema[0], Get(data, schema[0].key)).codes) + FieldIssues(schema[1..], data)
  }

  /** `"k" is not allowed` for each payload key the schema does not declare, in payload order. */
  function UnknownIssues(declared: seq<string>, keys: seq<string>): seq<Issue>
  {
    if keys == [] then []
    else (if keys[0] in declared then [] else [Issue(keys[0], ObjectUnknown)]) + UnknownIssues(declared, keys[1..])
  }

  /** Every issue of a payload, in the order Joi reports them. */
  function AllIssues(schema: Schema, data: Object): seq<Issue>
  {
    FieldIssues(schema, data) + UnknownIssues(SchemaKeys(schema), Keys(data))
  }

  /** The payload with each declared key's converted or default value written in. */
  function Converted(schema: Schema, data: Object): Object
  {
    if schema == [] then data
    else
      var f := schema[|schema| - 1];
      var c := CheckField(f, Get(data, f.key)).value;
      var before := Converted(schema[..|schema| - 1], data);
      if c == Undefined then before else With(before, f.key, c)
  }

  /**
   * `schema.validate(data, {abortEarly})`: the converted payload when there
   * is nothing to report, otherwise every issue, or only the first one when
   * validation aborts early.
   */
  function Validate(schema: Schema, data: Object, abortEarly: bool): (r: Result<Object, seq<Issue>>)
    ensures r.Ok? <==> AllIssues(schema, data) == []
    ensures r.Err? ==> r.error == if abortEarly then AllIssues(schema, data)[..1] else AllIssues(schema, data)
  {
    var issues := AllIssues(schema, data);
    if issues == [] then Ok(Converted(schema, data))
    else Err(if abortEarly then issues[..1] else issues)
  }

  // ---------------------------------------------------------------------
  // Messages

  /** `"key"`, Joi's label of a key. */
  function Label(key: string): string
  {
    "\"" + key + "\""
  }

  /** Joi's own message for an error type. */
  function DefaultMessage(key: string, code: Code, check: Option<Check>): string
  {
    var l := Label(key);
    match code
    case AnyRequired => l + " is required"
    case ObjectUnknown => l + " is not allowed"
    case StringBase => l + " must be a string"
    case StringEmpty => l + " is not allowed to be empty"
    case StringMin =>
      l + " length must be at least " + (if check.Some? && check.value.Text? && check.value.minLength.Some? then NatToString(check.value.minLength.value) else "") + " characters long"
    case StringMax =>
      l + " length must be less than or equal to " + (if check.Some? && check.value.Text? && check.value.maxLength.Some? then NatToString(check.value.maxLength.value) else "") + " characters long"
    case NumberBase => l + " must be a number"
    case NumberInteger => l + " must be an integer"
    case NumberMin =>
      l + " must be greater than or equal to " + (if check.Some? && check.value.Number? && check.value.min.Some? then IntToString(check.value.min.value) else "")
    case NumberMax =>
      l + " must be less than or equal to " + (if check.Some? && check.value.Number? && check.value.max.Some? then IntToString(check.value.max.value) else "")
    case ArrayBase => l + " must be an array"
  }

  /** The replacement message declared for a key and an error type, if any. */
  function Override(messages: Messages, key: string, code: Code): Option<string>
  {
    if messages == [] then None
    else if messages[0].0 == key && messages[0].1 == code then Some(messages[0].2)
    else Override(messages[1..], key, code)
  }

  /** The field declared for a key, if any. */
  function FieldOf(schema: Schema, key: string): (r: Option<Field>)
    ensures r.Some? ==> r.value in schema && r.value.key == key
    ensures r.None? ==> key !in SchemaKeys(schema)
  {
    if schema == [] then None
    else if schema[0].key == key then Some(schema[0])
    else FieldOf(schema[1..], key)
  }

  /** `detail.message`: the declared replacement for the key and error type, else Joi's own text. */
  function Message(schema: Schema, messages: Messages, issue: Issue): string
  {
    match Override(messages, issue.key, issue.code)
    case Some(m) => m
    case None =>
      var f := FieldOf(schema, issue.key);
      DefaultMessage(issue.key, issue.code, if f.Some? then Some(f.value.check) else None)
  }

  /** `error.details.map(detail => detail.message)`. */
  function MessagesOf(schema: Schema, messages: Messages, issues: seq<Issue>): (ms: seq<string>)
    ensures |ms| == |issues| && forall i :: 0 <= i < |issues| ==> ms[i] == Message(schema, messages, issues[i])
  {
    seq(|issues|, i requires 0 <= i < |issues| => Message(schema, messages, issues[i]))
  }

  // ---------------------------------------------------------------------
  // The three schemas

  const ProductoSchema: Schema := [
    Field("nombre", Text(Some(1), Some(255), false), true, None),
    Field("categoria", Text(Some(1), Some(100), false), true, None),
    Field("tipo", Text(Some(1), Some(100), false), true, None),
    Field("cantidad", Number(true, Some(0), None), true, None),
    Field("modelo", Text(None, Some(100), true), false, None),
    Field("color", Text(None, Some(50), true), false, None),
    Field("precio_unidad", Number(false, Some(0), None), true, None),
    Field("precio_bulto", Number(false, Some(0), None), true, None),
    Field("descripcion", Text(None, None, true), false, None),
    Field("fotos", Photos, false, Some(List([])))
  ]

  /** The messages `productoSchema` declares; the fork keeps them. */
  const ProductoMessages: Messages := [
    ("nombre", StringEmpty, "El nombre es requerido"),
    ("nombre", StringMax, "El nombre no puede exceder 255 caracteres"),
    ("categoria", StringEmpty, "La categor\U{00ED}a es requerida"),
    ("categoria", StringMax, "La categor\U{00ED}a no puede exceder 100 caracteres"),
    ("tipo", StringEmpty, "El tipo es requerido"),
    ("tipo", StringMax, "El tipo no puede exceder 100 caracteres"),
    ("cantidad", NumberBase, "La cantidad debe ser un n\U{00FA}mero"),
    ("cantidad", NumberInteger, "La cantidad debe ser un n\U{00FA}mero entero"),
    ("cantidad", NumberMin, "La cantidad no puede ser negativa"),
    ("modelo", StringMax, "El modelo no puede exceder 100 caracteres"),
    ("color", StringMax, "El color no puede exceder 50 caracteres"),
    ("precio_unidad", NumberBase, "El precio por unidad debe ser un n\U{00FA}mero"),
    ("precio_unidad", NumberMin, "El precio por unidad no puede ser negativo"),
    ("precio_bulto", NumberBase, "El precio por bulto debe ser un n\U{00FA}mero"),
    ("precio_bulto", NumberMin, "El precio por bulto no puede ser negativo"),
    ("descripcion", StringBase, "La descripci\U{00F3}n debe ser texto"),
    ("fotos", ArrayBase, "Las fotos deben ser un array de URLs")
  ]

  /** The keys `fork` makes optional. */
  const ForkedKeys := ["nombre", "categoria", "tipo", "cantidad", "precio_unidad", "precio_bulto"]

  /** `schema.fork(keys, s => s.optional())`: the named keys lose `required()`, nothing else changes. */
  function Fork(schema: Schema, keys: seq<string>): Schema
  {
    seq(|schema|, i requires 0 <= i < |schema| => if schema[i].key in keys then schema[i].(required := false) else schema[i])
  }

  const UpdateSchema: Schema := Fork(ProductoSchema, ForkedKeys)

  const FilterSchema: Schema := [
    Field("categoria", Text(None, Some(100), false), false, None),
    Field("tipo", Text(None, Some(100), false), false, None),
    Field("color", Text(None, Some(50), false), false, None),
    Field("q", Text(None, Some(255), false), false, None),
    Field("page", Number(true, Some(1), None), false, Some(Int(1))),
    Field("limit", Number(true, Some(1), Some(100)), false, Some(Int(10)))
  ]

  /** `validateProducto`: every issue is reported. */
  function ValidateProducto(data: Object): Result<Object, seq<Issue>>
  {
    Validate(ProductoSchema, data, false)
  }

  /** `validateUpdateProducto`: every issue is reported. */
  function ValidateUpdate(data: Object): Result<Object, seq<Issue>>
  {
    Validate(UpdateSchema, data, false)
  }

  /** `validateFilters`: Joi's default, validation stops at the first issue. */
  function ValidateFilters(data: Object): Result<Object, seq<Issue>>
  {
    Validate(FilterSchema, data, true)
  }

  // ---------------------------------------------------------------------
  // What validation guarantees, for any schema

  /** The declared keys raise nothing exactly when every one of them passes its check. */
  lemma {:induction false} FieldIssuesEmpty(schema: Schema, data: Object)
    ensures FieldIssues(schema, data) == [] <==>
            forall i :: 0 <= i < |schema| ==> CheckField(schema[i], Get(data, schema[i].key)).codes == []
  {
    if schema != [] {
      var front := IssuesOf(schema[0].key, CheckField(schema[0], Get(data, schema[0].key)).codes);
      var rest := schema[1..];
      FieldIssuesEmpty(rest, data);
      assert FieldIssues(schema, data) == front + FieldIssues(rest, data);
      assert front == [] <==> CheckField(schema[0], Get(data, schema[0].key)).codes == [];
      assert forall i :: 1 <= i < |schema| ==> schema[i] == rest[i - 1];
    }
  }

  /** No key is reported as unknown exactly when every payload key is declared. */
  lemma {:induction false} UnknownIssuesEmpty(declared: seq<string>, keys: seq<string>)
    ensures UnknownIssues(declared, keys) == [] <==> forall k :: k in keys ==> k in declared
  {
    if keys != [] {
      UnknownIssuesEmpty(declared, keys[1..]);
      assert forall k :: k in keys <==> k == keys[0] || k in keys[1..];
    }
  }

  /** Every error a declared key raises is reported, under its key (validation that does not abort early). */
  lemma {:induction false} FieldReported(schema: Schema, data: Object, i: nat, c: Code)
    requires i < |schema| && c in CheckField(schema[i], Get(data, schema[i].key)).codes
    ensures Issue(schema[i].key, c) in FieldIssues(schema, data)
  {
    var codes := CheckField(schema[i], Get(data, schema[i].key)).codes;
    var front := IssuesOf(schema[0].key, CheckField(schema[0], Get(data, schema[0].key)).codes);
    assert FieldIssues(schema, data) == front + FieldIssues(schema[1..], data);
    if i == 0 {
      var j :| 0 <= j < |codes| && codes[j] == c;
      assert front[j] == Issue(schema[0].key, c);
    } else {
      assert schema[1..][i - 1] == schema[i];
      FieldReported(schema[1..], data, i - 1, c);
    }
  }

  /** Every undeclared key of the payload is reported as not allowed. */
  lemma {:induction false} UnknownReported(declared: seq<string>, keys: seq<string>, k: string)
    requires k in keys && k !in declared
    ensures Issue(k, ObjectUnknown) in UnknownIssues(declared, keys)
  {
    if keys[0] != k {
      UnknownReported(declared, keys[1..], k);
    }
  }

  /** A payload with an undeclared key is rejected whatever else it holds. */
  lemma UnknownKeyRejected(schema: Schema, data: Object, abortEarly: bool, k: string)
    requires k in Keys(data) && k !in SchemaKeys(schema)
    ensures Validate(schema, data, abortEarly).Err?
    ensures !abortEarly ==> Issue(k, ObjectUnknown) in Validate(schema, data, abortEarly).error
  {
    UnknownReported(SchemaKeys(schema), Keys(data), k);
  }

  /** No two fields share a key. */
  predicate DistinctFields(schema: Schema)
  {
    forall i, j :: 0 <= i < j < |schema| ==> schema[i].key != schema[j].key
  }

  /** A key the schema does not declare keeps its payload value. */
  lemma {:induction false} ConvertedOther(schema: Schema, data: Object, k: string)
    requires k !in SchemaKeys(schema)
    ensures Get(Converted(schema, data), k) == Get(data, k)
  {
    if schema != [] {
      var f := schema[|schema| - 1];
      var init := schema[..|schema| - 1];
      assert SchemaKeys(init) == SchemaKeys(schema)[..|schema| - 1];
      ConvertedOther(init, data, k);
      var c := CheckField(f, Get(data, f.key)).value;
      if c != Undefined {
        GetWith(Converted(init, data), f.key, c, k);
      }
    }
  }

  /** A declared key holds its checked value: converted, defaulted, or as given. */
  lemma {:induction false} ConvertedGet(schema: Schema, data: Object, i: nat)
    requires DistinctFields(schema) && i < |schema|
    ensures Get(Converted(schema, data), schema[i].key) == CheckField(schema[i], Get(data, schema[i].key)).value
  {
    var f := schema[|schema| - 1];
    var init := schema[..|schema| - 1];
    var c := CheckField(f, Get(data, f.key)).value;
    var k := schema[i].key;
    if i == |schema| - 1 {
      if c == Undefined {
        assert SchemaKeys(init) == SchemaKeys(schema)[..|schema| - 1];
        ConvertedOther(init, data, k);
      } else {
        GetWith(Converted(init, data), f.key, c, k);
      }
    } else {
      ConvertedGet(init, data, i);
      if c != Undefined {
        GetWith(Converted(init, data), f.key, c, k);
      }
    }
  }

  /** Two schemas that check every key of a payload alike validate it alike. */
  predicate SameChecks(s1: Schema, s2: Schema, data: Object)
  {
    |s1| == |s2| &&
    forall i :: 0 <= i < |s1| ==> s1[i].key == s2[i].key && CheckField(s1[i], Get(data, s1[i].key)) == CheckField(s2[i], Get(data, s2[i].key))
  }

  lemma {:induction false} SameChecksSameIssues(s1: Schema, s2: Schema, data: Object)
    requires SameChecks(s1, s2, data)
    ensures FieldIssues(s1, data) == FieldIssues(s2, data)
  {
    if s1 != [] {
      assert SameChecks(s1[1..], s2[1..], data) by {
        assert forall i :: 1 <= i < |s1| ==> s1[1..][i - 1] == s1[i] && s2[1..][i - 1] == s2[i];
      }
      SameChecksSameIssues(s1[1..], s2[1..], data);
    }
  }

  lemma {:induction false} SameChecksSameConversion(s1: Schema, s2: Schema, data: Object)
    requires SameChecks(s1, s2, data)
    ensures Converted(s1, data) == Converted(s2, data)
  {
    if s1 != [] {
      var n := |s1| - 1;
      assert SameChecks(s1[..n], s2[..n], data);
      SameChecksSameConversion(s1[..n], s2[..n], data);
    }
  }

  lemma SameChecksSameValidation(s1: Schema, s2: Schema, data: Object, abortEarly: bool)
    requires SameChecks(s1, s2, data)
    ensures Validate(s1, data, abortEarly) == Validate(s2, data, abortEarly)
  {
    SameChecksSameIssues(s1, s2, data);
    SameChecksSameConversion(s1, s2, data);
    assert SchemaKeys(s1) == SchemaKeys(s2);
  }

  // ---------------------------------------------------------------------
  // The product and update schemas

  /** The keys `productoSchema` declares, in order. */
  const ProductoKeys := ["nombre", "categoria", "tipo", "cantidad", "modelo", "color", "precio_unidad", "precio_bulto", "descripcion", "fotos"]

  lemma ProductoSchemaKeys()
    ensures SchemaKeys(ProductoSchema) == ProductoKeys
    ensures DistinctFields(ProductoSchema)
  {
    var ks := SchemaKeys(ProductoSchema);
    assert ks[0] == "nombre" && ks[1] == "categoria" && ks[2] == "tipo" && ks[3] == "cantidad" && ks[4] == "modelo";
    assert ks[5] == "color" && ks[6] == "precio_unidad" && ks[7] == "precio_bulto" && ks[8] == "descripcion" && ks[9] == "fotos";
    ProductoKeysDistinct();
  }

  /** Each product key differs from the others in its length or its first letter. */
  lemma ProductoKeysDistinct()
    ensures forall i, j :: 0 <= i < j < |ProductoKeys| ==> ProductoKeys[i] != ProductoKeys[j]
  {
    var k := ProductoKeys;
    assert |k[0]| == 6 && |k[1]| == 9 && |k[2]| == 4 && |k[3]| == 8 && |k[4]| == 6;
    assert |k[5]| == 5 && |k[6]| == 13 && |k[7]| == 12 && |k[8]| == 11 && |k[9]| == 5;
    assert k[0][0] == 'n' && k[4][0] == 'm' && k[5][0] == 'c' && k[9][0] == 'f';
  }

  /**
   * The fork names exactly the keys declared `required()`, so the update
   * schema is the product schema with every key optional and every rule,
   * default and message kept.
   */
  lemma UpdateIsProductoOptional()
    ensures |UpdateSchema| == |ProductoSchema|
    ensures forall i :: 0 <= i < |ProductoSchema| ==> (ProductoSchema[i].required <==> ProductoSchema[i].key in ForkedKeys)
    ensures forall i :: 0 <= i < |ProductoSchema| ==> UpdateSchema[i] == ProductoSchema[i].(required := false)
  {
    forall i | 0 <= i < |ProductoSchema|
      ensures ProductoSchema[i].required <==> ProductoSchema[i].key in ForkedKeys
    {
      ProductoSchemaKeys();
    }
  }

  lemma UpdateSchemaKeys()
    ensures SchemaKeys(UpdateSchema) == ProductoKeys
    ensures DistinctFields(UpdateSchema)
  {
    UpdateIsProductoOptional();
    ProductoSchemaKeys();
    assert forall i :: 0 <= i < 10 ==> UpdateSchema[i].key == ProductoSchema[i].key;
  }

  /** `v` is absent and that is allowed, or `ok` holds. */
  predicate Given(optional: bool, v: Value, ok: bool)
  {
    (optional && v == Undefined) || ok
  }

  /** A non-empty string of at most `max` characters. */
  predicate TextWithin(v: Value, max: nat)
  {
    v.Str? && 1 <= |v.s| <= max
  }

  /** Absent, `null`, or a string of at most `max` characters (the empty one included). */
  predicate BlankOrText(v: Value, max: Option<nat>)
  {
    v == Undefined || v == Null || (v.Str? && (max.None? || |v.s| <= max.value))
  }

  /** A number, or decimal text, at least `min`; whole when `whole`. */
  predicate NumberFrom(v: Value, min: int, whole: bool)
  {
    JoiNumber(v).Some? && JoiNumber(v).value >= min as real && (whole ==> Integral(JoiNumber(v).value))
  }

  /**
   * The payloads the product schema accepts, written key by key as the
   * declarations read; `partial` makes the six required keys optional,
   * which is what the update schema accepts.
   */
  predicate ProductoAcceptable(data: Object, partial: bool)
  {
    (forall k :: k in Keys(data) ==> k in ProductoKeys) && FieldsAcceptable(data, partial)
  }

  predicate FieldsAcceptable(data: Object, partial: bool)
  {
    Given(partial, Get(data, "nombre"), TextWithin(Get(data, "nombre"), 255))
    && Given(partial, Get(data, "categoria"), TextWithin(Get(data, "categoria"), 100))
    && Given(partial, Get(data, "tipo"), TextWithin(Get(data, "tipo"), 100))
    && Given(partial, Get(data, "cantidad"), NumberFrom(Get(data, "cantidad"), 0, true))
    && BlankOrText(Get(data, "modelo"), Some(100))
    && BlankOrText(Get(data, "color"), Some(50))
    && Given(partial, Get(data, "precio_unidad"), NumberFrom(Get(data, "precio_unidad"), 0, false))
    && Given(partial, Get(data, "precio_bulto"), NumberFrom(Get(data, "precio_bulto"), 0, false))
    && BlankOrText(Get(data, "descripcion"), None)
    && (Get(data, "fotos") == Undefined || Get(data, "fotos").List?)
  }

  /** Every declared key passes its check. */
  predicate AllPass(schema: Schema, data: Object)
  {
    forall i :: 0 <= i < |schema| ==> CheckField(schema[i], Get(data, schema[i].key)).codes == []
  }

  lemma TextFieldAccepts(f: Field, v: Value, max: nat)
    requires f.check == Text(Some(1), Some(max), false) && f.default == None
    ensures CheckField(f, v).codes == [] <==> Given(!f.required, v, TextWithin(v, max))
  {
  }

  lemma BlankFieldAccepts(f: Field, v: Value, max: Option<nat>)
    requires f.check == Text(None, max, true) && !f.required
    ensures CheckField(f, v).codes == [] <==> BlankOrText(v, max)
  {
  }

  lemma NumberFieldAccepts(f: Field, v: Value, whole: bool)
    requires f.check == Number(whole, Some(0), None) && f.default == None
    ensures CheckField(f, v).codes == [] <==> Given(!f.required, v, NumberFrom(v, 0, whole))
  {
  }

  lemma PhotosFieldAccepts(f: Field, v: Value)
    requires f.check == Photos && !f.required
    ensures CheckField(f, v).codes == [] <==> v == Undefined || v.List?
  {
  }

  /** Which declared keys pass their check. */
  function Passes(schema: Schema, data: Object): (ok: seq<bool>)
    ensures |ok| == |schema| && forall i :: 0 <= i < |schema| ==> ok[i] == (CheckField(schema[i], Get(data, schema[i].key)).codes == [])
  {
    seq(|schema|, i requires 0 <= i < |schema| => CheckField(schema[i], Get(data, schema[i].key)).codes == [])
  }

  lemma TenTrue(ok: seq<bool>)
    requires |ok| == 10
    ensures (forall i :: 0 <= i < 10 ==> ok[i]) <==> ok[0] && ok[1] && ok[2] && ok[3] && ok[4] && ok[5] && ok[6] && ok[7] && ok[8] && ok[9]
  {
    if ok[0] && ok[1] && ok[2] && ok[3] && ok[4] && ok[5] && ok[6] && ok[7] && ok[8] && ok[9] {
      forall i | 0 <= i < 10
        ensures ok[i]
      {
        assert i == 0 || i == 1 || i == 2 || i == 3 || i == 4 || i == 5 || i == 6 || i == 7 || i == 8 || i == 9;
      }
    }
  }

  /** The product schema, or the same keys, rules and defaults with nothing required when `partial`. */
  predicate ProductoShaped(schema: Schema, partial: bool)
  {
    |schema| == |ProductoSchema| &&
    forall i :: 0 <= i < |schema| ==> schema[i] == ProductoSchema[i].(required := ProductoSchema[i].required && !partial)
  }

  lemma SchemasShaped()
    ensures ProductoShaped(ProductoSchema, false) && ProductoShaped(UpdateSchema, true)
  {
    UpdateIsProductoOptional();
  }

  /** The declarations of a product-shaped schema, key by key. */
  lemma ShapedFields(p: Schema, partial: bool)
    requires ProductoShaped(p, partial)
    ensures |p| == 10
    ensures p[0] == Field("nombre", Text(Some(1), Some(255), false), !partial, None)
    ensures p[1] == Field("categoria", Text(Some(1), Some(100), false), !partial, None)
    ensures p[2] == Field("tipo", Text(Some(1), Some(100), false), !partial, None)
    ensures p[3] == Field("cantidad", Number(true, Some(0), None), !partial, None)
    ensures p[4] == Field("modelo", Text(None, Some(100), true), false, None)
    ensures p[5] == Field("color", Text(None, Some(50), true), false, None)
    ensures p[6] == Field("precio_unidad", Number(false, Some(0), None), !partial, None)
    ensures p[7] == Field("precio_bulto", Number(false, Some(0), None), !partial, None)
    ensures p[8] == Field("descripcion", Text(None, None, true), false, None)
    ensures p[9] == Field("fotos", Photos, false, Some(List([])))
  {
    var q := ProductoSchema;
    assert p[0] == q[0].(required := !partial) && p[1] == q[1].(required := !partial) && p[2] == q[2].(required := !partial);
    assert p[3] == q[3].(required := !partial) && p[6] == q[6].(required := !partial) && p[7] == q[7].(required := !partial);
    assert p[4] == q[4] && p[5] == q[5] && p[8] == q[8] && p[9] == q[9];
  }

  /** Each declared key passes its check exactly when it meets its declaration. */
  lemma FieldsAccept(schema: Schema, partial: bool, data: Object)
    requires ProductoShaped(schema, partial)
    ensures AllPass(schema, data) <==> FieldsAcceptable(data, partial)
  {
    var p := schema;
    ShapedFields(p, partial);
    var ok := Passes(p, data);
    TenTrue(ok);
    TextFieldAccepts(p[0], Get(data, "nombre"), 255);
    TextFieldAccepts(p[1], Get(data, "categoria"), 100);
    TextFieldAccepts(p[2], Get(data, "tipo"), 100);
    NumberFieldAccepts(p[3], Get(data, "cantidad"), true);
    BlankFieldAccepts(p[4], Get(data, "modelo"), Some(100));
    BlankFieldAccepts(p[5], Get(data, "color"), Some(50));
    NumberFieldAccepts(p[6], Get(data, "precio_unidad"), false);
    NumberFieldAccepts(p[7], Get(data, "precio_bulto"), false);
    BlankFieldAccepts(p[8], Get(data, "descripcion"), None);
    PhotosFieldAccepts(p[9], Get(data, "fotos"));
  }

  /** The keys of a product-shaped schema are the product keys, none twice. */
  lemma ShapedKeys(schema: Schema, partial: bool)
    requires ProductoShaped(schema, partial)
    ensures SchemaKeys(schema) == ProductoKeys && DistinctFields(schema)
  {
    ProductoSchemaKeys();
    assert forall i :: 0 <= i < |schema| ==> schema[i].key == ProductoSchema[i].key;
  }

  lemma ShapedValidation(schema: Schema, partial: bool, data: Object)
    requires ProductoShaped(schema, partial)
    ensures Validate(schema, data, false).Ok? <==> ProductoAcceptable(data, partial)
  {
    FieldIssuesEmpty(schema, data);
    ShapedKeys(schema, partial);
    UnknownIssuesEmpty(SchemaKeys(schema), Keys(data));
    FieldsAccept(schema, partial, data);
  }

  /** `validateProducto` accepts exactly the payloads that meet every declaration and hold no other key. */
  lemma ValidateProductoIff(data: Object)
    ensures ValidateProducto(data).Ok? <==> ProductoAcceptable(data, false)
  {
    SchemasShaped();
    ShapedValidation(ProductoSchema, false, data);
  }

  /** `validateUpdateProducto` accepts the same, with every required key allowed to be absent. */
  lemma ValidateUpdateIff(data: Object)
    ensures ValidateUpdate(data).Ok? <==> ProductoAcceptable(data, true)
  {
    SchemasShaped();
    ShapedValidation(UpdateSchema, true, data);
  }

  /** Dropping `required()` changes nothing for a value that is present. */
  lemma OptionalCheck(f: Field, v: Value)
    requires v != Undefined
    ensures CheckField(f.(required := false), v) == CheckField(f, v)
  {
  }

  /** A payload valid as a product is valid as an update, with the same converted result. */
  lemma ValidProductIsValidUpdate(data: Object)
    requires ValidateProducto(data).Ok?
    ensures ValidateUpdate(data) == ValidateProducto(data)
  {
    UpdateIsProductoOptional();
    FieldIssuesEmpty(ProductoSchema, data);
    forall i | 0 <= i < |ProductoSchema|
      ensures UpdateSchema[i].key == ProductoSchema[i].key
      ensures CheckField(UpdateSchema[i], Get(data, UpdateSchema[i].key)) == CheckField(ProductoSchema[i], Get(data, ProductoSchema[i].key))
    {
      var v := Get(data, ProductoSchema[i].key);
      if ProductoSchema[i].required {
        assert v != Undefined;
        OptionalCheck(ProductoSchema[i], v);
      }
    }
    SameChecksSameValidation(UpdateSchema, ProductoSchema, data, false);
  }

  // ---------------------------------------------------------------------
  // What a caller receives

  /** Nothing is written when no declared key gets a value. */
  lemma {:induction false} ConvertedUntouched(schema: Schema, data: Object)
    requires forall i :: 0 <= i < |schema| ==> CheckField(schema[i], Get(data, schema[i].key)).value == Undefined
    ensures Converted(schema, data) == data
  {
    if schema != [] {
      var n := |schema| - 1;
      assert forall i :: 0 <= i < n ==> schema[..n][i] == schema[i];
      ConvertedUntouched(schema[..n], data);
    }
  }

  /**
   * On success every declared key holds its checked value (converted,
   * defaulted or as given) and every other key is absent.
   */
  lemma ValidatedPayload(schema: Schema, data: Object, abortEarly: bool)
    requires DistinctFields(schema) && Validate(schema, data, abortEarly).Ok?
    ensures forall i :: 0 <= i < |schema| ==>
              Get(Validate(schema, data, abortEarly).value, schema[i].key) == CheckField(schema[i], Get(data, schema[i].key)).value
    ensures forall k :: k !in SchemaKeys(schema) ==> Get(Validate(schema, data, abortEarly).value, k) == Undefined
  {
    forall i | 0 <= i < |schema|
      ensures Get(Converted(schema, data), schema[i].key) == CheckField(schema[i], Get(data, schema[i].key)).value
    {
      ConvertedGet(schema, data, i);
    }
    UnknownIssuesEmpty(SchemaKeys(schema), Keys(data));
    forall k | k !in SchemaKeys(schema)
      ensures Get(Converted(schema, data), k) == Undefined
    {
      ConvertedOther(schema, data, k);
    }
  }

  /** On success one declared key holds its checked value, and that check raised nothing. */
  lemma ValidatedAt(schema: Schema, data: Object, abortEarly: bool, i: nat)
    requires DistinctFields(schema) && Validate(schema, data, abortEarly).Ok? && i < |schema|
    ensures CheckField(schema[i], Get(data, schema[i].key)).codes == []
    ensures Get(Validate(schema, data, abortEarly).value, schema[i].key) == CheckField(schema[i], Get(data, schema[i].key)).value
  {
    FieldIssuesEmpty(schema, data);
    ConvertedGet(schema, data, i);
  }

  /** On success a text key without a default holds the payload's own value. */
  lemma TextKept(schema: Schema, data: Object, abortEarly: bool, i: nat)
    requires DistinctFields(schema) && Validate(schema, data, abortEarly).Ok? && i < |schema|
    requires schema[i].check.Text? && schema[i].default == None
    ensures Get(Validate(schema, data, abortEarly).value, schema[i].key) == Get(data, schema[i].key)
  {
    ValidatedAt(schema, data, abortEarly, i);
  }

  lemma TextValue(f: Field, v: Value, max: nat)
    requires f.check == Text(Some(1), Some(max), false) && f.required && CheckField(f, v).codes == []
    ensures TextWithin(CheckField(f, v).value, max)
  {
  }

  lemma BlankValue(f: Field, v: Value, max: Option<nat>)
    requires f.check == Text(None, max, true) && f.default == None && CheckField(f, v).codes == []
    ensures BlankOrText(CheckField(f, v).value, max)
  {
  }

  lemma NumberValue(f: Field, v: Value, whole: bool)
    requires f.check == Number(whole, Some(0), None) && f.required && CheckField(f, v).codes == []
    ensures CheckField(f, v).value.Num? && CheckField(f, v).value.x >= 0.0
    ensures whole ==> Integral(CheckField(f, v).value.x)
  {
  }

  lemma PhotosValue(f: Field, v: Value)
    requires f.check == Photos && f.default == Some(List([])) && CheckField(f, v).codes == []
    ensures CheckField(f, v).value.List?
  {
  }

  /** A whole number from `lo`, at most `hi` when given, converted or defaulted. */
  lemma WholeValue(f: Field, v: Value, lo: int, hi: Option<int>, d: int)
    requires f.check == Number(true, Some(lo), hi) && f.default == Some(Int(d)) && CheckField(f, v).codes == []
    requires lo <= d && (hi.Some? ==> d <= hi.value)
    ensures CheckField(f, v).value.Num? && Integral(CheckField(f, v).value.x) && CheckField(f, v).value.x >= lo as real
    ensures hi.Some? ==> CheckField(f, v).value.x <= hi.value as real
  {
    assert (d as real).Floor == d;
  }

  /**
   * What `Producto.create` receives from a valid payload: the three names
   * as non-empty bounded strings, the quantity a whole number and the prices
   * numbers, none negative, the optional texts absent, `null` or strings,
   * and always a photo list.
   */
  lemma ValidatedProducto(data: Object)
    requires ValidateProducto(data).Ok?
    ensures var v := ValidateProducto(data).value;
      TextWithin(Get(v, "nombre"), 255) && TextWithin(Get(v, "categoria"), 100) && TextWithin(Get(v, "tipo"), 100) &&
      Get(v, "cantidad").Num? && Integral(Get(v, "cantidad").x) && Get(v, "cantidad").x >= 0.0 &&
      Get(v, "precio_unidad").Num? && Get(v, "precio_unidad").x >= 0.0 &&
      Get(v, "precio_bulto").Num? && Get(v, "precio_bulto").x >= 0.0 &&
      BlankOrText(Get(v, "modelo"), Some(100)) && BlankOrText(Get(v, "color"), Some(50)) && BlankOrText(Get(v, "descripcion"), None) &&
      Get(v, "fotos").List?
  {
    var p := ProductoSchema;
    ProductoSchemaKeys();
    SchemasShaped();
    ShapedFields(p, false);
    ValidatedAt(p, data, false, 0);
    TextValue(p[0], Get(data, "nombre"), 255);
    ValidatedAt(p, data, false, 1);
    TextValue(p[1], Get(data, "categoria"), 100);
    ValidatedAt(p, data, false, 2);
    TextValue(p[2], Get(data, "tipo"), 100);
    ValidatedAt(p, data, false, 3);
    NumberValue(p[3], Get(data, "cantidad"), true);
    ValidatedAt(p, data, false, 4);
    BlankValue(p[4], Get(data, "modelo"), Some(100));
    ValidatedAt(p, data, false, 5);
    BlankValue(p[5], Get(data, "color"), Some(50));
    ValidatedAt(p, data, false, 6);
    NumberValue(p[6], Get(data, "precio_unidad"), false);
    ValidatedAt(p, data, false, 7);
    NumberValue(p[7], Get(data, "precio_bulto"), false);
    ValidatedAt(p, data, false, 8);
    BlankValue(p[8], Get(data, "descripcion"), None);
    ValidatedAt(p, data, false, 9);
    PhotosValue(p[9], Get(data, "fotos"));
  }

  /** Fields with no default leave a payload that lacks their keys as it is. */
  lemma {:induction false} NoDefaultsUntouched(schema: Schema, data: Object)
    requires forall i :: 0 <= i < |schema| ==> schema[i].default == None && Get(data, schema[i].key) == Undefined
    ensures Converted(schema, data) == data
  {
    if schema != [] {
      var n := |schema| - 1;
      assert forall i :: 0 <= i < n ==> schema[..n][i] == schema[i];
      NoDefaultsUntouched(schema[..n], data);
    }
  }

  /** An empty update is valid: the photo default is its whole content. */
  lemma EmptyUpdate()
    ensures ValidateUpdate([]) == Ok([("fotos", List([]))])
  {
    ValidateUpdateIff([]);
    EmptyAcceptable();
    EmptyUpdateConverted();
  }

  /**
   * A valid update payload that leaves out `fotos` comes back with `fotos: []`;
   * one that gives `fotos` keeps the list it gave.
   */
  lemma UpdateDefaultsPhotos(data: Object)
    ensures ValidateUpdate(data).Ok? && Get(data, "fotos") == Undefined ==>
      Get(ValidateUpdate(data).value, "fotos") == List([])
    ensures ValidateUpdate(data).Ok? && Get(data, "fotos") != Undefined ==>
      Get(ValidateUpdate(data).value, "fotos") == Get(data, "fotos") && Get(data, "fotos").List?
  {
    if ValidateUpdate(data).Ok? {
      UpdateSchemaKeys();
      PhotoDefaultLast();
      ValidatedAt(UpdateSchema, data, false, 9);
    }
  }

  lemma EmptyUpdateConverted()
    ensures Converted(UpdateSchema, []) == [("fotos", List([]))]
  {
    var p := UpdateSchema;
    PhotoDefaultLast();
    var init := p[..9];
    forall i | 0 <= i < |init| ensures init[i].default == None && Get([], init[i].key) == Undefined {
      assert init[i] == p[i];
    }
    NoDefaultsUntouched(init, []);
    assert p[..|p| - 1] == init;
    assert CheckField(p[9], Undefined).value == List([]);
  }

  /** Of the update schema's fields only the last, `fotos`, has a default. */
  lemma PhotoDefaultLast()
    ensures |UpdateSchema| == 10 && UpdateSchema[9] == Field("fotos", Photos, false, Some(List([])))
    ensures forall i :: 0 <= i < 9 ==> UpdateSchema[i].default == None
  {
    SchemasShaped();
    ShapedFields(UpdateSchema, true);
  }

  lemma EmptyAcceptable()
    ensures ProductoAcceptable([], true)
  {
  }

  /** The filter schema's keys, none twice, and its paging fields. */
  lemma FilterFields()
    ensures SchemaKeys(FilterSchema) == ["categoria", "tipo", "color", "q", "page", "limit"]
    ensures DistinctFields(FilterSchema)
    ensures forall i :: 0 <= i < 4 ==> FilterSchema[i].check.Text? && FilterSchema[i].default == None
    ensures FilterSchema[4] == Field("page", Number(true, Some(1), None), false, Some(Int(1)))
    ensures FilterSchema[5] == Field("limit", Number(true, Some(1), Some(100)), false, Some(Int(10)))
  {
  }

  /** A valid filter query always carries a whole page from 1 and a whole limit from 1 to 100. */
  lemma ValidatedFilters(data: Object)
    requires ValidateFilters(data).Ok?
    ensures var v := ValidateFilters(data).value;
      Get(v, "page").Num? && Integral(Get(v, "page").x) && Get(v, "page").x >= 1.0 &&
      Get(v, "limit").Num? && Integral(Get(v, "limit").x) && 1.0 <= Get(v, "limit").x <= 100.0
  {
    var p := FilterSchema;
    FilterFields();
    ValidatedAt(p, data, true, 4);
    WholeValue(p[4], Get(data, "page"), 1, None, 1);
    ValidatedAt(p, data, true, 5);
    WholeValue(p[5], Get(data, "limit"), 1, Some(100), 10);
  }

  /** Absent page and limit take their defaults, 1 and 10. */
  lemma FilterDefaults(data: Object)
    requires ValidateFilters(data).Ok? && Get(data, "page") == Undefined && Get(data, "limit") == Undefined
    ensures Get(ValidateFilters(data).value, "page") == Int(1) && Get(ValidateFilters(data).value, "limit") == Int(10)
  {
    var p := FilterSchema;
    FilterFields();
    ValidatedAt(p, data, true, 4);
    ValidatedAt(p, data, true, 5);
  }

  /** The filter validator stops at the first issue: a rejection names exactly one. */
  lemma FiltersReportOne(data: Object)
    requires ValidateFilters(data).Err?
    ensures |ValidateFilters(data).error| == 1
  {
  }

  lemma {:induction false} FieldIssuesAppend(a: Schema, b: Schema, data: Object)
    ensures FieldIssues(a + b, data) == FieldIssues(a, data) + FieldIssues(b, data)
  {
    if a != [] {
      assert (a + b)[1..] == a[1..] + b;
      FieldIssuesAppend(a[1..], b, data);
    } else {
      assert a + b == b;
    }
  }

  /** A whole number over a field's maximum raises that one issue. */
  lemma OverMaximum(f: Field, v: Value, lo: int, hi: int, n: int)
    requires f.check == Number(true, Some(lo), Some(hi)) && v != Undefined && JoiNumber(v) == Some(n as real)
    requires lo <= hi < n
    ensures CheckField(f, v).codes == [NumberMax]
  {
    assert (n as real).Floor == n;
  }

  /** A limit over 100, written as the decimal text a query string carries, is rejected with that one issue. */
  lemma LimitAboveRejected(n: int)
    requires n > 100
    ensures ValidateFilters([("limit", Str(IntToString(n)))]) == Err([Issue("limit", NumberMax)])
  {
    var data := [("limit", Str(IntToString(n)))];
    LimitAboveIssues(n);
    var r := Validate(FilterSchema, data, true);
    assert r.Err? && r.error == [Issue("limit", NumberMax)][..1];
    assert [Issue("limit", NumberMax)][..1] == [Issue("limit", NumberMax)];
  }

  lemma LimitAboveIssues(n: int)
    requires n > 100
    ensures AllIssues(FilterSchema, [("limit", Str(IntToString(n)))]) == [Issue("limit", NumberMax)]
  {
    var data := [("limit", Str(IntToString(n)))];
    assert Keys(data) == ["limit"];
    AllIssuesSplit(FilterSchema, 5, data);
    FrontSilent(data);
    LimitIssue(n);
    LimitDeclared(data);
    assert [] + [Issue("limit", NumberMax)] + [] == [Issue("limit", NumberMax)];
  }

  lemma AllIssuesSplit(schema: Schema, k: nat, data: Object)
    requires k <= |schema|
    ensures AllIssues(schema, data) ==
      FieldIssues(schema[..k], data) + FieldIssues(schema[k..], data) + UnknownIssues(SchemaKeys(schema), Keys(data))
  {
    assert schema[..k] + schema[k..] == schema;
    FieldIssuesAppend(schema[..k], schema[k..], data);
  }

  lemma LimitIssue(n: int)
    requires n > 100
    ensures FieldIssues(FilterSchema[5..], [("limit", Str(IntToString(n)))]) == [Issue("limit", NumberMax)]
  {
    var data := [("limit", Str(IntToString(n)))];
    var tail := FilterSchema[5..];
    var f := FilterSchema[5];
    FilterFields();
    assert tail[0] == f && tail[1..] == [];
    NumberOfIntText(n);
    OverMaximum(f, Str(IntToString(n)), 1, 100, n);
    var last := IssuesOf("limit", [NumberMax]);
    assert last == [Issue("limit", NumberMax)];
    assert FieldIssues(tail, data) == last + FieldIssues([], data);
  }

  /** A query holding only a limit raises nothing for the other five keys. */
  lemma FrontSilent(data: Object)
    requires Keys(data) == ["limit"]
    ensures FieldIssues(FilterSchema[..5], data) == []
  {
    var init := FilterSchema[..5];
    FilterFields();
    assert forall i :: 0 <= i < 5 ==> init[i] == FilterSchema[i] && init[i].key != "limit";
    FieldIssuesEmpty(init, data);
  }

  lemma LimitDeclared(data: Object)
    requires Keys(data) == ["limit"]
    ensures UnknownIssues(SchemaKeys(FilterSchema), Keys(data)) == []
  {
    FilterFields();
    assert "limit" in SchemaKeys(FilterSchema);
  }
}

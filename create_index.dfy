/**
 * The `CreateIndex` query and its builders (src/query/write/create_index.rs):
 * the values they hold, the in-place setters, and the JSON tree that serde's
 * derived `Serialize` gives them (`None` options skipped). `Term`, `IndexValue`
 * and `IndexParams` keep their content in a field named `object`, so each
 * serializes as `{"object": {...}}`; `CreateIndex` serializes as
 * `{"create_index": ...}`.
 */
module CreateIndexQuery {
  import opened Wrappers
  import opened Json

  /** Rust's `u16`, the type of `partitions`. */
  type u16 = x: int | 0 <= x < 0x1_0000

  /** `Expr` and `IndexPermission` are kept in their serialized form. */
  type Expr = Json
  type IndexPermission = Json

  /** The user metadata `Object`: a map of fields. */
  datatype Object = Object(fields: map<string, Json>)

  /**
   * `Expr::from(Object)`: an object escaped as `{"object": {...}}`, the same
   * wrapping serde gives `Term`, `IndexValue` and `IndexParams`; unwrapping it
   * gives the fields back.
   */
  function ObjectExpr(o: Object): (e: Expr)
    ensures IsWrapped(e) && Inner(e) == o.fields
  {
    Wrap(o.fields)
  }

  /** Distinct objects stay distinct once converted. */
  lemma ObjectExprInjective(a: Object, b: Object)
    requires ObjectExpr(a) == ObjectExpr(b)
    ensures a == b
  {
    assert Inner(ObjectExpr(a)) == Inner(ObjectExpr(b));
  }

  // ---------------------------------------------------------------- Term

  /** A term is a field path or a binding name, never both. */
  datatype TermObject = Field(path: seq<string>) | Binding(name: string)

  datatype Term = Term(obj: TermObject)
  {
    /** `Term::field`: the path segments, kept in order. */
    static function OfField(path: seq<string>): (t: Term)
      ensures t.obj.Field? && t.obj.path == path
      ensures SerializeTerm(t) == Wrap(map["field" := JArray(StringArray(path))])
    {
      Term(Field(path))
    }

    /** `Term::binding`. */
    static function OfBinding(name: string): (t: Term)
      ensures t.obj.Binding? && t.obj.name == name
      ensures SerializeTerm(t) == Wrap(map["binding" := JString(name)])
    {
      Term(Binding(name))
    }
  }

  // ---------------------------------------------------------- IndexValue

  datatype RawValueObject = RawValueObject(field: Option<seq<string>>, binding: Option<string>, reverse: bool)

  /**
   * `ValueObject`: its fields are private and only `IndexValue::field` and
   * `IndexValue::binding` build one, so exactly one of field/binding is set.
   */
  type ValueObject = v: RawValueObject | v.field.Some? != v.binding.Some?
    witness RawValueObject(None, Some(""), false)

  class IndexValue {
    var obj: ValueObject

    /** `IndexValue::field`. */
    constructor Field(path: seq<string>)
      ensures obj.field == Some(path) && obj.binding.None? && !obj.reverse
    {
      obj := RawValueObject(Some(path), None, false);
    }

    /** `IndexValue::binding`. */
    constructor Binding(name: string)
      ensures obj.binding == Some(name) && obj.field.None? && !obj.reverse
    {
      obj := RawValueObject(None, Some(name), false);
    }

    /** `reverse()`: sets the flag and keeps the field or binding. */
    method Reverse()
      modifies this
      ensures obj.reverse
      ensures obj.field == old(obj.field) && obj.binding == old(obj.binding)
    {
      obj := obj.(reverse := true);
    }
  }

  /** The values a `Vec<IndexValue>` holds once it is moved into the params. */
  function ValueObjects(vs: seq<IndexValue>): (r: seq<ValueObject>)
    reads vs
    ensures |r| == |vs| && forall i :: 0 <= i < |vs| ==> r[i] == vs[i].obj
  {
    seq(|vs|, i requires 0 <= i < |vs| reads vs => vs[i].obj)
  }

  // --------------------------------------------------------- IndexParams

  datatype IndexParamsInternal = IndexParamsInternal(
    name: string,
    source: Expr,
    active: bool,
    unique: bool,
    serialized: bool,
    terms: Option<seq<Term>>,
    values: Option<seq<ValueObject>>,
    partitions: Option<u16>,
    permissions: Option<IndexPermission>,
    data: Option<Expr>)

  /** The builder of `CreateIndex`; each setter changes one field in place. */
  class IndexParams {
    var obj: IndexParamsInternal

    /** `IndexParams::new`: the name is not checked against any reserved list. */
    constructor (name: string, source: Expr)
      ensures obj.name == name && obj.source == source
      ensures !obj.active && !obj.unique && !obj.serialized
      ensures obj.terms.None? && obj.values.None? && obj.partitions.None?
      ensures obj.permissions.None? && obj.data.None?
    {
      obj := IndexParamsInternal(name, source, false, false, false, None, None, None, None, None);
    }

    method Active()
      modifies this
      ensures obj == old(obj).(active := true)
      ensures old(obj.active) ==> obj == old(obj)
    {
      obj := obj.(active := true);
    }

    method Unique()
      modifies this
      ensures obj == old(obj).(unique := true)
      ensures old(obj.unique) ==> obj == old(obj)
    {
      obj := obj.(unique := true);
    }

    method Serialized()
      modifies this
      ensures obj == old(obj).(serialized := true)
      ensures old(obj.serialized) ==> obj == old(obj)
    {
      obj := obj.(serialized := true);
    }

    method Terms(terms: seq<Term>)
      modifies this
      ensures obj == old(obj).(terms := Some(terms))
    {
      obj := obj.(terms := Some(terms));
    }

    method Values(values: seq<IndexValue>)
      modifies this
      ensures obj == old(obj).(values := Some(ValueObjects(values)))
    {
      obj := obj.(values := Some(ValueObjects(values)));
    }

    method Partitions(partitions: u16)
      modifies this
      ensures obj == old(obj).(partitions := Some(partitions))
    {
      obj := obj.(partitions := Some(partitions));
    }

    method Permissions(permissions: IndexPermission)
      modifies this
      ensures obj == old(obj).(permissions := Some(permissions))
    {
      obj := obj.(permissions := Some(permissions));
    }

    method Data(data: Object)
      modifies this
      ensures obj == old(obj).(data := Some(ObjectExpr(data)))
    {
      obj := obj.(data := Some(ObjectExpr(data)));
    }
  }

  /** `CreateIndex::new` moves the params in under the `create_index` key. */
  datatype CreateIndex = CreateIndex(create_index: IndexParamsInternal)

  /** The query carries the params it was given: on the wire, their serialization under `create_index`. */
  function NewCreateIndex(params: IndexParams): (q: CreateIndex)
    reads params
    ensures q.create_index == params.obj
    ensures SerializeCreateIndex(q).fields["create_index"] == SerializeParams(params.obj)
  {
    CreateIndex(params.obj)
  }

  // ------------------------------------------------------- Serialization

  /** `{"object": inner}`, the shape of `Term`, `IndexValue` and `IndexParams`. */
  function Wrap(inner: map<string, Json>): (j: Json)
    ensures j.JObject? && j.fields.Keys == {"object"} && j.fields["object"] == JObject(inner)
  {
    JObject(map["object" := JObject(inner)])
  }

  predicate IsWrapped(j: Json) {
    j.JObject? && j.fields.Keys == {"object"} && j.fields["object"].JObject?
  }

  function Inner(j: Json): map<string, Json>
    requires IsWrapped(j)
  {
    j.fields["object"].fields
  }

  function TermFields(t: TermObject): map<string, Json> {
    match t
    case Field(path) => map["field" := JArray(StringArray(path))]
    case Binding(name) => map["binding" := JString(name)]
  }

  function SerializeTerm(t: Term): (j: Json)
    ensures IsWrapped(j) && Inner(j).Keys <= {"field", "binding"}
    ensures "field" in Inner(j) <==> t.obj.Field?
    ensures "binding" in Inner(j) <==> t.obj.Binding?
    ensures t.obj.Field? ==> Inner(j)["field"] == JArray(StringArray(t.obj.path))
    ensures t.obj.Binding? ==> Inner(j)["binding"] == JString(t.obj.name)
  {
    Wrap(TermFields(t.obj))
  }

  /** The keys serde writes for a value: each option that is set, and `reverse`. */
  function ValueKeys(v: ValueObject): set<string> {
    (if v.field.Some? then {"field"} else {})
    + (if v.binding.Some? then {"binding"} else {})
    + {"reverse"}
  }

  function ValueFields(v: ValueObject): (r: map<string, Json>)
    ensures r.Keys == ValueKeys(v)
  {
    map k | k in ValueKeys(v) ::
      if k == "field" then JArray(StringArray(v.field.value))
      else if k == "binding" then JString(v.binding.value)
      else JBool(v.reverse)
  }

  function SerializeValue(v: ValueObject): (j: Json)
    ensures IsWrapped(j) && Inner(j).Keys <= {"field", "binding", "reverse"}
    ensures "reverse" in Inner(j) && Inner(j)["reverse"] == JBool(v.reverse)
    ensures "field" in Inner(j) <==> v.field.Some?
    ensures "binding" in Inner(j) <==> v.binding.Some?
    ensures v.field.Some? ==> Inner(j)["field"] == JArray(StringArray(v.field.value))
    ensures v.binding.Some? ==> Inner(j)["binding"] == JString(v.binding.value)
  {
    Wrap(ValueFields(v))
  }

  function SerializeTerms(ts: seq<Term>): (r: seq<Json>)
    ensures |r| == |ts| && forall i :: 0 <= i < |ts| ==> r[i] == SerializeTerm(ts[i])
  {
    seq(|ts|, i requires 0 <= i < |ts| => SerializeTerm(ts[i]))
  }

  function SerializeValues(vs: seq<ValueObject>): (r: seq<Json>)
    ensures |r| == |vs| && forall i :: 0 <= i < |vs| ==> r[i] == SerializeValue(vs[i])
  {
    seq(|vs|, i requires 0 <= i < |vs| => SerializeValue(vs[i]))
  }

  /** The keys serde writes: the required ones, and each optional one that is set. */
  function ParamsKeys(p: IndexParamsInternal): set<string> {
    RequiredKeys
    + (if p.terms.Some? then {"terms"} else {})
    + (if p.values.Some? then {"values"} else {})
    + (if p.partitions.Some? then {"partitions"} else {})
    + (if p.permissions.Some? then {"permissions"} else {})
    + (if p.data.Some? then {"data"} else {})
  }

  /** The value serde writes under key `k`. */
  function ParamsField(p: IndexParamsInternal, k: string): Json
    requires k in ParamsKeys(p)
  {
    if k == "name" then JString(p.name)
    else if k == "source" then p.source
    else if k == "active" then JBool(p.active)
    else if k == "unique" then JBool(p.unique)
    else if k == "serialized" then JBool(p.serialized)
    else if k == "terms" then JArray(SerializeTerms(p.terms.value))
    else if k == "values" then JArray(SerializeValues(p.values.value))
    else if k == "partitions" then JNumber(p.partitions.value)
    else if k == "permissions" then p.permissions.value
    else p.data.value
  }

  function ParamsFields(p: IndexParamsInternal): (r: map<string, Json>)
    ensures r.Keys == ParamsKeys(p)
  {
    map k | k in ParamsKeys(p) :: ParamsField(p, k)
  }

  const RequiredKeys: set<string> := {"name", "source", "active", "unique", "serialized"}
  const OptionalKeys: set<string> := {"terms", "values", "partitions", "permissions", "data"}

  lemma ParamsFieldsKeys(p: IndexParamsInternal)
    ensures RequiredKeys <= ParamsFields(p).Keys <= RequiredKeys + OptionalKeys
    ensures "terms" in ParamsFields(p) <==> p.terms.Some?
    ensures "values" in ParamsFields(p) <==> p.values.Some?
    ensures "partitions" in ParamsFields(p) <==> p.partitions.Some?
    ensures "permissions" in ParamsFields(p) <==> p.permissions.Some?
    ensures "data" in ParamsFields(p) <==> p.data.Some?
  {
    assert RequiredKeys !! OptionalKeys;
    assert ParamsKeys(p) - RequiredKeys <= OptionalKeys;
  }

  lemma ParamsFieldsRequired(p: IndexParamsInternal)
    ensures RequiredKeys <= ParamsFields(p).Keys
    ensures ParamsFields(p)["name"] == JString(p.name) && ParamsFields(p)["source"] == p.source
    ensures ParamsFields(p)["active"] == JBool(p.active) && ParamsFields(p)["unique"] == JBool(p.unique)
    ensures ParamsFields(p)["serialized"] == JBool(p.serialized)
  {
    ParamsFieldsKeys(p);
  }

  lemma ParamsFieldsOptional(p: IndexParamsInternal)
    ensures p.terms.Some? ==> "terms" in ParamsFields(p) && ParamsFields(p)["terms"] == JArray(SerializeTerms(p.terms.value))
    ensures p.values.Some? ==> "values" in ParamsFields(p) && ParamsFields(p)["values"] == JArray(SerializeValues(p.values.value))
    ensures p.partitions.Some? ==> "partitions" in ParamsFields(p) && ParamsFields(p)["partitions"] == JNumber(p.partitions.value)
    ensures p.permissions.Some? ==> "permissions" in ParamsFields(p) && ParamsFields(p)["permissions"] == p.permissions.value
    ensures p.data.Some? ==> "data" in ParamsFields(p) && ParamsFields(p)["data"] == p.data.value
  {
    ParamsFieldsKeys(p);
  }

  /**
   * The wire form of the params: the required fields always, each optional
   * field exactly when it is set, and nothing else.
   */
  function SerializeParams(p: IndexParamsInternal): (j: Json)
    ensures IsWrapped(j) && RequiredKeys <= Inner(j).Keys <= RequiredKeys + OptionalKeys
    ensures Inner(j)["name"] == JString(p.name) && Inner(j)["source"] == p.source
    ensures Inner(j)["active"] == JBool(p.active) && Inner(j)["unique"] == JBool(p.unique)
    ensures Inner(j)["serialized"] == JBool(p.serialized)
    ensures "terms" in Inner(j) <==> p.terms.Some?
    ensures "values" in Inner(j) <==> p.values.Some?
    ensures "partitions" in Inner(j) <==> p.partitions.Some?
    ensures "permissions" in Inner(j) <==> p.permissions.Some?
    ensures "data" in Inner(j) <==> p.data.Some?
    ensures p.terms.Some? ==> Inner(j)["terms"] == JArray(SerializeTerms(p.terms.value))
    ensures p.values.Some? ==> Inner(j)["values"] == JArray(SerializeValues(p.values.value))
    ensures p.partitions.Some? ==> Inner(j)["partitions"] == JNumber(p.partitions.value)
    ensures p.permissions.Some? ==> Inner(j)["permissions"] == p.permissions.value
    ensures p.data.Some? ==> Inner(j)["data"] == p.data.value
  {
    ParamsFieldsKeys(p);
    ParamsFieldsRequired(p);
    ParamsFieldsOptional(p);
    Wrap(ParamsFields(p))
  }

  function SerializeCreateIndex(q: CreateIndex): (j: Json)
    ensures j.JObject? && j.fields.Keys == {"create_index"}
    ensures j.fields["create_index"] == SerializeParams(q.create_index)
  {
    JObject(map["create_index" := SerializeParams(q.create_index)])
  }

  // -------------------------------------------- The wire form is lossless

  lemma SerializeTermInjective(a: Term, b: Term)
    requires SerializeTerm(a) == SerializeTerm(b)
    ensures a == b
  {
    var ia, ib := Inner(SerializeTerm(a)), Inner(SerializeTerm(b));
    if a.obj.Field? {
      assert ia["field"] == ib["field"];
      StringArrayInjective(a.obj.path, b.obj.path);
    } else {
      assert ia["binding"] == ib["binding"];
    }
  }

  lemma SerializeValueInjective(a: ValueObject, b: ValueObject)
    requires SerializeValue(a) == SerializeValue(b)
    ensures a == b
  {
    var ia, ib := Inner(SerializeValue(a)), Inner(SerializeValue(b));
    assert ia["reverse"] == ib["reverse"];
    if a.field.Some? {
      assert ia["field"] == ib["field"];
      StringArrayInjective(a.field.value, b.field.value);
    } else {
      assert ia["binding"] == ib["binding"];
    }
  }

  lemma SerializeTermsInjective(a: seq<Term>, b: seq<Term>)
    requires SerializeTerms(a) == SerializeTerms(b)
    ensures a == b
  {
    assert |a| == |b|;
    forall i | 0 <= i < |a| ensures a[i] == b[i] {
      assert SerializeTerms(a)[i] == SerializeTerms(b)[i];
      SerializeTermInjective(a[i], b[i]);
    }
  }

  lemma SerializeValuesInjective(a: seq<ValueObject>, b: seq<ValueObject>)
    requires SerializeValues(a) == SerializeValues(b)
    ensures a == b
  {
    assert |a| == |b|;
    forall i | 0 <= i < |a| ensures a[i] == b[i] {
      assert SerializeValues(a)[i] == SerializeValues(b)[i];
      SerializeValueInjective(a[i], b[i]);
    }
  }

  /**
   * Two parameter sets with the same wire form are the same: serialization
   * drops nothing a setter stored, so the server sees every setting made.
   */
  lemma SerializeParamsInjective(p: IndexParamsInternal, q: IndexParamsInternal)
    requires SerializeParams(p) == SerializeParams(q)
    ensures p == q
  {
    var ip, iq := Inner(SerializeParams(p)), Inner(SerializeParams(q));
    assert ip["name"] == iq["name"] && ip["active"] == iq["active"];
    assert ip["unique"] == iq["unique"] && ip["serialized"] == iq["serialized"];
    if p.terms.Some? {
      assert ip["terms"] == iq["terms"];
      SerializeTermsInjective(p.terms.value, q.terms.value);
    }
    if p.values.Some? {
      assert ip["values"] == iq["values"];
      SerializeValuesInjective(p.values.value, q.values.value);
    }
    if p.partitions.Some? {
      assert ip["partitions"] == iq["partitions"];
    }
    if p.permissions.Some? {
      assert ip["permissions"] == iq["permissions"];
    }
    if p.data.Some? {
      assert ip["data"] == iq["data"];
    }
  }

  lemma SerializeCreateIndexInjective(a: CreateIndex, b: CreateIndex)
    requires SerializeCreateIndex(a) == SerializeCreateIndex(b)
    ensures a == b
  {
    assert SerializeCreateIndex(a).fields["create_index"] == SerializeCreateIndex(b).fields["create_index"];
    SerializeParamsInjective(a.create_index, b.create_index);
  }

  // ------------------------------------ Each setter touches one wire key

  /** `q` is `p` with at most the field behind wire key `key` changed. */
  predicate SameExcept(p: IndexParamsInternal, q: IndexParamsInternal, key: string) {
    && p.name == q.name && p.source == q.source
    && (key != "active" ==> p.active == q.active)
    && (key != "unique" ==> p.unique == q.unique)
    && (key != "serialized" ==> p.serialized == q.serialized)
    && (key != "terms" ==> p.terms == q.terms)
    && (key != "values" ==> p.values == q.values)
    && (key != "partitions" ==> p.partitions == q.partitions)
    && (key != "permissions" ==> p.permissions == q.permissions)
    && (key != "data" ==> p.data == q.data)
  }

  lemma KeysExcept(p: IndexParamsInternal, q: IndexParamsInternal, key: string)
    requires key in ParamsKeys(q) && SameExcept(p, q, key)
    ensures ParamsKeys(q) == ParamsKeys(p) + {key}
  {
  }

  lemma FieldExcept(p: IndexParamsInternal, q: IndexParamsInternal, key: string, k: string)
    requires SameExcept(p, q, key) && k in ParamsKeys(p) && k in ParamsKeys(q) && k != key
    ensures ParamsField(q, k) == ParamsField(p, k)
  {
    if k == "name" || k == "source" {
    } else if k == "active" {
    } else if k == "unique" {
    } else if k == "serialized" {
    } else if k == "terms" {
    } else if k == "values" {
    } else if k == "partitions" {
    } else if k == "permissions" {
    } else {
      assert k == "data";
    }
  }

  /** If `q` differs from `p` only in the field behind `key`, its wire fields are an update of `p`'s at `key`. */
  lemma FieldsExcept(p: IndexParamsInternal, q: IndexParamsInternal, key: string)
    requires key in ParamsKeys(q) && SameExcept(p, q, key)
    ensures ParamsFields(q) == ParamsFields(p)[key := ParamsField(q, key)]
  {
    KeysExcept(p, q, key);
    var l, r := ParamsFields(q), ParamsFields(p)[key := ParamsField(q, key)];
    assert l.Keys == r.Keys;
    forall k | k in l ensures l[k] == r[k] {
      if k != key {
        FieldExcept(p, q, key, k);
      }
    }
  }

  /** `active()` turns the `active` key to `true` and changes no other key. */
  lemma ActiveOnWire(p: IndexParamsInternal)
    ensures ParamsFields(p.(active := true)) == ParamsFields(p)["active" := JBool(true)]
  {
    var q := p.(active := true);
    FieldsExcept(p, q, "active");
  }

  /** `unique()` turns the `unique` key to `true` and changes no other key. */
  lemma UniqueOnWire(p: IndexParamsInternal)
    ensures ParamsFields(p.(unique := true)) == ParamsFields(p)["unique" := JBool(true)]
  {
    var q := p.(unique := true);
    FieldsExcept(p, q, "unique");
  }

  /** `serialized()` turns the `serialized` key to `true` and changes no other key. */
  lemma SerializedOnWire(p: IndexParamsInternal)
    ensures ParamsFields(p.(serialized := true)) == ParamsFields(p)["serialized" := JBool(true)]
  {
    var q := p.(serialized := true);
    FieldsExcept(p, q, "serialized");
  }

  /** `terms(ts)` adds or overwrites the `terms` key and changes no other key. */
  lemma TermsOnWire(p: IndexParamsInternal, ts: seq<Term>)
    ensures ParamsFields(p.(terms := Some(ts))) == ParamsFields(p)["terms" := JArray(SerializeTerms(ts))]
  {
    var q := p.(terms := Some(ts));
    FieldsExcept(p, q, "terms");
  }

  /** `values(vs)` adds or overwrites the `values` key and changes no other key. */
  lemma ValuesOnWire(p: IndexParamsInternal, vs: seq<ValueObject>)
    ensures ParamsFields(p.(values := Some(vs))) == ParamsFields(p)["values" := JArray(SerializeValues(vs))]
  {
    var q := p.(values := Some(vs));
    FieldsExcept(p, q, "values");
  }

  /** `partitions(n)` adds or overwrites the `partitions` key and changes no other key. */
  lemma PartitionsOnWire(p: IndexParamsInternal, n: u16)
    ensures ParamsFields(p.(partitions := Some(n))) == ParamsFields(p)["partitions" := JNumber(n)]
  {
    var q := p.(partitions := Some(n));
    FieldsExcept(p, q, "partitions");
  }

  /** `permissions(perm)` adds or overwrites the `permissions` key and changes no other key. */
  lemma PermissionsOnWire(p: IndexParamsInternal, perm: IndexPermission)
    ensures ParamsFields(p.(permissions := Some(perm))) == ParamsFields(p)["permissions" := perm]
  {
    var q := p.(permissions := Some(perm));
    FieldsExcept(p, q, "permissions");
  }

  /** `data(o)` adds or overwrites the `data` key with the escaped object and changes no other key. */
  lemma DataOnWire(p: IndexParamsInternal, o: Object)
    ensures ParamsFields(p.(data := Some(ObjectExpr(o)))) == ParamsFields(p)["data" := ObjectExpr(o)]
  {
    var q := p.(data := Some(ObjectExpr(o)));
    FieldsExcept(p, q, "data");
  }

  // ------------------------------------------------------ A worked example

  /** The serialized `Ref::class("cats")`: a class ref inside the `classes` ref. */
  function CatsClassRef(): Expr {
    JObject(map["@ref" := JObject(map[
      "class" := JObject(map["@ref" := JObject(map["id" := JString("classes")])]),
      "id" := JString("cats")])])
  }

  /** The serialized permission that gives `read` to `public`. */
  function PublicRead(): IndexPermission {
    Wrap(map["read" := JString("public")])
  }

  /** The serialized terms of the `meows` index. */
  function MeowsTermsJson(): seq<Json> {
    [Wrap(map["field" := JArray([JString("data"), JString("age")])]),
     Wrap(map["binding" := JString("cats_name")])]
  }

  /** The serialized values of the `meows` index; the first one is reversed. */
  function MeowsValuesJson(): seq<Json> {
    [Wrap(map["binding" := JString("cats_age"), "reverse" := JBool(true)]),
     Wrap(map["field" := JArray([JString("data"), JString("name")]), "reverse" := JBool(false)])]
  }

  /** The inner object freshly built params serialize to. */
  function NewMeowsFields(): map<string, Json> {
    map["name" := JString("meows"), "source" := CatsClassRef(),
        "active" := JBool(false), "unique" := JBool(false), "serialized" := JBool(false)]
  }

  /**
   * The inner object the `meows` index must serialize to: the test's eight
   * keys with the test's values. The test lists them alphabetically; they are
   * listed here in the order the builder sets them, which a JSON object does
   * not distinguish.
   */
  function ExpectedMeowsFields(): map<string, Json> {
    map[
      "name" := JString("meows"),
      "source" := CatsClassRef(),
      "active" := JBool(false),
      "unique" := JBool(false),
      "serialized" := JBool(false),
      "permissions" := PublicRead(),
      "terms" := JArray(MeowsTermsJson()),
      "values" := JArray(MeowsValuesJson())
    ]
  }

  function ExpectedMeows(): Json {
    JObject(map["create_index" := Wrap(ExpectedMeowsFields())])
  }

  /** The builder state `IndexParams::new("meows", ...)` starts from. */
  function NewMeowsParams(): IndexParamsInternal {
    IndexParamsInternal("meows", CatsClassRef(), false, false, false, None, None, None, None, None)
  }

  function MeowsTerms(): seq<Term> {
    [Term(Field(["data", "age"])), Term(Binding("cats_name"))]
  }

  function MeowsValues(): seq<ValueObject> {
    [RawValueObject(None, Some("cats_age"), true), RawValueObject(Some(["data", "name"]), None, false)]
  }

  /** The builder state the `meows` setter calls leave behind. */
  function MeowsParams(): IndexParamsInternal {
    NewMeowsParams().(permissions := Some(PublicRead())).(terms := Some(MeowsTerms())).(values := Some(MeowsValues()))
  }

  lemma NewMeowsSerialized()
    ensures ParamsFields(NewMeowsParams()) == NewMeowsFields()
  {
    var p := NewMeowsParams();
    assert ParamsKeys(p) == RequiredKeys;
    ParamsFieldsRequired(p);
  }

  lemma MeowsTermsSerialized()
    ensures SerializeTerms(MeowsTerms()) == MeowsTermsJson()
  {
    var ts := MeowsTerms();
    assert StringArray(["data", "age"]) == [JString("data"), JString("age")];
    assert SerializeTerm(ts[0]) == MeowsTermsJson()[0];
    assert SerializeTerm(ts[1]) == MeowsTermsJson()[1];
  }

  lemma MeowsValuesSerialized()
    ensures SerializeValues(MeowsValues()) == MeowsValuesJson()
  {
    var vs := MeowsValues();
    assert StringArray(["data", "name"]) == [JString("data"), JString("name")];
    assert ValueFields(vs[0]) == map["binding" := JString("cats_age"), "reverse" := JBool(true)];
    assert ValueFields(vs[1]) == map["field" := JArray([JString("data"), JString("name")]), "reverse" := JBool(false)];
    assert SerializeValue(vs[0]) == MeowsValuesJson()[0];
    assert SerializeValue(vs[1]) == MeowsValuesJson()[1];
  }

  /** The `meows` state serializes to the expected tree: the setters' wire updates, one after another. */
  lemma MeowsSerialized()
    ensures SerializeParams(MeowsParams()) == Wrap(ExpectedMeowsFields())
  {
    var p0 := NewMeowsParams();
    var p1 := p0.(permissions := Some(PublicRead()));
    var p2 := p1.(terms := Some(MeowsTerms()));
    NewMeowsSerialized();
    PermissionsOnWire(p0, PublicRead());
    TermsOnWire(p1, MeowsTerms());
    ValuesOnWire(p2, MeowsValues());
    MeowsTermsSerialized();
    MeowsValuesSerialized();
  }

  /**
   * The `meows` index: two terms, two values with the first one reversed,
   * public read permission, built through the setters in the same order.
   */
  method MeowsIndex() returns (j: Json)
    ensures j == ExpectedMeows()
  {
    var params := new IndexParams("meows", CatsClassRef());
    params.Permissions(PublicRead());

    var ageTerm := Term.OfField(["data", "age"]);
    var nameTerm := Term.OfBinding("cats_name");
    params.Terms([ageTerm, nameTerm]);

    var nameValue := new IndexValue.Field(["data", "name"]);
    var ageValue := new IndexValue.Binding("cats_age");
    ageValue.Reverse();
    params.Values([ageValue, nameValue]);
    assert ValueObjects([ageValue, nameValue]) == [ageValue.obj, nameValue.obj];

    assert params.obj.terms == MeowsParams().terms;
    assert params.obj.values == MeowsParams().values;
    assert params.obj.terms == Some(MeowsTerms());
    assert params.obj.values == Some(MeowsValues());
    assert params.obj == MeowsParams();
    j := SerializeCreateIndex(NewCreateIndex(params));
    MeowsSerialized();
  }
}

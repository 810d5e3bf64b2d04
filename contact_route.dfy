/**
 * The contact endpoint of app/api/contact/route.ts. `contactSchema` is a table of field rules
 * checked against the JSON body; `POST` answers 200 when the body satisfies it, 400 when it
 * does not and 500 when the body cannot be read as JSON. zod's e-mail pattern is the
 * parameter `isEmail`; lengths are counted in UTF-16 code units, as `string.length` does.
 */
module ContactRoute {
  import opened Wrappers
  import opened Strings

  /** A JSON value as `request.json()` produces it. */
  datatype Json =
    | JNull
    | JBool(b: bool)
    | JNumber(n: real)
    | JString(s: string)
    | JArray(items: seq<Json>)
    | JObject(fields: map<string, Json>)

  /** One zod rule: a string with optional length bounds and e-mail check, an enum, or `true`. */
  datatype Rule =
    | Text(min: Option<nat>, max: Option<nat>, email: bool)
    | OneOf(options: seq<string>)
    | MustBeTrue

  /** A key of the object schema; `optional` is `.optional()`. */
  datatype Field = Field(name: string, rule: Rule, optional: bool)

  /** `contactSchema`, key by key. */
  const ContactSchema: seq<Field> := [
    Field("email", Text(None, None, true), false),
    Field("nombre", Text(Some(2), None, false), false),
    Field("apellido", Text(Some(2), None, false), false),
    Field("motivo", Text(Some(10), Some(300), false), false),
    Field("actividadOcupacion", Text(None, None, false), true),
    Field("provincia", Text(None, None, false), true),
    Field("invirtioBolsa", OneOf(["si", "no"]), true),
    Field("cuentaComitente", Text(None, None, false), true),
    Field("objetivoInversion", Text(None, Some(300), false), true),
    Field("horizonte", Text(None, None, false), true),
    Field("riesgo", OneOf(["bajo", "moderado", "alto"]), false),
    Field("consentimiento", MustBeTrue, false)
  ]

  /** A present value satisfies a rule. */
  predicate RuleOk(rule: Rule, v: Json, isEmail: string -> bool)
  {
    match rule
    case Text(min, max, email) =>
      v.JString? &&
      (min.Some? ==> Utf16Length(v.s) >= min.value) &&
      (max.Some? ==> Utf16Length(v.s) <= max.value) &&
      (email ==> isEmail(v.s))
    case OneOf(options) => v.JString? && v.s in options
    case MustBeTrue => v == JBool(true)
  }

  /** A key is fine when its value satisfies the rule, or when it is absent and optional; `null` is not absence. */
  predicate FieldOk(f: Field, obj: map<string, Json>, isEmail: string -> bool)
  {
    if f.name in obj then RuleOk(f.rule, obj[f.name], isEmail) else f.optional
  }

  predicate SchemaOk(schema: seq<Field>, obj: map<string, Json>, isEmail: string -> bool)
  {
    forall i :: 0 <= i < |schema| ==> FieldOk(schema[i], obj, isEmail)
  }

  /** The schema's keys, position by position. */
  lemma SchemaEntries()
    ensures |ContactSchema| == 12
    ensures ContactSchema[0] == Field("email", Text(None, None, true), false)
    ensures ContactSchema[1] == Field("nombre", Text(Some(2), None, false), false)
    ensures ContactSchema[2] == Field("apellido", Text(Some(2), None, false), false)
    ensures ContactSchema[3] == Field("motivo", Text(Some(10), Some(300), false), false)
    ensures ContactSchema[10] == Field("riesgo", OneOf(["bajo", "moderado", "alto"]), false)
    ensures ContactSchema[11] == Field("consentimiento", MustBeTrue, false)
  {
  }

  /** No key appears twice in the schema. */
  lemma SchemaNamesDistinct()
    ensures forall i, j :: 0 <= i < j < |ContactSchema| ==> ContactSchema[i].name != ContactSchema[j].name
  {
    var s := ContactSchema;
    forall i, j | 0 <= i < j < |s|
      ensures s[i].name != s[j].name
    {
      if |s[i].name| == |s[j].name| {
        assert s[i].name[0] != s[j].name[0];
      }
    }
  }

  /** The names of the keys whose rule fails, in schema order: the paths of zod's issues. */
  function FailingFields(schema: seq<Field>, obj: map<string, Json>, isEmail: string -> bool): (r: seq<string>)
    ensures |r| <= |schema|
    ensures r == [] <==> SchemaOk(schema, obj, isEmail)
    ensures forall n :: n in r <==> exists i :: 0 <= i < |schema| && schema[i].name == n && !FieldOk(schema[i], obj, isEmail)
  {
    if schema == [] then []
    else
      var rest := FailingFields(schema[1..], obj, isEmail);
      assert forall i :: 1 <= i < |schema| ==> schema[i] == schema[1..][i - 1];
      if FieldOk(schema[0], obj, isEmail) then rest else [schema[0].name] + rest
  }

  /** A key is reported exactly when its own rule fails, since no other key has its name. */
  lemma FailingAt(obj: map<string, Json>, isEmail: string -> bool, k: nat)
    requires k < |ContactSchema|
    ensures ContactSchema[k].name in FailingFields(ContactSchema, obj, isEmail) <==> !FieldOk(ContactSchema[k], obj, isEmail)
  {
    SchemaNamesDistinct();
  }

  /** Where an issue points: the body itself, or one key of it. */
  datatype Issue = NotAnObject | AtField(name: string)

  /** The outcome of `contactSchema.parse(body)`. */
  datatype ParseOutcome = Parsed(data: map<string, Json>) | Rejected(issues: seq<Issue>)

  function SchemaNames(schema: seq<Field>): set<string>
  {
    set i | 0 <= i < |schema| :: schema[i].name
  }

  /** `contactSchema.parse(body)`: the schema's keys of a valid object (unknown keys are dropped), or the issues. */
  function Parse(body: Json, isEmail: string -> bool): (o: ParseOutcome)
    ensures o.Parsed? <==> body.JObject? && SchemaOk(ContactSchema, body.fields, isEmail)
    ensures o.Parsed? ==> forall k :: k in o.data <==> k in body.fields && k in SchemaNames(ContactSchema)
    ensures o.Parsed? ==> forall k :: k in o.data ==> o.data[k] == body.fields[k]
    ensures o.Rejected? ==> |o.issues| > 0
    ensures o.Rejected? && !body.JObject? ==> o.issues == [NotAnObject]
    ensures o.Rejected? && body.JObject? ==>
      forall n :: AtField(n) in o.issues <==> exists i :: 0 <= i < |ContactSchema| && ContactSchema[i].name == n && !FieldOk(ContactSchema[i], body.fields, isEmail)
  {
    if !body.JObject? then Rejected([NotAnObject])
    else
      var failing := FailingFields(ContactSchema, body.fields, isEmail);
      if failing == [] then
        Parsed(map k | k in body.fields && k in SchemaNames(ContactSchema) :: body.fields[k])
      else
        var issues := seq(|failing|, i requires 0 <= i < |failing| => AtField(failing[i]));
        assert forall n :: AtField(n) in issues <==> n in failing by {
          forall n ensures AtField(n) in issues <==> n in failing {
            if n in failing {
              var i :| 0 <= i < |failing| && failing[i] == n;
              assert issues[i] == AtField(n);
            }
          }
        }
        Rejected(issues)
  }

  /** The same requirements written out key by key. */
  predicate ContactValid(obj: map<string, Json>, isEmail: string -> bool)
  {
    && "email" in obj && obj["email"].JString? && isEmail(obj["email"].s)
    && "nombre" in obj && obj["nombre"].JString? && Utf16Length(obj["nombre"].s) >= 2
    && "apellido" in obj && obj["apellido"].JString? && Utf16Length(obj["apellido"].s) >= 2
    && "motivo" in obj && obj["motivo"].JString? && 10 <= Utf16Length(obj["motivo"].s) <= 300
    && ("actividadOcupacion" in obj ==> obj["actividadOcupacion"].JString?)
    && ("provincia" in obj ==> obj["provincia"].JString?)
    && ("invirtioBolsa" in obj ==> obj["invirtioBolsa"] == JString("si") || obj["invirtioBolsa"] == JString("no"))
    && ("cuentaComitente" in obj ==> obj["cuentaComitente"].JString?)
    && ("objetivoInversion" in obj ==> obj["objetivoInversion"].JString? && Utf16Length(obj["objetivoInversion"].s) <= 300)
    && ("horizonte" in obj ==> obj["horizonte"].JString?)
    && "riesgo" in obj && obj["riesgo"] in [JString("bajo"), JString("moderado"), JString("alto")]
    && "consentimiento" in obj && obj["consentimiento"] == JBool(true)
  }

  /** The schema table accepts exactly the objects the key-by-key reading accepts. */
  lemma SchemaMeansContactValid(obj: map<string, Json>, isEmail: string -> bool)
    ensures SchemaOk(ContactSchema, obj, isEmail) <==> ContactValid(obj, isEmail)
  {
    if SchemaOk(ContactSchema, obj, isEmail) {
      SchemaGivesContactValid(obj, isEmail);
    }
    if ContactValid(obj, isEmail) {
      ContactValidGivesSchema(obj, isEmail);
    }
  }

  lemma SchemaGivesContactValid(obj: map<string, Json>, isEmail: string -> bool)
    requires SchemaOk(ContactSchema, obj, isEmail)
    ensures ContactValid(obj, isEmail)
  {
    var s := ContactSchema;
    assert FieldOk(s[0], obj, isEmail) && FieldOk(s[1], obj, isEmail) && FieldOk(s[2], obj, isEmail);
    assert FieldOk(s[3], obj, isEmail) && FieldOk(s[4], obj, isEmail) && FieldOk(s[5], obj, isEmail);
    assert FieldOk(s[6], obj, isEmail) && FieldOk(s[7], obj, isEmail) && FieldOk(s[8], obj, isEmail);
    assert FieldOk(s[9], obj, isEmail) && FieldOk(s[10], obj, isEmail) && FieldOk(s[11], obj, isEmail);
  }

  lemma ContactValidGivesSchema(obj: map<string, Json>, isEmail: string -> bool)
    requires ContactValid(obj, isEmail)
    ensures SchemaOk(ContactSchema, obj, isEmail)
  {
    var s := ContactSchema;
    FirstFieldsOk(obj, isEmail);
    MiddleFieldsOk(obj, isEmail);
    LastFieldsOk(obj, isEmail);
    forall i | 0 <= i < |s| ensures FieldOk(s[i], obj, isEmail) {
      assert i < 4 || 4 <= i < 8 || 8 <= i < 12;
    }
  }

  /** `email`, `nombre`, `apellido` and `motivo` meet their rules. */
  lemma FirstFieldsOk(obj: map<string, Json>, isEmail: string -> bool)
    requires ContactValid(obj, isEmail)
    ensures forall i :: 0 <= i < 4 ==> FieldOk(ContactSchema[i], obj, isEmail)
  {
    var s := ContactSchema;
    assert FieldOk(s[0], obj, isEmail) && FieldOk(s[1], obj, isEmail) && FieldOk(s[2], obj, isEmail);
    assert FieldOk(s[3], obj, isEmail);
  }

  /** `actividadOcupacion`, `provincia`, `invirtioBolsa` and `cuentaComitente` meet their rules. */
  lemma MiddleFieldsOk(obj: map<string, Json>, isEmail: string -> bool)
    requires ContactValid(obj, isEmail)
    ensures forall i :: 4 <= i < 8 ==> FieldOk(ContactSchema[i], obj, isEmail)
  {
    var s := ContactSchema;
    assert FieldOk(s[4], obj, isEmail) && FieldOk(s[5], obj, isEmail) && FieldOk(s[6], obj, isEmail);
    assert FieldOk(s[7], obj, isEmail);
  }

  /** `objetivoInversion`, `horizonte`, `riesgo` and `consentimiento` meet their rules. */
  lemma LastFieldsOk(obj: map<string, Json>, isEmail: string -> bool)
    requires ContactValid(obj, isEmail)
    ensures forall i :: 8 <= i < 12 ==> FieldOk(ContactSchema[i], obj, isEmail)
  {
    var s := ContactSchema;
    assert obj["riesgo"].s in ["bajo", "moderado", "alto"];
    assert FieldOk(s[8], obj, isEmail) && FieldOk(s[9], obj, isEmail) && FieldOk(s[10], obj, isEmail);
    assert FieldOk(s[11], obj, isEmail);
  }

  /** `nombre` and `apellido` need at least two characters; one is rejected. */
  lemma ShortNameRejected(obj: map<string, Json>, isEmail: string -> bool, key: string)
    requires key == "nombre" || key == "apellido"
    requires key in obj && obj[key].JString? && Utf16Length(obj[key].s) < 2
    ensures Parse(JObject(obj), isEmail).Rejected?
    ensures AtField(key) in Parse(JObject(obj), isEmail).issues
  {
    var i := if key == "nombre" then 1 else 2;
    assert ContactSchema[i].name == key && !FieldOk(ContactSchema[i], obj, isEmail);
  }

  /** `motivo` outside 10..300 characters is rejected. */
  lemma MotivoOutOfBoundsRejected(obj: map<string, Json>, isEmail: string -> bool)
    requires "motivo" in obj && obj["motivo"].JString?
    requires Utf16Length(obj["motivo"].s) < 10 || Utf16Length(obj["motivo"].s) > 300
    ensures Parse(JObject(obj), isEmail).Rejected?
    ensures AtField("motivo") in Parse(JObject(obj), isEmail).issues
  {
    assert ContactSchema[3].name == "motivo" && !FieldOk(ContactSchema[3], obj, isEmail);
  }

  /** Consent must be the boolean `true`: `false`, a missing key or anything else is an issue. */
  lemma ConsentRequired(obj: map<string, Json>, isEmail: string -> bool)
    requires "consentimiento" !in obj || obj["consentimiento"] != JBool(true)
    ensures Parse(JObject(obj), isEmail).Rejected?
    ensures AtField("consentimiento") in Parse(JObject(obj), isEmail).issues
  {
    assert ContactSchema[11].name == "consentimiento" && !FieldOk(ContactSchema[11], obj, isEmail);
  }

  /** The unconstrained optional keys never cause an issue when absent or when any string. */
  lemma FreeTextFieldsUnconstrained(obj: map<string, Json>, isEmail: string -> bool, key: string)
    requires key in ["actividadOcupacion", "provincia", "cuentaComitente", "horizonte"]
    requires key !in obj || obj[key].JString?
    ensures AtField(key) !in FailingIssues(obj, isEmail)
  {
    var s := ContactSchema;
    assert forall i :: 0 <= i < |s| && s[i].name == key ==> i == 4 || i == 5 || i == 7 || i == 9;
    assert forall i :: 0 <= i < |s| && s[i].name == key ==> FieldOk(s[i], obj, isEmail);
  }

  /** The issues reported for an object body (none when it is valid). */
  function FailingIssues(obj: map<string, Json>, isEmail: string -> bool): (issues: seq<Issue>)
    ensures issues == [] <==> SchemaOk(ContactSchema, obj, isEmail)
    ensures forall n :: AtField(n) in issues <==>
      exists i :: 0 <= i < |ContactSchema| && ContactSchema[i].name == n && !FieldOk(ContactSchema[i], obj, isEmail)
  {
    var o := Parse(JObject(obj), isEmail);
    if o.Rejected? then o.issues else []
  }

  /** What the route receives: a body that is not JSON at all, or a JSON value. */
  datatype Request = Malformed | Body(json: Json)

  /** `POST`: 200 after a successful parse, 400 for a schema failure, 500 for anything else thrown. */
  function Post(request: Request, isEmail: string -> bool): (status: int)
    ensures status == 200 <==> request.Body? && Parse(request.json, isEmail).Parsed?
    ensures status == 400 <==> request.Body? && Parse(request.json, isEmail).Rejected?
    ensures status == 500 <==> request.Malformed?
  {
    match request
    case Malformed => 500
    case Body(json) => if Parse(json, isEmail).Parsed? then 200 else 400
  }

  /** A body is answered with 200 exactly when it is an object meeting every key's requirement. */
  lemma PostAcceptsExactlyValid(json: Json, isEmail: string -> bool)
    ensures Post(Body(json), isEmail) == 200 <==> json.JObject? && ContactValid(json.fields, isEmail)
  {
    if json.JObject? {
      SchemaMeansContactValid(json.fields, isEmail);
    }
  }
}

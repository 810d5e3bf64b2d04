/**
 * The contact dialog of components/contact-modal.tsx: the client copy of the schema, the form's
 * default values, the two character counters and the state changes of `onSubmit`. The `fetch`
 * to the route is an outcome passed in; the toast texts are reduced to their variant.
 */
module ContactModal {
  import opened Wrappers
  import opened Strings
  import opened ContactRoute

  /** `formSchema`: the same keys and rules as the route's schema (only the messages differ). */
  const FormSchema: seq<Field> := [
    Field("email", Text(None, None, true), false),
    Field("nombre", Text(Some(2), None, false), false),
    Field("apellido", Text(Some(2), None, false), false),
    Field("motivo", Text(Some(10), Some(300), false), false),
    Field("actividadOcupacion", Text(None, None, false), true),
    Field("provincia", Text(None, None, false), true),
    Field("invirtioBolsa", OneOf(["si", "no"]), true),
    Field("cuentaComitente", Text(None, None, false), true),
    Field("objetivoInversion", Text(None, Some(300), false), true),
    Field("horizonte", Text(None, None, false), true),
    Field("riesgo", OneOf(["bajo", "moderado", "alto"]), false),
    Field("consentimiento", MustBeTrue, false)
  ]

  /** The form's values; `None` is a field left `undefined`. */
  datatype FormValues = FormValues(
    email: Option<string>,
    nombre: Option<string>,
    apellido: Option<string>,
    motivo: Option<string>,
    actividadOcupacion: Option<string>,
    provincia: Option<string>,
    invirtioBolsa: Option<string>,
    cuentaComitente: Option<string>,
    objetivoInversion: Option<string>,
    horizonte: Option<string>,
    riesgo: Option<string>,
    consentimiento: bool)

  /** `defaultValues`: empty texts, consent unticked, the radio and select fields unset. */
  const Defaults := FormValues(Some(""), Some(""), Some(""), Some(""), Some(""), Some(""), None, None, Some(""), None, None, false)

  /** The form's field names. */
  const FormKeys: set<string> := {
    "email", "nombre", "apellido", "motivo", "actividadOcupacion", "provincia", "invirtioBolsa",
    "cuentaComitente", "objetivoInversion", "horizonte", "riesgo", "consentimiento"
  }

  /** The value the form holds under `key`; `None` when it is undefined, which `JSON.stringify` drops. */
  function Entry(v: FormValues, key: string): Option<Json>
  {
    if key == "consentimiento" then Some(JBool(v.consentimiento))
    else
      var text :=
        if key == "email" then v.email
        else if key == "nombre" then v.nombre
        else if key == "apellido" then v.apellido
        else if key == "motivo" then v.motivo
        else if key == "actividadOcupacion" then v.actividadOcupacion
        else if key == "provincia" then v.provincia
        else if key == "invirtioBolsa" then v.invirtioBolsa
        else if key == "cuentaComitente" then v.cuentaComitente
        else if key == "objetivoInversion" then v.objetivoInversion
        else if key == "horizonte" then v.horizonte
        else if key == "riesgo" then v.riesgo
        else None;
      if text.Some? then Some(JString(text.value)) else None
  }

  /** The object the form validates and `JSON.stringify(data)` sends: the schema's keys whose value is defined. */
  function AsObject(v: FormValues): (m: map<string, Json>)
    ensures forall k :: k in m <==> k in FormKeys && Entry(v, k).Some?
    ensures forall k :: k in m ==> m[k] == Entry(v, k).value
  {
    map k | k in FormKeys && Entry(v, k).Some? :: Entry(v, k).value
  }

  /** `zodResolver(formSchema)` lets the values through. */
  predicate ClientAccepts(v: FormValues, isEmail: string -> bool)
  {
    SchemaOk(FormSchema, AsObject(v), isEmail)
  }

  /** Whatever the dialog lets through, the route answers with 200. */
  lemma ClientAcceptedIsServerAccepted(v: FormValues, isEmail: string -> bool)
    requires ClientAccepts(v, isEmail)
    ensures Post(Body(JObject(AsObject(v))), isEmail) == 200
  {
    assert FormSchema == ContactSchema;
  }

  /** The object built from the default values, key by key. */
  lemma DefaultsObject()
    ensures var m := AsObject(Defaults);
      && "email" in m && m["email"] == JString("")
      && "nombre" in m && m["nombre"] == JString("")
      && "apellido" in m && m["apellido"] == JString("")
      && "motivo" in m && m["motivo"] == JString("")
      && "riesgo" !in m
      && "consentimiento" in m && m["consentimiento"] == JBool(false)
  {
  }

  /** The untouched form cannot be sent: names, reason, risk profile and consent are all reported. */
  lemma DefaultsRejected(isEmail: string -> bool)
    ensures !ClientAccepts(Defaults, isEmail)
    ensures var issues := FailingFields(FormSchema, AsObject(Defaults), isEmail);
      "nombre" in issues && "apellido" in issues && "motivo" in issues &&
      "riesgo" in issues && "consentimiento" in issues
  {
    DefaultsObject();
    assert FormSchema == ContactSchema;
    UntouchedReported(AsObject(Defaults), isEmail);
  }

  /** An object shaped like the untouched form has its empty or unset required keys reported. */
  lemma UntouchedReported(m: map<string, Json>, isEmail: string -> bool)
    requires "nombre" in m && m["nombre"] == JString("")
    requires "apellido" in m && m["apellido"] == JString("")
    requires "motivo" in m && m["motivo"] == JString("")
    requires "riesgo" !in m
    requires "consentimiento" in m && m["consentimiento"] == JBool(false)
    ensures var issues := FailingFields(ContactSchema, m, isEmail);
      "nombre" in issues && "apellido" in issues && "motivo" in issues &&
      "riesgo" in issues && "consentimiento" in issues
  {
    EmptyTextsReported(m, isEmail);
    UnsetChoicesReported(m, isEmail);
  }

  /** A missing risk profile and unticked consent are reported. */
  lemma UnsetChoicesReported(m: map<string, Json>, isEmail: string -> bool)
    requires "riesgo" !in m
    requires "consentimiento" in m && m["consentimiento"] == JBool(false)
    ensures var issues := FailingFields(ContactSchema, m, isEmail);
      "riesgo" in issues && "consentimiento" in issues
  {
    SchemaEntries();
    RequiredReported(m, isEmail, 10, Field("riesgo", OneOf(["bajo", "moderado", "alto"]), false));
    RequiredReported(m, isEmail, 11, Field("consentimiento", MustBeTrue, false));
  }

  /** Empty names and reason are reported: each needs a minimum length. */
  lemma EmptyTextsReported(m: map<string, Json>, isEmail: string -> bool)
    requires "nombre" in m && m["nombre"] == JString("")
    requires "apellido" in m && m["apellido"] == JString("")
    requires "motivo" in m && m["motivo"] == JString("")
    ensures var issues := FailingFields(ContactSchema, m, isEmail);
      "nombre" in issues && "apellido" in issues && "motivo" in issues
  {
    SchemaEntries();
    RequiredReported(m, isEmail, 1, Field("nombre", Text(Some(2), None, false), false));
    RequiredReported(m, isEmail, 2, Field("apellido", Text(Some(2), None, false), false));
    RequiredReported(m, isEmail, 3, Field("motivo", Text(Some(10), Some(300), false), false));
  }

  /** A key of the schema whose rule the object fails is reported. */
  lemma RequiredReported(m: map<string, Json>, isEmail: string -> bool, k: nat, f: Field)
    requires k < |ContactSchema| && ContactSchema[k] == f && !FieldOk(f, m, isEmail)
    ensures f.name in FailingFields(ContactSchema, m, isEmail)
  {
    FailingAt(m, isEmail, k);
  }

  /** The empty default e-mail is reported exactly when the e-mail check refuses the empty text. */
  lemma DefaultEmailReported(isEmail: string -> bool)
    ensures "email" in FailingFields(FormSchema, AsObject(Defaults), isEmail) <==> !isEmail("")
  {
    DefaultsObject();
    assert FormSchema == ContactSchema;
    EmptyEmailReported(AsObject(Defaults), isEmail);
  }

  /** An empty e-mail text is reported exactly when the e-mail check refuses it. */
  lemma EmptyEmailReported(m: map<string, Json>, isEmail: string -> bool)
    requires "email" in m && m["email"] == JString("")
    ensures "email" in FailingFields(ContactSchema, m, isEmail) <==> !isEmail("")
  {
    var s := ContactSchema;
    assert s[0].name == "email" && (FieldOk(s[0], m, isEmail) <==> isEmail(""));
    FailingAt(m, isEmail, 0);
  }

  /** `form.watch(key)?.length || 0`: the length of the current text, 0 when undefined. */
  function CharCount(v: Option<string>): (n: nat)
    ensures v.None? ==> n == 0
    ensures v.Some? ==> n == Utf16Length(v.value)
  {
    if v.Some? then Utf16Length(v.value) else 0
  }

  /** When the form is accepted, the counters next to "/300" are within their limits. */
  lemma CountersWithinLimits(v: FormValues, isEmail: string -> bool)
    requires ClientAccepts(v, isEmail)
    ensures 10 <= CharCount(v.motivo) <= 300
    ensures CharCount(v.objetivoInversion) <= 300
  {
    var m := AsObject(v);
    SchemaMeansContactValid(m, isEmail);
    assert FormSchema == ContactSchema;
    assert m["motivo"] == JString(v.motivo.value);
    if v.objetivoInversion.Some? {
      assert m["objetivoInversion"] == JString(v.objetivoInversion.value);
    }
  }

  /** Both counters start at 0. */
  lemma CountersStartAtZero()
    ensures CharCount(Defaults.motivo) == 0 && CharCount(Defaults.objetivoInversion) == 0
  {
  }

  /** The toast shown after a submission: the success message or the destructive error. */
  datatype Toast = Success | Destructive

  /** How the `fetch` ended: a response with its status, or a thrown error. */
  datatype Outcome = Responded(status: int) | Threw

  /** `response.ok`. */
  predicate IsOk(o: Outcome)
  {
    o.Responded? && 200 <= o.status <= 299
  }

  /** The dialog's state: open flag, submitting flag, the form values and the last toast. */
  class ContactForm {
    var isOpen: bool
    var isSubmitting: bool
    var values: FormValues
    var lastToast: Option<Toast>

    constructor ()
      ensures !isOpen && !isSubmitting && values == Defaults && lastToast == None
    {
      isOpen := false;
      isSubmitting := false;
      values := Defaults;
      lastToast := None;
    }

    /** `onOpenChange={setIsOpen}`. */
    method SetOpen(open: bool)
      modifies this
      ensures isOpen == open
      ensures isSubmitting == old(isSubmitting) && values == old(values) && lastToast == old(lastToast)
    {
      isOpen := open;
    }

    /** A change to any input of the form. */
    method Edit(v: FormValues)
      modifies this
      ensures values == v
      ensures isOpen == old(isOpen) && isSubmitting == old(isSubmitting) && lastToast == old(lastToast)
    {
      values := v;
    }

    /**
     * `form.handleSubmit(onSubmit)` up to the request: invalid values stop it with nothing else
     * changed, valid ones set `isSubmitting`.
     */
    method BeginSubmit(isEmail: string -> bool) returns (started: bool)
      modifies this
      ensures started <==> ClientAccepts(old(values), isEmail)
      ensures started ==> isSubmitting
      ensures !started ==> isSubmitting == old(isSubmitting)
      ensures isOpen == old(isOpen) && values == old(values) && lastToast == old(lastToast)
    {
      started := ClientAccepts(values, isEmail);
      if started {
        isSubmitting := true;
      }
    }

    /**
     * The rest of `onSubmit` once the request has ended: an ok response shows the success toast,
     * resets the form and closes the dialog; anything else shows the destructive toast and keeps
     * the dialog and the values. `isSubmitting` is cleared either way.
     */
    method CompleteSubmit(outcome: Outcome)
      modifies this
      ensures !isSubmitting
      ensures IsOk(outcome) ==> lastToast == Some(Success) && values == Defaults && !isOpen
      ensures !IsOk(outcome) ==>
        lastToast == Some(Destructive) && values == old(values) && isOpen == old(isOpen)
    {
      if IsOk(outcome) {
        lastToast := Some(Success);
        values := Defaults;
        isOpen := false;
      } else {
        lastToast := Some(Destructive);
      }
      isSubmitting := false;
    }

    /** A whole submission of accepted values against the route: the dialog closes with the form reset. */
    method SubmitToRoute(isEmail: string -> bool)
      modifies this
      ensures ClientAccepts(old(values), isEmail) ==> !isSubmitting
      ensures ClientAccepts(old(values), isEmail) ==> values == Defaults && !isOpen && lastToast == Some(Success)
      ensures !ClientAccepts(old(values), isEmail) ==>
        values == old(values) && isOpen == old(isOpen) && lastToast == old(lastToast) && isSubmitting == old(isSubmitting)
    {
      var sent := values;
      var started := BeginSubmit(isEmail);
      if started {
        var status := Post(Body(JObject(AsObject(sent))), isEmail);
        ClientAcceptedIsServerAccepted(sent, isEmail);
        assert IsOk(Responded(status));
        CompleteSubmit(Responded(status));
      }
    }
  }
}

/**
 * The shape of an application submission: the ordered list of required
 * fields, the record the endpoint validates into, and the empty form the
 * page starts from (src/lib/applicationForm.ts).
 */
module ApplicationForm {
  import opened Wrappers
  import opened JsValues

  /** The four fields every application must fill in. */
  datatype Field = FullName | Age | Instagram | Email

  /** The property name of a required field in the submitted JSON object. */
  function FieldName(f: Field): string
  {
    match f
    case FullName => "fullName"
    case Age => "age"
    case Instagram => "instagram"
    case Email => "email"
  }

  /** APPLICATION_FORM_FIELDS: the required fields, in the order they are checked. */
  const ApplicationFormFields: seq<Field> := [FullName, Age, Instagram, Email]

  /**
   * ApplicationFormData: four mandatory strings, and the optional `onlyfans`,
   * `honeypot` and `turnstileToken` strings and `renderedAt` number.
   */
  datatype ApplicationFormData = ApplicationFormData(
    fullName: string,
    age: string,
    instagram: string,
    email: string,
    onlyfans: Option<string>,
    honeypot: Option<string>,
    renderedAt: Option<Number>,
    turnstileToken: Option<string>)

  /** initialFormData: the six string fields, each "", and no renderedAt or turnstileToken. */
  const InitialFormData: ApplicationFormData :=
    ApplicationFormData("", "", "", "", Some(""), Some(""), None, None)

  /**
   * The object `JSON.stringify` sends for a form record: an absent optional
   * field is left out, and a number that is not finite is written as `null`.
   */
  function ToJson(d: ApplicationFormData): Json
  {
    var required := map[
      "fullName" := JString(d.fullName), "age" := JString(d.age),
      "instagram" := JString(d.instagram), "email" := JString(d.email)];
    var withOnlyfans := if d.onlyfans.Some? then required["onlyfans" := JString(d.onlyfans.value)] else required;
    var withHoneypot := if d.honeypot.Some? then withOnlyfans["honeypot" := JString(d.honeypot.value)] else withOnlyfans;
    var withRendered := match d.renderedAt
      case Some(Finite(v)) => withHoneypot["renderedAt" := JNumber(Finite(v))]
      case Some(_) => withHoneypot["renderedAt" := JNull]
      case None => withHoneypot;
    var withToken := if d.turnstileToken.Some? then withRendered["turnstileToken" := JString(d.turnstileToken.value)] else withRendered;
    JObject(withToken)
  }

  /** The required fields are fullName, age, instagram and email, in that order, under distinct names. */
  lemma FieldOrder()
    ensures |ApplicationFormFields| == 4
    ensures FieldName(ApplicationFormFields[0]) == "fullName" && FieldName(ApplicationFormFields[1]) == "age"
    ensures FieldName(ApplicationFormFields[2]) == "instagram" && FieldName(ApplicationFormFields[3]) == "email"
    ensures forall f: Field :: f in ApplicationFormFields
    ensures forall i, j :: 0 <= i < j < |ApplicationFormFields| ==> ApplicationFormFields[i] != ApplicationFormFields[j]
  {
    forall f: Field ensures f in ApplicationFormFields {
      match f
      case FullName => assert ApplicationFormFields[0] == f;
      case Age => assert ApplicationFormFields[1] == f;
      case Instagram => assert ApplicationFormFields[2] == f;
      case Email => assert ApplicationFormFields[3] == f;
    }
  }

  /** Distinct required fields have distinct property names. */
  lemma FieldNameInjective(f: Field, g: Field)
    requires FieldName(f) == FieldName(g)
    ensures f == g
  {
  }

  /** The empty form as sent: exactly the six string fields, each "", and nothing else. */
  lemma InitialFormDataFields()
    ensures ToJson(InitialFormData).JObject?
    ensures ToJson(InitialFormData).fields.Keys == {"fullName", "age", "instagram", "email", "onlyfans", "honeypot"}
    ensures forall k :: k in ToJson(InitialFormData).fields ==> ToJson(InitialFormData).fields[k] == JString("")
  {
  }

  /** The serialized record carries each present field under its own name. */
  lemma ToJsonFields(d: ApplicationFormData)
    ensures ToJson(d).JObject?
    ensures var m := ToJson(d).fields;
      && m["fullName"] == JString(d.fullName) && m["age"] == JString(d.age)
      && m["instagram"] == JString(d.instagram) && m["email"] == JString(d.email)
      && ("onlyfans" in m <==> d.onlyfans.Some?) && (d.onlyfans.Some? ==> m["onlyfans"] == JString(d.onlyfans.value))
      && ("honeypot" in m <==> d.honeypot.Some?) && (d.honeypot.Some? ==> m["honeypot"] == JString(d.honeypot.value))
      && ("renderedAt" in m <==> d.renderedAt.Some?)
      && (d.renderedAt.Some? && d.renderedAt.value.Finite? ==> m["renderedAt"] == JNumber(d.renderedAt.value))
      && ("turnstileToken" in m <==> d.turnstileToken.Some?)
      && (d.turnstileToken.Some? ==> m["turnstileToken"] == JString(d.turnstileToken.value))
  {
    KeysDiffer();
  }

  /** The eight property names are pairwise distinct: they start with different letters. */
  lemma KeysDiffer()
    ensures var keys := ["fullName", "age", "instagram", "email", "onlyfans", "honeypot", "renderedAt", "turnstileToken"];
      forall i, j :: 0 <= i < j < |keys| ==> keys[i] != keys[j]
  {
    var keys := ["fullName", "age", "instagram", "email", "onlyfans", "honeypot", "renderedAt", "turnstileToken"];
    forall i, j | 0 <= i < j < |keys| ensures keys[i] != keys[j] {
      assert keys[i][0] != keys[j][0];
    }
  }
}

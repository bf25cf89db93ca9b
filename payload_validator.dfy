/**
 * `validatePayload`: turns the parsed request body into trimmed application
 * data, or rejects it with the reason of the first rule it breaks.
 */
module PayloadValidator {
  import opened Wrappers
  import opened JsValues
  import opened ApplicationForm
  import opened EmailShape

  const MaxNameLength := 120
  const MinAge := 18.0
  const MaxAge := 99.0
  const MaxInstagramLength := 60
  const MaxEmailLength := 254
  const MaxOnlyfansLength := 60

  /** `typeof obj[key] === "string" ? obj[key] : ""`: a missing or non-string field reads as "". */
  function StringField(raw: Json, key: string): string
  {
    match Property(raw, key)
    case Some(JString(s)) => s
    case _ => ""
  }

  /** The values read from the body before any rule is checked. */
  datatype Fields = Fields(
    fullName: string, age: string, instagram: string, email: string,
    onlyfans: string, honeypot: string,
    renderedAt: Option<Number>, turnstileToken: Option<string>)

  /**
   * Reads the body defensively: the five visible strings trimmed, the honeypot
   * as sent, renderedAt only if it is a number and turnstileToken only if it
   * is a string.
   */
  function ReadFields(raw: Json): Fields
  {
    Fields(
      Trim(StringField(raw, "fullName")),
      Trim(StringField(raw, "age")),
      Trim(StringField(raw, "instagram")),
      Trim(StringField(raw, "email")),
      Trim(StringField(raw, "onlyfans")),
      StringField(raw, "honeypot"),
      match Property(raw, "renderedAt") case Some(JNumber(n)) => Some(n) case _ => None,
      match Property(raw, "turnstileToken") case Some(JString(t)) => Some(t) case _ => None)
  }

  /** The value read for one of the required fields. */
  function RequiredValue(f: Fields, field: Field): string
  {
    match field
    case FullName => f.fullName
    case Age => f.age
    case Instagram => f.instagram
    case Email => f.email
  }

  /** A required field counts as missing when it is empty once trimmed. */
  predicate Missing(f: Fields, field: Field)
  {
    Trim(RequiredValue(f, field)) == []
  }

  /**
   * The loop over the required fields: the position, in list order, of the
   * first one that is missing, or the length of the list when none is.
   */
  function FirstMissing(f: Fields, order: seq<Field>): (i: nat)
    ensures i <= |order|
    ensures forall j :: 0 <= j < i ==> !Missing(f, order[j])
    ensures i < |order| ==> Missing(f, order[i])
  {
    if order == [] then 0
    else if Missing(f, order[0]) then 0
    else 1 + FirstMissing(f, order[1..])
  }

  /** `Number(age)` is finite and lies in [18, 99]; fractions such as "18.5" are let through. */
  predicate AgeAccepted(age: string)
  {
    var n := ToNumber(age);
    n.Finite? && MinAge <= n.value <= MaxAge
  }

  /** validatePayload: the rules in source order, the first one broken giving the reason. */
  function ValidatePayload(raw: Json): Result<ApplicationFormData, string>
  {
    if !IsObject(raw) then Err("Invalid payload")
    else
      var f := ReadFields(raw);
      var missing := FirstMissing(f, ApplicationFormFields);
      if missing < |ApplicationFormFields| then Err("Missing " + FieldName(ApplicationFormFields[missing]))
      else
        // The emptiness tests below repeat the ones of the loop and never fire (see InvalidNameMeansTooLong,
        // InvalidInstagramMeansTooLong and InvalidEmailMeansTooLongOrMalformed).
        if f.fullName == [] || Utf16Length(f.fullName) > MaxNameLength then Err("Invalid name")
        else if !AgeAccepted(f.age) then Err("Invalid age")
        else if f.instagram == [] || Utf16Length(f.instagram) > MaxInstagramLength then Err("Invalid instagram")
        else if f.email == [] || Utf16Length(f.email) > MaxEmailLength || !IsEmail(f.email) then Err("Invalid email")
        else if f.onlyfans != [] && Utf16Length(f.onlyfans) > MaxOnlyfansLength then Err("Invalid onlyfans")
        else if f.honeypot != [] then Err("Bot")
        else Ok(ApplicationFormData(
          f.fullName, f.age, f.instagram, f.email, Some(f.onlyfans), Some(f.honeypot),
          f.renderedAt, f.turnstileToken))
  }

  /**
   * Every rule except the honeypot: the required fields present and each
   * field within its length and shape bounds, the e-mail stated as the
   * regular expression itself.
   */
  ghost predicate FieldsWellFormed(f: Fields)
  {
    && f.fullName != [] && f.age != [] && f.instagram != [] && f.email != []
    && Utf16Length(f.fullName) <= MaxNameLength
    && AgeAccepted(f.age)
    && Utf16Length(f.instagram) <= MaxInstagramLength
    && Utf16Length(f.email) <= MaxEmailLength && EmailPattern(f.email)
    && (f.onlyfans == [] || Utf16Length(f.onlyfans) <= MaxOnlyfansLength)
  }

  /** A valid submission: an object whose fields are well formed and whose honeypot is empty. */
  ghost predicate Acceptable(raw: Json)
  {
    IsObject(raw) && FieldsWellFormed(ReadFields(raw)) && ReadFields(raw).honeypot == []
  }

  /** The read values are trimmed already, so "missing" means plain empty. */
  lemma MissingMeansEmpty(raw: Json, field: Field)
    ensures Missing(ReadFields(raw), field) <==> RequiredValue(ReadFields(raw), field) == []
  {
    var f := ReadFields(raw);
    match field
    case FullName => TrimIdempotent(StringField(raw, "fullName"));
    case Age => TrimIdempotent(StringField(raw, "age"));
    case Instagram => TrimIdempotent(StringField(raw, "instagram"));
    case Email => TrimIdempotent(StringField(raw, "email"));
  }

  /** The loop over the four required fields, unrolled. */
  lemma FirstMissingUnrolled(f: Fields)
    ensures FirstMissing(f, ApplicationFormFields) ==
      if Missing(f, FullName) then 0
      else if Missing(f, Age) then 1
      else if Missing(f, Instagram) then 2
      else if Missing(f, Email) then 3
      else 4
  {
    var o1: seq<Field> := [Age, Instagram, Email];
    var o2: seq<Field> := [Instagram, Email];
    var o3: seq<Field> := [Email];
    assert ApplicationFormFields[1..] == o1 && o1[1..] == o2 && o2[1..] == o3 && o3[1..] == [];
    assert FirstMissing(f, o3) == if Missing(f, Email) then 0 else 1;
    assert FirstMissing(f, o2) == if Missing(f, Instagram) then 0 else 1 + FirstMissing(f, o3);
    assert FirstMissing(f, o1) == if Missing(f, Age) then 0 else 1 + FirstMissing(f, o2);
  }

  /** No required field is missing exactly when all four are non-empty. */
  lemma NoneMissing(raw: Json)
    ensures var f := ReadFields(raw);
      FirstMissing(f, ApplicationFormFields) == |ApplicationFormFields|
      <==> f.fullName != [] && f.age != [] && f.instagram != [] && f.email != []
  {
    FirstMissingUnrolled(ReadFields(raw));
    MissingMeansEmpty(raw, FullName);
    MissingMeansEmpty(raw, Age);
    MissingMeansEmpty(raw, Instagram);
    MissingMeansEmpty(raw, Email);
  }

  /** Error strings of distinct rules differ. */
  lemma MissingIsNotInvalid(field: Field, other: string)
    requires |other| >= 1 && other[0] != 'M'
    ensures "Missing " + FieldName(field) != other
  {
    assert ("Missing " + FieldName(field))[0] == 'M';
  }

  /** Only a non-object (a primitive or null) is rejected as "Invalid payload". */
  lemma InvalidPayloadIffNotObject(raw: Json)
    ensures ValidatePayload(raw) == Err("Invalid payload") <==> !IsObject(raw)
  {
    if IsObject(raw) {
      var missing := FirstMissing(ReadFields(raw), ApplicationFormFields);
      if missing < |ApplicationFormFields| {
        MissingIsNotInvalid(ApplicationFormFields[missing], "Invalid payload");
      } else {
        // Every other reason differs from "Invalid payload" in length.
        assert ValidatePayload(raw).Err? ==> |ValidatePayload(raw).error| != |"Invalid payload"|;
      }
    }
  }

  /** Once every required field is present, no reason starts with "Missing". */
  lemma PresentFieldsNoMissingReason(raw: Json)
    requires IsObject(raw)
    requires FirstMissing(ReadFields(raw), ApplicationFormFields) == |ApplicationFormFields|
    ensures ValidatePayload(raw).Err? ==> ValidatePayload(raw).error[0] != 'M'
  {
  }

  /**
   * "Missing <field>" is reported exactly for the first required field, in
   * the order fullName, age, instagram, email, that is empty after trimming,
   * before any length or shape rule is looked at.
   */
  lemma MissingReportsFirstEmpty(raw: Json, field: Field)
    ensures ValidatePayload(raw) == Err("Missing " + FieldName(field))
      <==> (IsObject(raw) && Missing(ReadFields(raw), field)
        && forall j :: 0 <= j < IndexOf(field) ==> !Missing(ReadFields(raw), ApplicationFormFields[j]))
  {
    var f := ReadFields(raw);
    var reason := "Missing " + FieldName(field);
    assert reason[0] == 'M';
    if IsObject(raw) {
      FirstMissingUnrolled(f);
      var missing := FirstMissing(f, ApplicationFormFields);
      var k := IndexOf(field);
      if missing < |ApplicationFormFields| {
        var other := ApplicationFormFields[missing];
        assert ValidatePayload(raw) == Err("Missing " + FieldName(other));
        if other != field {
          assert "Missing " + FieldName(other) != reason by {
            if FieldName(other) == FieldName(field) { FieldNameInjective(other, field); }
            assert ("Missing " + FieldName(other))[8..] == FieldName(other);
            assert reason[8..] == FieldName(field);
          }
        }
      } else {
        PresentFieldsNoMissingReason(raw);
      }
    }
  }

  /** The position of a required field in the checking order. */
  function IndexOf(field: Field): (i: nat)
    ensures i < |ApplicationFormFields| && ApplicationFormFields[i] == field
  {
    match field
    case FullName => 0
    case Age => 1
    case Instagram => 2
    case Email => 3
  }

  /**
   * The validator accepts exactly the valid submissions, and what it returns
   * is the trimmed fields, the honeypot (then ""), renderedAt if it was a
   * number and turnstileToken if it was a string.
   */
  lemma ValidateAcceptsExactlyValid(raw: Json)
    ensures ValidatePayload(raw).Ok? <==> Acceptable(raw)
    ensures ValidatePayload(raw).Ok? ==> var d := ValidatePayload(raw).value;
      && d.fullName == Trim(StringField(raw, "fullName"))
      && d.age == Trim(StringField(raw, "age"))
      && d.instagram == Trim(StringField(raw, "instagram"))
      && d.email == Trim(StringField(raw, "email"))
      && d.onlyfans == Some(Trim(StringField(raw, "onlyfans")))
      && d.honeypot == Some("")
      && (d.renderedAt.Some? <==> exists n :: Property(raw, "renderedAt") == Some(JNumber(n)))
      && (d.turnstileToken.Some? <==> exists t :: Property(raw, "turnstileToken") == Some(JString(t)))
  {
    ValidateOkIffAcceptable(raw);
    if ValidatePayload(raw).Ok? {
      var f := ReadFields(raw);
      OkIsReadFields(raw);
      if f.renderedAt.Some? { assert Property(raw, "renderedAt") == Some(JNumber(f.renderedAt.value)); }
      if f.turnstileToken.Some? { assert Property(raw, "turnstileToken") == Some(JString(f.turnstileToken.value)); }
    }
  }

  lemma ValidateOkIffAcceptable(raw: Json)
    ensures ValidatePayload(raw).Ok? <==> Acceptable(raw)
  {
    if IsObject(raw) {
      NoneMissing(raw);
      IsEmailMatchesPattern(ReadFields(raw).email);
    }
  }

  lemma OkIsReadFields(raw: Json)
    requires ValidatePayload(raw).Ok?
    ensures var f := ReadFields(raw);
      ValidatePayload(raw).value == ApplicationFormData(
        f.fullName, f.age, f.instagram, f.email, Some(f.onlyfans), Some(f.honeypot), f.renderedAt, f.turnstileToken)
  {
  }

  /** Accepted data meets every bound the source states. */
  lemma AcceptedDataBounds(raw: Json)
    requires ValidatePayload(raw).Ok?
    ensures var d := ValidatePayload(raw).value;
      && 0 < Utf16Length(d.fullName) <= 120
      && ToNumber(d.age).Finite? && 18.0 <= ToNumber(d.age).value <= 99.0
      && 0 < Utf16Length(d.instagram) <= 60
      && 0 < Utf16Length(d.email) <= 254 && EmailPattern(d.email)
      && d.onlyfans.Some? && (d.onlyfans.value == [] || Utf16Length(d.onlyfans.value) <= 60)
  {
    ValidateAcceptsExactlyValid(raw);
  }

  /**
   * "Bot" is the verdict exactly when every other rule passes and the
   * honeypot, untrimmed, is not empty: a single space counts.
   */
  lemma HoneypotRejectsLast(raw: Json)
    ensures ValidatePayload(raw) == Err("Bot")
      <==> IsObject(raw) && FieldsWellFormed(ReadFields(raw)) && ReadFields(raw).honeypot != []
  {
    if IsObject(raw) {
      var f := ReadFields(raw);
      NoneMissing(raw);
      IsEmailMatchesPattern(f.email);
      var missing := FirstMissing(f, ApplicationFormFields);
      if missing < |ApplicationFormFields| {
        MissingIsNotInvalid(ApplicationFormFields[missing], "Bot");
      }
    }
  }

  /** The `!fullName` test is dead: "Invalid name" always means a name over 120 code units. */
  lemma InvalidNameMeansTooLong(raw: Json)
    requires ValidatePayload(raw) == Err("Invalid name")
    ensures Utf16Length(Trim(StringField(raw, "fullName"))) > MaxNameLength
  {
    var f := ReadFields(raw);
    assert IsObject(raw) by { assert |"Invalid name"| != |"Invalid payload"|; }
    var missing := FirstMissing(f, ApplicationFormFields);
    if missing < |ApplicationFormFields| {
      MissingIsNotInvalid(ApplicationFormFields[missing], "Invalid name");
    }
    NoneMissing(raw);
    assert f.fullName != [];
  }

  /** The `!instagram` test is dead: "Invalid instagram" always means an instagram over 60 code units. */
  lemma InvalidInstagramMeansTooLong(raw: Json)
    requires ValidatePayload(raw) == Err("Invalid instagram")
    ensures Utf16Length(Trim(StringField(raw, "instagram"))) > MaxInstagramLength
  {
    var f := ReadFields(raw);
    assert IsObject(raw) by { assert |"Invalid instagram"| != |"Invalid payload"|; }
    var missing := FirstMissing(f, ApplicationFormFields);
    if missing < |ApplicationFormFields| {
      MissingIsNotInvalid(ApplicationFormFields[missing], "Invalid instagram");
    }
    NoneMissing(raw);
    assert f.instagram != [];
  }

  /**
   * The `!email` test is dead: "Invalid email" always means an e-mail over
   * 254 code units or one the regular expression does not match.
   */
  lemma InvalidEmailMeansTooLongOrMalformed(raw: Json)
    requires ValidatePayload(raw) == Err("Invalid email")
    ensures var e := Trim(StringField(raw, "email"));
      Utf16Length(e) > MaxEmailLength || !EmailPattern(e)
  {
    var f := ReadFields(raw);
    assert IsObject(raw) by { assert |"Invalid email"| != |"Invalid payload"|; }
    var missing := FirstMissing(f, ApplicationFormFields);
    if missing < |ApplicationFormFields| {
      MissingIsNotInvalid(ApplicationFormFields[missing], "Invalid email");
    }
    NoneMissing(raw);
    assert f.email != [];
    assert Utf16Length(f.email) > MaxEmailLength || !IsEmail(f.email);
    IsEmailMatchesPattern(f.email);
  }

  /** The verdict depends only on the values read from the body. */
  lemma VerdictFromFields(a: Json, b: Json)
    requires IsObject(a) && IsObject(b) && ReadFields(a) == ReadFields(b)
    ensures ValidatePayload(a) == ValidatePayload(b)
  {
  }

  /** What the validator reads back from a serialized form record. */
  lemma ReadFieldsOfToJson(d: ApplicationFormData)
    requires d.onlyfans.Some? && d.honeypot.Some?
    requires d.renderedAt.None? || d.renderedAt.value.Finite?
    ensures ReadFields(ToJson(d)) == Fields(
      Trim(d.fullName), Trim(d.age), Trim(d.instagram), Trim(d.email), Trim(d.onlyfans.value),
      d.honeypot.value, d.renderedAt, d.turnstileToken)
  {
    ToJsonFields(d);
  }

  /** An accepted verdict is the record of the values read, with an empty honeypot. */
  lemma AcceptedRecord(raw: Json)
    requires ValidatePayload(raw).Ok?
    ensures var f := ReadFields(raw);
      f.honeypot == "" && ValidatePayload(raw).value == ApplicationFormData(
        f.fullName, f.age, f.instagram, f.email, Some(f.onlyfans), Some(f.honeypot),
        f.renderedAt, f.turnstileToken)
  {
  }

  /** Validation is idempotent: the data it accepts, sent again, comes back unchanged. */
  lemma ValidateAcceptedAgain(raw: Json)
    requires ValidatePayload(raw).Ok?
    requires var d := ValidatePayload(raw).value; d.renderedAt.None? || d.renderedAt.value.Finite?
    ensures ValidatePayload(ToJson(ValidatePayload(raw).value)) == ValidatePayload(raw)
  {
    var d := ValidatePayload(raw).value;
    AcceptedRecord(raw);
    ReadFieldsOfToJson(d);
    TrimIdempotent(StringField(raw, "fullName"));
    TrimIdempotent(StringField(raw, "age"));
    TrimIdempotent(StringField(raw, "instagram"));
    TrimIdempotent(StringField(raw, "email"));
    TrimIdempotent(StringField(raw, "onlyfans"));
    VerdictFromFields(ToJson(d), raw);
  }

  /** The untouched empty form is rejected for its first required field. */
  lemma InitialFormDataRejected()
    ensures ValidatePayload(ToJson(InitialFormData)) == Err("Missing fullName")
  {
    var raw := ToJson(InitialFormData);
    ReadFieldsOfToJson(InitialFormData);
    var f := ReadFields(raw);
    assert f.fullName == Trim("") == "";
    FirstMissingUnrolled(f);
    assert FirstMissing(f, ApplicationFormFields) == 0;
    assert ValidatePayload(raw) == Err("Missing " + FieldName(FullName));
    assert "Missing " + FieldName(FullName) == "Missing fullName";
  }

  /** "18", "99" and "18.5" pass the age rule. */
  lemma AgeBoundariesAccepted()
    ensures AgeAccepted("18") && AgeAccepted("99") && AgeAccepted("18.5")
  {
    ToNumberOfDigits("18");
    assert DigitsValue("18", 10) == 18 by { assert "18"[..1] == "1" && "1"[..0] == []; }
    ToNumberOfDigits("99");
    assert DigitsValue("99", 10) == 99 by { assert "99"[..1] == "9" && "9"[..0] == []; }
    ToNumberOfFraction();
  }

  /** "17" and "100" fail the age rule. */
  lemma AgeBoundariesRejected()
    ensures !AgeAccepted("17") && !AgeAccepted("100")
  {
    ToNumberOfDigits("17");
    assert DigitsValue("17", 10) == 17 by { assert "17"[..1] == "1" && "1"[..0] == []; }
    ToNumberOfDigits("100");
    assert DigitsValue("100", 10) == 100 by {
      assert "100"[..2] == "10" && "10"[..1] == "1" && "1"[..0] == [];
    }
  }
}

/**
 * The fixed part of the submit handler: the checks made before the dynamic
 * answers are read, in the order the handler makes them, and the two maps of
 * named form fields that go into the data package.
 */
module Submission {
  import opened Wrappers
  import opened Text

  /** The three contact-consent boxes. */
  datatype Consents = Consents(calls: bool, texts: bool, emails: bool)

  /** The signature as the active tab holds it: a drawing pad (only whether it
      is empty matters here) or a typed name. */
  datatype Signature = Drawn(padEmpty: bool) | Typed(name: string)

  /** Why a submission stopped before the form was sent. */
  datatype Stop =
    | NoConsent        // "Please consent to at least one method of contact to continue."
    | NoSignature      // "Please provide a signature by drawing it." / "... by typing your name."
    | NoService        // "Please select at least one service to continue."
    | StillLoading     // "Form data is still loading. ..."
    | AnswersMissing   // "Please answer all required questions before submitting."

  predicate Consented(c: Consents) {
    c.calls || c.texts || c.emails
  }

  /** A drawn signature is present when the pad is not empty; a typed one when
      the name is not blank. */
  predicate SignaturePresent(s: Signature) {
    match s
    case Drawn(padEmpty) => !padEmpty
    case Typed(name) => Trim(name) != ""
  }

  /** The checks made before the timer is stopped: consent, signature, then a
      service unless this is a waitlist submission. */
  function EarlyStop(c: Consents, s: Signature, services: nat, waitlist: bool): (r: Option<Stop>)
    ensures r.None? <==> Consented(c) && SignaturePresent(s) && (services > 0 || waitlist)
    ensures r == Some(NoConsent) <==> !Consented(c)
    ensures r == Some(NoSignature) <==> Consented(c) && !SignaturePresent(s)
    ensures r == Some(NoService) <==> Consented(c) && SignaturePresent(s) && services == 0 && !waitlist
  {
    if !Consented(c) then Some(NoConsent)
    else if !SignaturePresent(s) then Some(NoSignature)
    else if services == 0 && !waitlist then Some(NoService)
    else None
  }

  /** The whole gate: the early checks, then whether the question sheet is
      loaded, then whether every required answer is given. */
  function Gate(c: Consents, s: Signature, services: nat, waitlist: bool, questions: nat, answersValid: bool): (r: Option<Stop>)
    ensures r.None? <==>
      Consented(c) && SignaturePresent(s) && (services > 0 || waitlist) && questions > 0 && answersValid
    ensures EarlyStop(c, s, services, waitlist).Some? ==> r == EarlyStop(c, s, services, waitlist)
    ensures r == Some(StillLoading) <==> EarlyStop(c, s, services, waitlist).None? && questions == 0
    ensures r == Some(AnswersMissing) <==>
      EarlyStop(c, s, services, waitlist).None? && questions > 0 && !answersValid
  {
    var early := EarlyStop(c, s, services, waitlist);
    if early.Some? then early
    else if questions == 0 then Some(StillLoading)
    else if !answersValid then Some(AnswersMissing)
    else None
  }

  /** The ids of the demographic fields copied into the data package. */
  const DemographicIds: seq<string> := [
    "firstName", "middleName", "lastName", "dob", "gender", "race", "ethnicity", "street",
    "city", "state", "zip", "cell", "home", "email", "ssn", "parentName", "parentRel",
    "parentContact", "school", "grade"]

  /** The ids of the insurance fields copied into the data package. */
  const InsuranceIds: seq<string> := [
    "primaryIns", "primaryPayer", "primaryPlan", "primaryId", "primaryGroup", "primaryPayerId",
    "secondaryIns", "secondaryPlan", "secondaryId", "secondaryGroup", "secondaryPayerId"]

  /** `form[id].value || ''`: an absent or empty value reads as the empty string. */
  function FieldValue(v: Option<string>): (r: string)
    ensures Truthy(v) ==> r == v.value
    ensures !Truthy(v) ==> r == ""
  {
    if Truthy(v) then v.value else ""
  }

  /** The map the `forEach` below builds. */
  function FieldMap(ids: seq<string>, form: map<string, Option<string>>): map<string, string> {
    map id | id in ids && id in form :: FieldValue(form[id])
  }

  /**
   * The `forEach` over a list of ids: every id naming a control of the form
   * (`form` maps a control's id to its value, None when it has none) gets
   * that control's value or ''. Ids the form lacks are left out.
   */
  method GatherFields(ids: seq<string>, form: map<string, Option<string>>) returns (m: map<string, string>)
    ensures m.Keys == set id | id in ids && id in form
    ensures forall id :: id in m ==> m[id] == FieldValue(form[id])
    ensures m == FieldMap(ids, form)
  {
    m := map[];
    var i := 0;
    while i < |ids|
      invariant i <= |ids|
      invariant m.Keys == set id | id in ids[..i] && id in form
      invariant forall id :: id in m ==> m[id] == FieldValue(form[id])
    {
      var id := ids[i];
      if id in form {
        m := m[id := FieldValue(form[id])];
      }
      assert ids[..i + 1] == ids[..i] + [id];
      i := i + 1;
    }
    assert ids[..i] == ids;
  }
}

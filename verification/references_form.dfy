/** The references editor: a reference needs only a full name. */
module ReferencesForm {
  import Editor

  datatype ReferenceDraft = ReferenceDraft(
    fullName: string,
    company: string,
    role: string,
    email: string,
    phone: string)

  const EmptyReference := ReferenceDraft("", "", "", "", "")

  /** Every field of the form is empty. */
  predicate IsBlank(d: ReferenceDraft) {
    d.fullName == "" && d.company == "" && d.role == "" && d.email == "" && d.phone == ""
  }

  /** `handleAdd`: rejected without a full name, accepted with company, role,
      email and phone all empty; an accepted reference is sent as typed and
      the form is cleared. */
  function HandleAdd(d: ReferenceDraft): (s: Editor.Step<ReferenceDraft, ReferenceDraft>)
    ensures s.call.Some? <==> d.fullName != ""
    ensures s.call.Some? ==> s.call.value == d
    ensures s.call.Some? ==> IsBlank(s.draft)
    ensures s.call.None? ==> s.draft == d
  {
    Editor.Submit(d, d.fullName != "", EmptyReference)
  }

  /** Submitting the cleared form again sends nothing. */
  lemma NoDoubleAdd(d: ReferenceDraft)
    ensures HandleAdd(HandleAdd(d).draft).call.None?
  {
  }
}

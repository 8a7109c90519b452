/** The extracurricular activities editor: an activity needs only a title. */
module ExtracurricularForm {
  import Editor

  datatype ActivityDraft = ActivityDraft(
    title: string,
    startDate: string,
    endDate: string,
    description: string)

  const EmptyActivity := ActivityDraft("", "", "", "")

  /** Every field of the form is empty. */
  predicate IsBlank(d: ActivityDraft) {
    d.title == "" && d.startDate == "" && d.endDate == "" && d.description == ""
  }

  /** `handleAdd`: rejected without a title; an accepted activity is sent as
      typed and the form is cleared. */
  function HandleAdd(d: ActivityDraft): (s: Editor.Step<ActivityDraft, ActivityDraft>)
    ensures s.call.Some? <==> d.title != ""
    ensures s.call.Some? ==> s.call.value == d
    ensures s.call.Some? ==> IsBlank(s.draft)
    ensures s.call.None? ==> s.draft == d
  {
    Editor.Submit(d, d.title != "", EmptyActivity)
  }

  /** Submitting the cleared form again sends nothing. */
  lemma NoDoubleAdd(d: ActivityDraft)
    ensures HandleAdd(HandleAdd(d).draft).call.None?
  {
  }
}

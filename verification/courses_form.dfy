/** The courses editor: a course needs only a name to be added. */
module CoursesForm {
  import Editor

  datatype CourseDraft = CourseDraft(
    name: string,
    institution: string,
    startDate: string,
    endDate: string,
    certificateLink: string)

  const EmptyCourse := CourseDraft("", "", "", "", "")

  /** Every field of the form is empty. */
  predicate IsBlank(d: CourseDraft) {
    d.name == "" && d.institution == "" && d.startDate == "" && d.endDate == "" && d.certificateLink == ""
  }

  /** `handleAdd`: rejected without a name, whatever else is filled in; an
      accepted course is sent as typed and the form is cleared. */
  function HandleAdd(d: CourseDraft): (s: Editor.Step<CourseDraft, CourseDraft>)
    ensures s.call.Some? <==> d.name != ""
    ensures s.call.Some? ==> s.call.value == d
    ensures s.call.Some? ==> IsBlank(s.draft)
    ensures s.call.None? ==> s.draft == d
  {
    Editor.Submit(d, d.name != "", EmptyCourse)
  }

  /** The cleared form cannot be submitted, so one course is not added twice
      by submitting again. */
  lemma NoDoubleAdd(d: CourseDraft)
    ensures HandleAdd(HandleAdd(d).draft).call.None?
  {
  }
}

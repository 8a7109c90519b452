/** The work experience editor. Text inputs send one-field partials, the
    "current" switch sends only the flag, and the add handler itself checks
    nothing: the browser's required-field check is what keeps an incomplete
    entry out. */
module ExperienceForm {
  import opened Wrappers
  import opened ResumeStore
  import ProfessionalTemplate

  /** The document and the form's draft, the state a handler changes. */
  datatype State = State(resume: Resume, draft: ExperienceDraft)

  /** The name of a text input, which the handler uses as the partial's key. */
  datatype Key = Company | Position | StartDate | EndDate

  function Get(d: ExperienceDraft, k: Key): string {
    match k
    case Company => d.company
    case Position => d.position
    case StartDate => d.startDate
    case EndDate => d.endDate
  }

  /** `{ ...prev, [name]: value }`. */
  function Set(d: ExperienceDraft, k: Key, value: string): (d': ExperienceDraft)
    ensures Get(d', k) == value
    ensures forall j :: j != k ==> Get(d', j) == Get(d, j)
    ensures d'.current == d.current && d'.description == d.description
  {
    match k
    case Company => d.(company := value)
    case Position => d.(position := value)
    case StartDate => d.(startDate := value)
    case EndDate => d.(endDate := value)
  }

  const NoChange := ExperiencePatch(None, None, None, None, None, None, None)

  function PatchGet(p: ExperiencePatch, k: Key): Option<string> {
    match k
    case Company => p.company
    case Position => p.position
    case StartDate => p.startDate
    case EndDate => p.endDate
  }

  /** `{ [name]: value }`: the partial holding exactly the one key. */
  function OneField(k: Key, value: string): (p: ExperiencePatch)
    ensures p.id.None? && p.current.None? && p.description.None?
    ensures PatchGet(p, k) == Some(value)
    ensures forall j :: j != k ==> PatchGet(p, j).None?
  {
    match k
    case Company => NoChange.(company := Some(value))
    case Position => NoChange.(position := Some(value))
    case StartDate => NoChange.(startDate := Some(value))
    case EndDate => NoChange.(endDate := Some(value))
  }

  /** Merging a one-field partial into an entry sets that field of the entry
      as the draft path sets it in the form. */
  lemma {:induction false} OneFieldMerge(e: Experience, k: Key, value: string)
    ensures MergeExperience(e, OneField(k, value)).id == e.id
    ensures ExperienceFields(MergeExperience(e, OneField(k, value))) == Set(ExperienceFields(e), k, value)
  {
    match k
    case Company =>
    case Position =>
    case StartDate =>
    case EndDate =>
  }

  /** `id` as the handlers test it: present and not the empty string. */
  predicate Given(id: Option<string>) {
    id.Some? && id.value != ""
  }

  /** `handleInputChange`: with an identifier, `updateExperience(id, { [name]:
      value })`; without, the draft's field. */
  function HandleInputChange(s: State, k: Key, value: string, id: Option<string>): (s': State)
    ensures Given(id) ==> s'.draft == s.draft
    ensures Given(id) ==> s'.resume == UpdateExperience(s.resume, id.value, OneField(k, value))
    ensures !Given(id) ==> s'.resume == s.resume
    ensures !Given(id) ==> Get(s'.draft, k) == value
    ensures !Given(id) ==> forall j :: j != k ==> Get(s'.draft, j) == Get(s.draft, j)
    ensures !Given(id) ==> s'.draft.current == s.draft.current && s'.draft.description == s.draft.description
  {
    if Given(id) then s.(resume := UpdateExperience(s.resume, id.value, OneField(k, value)))
    else s.(draft := Set(s.draft, k, value))
  }

  /** An input change on an entry changes that one field of the entries
      carrying the identifier and nothing else in the document. */
  lemma InputChangeOnEntry(s: State, k: Key, value: string, id: string, i: nat)
    requires id != "" && i < |s.resume.experience|
    ensures var e' := HandleInputChange(s, k, value, Some(id)).resume.experience[i];
      var e := s.resume.experience[i];
      e'.id == e.id
      && (e.id == id ==> ExperienceFields(e') == Set(ExperienceFields(e), k, value))
      && (e.id != id ==> e' == e)
  {
    OneFieldMerge(s.resume.experience[i], k, value);
  }

  /** `handleDescriptionChange`: the same two paths for the description. */
  function HandleDescriptionChange(s: State, value: string, id: Option<string>): (s': State)
    ensures Given(id) ==> s'.draft == s.draft
    ensures Given(id) ==> s'.resume == UpdateExperience(s.resume, id.value, NoChange.(description := Some(value)))
    ensures !Given(id) ==> s'.resume == s.resume && s'.draft == s.draft.(description := value)
  {
    if Given(id) then s.(resume := UpdateExperience(s.resume, id.value, NoChange.(description := Some(value))))
    else s.(draft := s.draft.(description := value))
  }

  /** `handleSwitchChange`: only the flag is sent or set; unlike the
      internships editor, switching on does not empty the end date. */
  function HandleSwitchChange(s: State, checked: bool, id: Option<string>): (s': State)
    ensures Given(id) ==> s'.draft == s.draft
    ensures Given(id) ==> s'.resume == UpdateExperience(s.resume, id.value, NoChange.(current := Some(checked)))
    ensures !Given(id) ==> s'.resume == s.resume && s'.draft == s.draft.(current := checked)
  {
    if Given(id) then s.(resume := UpdateExperience(s.resume, id.value, NoChange.(current := Some(checked))))
    else s.(draft := s.draft.(current := checked))
  }

  /** The switch changes the flag of the entries it is about and nothing
      else: end dates in particular survive it, in the document and in the
      draft. */
  lemma SwitchKeepsEndDate(s: State, checked: bool, id: Option<string>, i: nat)
    requires i < |s.resume.experience|
    ensures var s' := HandleSwitchChange(s, checked, id);
      var e, e' := s.resume.experience[i], s'.resume.experience[i];
      && |s'.resume.experience| == |s.resume.experience|
      && e'.endDate == e.endDate && e'.id == e.id && e'.startDate == e.startDate
      && e'.current == (if Given(id) && e.id == id.value then checked else e.current)
      && s'.draft.endDate == s.draft.endDate
  {
  }

  /** Because the end date survives, switching "current" on and off again
      brings back the period the Professional template showed before, and
      while it is on the period ends with "Present". */
  lemma SwitchBackShowsEndAgain(s: State, id: string, i: nat)
    requires id != "" && i < |s.resume.experience|
    requires s.resume.experience[i].id == id && !s.resume.experience[i].current
    ensures var on := HandleSwitchChange(s, true, Some(id));
      var off := HandleSwitchChange(on, false, Some(id));
      && ProfessionalTemplate.ExperiencePeriod(on.resume.experience[i])
         == s.resume.experience[i].startDate + ProfessionalTemplate.Dash + "Present"
      && ProfessionalTemplate.ExperiencePeriod(off.resume.experience[i])
         == ProfessionalTemplate.ExperiencePeriod(s.resume.experience[i])
  {
  }

  const EmptyExperience := ExperienceDraft("", "", "", "", false, "")

  /** `handleAddExperience`: the draft is added under the fresh identifier
      `newId`, whatever it holds, and the form is cleared. */
  function HandleAdd(s: State, newId: string): (s': State)
    ensures |s'.resume.experience| == |s.resume.experience| + 1
    ensures s'.resume.experience[|s.resume.experience|] == WithExperienceId(s.draft, newId)
    ensures s'.resume == AddExperience(s.resume, s.draft, newId)
    ensures s'.draft == ExperienceDraft("", "", "", "", false, "")
  {
    State(AddExperience(s.resume, s.draft, newId), EmptyExperience)
  }

  /** The inputs marked `required`: company, position and start date, and
      the end date unless the switch is on (a disabled input is not
      checked). */
  predicate RequiredFilled(d: ExperienceDraft) {
    d.company != "" && d.position != "" && d.startDate != "" && (d.current || d.endDate != "")
  }

  /** Pressing Add: the browser only dispatches the submit event when every
      required input is filled in. */
  function Submit(s: State, newId: string): (s': State)
    ensures RequiredFilled(s.draft) ==> s' == HandleAdd(s, newId)
    ensures !RequiredFilled(s.draft) ==> s' == s
  {
    if RequiredFilled(s.draft) then HandleAdd(s, newId) else s
  }

  /** An entry added by pressing Add has a company, a position, a start
      date, and an end date unless current; pressing Add again on the cleared
      form adds nothing. */
  lemma SubmittedEntryComplete(s: State, newId: string, againId: string)
    requires RequiredFilled(s.draft)
    ensures var xs := Submit(s, newId).resume.experience;
      |xs| == |s.resume.experience| + 1 && RequiredFilled(ExperienceFields(xs[|xs| - 1]))
    ensures Submit(Submit(s, newId), againId) == Submit(s, newId)
  {
  }

  /** The handler alone has no guard: called on the cleared form it adds an
      entry with every field empty. */
  lemma HandlerAloneAddsBlank(s: State, newId: string, againId: string)
    ensures var xs := HandleAdd(HandleAdd(s, newId), againId).resume.experience;
      |xs| == |s.resume.experience| + 2 && xs[|xs| - 1] == Experience(againId, "", "", "", "", false, "")
  {
  }
}

/** The education editor. Text inputs send one-field partials, the date
    pickers refuse an end before the start and a start after the end, and an
    entry is only added once both dates are chosen. */
module EducationForm {
  import opened Wrappers
  import Sequences
  import opened Dates
  import opened ResumeStore

  /** The document and the form's draft, the state a handler changes. */
  datatype State = State(resume: Resume, draft: EducationDraft)

  /** The name of an input, which the handler uses as the partial's key. */
  datatype Key = Institution | Degree | FieldOfStudy | StartDate | EndDate | Description

  function Get(d: EducationDraft, k: Key): string {
    match k
    case Institution => d.institution
    case Degree => d.degree
    case FieldOfStudy => d.field
    case StartDate => d.startDate
    case EndDate => d.endDate
    case Description => d.description
  }

  /** `{ ...prev, [name]: value }`. */
  function Set(d: EducationDraft, k: Key, value: string): (d': EducationDraft)
    ensures Get(d', k) == value
    ensures forall j :: j != k ==> Get(d', j) == Get(d, j)
  {
    match k
    case Institution => d.(institution := value)
    case Degree => d.(degree := value)
    case FieldOfStudy => d.(field := value)
    case StartDate => d.(startDate := value)
    case EndDate => d.(endDate := value)
    case Description => d.(description := value)
  }

  function PatchGet(p: EducationPatch, k: Key): Option<string> {
    match k
    case Institution => p.institution
    case Degree => p.degree
    case FieldOfStudy => p.field
    case StartDate => p.startDate
    case EndDate => p.endDate
    case Description => p.description
  }

  /** `{ [name]: value }`: the partial holding exactly the one key. */
  function OneField(k: Key, value: string): (p: EducationPatch)
    ensures p.id.None?
    ensures PatchGet(p, k) == Some(value)
    ensures forall j :: j != k ==> PatchGet(p, j).None?
  {
    var none := EducationPatch(None, None, None, None, None, None, None);
    match k
    case Institution => none.(institution := Some(value))
    case Degree => none.(degree := Some(value))
    case FieldOfStudy => none.(field := Some(value))
    case StartDate => none.(startDate := Some(value))
    case EndDate => none.(endDate := Some(value))
    case Description => none.(description := Some(value))
  }

  /** Merging a one-field partial into an entry sets that field of the entry
      as the draft path sets it in the form: both paths of a handler edit the
      same way. */
  lemma {:induction false} OneFieldMerge(e: Education, k: Key, value: string)
    ensures MergeEducation(e, OneField(k, value)).id == e.id
    ensures EducationFields(MergeEducation(e, OneField(k, value))) == Set(EducationFields(e), k, value)
  {
    match k
    case Institution =>
    case Degree =>
    case FieldOfStudy =>
    case StartDate =>
    case EndDate =>
    case Description =>
  }

  /** `id` as the handlers test it: present and not the empty string. */
  predicate Given(id: Option<string>) {
    id.Some? && id.value != ""
  }

  /** `handleInputChange` and `handleDescriptionChange`: with an identifier,
      `updateEducation(id, { [name]: value })`; without, the draft's field. */
  function HandleInputChange(s: State, k: Key, value: string, id: Option<string>): (s': State)
    ensures Given(id) ==> s'.draft == s.draft
    ensures Given(id) ==> s'.resume == UpdateEducation(s.resume, id.value, OneField(k, value))
    ensures !Given(id) ==> s'.resume == s.resume
    ensures !Given(id) ==> Get(s'.draft, k) == value
    ensures !Given(id) ==> forall j :: j != k ==> Get(s'.draft, j) == Get(s.draft, j)
  {
    if Given(id) then s.(resume := UpdateEducation(s.resume, id.value, OneField(k, value)))
    else s.(draft := Set(s.draft, k, value))
  }

  /** An input change on an entry changes that one field of the entries
      carrying the identifier and nothing else in the document. */
  lemma InputChangeOnEntry(s: State, k: Key, value: string, id: string, i: nat)
    requires id != "" && i < |s.resume.education|
    ensures var e' := HandleInputChange(s, k, value, Some(id)).resume.education[i];
      var e := s.resume.education[i];
      e'.id == e.id
      && (e.id == id ==> EducationFields(e') == Set(EducationFields(e), k, value))
      && (e.id != id ==> e' == e)
  {
    OneFieldMerge(s.resume.education[i], k, value);
  }

  /** Which date a picker sets. */
  datatype DateKey = Start | End

  function DateField(f: DateKey): Key {
    match f
    case Start => StartDate
    case End => EndDate
  }

  /** The guard of `handleDateChange`, on the dates already held by the entry
      or draft: an end date earlier than a set start is refused, and so is a
      start date later than a set end. */
  predicate Refused(codec: DateCodec, held: EducationDraft, f: DateKey, d: Instant) {
    match f
    case End => held.startDate != "" && StoredAfter(codec, held.startDate, d)
    case Start => held.endDate != "" && StoredBefore(codec, held.endDate, d)
  }

  /** `handleDateChange`. Without a date nothing happens. With an identifier,
      the first entry carrying it is checked (an unknown identifier is not),
      and unless refused `updateEducation(id, { [field]: date })` is sent;
      without an identifier the draft is checked and, unless refused, set. */
  function HandleDateChange(codec: DateCodec, s: State, date: Option<Instant>, f: DateKey, id: Option<string>)
    : (s': State)
    ensures date.None? ==> s' == s
    ensures Given(id) ==> s'.draft == s.draft
    ensures !Given(id) ==> s'.resume == s.resume
    ensures date.Some? && !Given(id) ==>
      (Refused(codec, s.draft, f, date.value) ==> s' == s)
      && (!Refused(codec, s.draft, f, date.value) ==>
            s'.draft == Set(s.draft, DateField(f), codec.show(date.value)))
    ensures date.Some? && Given(id) ==>
      var found := Sequences.Find(s.resume.education, (e: Education) => e.id == id.value);
      (found.Some? && Refused(codec, EducationFields(found.value), f, date.value) ==> s' == s)
      && (!(found.Some? && Refused(codec, EducationFields(found.value), f, date.value)) ==>
            s'.resume == UpdateEducation(s.resume, id.value, OneField(DateField(f), codec.show(date.value))))
  {
    match date
    case None => s
    case Some(d) =>
      if Given(id) then
        match Sequences.Find(s.resume.education, (e: Education) => e.id == id.value)
        case Some(e) =>
          if Refused(codec, EducationFields(e), f, d) then s
          else s.(resume := UpdateEducation(s.resume, id.value, OneField(DateField(f), codec.show(d))))
        case None =>
          s.(resume := UpdateEducation(s.resume, id.value, OneField(DateField(f), codec.show(d))))
      else if Refused(codec, s.draft, f, d) then s
      else s.(draft := Set(s.draft, DateField(f), codec.show(d)))
  }

  /** What the guard promises: a date the pickers accept leaves the start and
      end of the draft in order, whatever they were before, provided the
      picked date reads back as itself. Equal start and end dates are
      accepted. */
  lemma {:induction false} AcceptedDateKeepsOrder(codec: DateCodec, held: EducationDraft, f: DateKey, d: Instant)
    requires RoundTrips(codec, d)
    requires !Refused(codec, held, f, d)
    ensures var h := Set(held, DateField(f), codec.show(d)); InOrder(codec, h.startDate, h.endDate)
  {
    var h := Set(held, DateField(f), codec.show(d));
    assert codec.parse(codec.show(d)) == Some(d);
    match f
    case Start =>
      assert h.startDate == codec.show(d) && h.endDate == held.endDate;
    case End =>
      assert h.endDate == codec.show(d) && h.startDate == held.startDate;
  }

  /** A date equal to the one already held on the other side is never
      refused. */
  lemma EqualDatesAccepted(codec: DateCodec, held: EducationDraft, d: Instant)
    ensures codec.parse(held.startDate) == Some(d) ==> !Refused(codec, held, End, d)
    ensures codec.parse(held.endDate) == Some(d) ==> !Refused(codec, held, Start, d)
  {
  }

  /** In the entry path, when identifiers are unique, the guard checks the
      entry being changed, and a date it accepts keeps that entry's dates in
      order. */
  lemma {:induction false} AcceptedEntryDateKeepsOrder(codec: DateCodec, s: State, d: Instant, f: DateKey, id: string, i: nat)
    requires RoundTrips(codec, d)
    requires id != "" && UniqueKeys(s.resume.education, EducationId)
    requires i < |s.resume.education| && s.resume.education[i].id == id
    requires !Refused(codec, EducationFields(s.resume.education[i]), f, d)
    ensures var e := HandleDateChange(codec, s, Some(d), f, Some(id)).resume.education[i];
      InOrder(codec, e.startDate, e.endDate)
  {
    var xs := s.resume.education;
    var found := Sequences.Find(xs, (e: Education) => e.id == id);
    assert found.Some?;
    var k :| 0 <= k < |xs| && xs[k] == found.value && forall j :: 0 <= j < k ==> xs[j].id != id;
    assert k == i;
    AcceptedDateKeepsOrder(codec, EducationFields(xs[i]), f, d);
    OneFieldMerge(xs[i], DateField(f), codec.show(d));
  }

  const EmptyEducation := EducationDraft("", "", "", "", "", "")

  /** `handleAddEducation`: both dates must be chosen; then the draft is
      added under the fresh identifier `newId` and the form is cleared. */
  function HandleAdd(s: State, newId: string): (s': State)
    ensures s.draft.startDate == "" || s.draft.endDate == "" ==> s' == s
    ensures s.draft.startDate != "" && s.draft.endDate != "" ==>
      s'.resume == AddEducation(s.resume, s.draft, newId)
      && s'.draft == EducationDraft("", "", "", "", "", "")
  {
    if s.draft.startDate == "" || s.draft.endDate == "" then s
    else State(AddEducation(s.resume, s.draft, newId), EmptyEducation)
  }

  /** The inputs marked `required`: institution, degree and field of study. */
  predicate RequiredFilled(d: EducationDraft) {
    d.institution != "" && d.degree != "" && d.field != ""
  }

  /** Pressing Add: the browser dispatches the submit event only when the
      required inputs are filled in, and the handler then insists on both
      dates. */
  function Submit(s: State, newId: string): (s': State)
    ensures !RequiredFilled(s.draft) ==> s' == s
    ensures RequiredFilled(s.draft) ==> s' == HandleAdd(s, newId)
  {
    if RequiredFilled(s.draft) then HandleAdd(s, newId) else s
  }

  /** An entry added by pressing Add has every required field and both
      dates; pressing Add again on the cleared form adds nothing. */
  lemma SubmittedEntryComplete(s: State, newId: string, againId: string)
    requires RequiredFilled(s.draft) && s.draft.startDate != "" && s.draft.endDate != ""
    ensures var xs := Submit(s, newId).resume.education;
      && |xs| == |s.resume.education| + 1
      && RequiredFilled(EducationFields(xs[|xs| - 1]))
      && xs[|xs| - 1].startDate != "" && xs[|xs| - 1].endDate != ""
    ensures Submit(Submit(s, newId), againId) == Submit(s, newId)
  {
  }

  /** An entry added through the form has both dates, and they are in order
      if the draft's were; submitting the cleared form again adds nothing. */
  lemma AddedEntryHasDates(codec: DateCodec, s: State, newId: string)
    requires s.draft.startDate != "" && s.draft.endDate != ""
    ensures var xs := HandleAdd(s, newId).resume.education;
      |xs| == |s.resume.education| + 1 && xs[|xs| - 1].startDate != "" && xs[|xs| - 1].endDate != ""
    ensures var xs := HandleAdd(s, newId).resume.education;
      InOrder(codec, s.draft.startDate, s.draft.endDate) ==>
        InOrder(codec, xs[|xs| - 1].startDate, xs[|xs| - 1].endDate)
    ensures HandleAdd(HandleAdd(s, newId), newId) == HandleAdd(s, newId)
  {
  }
}

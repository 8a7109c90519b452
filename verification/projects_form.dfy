/** The projects editor: a project needs a title, and a new start date drops
    an end date that would now come before it. Projects have no "current"
    switch. */
module ProjectsForm {
  import opened Wrappers
  import Sequences
  import Editor
  import opened Dates
  import InternshipsForm

  datatype Project = Project(
    id: string,
    title: string,
    description: string,
    startDate: string,
    endDate: string)

  /** The form's contents; editing a project copies its identifier in. */
  datatype ProjectDraft = ProjectDraft(
    id: Option<string>,
    title: string,
    description: string,
    startDate: string,
    endDate: string)

  const EmptyProject := ProjectDraft(None, "", "", "", "")

  /** The two dates the rules read and write. */
  datatype Span = Span(startDate: string, endDate: string)

  /** `handleAdd`: rejected without a title; an accepted project is sent as
      the form holds it and the form is cleared. */
  function HandleAdd(d: ProjectDraft): (s: Editor.Step<ProjectDraft, ProjectDraft>)
    ensures s.call.Some? <==> d.title != ""
    ensures s.call.Some? ==> s.call.value == d
    ensures s.call.Some? ==> s.draft.title == "" && s.draft.description == "" && s.draft.id.None?
    ensures s.call.Some? ==> s.draft.startDate == "" && s.draft.endDate == ""
    ensures s.call.None? ==> s.draft == d
  {
    Editor.Submit(d, d.title != "", EmptyProject)
  }

  /** A start date picked as `d`: stored as text, and an end date that is set,
      readable and earlier than `d` is dropped. */
  function ChangeStart(codec: DateCodec, p: Span, d: Instant): (p': Span)
    ensures p'.startDate == codec.show(d)
    ensures p'.endDate == p.endDate || p'.endDate == ""
    ensures p'.endDate != p.endDate <==> p.endDate != "" && StoredBefore(codec, p.endDate, d)
  {
    Span(codec.show(d), if p.endDate != "" && StoredBefore(codec, p.endDate, d) then "" else p.endDate)
  }

  /** An end date picked as `d` is always stored, before the start or not. */
  function ChangeEnd(codec: DateCodec, p: Span, d: Instant): (p': Span)
    ensures p'.endDate == codec.show(d) && p'.startDate == p.startDate
  {
    p.(endDate := codec.show(d))
  }

  /** The project rules are the internship rules for an internship that is
      not current. */
  lemma SameAsInternshipNotCurrent(codec: DateCodec, p: Span, d: Instant)
    ensures var q := InternshipsForm.Period(p.startDate, p.endDate, false);
      var s := InternshipsForm.ChangeStart(codec, q, d);
      var e := InternshipsForm.ChangeEnd(codec, q, d);
      ChangeStart(codec, p, d) == Span(s.startDate, s.endDate)
      && ChangeEnd(codec, p, d) == Span(e.startDate, e.endDate)
  {
  }

  /** After a start date is picked, start and end are in order, provided the
      picked date reads back as itself. */
  lemma {:induction false} StartChangeOrders(codec: DateCodec, p: Span, d: Instant)
    requires RoundTrips(codec, d)
    ensures InOrder(codec, ChangeStart(codec, p, d).startDate, ChangeStart(codec, p, d).endDate)
  {
    var q := InternshipsForm.Period(p.startDate, p.endDate, false);
    SameAsInternshipNotCurrent(codec, p, d);
    InternshipsForm.StartChangeOrders(codec, q, d);
  }

  function ChangeDate(codec: DateCodec, p: Span, d: Instant, field: InternshipsForm.DateField): Span {
    match field
    case Start => ChangeStart(codec, p, d)
    case End => ChangeEnd(codec, p, d)
  }

  function EntrySpan(p: Project): Span { Span(p.startDate, p.endDate) }

  function WithEntrySpan(p: Project, s: Span): Project {
    p.(startDate := s.startDate, endDate := s.endDate)
  }

  /** `handleDateChange`: with a non-empty identifier, the project with that
      identifier, if any, is sent to `updateProject` with the rule applied;
      otherwise the rule is applied to the form. No date does nothing. */
  function HandleDateChange(codec: DateCodec, items: seq<Project>, draft: ProjectDraft,
                            date: Option<Instant>, field: InternshipsForm.DateField, id: Option<string>)
    : (s: Editor.Step<Project, ProjectDraft>)
    ensures date.None? ==> s == Editor.Step(None, draft)
    ensures id.Some? && id.value != "" ==> s.draft == draft
    ensures id.Some? && id.value != "" ==>
      (s.call.Some? <==> date.Some? && exists k :: 0 <= k < |items| && items[k].id == id.value)
    ensures s.call.Some? ==> id.Some? && date.Some? && s.call.value.id == id.value
    ensures s.call.Some? ==> exists k :: (0 <= k < |items| && items[k].id == id.value
      && (forall j :: 0 <= j < k ==> items[j].id != id.value)
      && s.call.value == WithEntrySpan(items[k], ChangeDate(codec, EntrySpan(items[k]), date.value, field)))
    ensures (id.None? || id.value == "") ==> s.call.None?
    ensures (id.None? || id.value == "") && date.Some? ==>
      var p := ChangeDate(codec, Span(draft.startDate, draft.endDate), date.value, field);
      s.draft == draft.(startDate := p.startDate, endDate := p.endDate)
  {
    match date
    case None => Editor.Step(None, draft)
    case Some(d) =>
      if id.Some? && id.value != "" then
        match Sequences.Find(items, (p: Project) => p.id == id.value)
        case None => Editor.Step(None, draft)
        case Some(entry) =>
          Editor.Step(Some(WithEntrySpan(entry, ChangeDate(codec, EntrySpan(entry), d, field))), draft)
      else
        var p := ChangeDate(codec, Span(draft.startDate, draft.endDate), d, field);
        Editor.Step(None, draft.(startDate := p.startDate, endDate := p.endDate))
  }

  /** The Edit button: the project is copied into the form, identifier
      included, and its identifier is handed to `removeProject`. */
  function Edit(p: Project): (s: Editor.Step<string, ProjectDraft>)
    ensures s.call == Some(p.id)
    ensures s.draft.id == Some(p.id) && s.draft.title == p.title && s.draft.description == p.description
    ensures s.draft.startDate == p.startDate && s.draft.endDate == p.endDate
  {
    Editor.Step(Some(p.id), ProjectDraft(Some(p.id), p.title, p.description, p.startDate, p.endDate))
  }

  /** Editing a titled project and saving it untouched sends the same record
      back, identifier included. */
  lemma EditThenSave(p: Project)
    requires p.title != ""
    ensures HandleAdd(Edit(p).draft).call == Some(ProjectDraft(Some(p.id), p.title, p.description, p.startDate, p.endDate))
  {
  }
}

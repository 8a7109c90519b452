/** The internships editor: a title and a company are required, a "current"
    internship has no end date, and a new start date drops an end date that
    would now come before it. */
module InternshipsForm {
  import opened Wrappers
  import Sequences
  import Editor
  import opened Dates

  datatype Internship = Internship(
    id: string,
    jobTitle: string,
    company: string,
    startDate: string,
    endDate: string,
    current: bool,
    description: string)

  /** The form's contents. It starts without an identifier; loading an
      internship for editing copies its identifier in as well. */
  datatype InternshipDraft = InternshipDraft(
    id: Option<string>,
    jobTitle: string,
    company: string,
    startDate: string,
    endDate: string,
    current: bool,
    description: string)

  const EmptyInternship := InternshipDraft(None, "", "", "", "", false, "")

  /** The three fields the date rules read and write. */
  datatype Period = Period(startDate: string, endDate: string, current: bool)

  function EntryPeriod(i: Internship): Period {
    Period(i.startDate, i.endDate, i.current)
  }

  function WithEntryPeriod(i: Internship, p: Period): Internship {
    i.(startDate := p.startDate, endDate := p.endDate, current := p.current)
  }

  function DraftPeriod(d: InternshipDraft): Period {
    Period(d.startDate, d.endDate, d.current)
  }

  function WithDraftPeriod(d: InternshipDraft, p: Period): InternshipDraft {
    d.(startDate := p.startDate, endDate := p.endDate, current := p.current)
  }

  /** A current internship shows "Present" and keeps no end date. */
  predicate NoEndWhileCurrent(p: Period) {
    p.current ==> p.endDate == ""
  }

  /** `handleAdd`: rejected unless both the job title and the company are
      filled in; an accepted internship is sent as the form holds it and the
      form is cleared. */
  function HandleAdd(d: InternshipDraft): (s: Editor.Step<InternshipDraft, InternshipDraft>)
    ensures s.call.Some? <==> d.jobTitle != "" && d.company != ""
    ensures s.call.Some? ==> s.call.value == d
    ensures s.call.Some? ==> s.draft.jobTitle == "" && s.draft.company == "" && s.draft.description == ""
    ensures s.call.Some? ==> s.draft.startDate == "" && s.draft.endDate == "" && !s.draft.current
    ensures s.call.None? ==> s.draft == d
  {
    Editor.Submit(d, d.jobTitle != "" && d.company != "", EmptyInternship)
  }

  /** The "I currently work here" switch: switching on empties the end date,
      switching off keeps whatever end date is there. */
  function ToggleCurrent(p: Period, checked: bool): (p': Period)
    ensures p'.current == checked && p'.startDate == p.startDate
    ensures checked ==> p'.endDate == ""
    ensures !checked ==> p'.endDate == p.endDate
  {
    Period(p.startDate, if checked then "" else p.endDate, checked)
  }

  /** A start date picked as `d`: stored as text, and an end date that is set,
      readable and earlier than `d` is dropped unless the internship is
      current. */
  function ChangeStart(codec: DateCodec, p: Period, d: Instant): (p': Period)
    ensures p'.startDate == codec.show(d) && p'.current == p.current
    ensures p'.endDate == p.endDate || p'.endDate == ""
    ensures p'.endDate != p.endDate <==> !p.current && p.endDate != "" && StoredBefore(codec, p.endDate, d)
  {
    var drop := !p.current && p.endDate != "" && StoredBefore(codec, p.endDate, d);
    Period(codec.show(d), if drop then "" else p.endDate, p.current)
  }

  /** An end date picked as `d`: ignored while the internship is current,
      stored otherwise, whether or not it comes after the start. */
  function ChangeEnd(codec: DateCodec, p: Period, d: Instant): (p': Period)
    ensures p.current ==> p' == p
    ensures !p.current ==> p'.endDate == codec.show(d) && p'.startDate == p.startDate && !p'.current
  {
    if p.current then p else p.(endDate := codec.show(d))
  }

  datatype DateField = Start | End

  function ChangeDate(codec: DateCodec, p: Period, d: Instant, field: DateField): Period {
    match field
    case Start => ChangeStart(codec, p, d)
    case End => ChangeEnd(codec, p, d)
  }

  /** The switch and both date pickers keep a current internship free of an
      end date. */
  lemma NoEndWhileCurrentKept(codec: DateCodec, p: Period, d: Instant, checked: bool)
    requires NoEndWhileCurrent(p)
    ensures NoEndWhileCurrent(ToggleCurrent(p, checked))
    ensures NoEndWhileCurrent(ChangeStart(codec, p, d))
    ensures NoEndWhileCurrent(ChangeEnd(codec, p, d))
    ensures NoEndWhileCurrent(DraftPeriod(EmptyInternship))
  {
  }

  /** After a start date is picked, the start and end are in order, provided
      the picked date reads back as itself; a current internship has no end
      to be out of order with. */
  lemma {:induction false} StartChangeOrders(codec: DateCodec, p: Period, d: Instant)
    requires RoundTrips(codec, d)
    requires NoEndWhileCurrent(p)
    ensures InOrder(codec, ChangeStart(codec, p, d).startDate, ChangeStart(codec, p, d).endDate)
  {
    var p' := ChangeStart(codec, p, d);
    if p'.endDate != "" {
      assert !StoredBefore(codec, p.endDate, d);
      assert codec.parse(p'.startDate) == Some(d);
    }
  }

  /** Switching current on and off again loses the end date. */
  lemma ToggleLosesEnd(p: Period)
    ensures ToggleCurrent(ToggleCurrent(p, true), false).endDate == ""
  {
  }

  /** `handleDateChange`. With an identifier, the entry with that identifier,
      if there is one, is sent to `updateInternship` with the rule applied to
      it, even when the rule changes nothing; without one, the rule is applied
      to the form, except that an end date picked while current leaves the
      form alone. An empty identifier counts as none, and no date does
      nothing. */
  function HandleDateChange(codec: DateCodec, items: seq<Internship>, draft: InternshipDraft,
                            date: Option<Instant>, field: DateField, id: Option<string>)
    : (s: Editor.Step<Internship, InternshipDraft>)
    ensures date.None? ==> s == Editor.Step(None, draft)
    ensures id.Some? && id.value != "" ==> s.draft == draft
    ensures id.Some? && id.value != "" ==>
      (s.call.Some? <==> date.Some? && exists k :: 0 <= k < |items| && items[k].id == id.value)
    ensures s.call.Some? ==> id.Some? && date.Some? && s.call.value.id == id.value
    ensures s.call.Some? ==> exists k :: (0 <= k < |items| && items[k].id == id.value
      && (forall j :: 0 <= j < k ==> items[j].id != id.value)
      && s.call.value == WithEntryPeriod(items[k], ChangeDate(codec, EntryPeriod(items[k]), date.value, field)))
    ensures (id.None? || id.value == "") ==> s.call.None?
    ensures (id.None? || id.value == "") && date.Some? ==>
      s.draft == WithDraftPeriod(draft, ChangeDate(codec, DraftPeriod(draft), date.value, field))
  {
    match date
    case None => Editor.Step(None, draft)
    case Some(d) =>
      if id.Some? && id.value != "" then
        match Sequences.Find(items, (i: Internship) => i.id == id.value)
        case None => Editor.Step(None, draft)
        case Some(entry) =>
          Editor.Step(Some(WithEntryPeriod(entry, ChangeDate(codec, EntryPeriod(entry), d, field))), draft)
      else
        Editor.Step(None, WithDraftPeriod(draft, ChangeDate(codec, DraftPeriod(draft), d, field)))
  }

  /** The Edit button: the internship is copied into the form, identifier
      included, and its identifier is handed to `removeInternship`. */
  function Edit(i: Internship): (s: Editor.Step<string, InternshipDraft>)
    ensures s.call == Some(i.id)
    ensures s.draft.id == Some(i.id) && s.draft.jobTitle == i.jobTitle && s.draft.company == i.company
    ensures DraftPeriod(s.draft) == EntryPeriod(i) && s.draft.description == i.description
  {
    Editor.Step(Some(i.id),
      InternshipDraft(Some(i.id), i.jobTitle, i.company, i.startDate, i.endDate, i.current, i.description))
  }

  /** Editing an internship and saving it untouched sends the same record
      back when it has a title and a company. */
  lemma EditThenSave(i: Internship)
    requires i.jobTitle != "" && i.company != ""
    ensures HandleAdd(Edit(i).draft).call == Some(Edit(i).draft)
    ensures HandleAdd(Edit(i).draft).call.value.id == Some(i.id)
  {
  }
}

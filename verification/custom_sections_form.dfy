/** The custom sections editor: naming and renaming sections, adding items
    with a trimmed title, one-field item edits, month pickers that store
    "yyyy-MM", and the label a picker button shows for a stored date. */
module CustomSectionsForm {
  import opened Wrappers
  import Sequences
  import Text
  import Editor
  import CustomSections

  /** The "Add Section" panel: whether it is open, and the name typed so
      far. */
  datatype NameForm = NameForm(open: bool, name: string)

  /** `handleAddSection`: a name that trims to nothing is refused and the
      panel stays as it is; otherwise `addCustomSection` is called with the
      name as typed, untrimmed, and the panel is closed and emptied. */
  function HandleAddSection(f: NameForm): (s: Editor.Step<string, NameForm>)
    ensures s.call.Some? <==> !Text.Blank(f.name)
    ensures s.call.Some? ==> s.call.value == f.name && s.draft == NameForm(false, "")
    ensures s.call.None? ==> s.draft == f
  {
    if Text.Trim(f.name) != "" then Editor.Step(Some(f.name), NameForm(false, ""))
    else Editor.Step(None, f)
  }

  /** A section name is stored with its surrounding white space, and the
      emptied panel refuses a second press. */
  lemma AddedSectionNameUntrimmed(name: string)
    requires !Text.Blank(name)
    ensures var s := HandleAddSection(NameForm(true, name));
      && s.call == Some(name)
      && Text.Trim(s.call.value) != ""
      && HandleAddSection(s.draft).call.None?
  {
  }

  /** The rename state: which section's title is being edited, and the text
      of its input. */
  datatype Renaming = Renaming(editing: Option<string>, name: string)

  /** The edit button: the input starts out holding the section's title. */
  function StartRenaming(section: CustomSections.CustomSection): (r: Renaming)
    ensures r.editing == Some(section.id) && r.name == section.title
  {
    Renaming(Some(section.id), section.title)
  }

  /** `handleUpdateSectionName`: a name that trims to nothing is refused and
      the rename stays open; otherwise `updateCustomSection(sectionId, name)`
      is called with the name as typed and the rename is closed. */
  function HandleUpdateSectionName(sectionId: string, r: Renaming): (s: Editor.Step<(string, string), Renaming>)
    ensures s.call.Some? <==> !Text.Blank(r.name)
    ensures s.call.Some? ==> s.call.value == (sectionId, r.name) && s.draft == Renaming(None, "")
    ensures s.call.None? ==> s.draft == r
  {
    if Text.Trim(r.name) != "" then Editor.Step(Some((sectionId, r.name)), Renaming(None, ""))
    else Editor.Step(None, r)
  }

  /** Opening the rename and saving at once sends the section's own title
      back, so the section keeps its name; a blank title is not sent at
      all. */
  lemma SaveUnchangedKeepsTitle(section: CustomSections.CustomSection)
    ensures var s := HandleUpdateSectionName(section.id, StartRenaming(section));
      && (!Text.Blank(section.title) ==> s.call == Some((section.id, section.title)))
      && (Text.Blank(section.title) ==> s.call.None? && s.draft.editing == Some(section.id))
  {
  }

  /** The fields of a new item as typed. */
  datatype ItemDraft = ItemDraft(title: string, location: string, startDate: string, endDate: string, description: string)

  const EmptyItem := ItemDraft("", "", "", "", "")

  /** The "Add Item" panel: the section it adds to, if open, and the
      draft. */
  datatype ItemForm = ItemForm(addingTo: Option<string>, item: ItemDraft)

  /** `handleAddItem`: a title that trims to nothing is refused and the panel
      is left as it is; otherwise `addCustomSectionItem(sectionId, item)` is
      called with the title trimmed and every other field as typed, and the
      panel is closed and emptied. */
  function HandleAddItem(sectionId: string, f: ItemForm): (s: Editor.Step<(string, ItemDraft), ItemForm>)
    ensures s.call.Some? <==> !Text.Blank(f.item.title)
    ensures s.call.Some? ==> s.call.value.0 == sectionId && s.draft == ItemForm(None, EmptyItem)
    ensures s.call.Some? ==> s.call.value.1 == f.item.(title := Text.Trim(f.item.title))
    ensures s.call.None? ==> s.draft == f
  {
    if Text.Trim(f.item.title) != "" then
      Editor.Step(Some((sectionId, f.item.(title := Text.Trim(f.item.title)))), ItemForm(None, EmptyItem))
    else Editor.Step(None, f)
  }

  /** The item sent carries a title that is not empty and has no outer white
      space, so trimming it again changes nothing; every other field is the
      draft's. Pressing Add again on the emptied panel sends nothing. */
  lemma {:induction false} AddedItemTitleTrimmed(sectionId: string, f: ItemForm)
    requires !Text.Blank(f.item.title)
    ensures var s := HandleAddItem(sectionId, f);
      var sent := s.call.value.1;
      && sent.title != ""
      && Text.Trim(sent.title) == sent.title
      && sent.(title := f.item.title) == f.item
      && HandleAddItem(sectionId, s.draft).call.None?
  {
    Text.TrimIdempotent(f.item.title);
  }

  /** The Cancel button of the item panel closes and empties it. */
  function CancelItem(f: ItemForm): (f': ItemForm)
    ensures f'.addingTo.None? && f'.item == EmptyItem
  {
    ItemForm(None, EmptyItem)
  }

  /** The field name an item input passes to `handleUpdateItem`. */
  datatype ItemField = Title | Location | StartDate | EndDate | Description

  /** A partial item: a present key holds the new value, an absent one is
      left alone. */
  datatype ItemPatch = ItemPatch(
    title: Option<string>,
    location: Option<string>,
    startDate: Option<string>,
    endDate: Option<string>,
    description: Option<string>)

  function PatchGet(p: ItemPatch, k: ItemField): Option<string> {
    match k
    case Title => p.title
    case Location => p.location
    case StartDate => p.startDate
    case EndDate => p.endDate
    case Description => p.description
  }

  /** The keys a partial holds. */
  function Keys(p: ItemPatch): (ks: set<ItemField>)
    ensures forall k :: k in ks <==> PatchGet(p, k).Some?
  {
    set k: ItemField | k in {Title, Location, StartDate, EndDate, Description} && PatchGet(p, k).Some?
  }

  const NoChange := ItemPatch(None, None, None, None, None)

  /** `{ [field]: value }`. */
  function OneItemField(k: ItemField, value: string): (p: ItemPatch)
    ensures PatchGet(p, k) == Some(value)
  {
    match k
    case Title => NoChange.(title := Some(value))
    case Location => NoChange.(location := Some(value))
    case StartDate => NoChange.(startDate := Some(value))
    case EndDate => NoChange.(endDate := Some(value))
    case Description => NoChange.(description := Some(value))
  }

  /** A one-field partial holds exactly the one key, with the value given. */
  lemma {:induction false} OneItemFieldKeys(k: ItemField, value: string)
    ensures Keys(OneItemField(k, value)) == {k}
    ensures PatchGet(OneItemField(k, value), k) == Some(value)
  {
    var p := OneItemField(k, value);
    forall j ensures j in Keys(p) <==> j == k {
      match k
      case Title =>
      case Location =>
      case StartDate =>
      case EndDate =>
      case Description =>
    }
  }

  /** `handleUpdateItem`: `updateCustomSectionItem(sectionId, itemId, { [field]:
      value })`, with no check at all. */
  function HandleUpdateItem(sectionId: string, itemId: string, k: ItemField, value: string)
    : (call: (string, string, ItemPatch))
    ensures call.0 == sectionId && call.1 == itemId
    ensures Keys(call.2) == {k} && PatchGet(call.2, k) == Some(value)
  {
    OneItemFieldKeys(k, value);
    (sectionId, itemId, OneItemField(k, value))
  }

  /** The month a picker reports, as calendar numbers. */
  datatype YearMonth = YearMonth(year: nat, month: nat)

  /** date-fns `format(date, "yyyy-MM")`: the year padded to four digits, a
      dash, the month padded to two. */
  function PickerFormat(ym: YearMonth): (r: string)
  {
    Text.Padded(ym.year, 4) + "-" + Text.Padded(ym.month, 2)
  }

  /** Text with exactly one separator splits into the two sides. */
  lemma {:induction false} SplitTwo(a: string, c: char, b: string)
    requires c !in a && c !in b
    ensures Sequences.Split(a + [c] + b, c) == [a, b]
  {
    Sequences.SplitAtFirst(a, c, b);
    Sequences.SplitNoSeparator(b, c);
  }

  /** A picked month splits at its one dash into the year and the month. */
  lemma {:induction false} PickerFormatSplits(ym: YearMonth)
    ensures Sequences.Split(PickerFormat(ym), '-') == [Text.Padded(ym.year, 4), Text.Padded(ym.month, 2)]
  {
    var y, m := Text.Padded(ym.year, 4), Text.Padded(ym.month, 2);
    Text.DigitsHaveNoDash(y);
    Text.DigitsHaveNoDash(m);
    SplitTwo(y, '-', m);
  }

  /** `handleDateChange`: no date, no call; a date is formatted "yyyy-MM" and
      sent as a one-field partial. */
  function HandleDateChange(sectionId: string, itemId: string, k: ItemField, date: Option<YearMonth>)
    : (call: Option<(string, string, ItemPatch)>)
    ensures call.None? <==> date.None?
    ensures call.Some? ==> call.value.0 == sectionId && call.value.1 == itemId && Keys(call.value.2) == {k}
    ensures call.Some? ==> PatchGet(call.value.2, k) == Some(PickerFormat(date.value))
  {
    match date
    case None => None
    case Some(ym) => Some(HandleUpdateItem(sectionId, itemId, k, PickerFormat(ym)))
  }

  /** Which date of the new item a picker sets. */
  datatype DateKey = Start | End

  /** The pickers of the item panel: `date && setNewItem(...)` sets the
      draft's date to the picked month and leaves everything else alone. */
  function SelectNewItemDate(f: ItemForm, which: DateKey, date: Option<YearMonth>): (f': ItemForm)
    ensures date.None? ==> f' == f
    ensures date.Some? && which == Start ==> f' == f.(item := f.item.(startDate := PickerFormat(date.value)))
    ensures date.Some? && which == End ==> f' == f.(item := f.item.(endDate := PickerFormat(date.value)))
  {
    match date
    case None => f
    case Some(ym) =>
      match which
      case Start => f.(item := f.item.(startDate := PickerFormat(ym)))
      case End => f.(item := f.item.(endDate := PickerFormat(ym)))
  }

  /** `formatDisplayDate` as written: the first two dash-separated pieces,
      swapped around a "/". For text without a dash the second piece is
      `undefined`, and a template literal prints it as "undefined"; the
      `try` never throws, so its fallback is never reached. */
  function FormatDisplayDateAsWritten(date: Option<string>): (r: string)
    ensures !CustomSections.Truthy(date) ==> r == ""
  {
    if !CustomSections.Truthy(date) then ""
    else
      var parts := Sequences.Split(date.value, '-');
      (if |parts| >= 2 then parts[1] else "undefined") + "/" + parts[0]
  }

  /** The written formatter's main case: for "Y-M", or "Y-M-" followed by
      more, the first two pieces are swapped around a "/" and the rest is
      dropped. */
  lemma {:induction false} AsWrittenSwapsYearMonth(y: string, m: string, rest: string)
    requires '-' !in y && '-' !in m && (rest == "" || rest[0] == '-')
    ensures FormatDisplayDateAsWritten(Some(y + "-" + m + rest)) == m + "/" + y
  {
    var tail := m + rest;
    var more := if rest == "" then [] else Sequences.Split(rest[1..], '-');
    var date := y + "-" + m + rest;
    assert date == y + ['-'] + tail;
    MonthPieces(m, rest);
    PiecesAfterYear(y, tail, m, more);
    AsWrittenOfPieces(date, y, m, more);
  }

  /** A dash-free year, a dash, then text whose first piece is the month. */
  lemma PiecesAfterYear(y: string, tail: string, m: string, more: seq<string>)
    requires '-' !in y && Sequences.Split(tail, '-') == [m] + more
    ensures Sequences.Split(y + ['-'] + tail, '-') == [y, m] + more
  {
    Sequences.SplitAtFirst(y, '-', tail);
    PrependTwo(y, m, more);
  }

  lemma PrependTwo(y: string, m: string, more: seq<string>)
    ensures [y] + ([m] + more) == [y, m] + more
  {
    assert ([y] + ([m] + more))[..2] == [y, m];
    assert ([y] + ([m] + more))[2..] == more;
  }

  /** The month piece ends at the next dash, if any. */
  lemma {:induction false} MonthPieces(m: string, rest: string)
    requires '-' !in m && (rest == "" || rest[0] == '-')
    ensures Sequences.Split(m + rest, '-') == [m] + (if rest == "" then [] else Sequences.Split(rest[1..], '-'))
  {
    if rest == "" {
      assert m + rest == m;
      Sequences.SplitNoSeparator(m, '-');
    } else {
      assert m + rest == m + ['-'] + rest[1..];
      Sequences.SplitAtFirst(m, '-', rest[1..]);
    }
  }

  /** The written formatter only looks at the first two pieces. */
  lemma AsWrittenOfPieces(date: string, a: string, b: string, more: seq<string>)
    requires Sequences.Split(date, '-') == [a, b] + more
    ensures FormatDisplayDateAsWritten(Some(date)) == b + "/" + a
  {
    var parts := [a, b] + more;
    assert parts[0] == a && parts[1] == b;
  }

  /** A stored date without a dash, such as "2020", is shown as
      "undefined/2020". */
  lemma {:induction false} DashlessDateShowsUndefined(y: string)
    requires y != "" && '-' !in y
    ensures FormatDisplayDateAsWritten(Some(y)) == "undefined/" + y
  {
    Sequences.SplitNoSeparator(y, '-');
  }

  /** `formatDisplayDate` as its fallback means it: the month and year
      swapped for a date with a dash, and the text itself otherwise. */
  function FormatDisplayDate(date: Option<string>): (r: string)
    ensures !CustomSections.Truthy(date) ==> r == ""
    ensures CustomSections.Truthy(date) && '-' !in date.value ==> r == date.value
  {
    if !CustomSections.Truthy(date) then ""
    else if '-' !in date.value then date.value
    else
      var parts := Sequences.Split(date.value, '-');
      parts[1] + "/" + parts[0]
  }

  /** The corrected label agrees with the written one on every date with a
      dash, and never shows "undefined" for one without. */
  lemma {:induction false} FormatDisplayDateAgrees(date: Option<string>)
    ensures CustomSections.Truthy(date) && '-' in date.value ==>
      FormatDisplayDate(date) == FormatDisplayDateAsWritten(date)
    ensures !(CustomSections.Truthy(date) && '-' in date.value) ==>
      FormatDisplayDate(date) == date.GetOr("")
  {
    if CustomSections.Truthy(date) && '-' in date.value {
      assert multiset(date.value)['-'] >= 1;
    }
  }

  /** A picked month is labelled "MM/YYYY", as the empty button's
      placeholder promises, by the written formatter and the corrected one
      alike. */
  lemma PickedMonthLabel(ym: YearMonth)
    ensures FormatDisplayDateAsWritten(Some(PickerFormat(ym))) == Text.Padded(ym.month, 2) + "/" + Text.Padded(ym.year, 4)
    ensures FormatDisplayDate(Some(PickerFormat(ym))) == Text.Padded(ym.month, 2) + "/" + Text.Padded(ym.year, 4)
  {
    var y, m := Text.Padded(ym.year, 4), Text.Padded(ym.month, 2);
    PickerFormatSplits(ym);
    assert [y, m] == [y, m] + [];
    AsWrittenOfPieces(PickerFormat(ym), y, m, []);
    FormatDisplayDateAgrees(Some(PickerFormat(ym)));
  }

  const DatePlaceholder := "MM/YYYY"

  /** The text of a date picker's button: the date as the written
      formatter shows it, or the placeholder while the date is empty. */
  function DateButtonLabel(date: Option<string>): (r: string)
    ensures !CustomSections.Truthy(date) ==> r == DatePlaceholder
    ensures CustomSections.Truthy(date) ==> r == FormatDisplayDateAsWritten(date)
  {
    if CustomSections.Truthy(date) then FormatDisplayDateAsWritten(date) else DatePlaceholder
  }

  /** The button text with the corrected formatter. */
  function CorrectedDateButtonLabel(date: Option<string>): (r: string)
    ensures !CustomSections.Truthy(date) ==> r == DatePlaceholder
    ensures CustomSections.Truthy(date) ==> r == FormatDisplayDate(date)
  {
    if CustomSections.Truthy(date) then FormatDisplayDate(date) else DatePlaceholder
  }

  /** The two buttons differ only on a stored date without a dash, which
      the written one shows after "undefined/" and the corrected one as it
      is. */
  lemma {:induction false} DateButtonLabelsDiffer(date: Option<string>)
    ensures CustomSections.Truthy(date) && '-' in date.value ==>
      DateButtonLabel(date) == CorrectedDateButtonLabel(date)
    ensures CustomSections.Truthy(date) && '-' !in date.value ==>
      DateButtonLabel(date) == "undefined/" + date.value && CorrectedDateButtonLabel(date) == date.value
    ensures !CustomSections.Truthy(date) ==> DateButtonLabel(date) == CorrectedDateButtonLabel(date) == DatePlaceholder
  {
    FormatDisplayDateAgrees(date);
    if CustomSections.Truthy(date) && '-' !in date.value {
      DashlessDateShowsUndefined(date.value);
    }
  }

  /** The editor and the preview disagree on the order of a picked month:
      the button reads "MM/YYYY", the preview "YYYY/MM". */
  lemma {:induction false} EditorAndPreviewOrder(ym: YearMonth)
    ensures var y, m := Text.Padded(ym.year, 4), Text.Padded(ym.month, 2);
      && DateButtonLabel(Some(PickerFormat(ym))) == m + "/" + y
      && CustomSections.DisplayDate(PickerFormat(ym)) == y + "/" + m
  {
    var y, m := Text.Padded(ym.year, 4), Text.Padded(ym.month, 2);
    PickedMonthLabel(ym);
    Text.DigitsHaveNoDash(y);
    CustomSections.OnlyFirstDashReplaced(y, m);
  }
}

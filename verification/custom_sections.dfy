/** The custom sections of a document and how the preview shows them: every
    section under its title, its items or a placeholder, and for each item a
    date line built from whichever dates are set. */
module CustomSections {
  import opened Wrappers
  import Sequences
  import Text

  /** An item of a custom section. Every field but the identifier and the
      title may be missing from the stored document. */
  datatype CustomItem = CustomItem(
    id: string,
    title: string,
    location: Option<string>,
    startDate: Option<string>,
    endDate: Option<string>,
    description: Option<string>)

  /** A user-named section; its list of items may be missing too. */
  datatype CustomSection = CustomSection(id: string, title: string, items: Option<seq<CustomItem>>)

  /** An optional text as JavaScript tests it: present and not empty. */
  predicate Truthy(o: Option<string>) {
    o.Some? && o.value != ""
  }

  /** `date.replace('-', '/')`: only the first '-' becomes a '/'. */
  function DisplayDate(date: string): (r: string)
    ensures |r| == |date|
    ensures '-' !in date ==> r == date
    ensures '-' in date ==> exists k :: (0 <= k < |date| && date[k] == '-' && '-' !in date[..k]
      && r == date[..k] + "/" + date[k + 1..])
  {
    var r := Text.ReplaceFirst(date, '-', '/');
    if '-' in date then
      var k := Sequences.IndexOf(date, '-').value;
      assert r == date[..k] + "/" + date[k + 1..];
      r
    else r
  }

  /** The date line of an item: the start date, the separator, the end
      date, each shown or not. */
  datatype DateLine = DateLine(from: Option<string>, separator: bool, to: Option<string>)

  /** The dates an item shows, if any. The line appears when either date is
      set; each set date is shown with its first '-' turned into '/'; the
      " - " between them only when both are set. */
  function ItemDates(start: Option<string>, end: Option<string>): (r: Option<DateLine>)
    ensures r.Some? <==> Truthy(start) || Truthy(end)
    ensures r.Some? ==> (r.value.from.Some? <==> Truthy(start)) && (r.value.to.Some? <==> Truthy(end))
    ensures r.Some? ==> (r.value.separator <==> Truthy(start) && Truthy(end))
    ensures r.Some? && r.value.from.Some? ==> r.value.from.value == DisplayDate(start.value)
    ensures r.Some? && r.value.to.Some? ==> r.value.to.value == DisplayDate(end.value)
  {
    if Truthy(start) || Truthy(end) then
      Some(DateLine(
        if Truthy(start) then Some(DisplayDate(start.value)) else None,
        Truthy(start) && Truthy(end),
        if Truthy(end) then Some(DisplayDate(end.value)) else None))
    else None
  }

  /** The text of a date line. */
  function DateText(d: DateLine): string {
    d.from.GetOr("") + (if d.separator then " - " else "") + d.to.GetOr("")
  }

  /** An item as the preview shows it. */
  datatype ItemView = ItemView(
    title: string,
    location: Option<string>,
    dates: Option<DateLine>,
    description: Option<string>)

  /** Each optional part of an item is shown only when set. */
  function RenderItem(item: CustomItem): (v: ItemView)
    ensures v.title == item.title
    ensures v.location.Some? <==> Truthy(item.location)
    ensures v.description.Some? <==> Truthy(item.description)
    ensures v.location.Some? ==> v.location == item.location
    ensures v.description.Some? ==> v.description == item.description
    ensures v.dates == ItemDates(item.startDate, item.endDate)
  {
    ItemView(
      item.title,
      if Truthy(item.location) then item.location else None,
      ItemDates(item.startDate, item.endDate),
      if Truthy(item.description) then item.description else None)
  }

  const PlaceholderText := "No items in this section"

  /** What is shown under a section title. */
  datatype SectionBody = Placeholder | Items(items: seq<ItemView>)

  datatype SectionView = SectionView(title: string, body: SectionBody)

  /** The items of a section, or the placeholder when it has none. */
  function RenderSection(s: CustomSection): (v: SectionView)
    ensures v.title == s.title
    ensures v.body.Placeholder? <==> s.items.None? || |s.items.value| == 0
    ensures v.body.Items? ==> |v.body.items| == |s.items.value|
    ensures v.body.Items? ==> forall j :: 0 <= j < |v.body.items| ==> v.body.items[j] == RenderItem(s.items.value[j])
  {
    match s.items
    case None => SectionView(s.title, Placeholder)
    case Some(xs) =>
      if |xs| == 0 then SectionView(s.title, Placeholder)
      else SectionView(s.title, Items(seq(|xs|, j requires 0 <= j < |xs| => RenderItem(xs[j]))))
  }

  /** The custom sections block: nothing for a missing or empty list,
      otherwise every section in order. */
  function Render(sections: Option<seq<CustomSection>>): (r: Option<seq<SectionView>>)
    ensures r.None? <==> sections.None? || |sections.value| == 0
    ensures r.Some? ==> |r.value| == |sections.value|
    ensures r.Some? ==> forall i :: 0 <= i < |r.value| ==> r.value[i] == RenderSection(sections.value[i])
  {
    match sections
    case None => None
    case Some(ss) =>
      if |ss| == 0 then None
      else Some(seq(|ss|, i requires 0 <= i < |ss| => RenderSection(ss[i])))
  }

  /** Only the first '-' is replaced: a full "YYYY-MM-DD" date keeps its
      second one and is shown as "YYYY/MM-DD". */
  lemma OnlyFirstDashReplaced(y: string, rest: string)
    requires '-' !in y
    ensures DisplayDate(y + "-" + rest) == y + "/" + rest
  {
    var date := y + "-" + rest;
    var i := Sequences.IndexOf(date, '-').value;
    assert date[|y|] == '-';
    assert forall j :: 0 <= j < i ==> date[..i][j] == date[j];
    assert forall j :: 0 <= j < |y| ==> date[j] == y[j];
    assert i == |y|;
    assert date[..|y|] == y && date[|y| + 1..] == rest;
  }

  /** A date line reads "start - end" when both dates are set, and just the
      one date otherwise. */
  lemma DateTextCases(start: Option<string>, end: Option<string>)
    requires Truthy(start) || Truthy(end)
    ensures var t := DateText(ItemDates(start, end).value);
      && (Truthy(start) && Truthy(end) ==> t == DisplayDate(start.value) + " - " + DisplayDate(end.value))
      && (Truthy(start) && !Truthy(end) ==> t == DisplayDate(start.value))
      && (!Truthy(start) && Truthy(end) ==> t == DisplayDate(end.value))
  {
  }
}

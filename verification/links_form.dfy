/** The links editor: a link needs a label and a URL the browser can parse. */
module LinksForm {
  import opened Wrappers
  import Editor

  /** `label` is a Dafny keyword, so the field is `caption` here. */
  datatype LinkDraft = LinkDraft(caption: string, url: string)

  const EmptyLink := LinkDraft("", "")

  /** `handleAdd`: both fields must be filled in, and then `new URL(url)`
      must not throw; `validUrl` stands for that parse. An accepted link is
      sent as typed and the form is cleared. */
  function HandleAdd(d: LinkDraft, validUrl: string -> bool): (s: Editor.Step<LinkDraft, LinkDraft>)
    ensures s.call.Some? <==> d.caption != "" && d.url != "" && validUrl(d.url)
    ensures s.call.Some? ==> s.call.value == d && s.draft.caption == "" && s.draft.url == ""
    ensures s.call.None? ==> s.draft == d
  {
    if d.caption == "" || d.url == "" then Editor.Step(None, d)
    else if !validUrl(d.url) then Editor.Step(None, d)
    else Editor.Step(Some(d), EmptyLink)
  }

  /** The URL check is reached only for complete drafts: a missing label or
      URL is rejected however the URL would parse. */
  lemma MissingFieldIgnoresUrlCheck(d: LinkDraft, v1: string -> bool, v2: string -> bool)
    requires d.caption == "" || d.url == ""
    ensures HandleAdd(d, v1) == HandleAdd(d, v2)
  {
  }

  /** Submitting the cleared form again sends nothing. */
  lemma NoDoubleAdd(d: LinkDraft, validUrl: string -> bool)
    ensures HandleAdd(HandleAdd(d, validUrl).draft, validUrl).call.None?
  {
  }
}

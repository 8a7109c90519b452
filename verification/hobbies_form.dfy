/** The hobbies editor: a hobby is one description; editing a hobby moves it
    back into the form. */
module HobbiesForm {
  import opened Wrappers
  import Editor

  datatype Hobby = Hobby(id: string, description: string)

  /** The form's contents. The form starts with a description only; loading
      a hobby for editing copies its identifier in as well. */
  datatype HobbyDraft = HobbyDraft(id: Option<string>, description: string)

  const EmptyHobby := HobbyDraft(None, "")

  /** `handleAdd`: rejected without a description; an accepted hobby is sent
      as the form holds it and the form is cleared. */
  function HandleAdd(d: HobbyDraft): (s: Editor.Step<HobbyDraft, HobbyDraft>)
    ensures s.call.Some? <==> d.description != ""
    ensures s.call.Some? ==> s.call.value == d && s.draft.description == "" && s.draft.id.None?
    ensures s.call.None? ==> s.draft == d
  {
    Editor.Submit(d, d.description != "", EmptyHobby)
  }

  /** The Edit button: the hobby is copied into the form and removed from the
      list; the call is the identifier handed to `removeHobby`. */
  function Edit(h: Hobby): (s: Editor.Step<string, HobbyDraft>)
    ensures s.call == Some(h.id)
    ensures s.draft.description == h.description && s.draft.id == Some(h.id)
  {
    Editor.Step(Some(h.id), HobbyDraft(Some(h.id), h.description))
  }

  /** Editing a hobby and saving it untouched sends the removed hobby back,
      identifier included; one with an empty description cannot be saved
      again. */
  lemma EditThenSave(h: Hobby)
    ensures h.description != "" ==>
      HandleAdd(Edit(h).draft).call == Some(HobbyDraft(Some(h.id), h.description))
    ensures h.description == "" ==> HandleAdd(Edit(h).draft).call.None?
  {
  }

  /** Submitting the cleared form again sends nothing. */
  lemma NoDoubleAdd(d: HobbyDraft)
    ensures HandleAdd(HandleAdd(d).draft).call.None?
  {
  }
}

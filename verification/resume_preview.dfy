/** The preview pane: the selected template identifier chooses which of the
    three built-in renderers draws the document. */
module ResumePreview {
  import TemplateCatalog
  import ResumeStore

  /** The renderers the preview can hand the document to. */
  datatype Renderer = Classic | Modern | Minimal

  /** `renderTemplate`: the `switch` on `selectedTemplate`, Classic for an
      identifier it has no case for. */
  function RenderTemplate(selected: string): (v: Renderer)
    ensures v == Modern <==> selected == "modern"
    ensures v == Minimal <==> selected == "minimal"
    ensures v == Classic <==> selected != "modern" && selected != "minimal"
  {
    match selected
    case "classic" => Classic
    case "modern" => Modern
    case "minimal" => Minimal
    case _ => Classic
  }

  /** The renderer that draws a document. */
  function Preview(r: ResumeStore.Resume): Renderer {
    RenderTemplate(r.selectedTemplate)
  }

  /** Seven of the ten catalog templates, Professional among them, have no
      renderer of their own and are drawn by Classic. */
  lemma CatalogFallsBackToClassic()
    ensures forall i :: 0 <= i < |TemplateCatalog.DefaultTemplates| ==>
      (RenderTemplate(TemplateCatalog.DefaultTemplates[i].id) == Classic <==> i !in {1, 2})
    ensures RenderTemplate("professional") == Classic
  {
    TemplateCatalog.CatalogIdsDistinct();
  }

  /** A new document is drawn by Classic. */
  lemma DefaultPreviewIsClassic()
    ensures Preview(ResumeStore.DefaultResume()) == Classic
  {
  }

  /** Selecting a template and then previewing uses the renderer for that
      identifier, whatever was selected before. */
  lemma SelectThenPreview(r: ResumeStore.Resume, templateId: string)
    ensures Preview(ResumeStore.SetSelectedTemplate(r, templateId)) == RenderTemplate(templateId)
  {
  }
}

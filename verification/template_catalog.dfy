/** The static catalog of visual templates the user can choose from
    (`defaultTemplates`), with the flags the gallery filters on. */
module TemplateCatalog {

  datatype Template = Template(
    id: string,
    name: string,
    description: string,
    thumbnail: string,
    color: string,
    isModern: bool,
    isMinimal: bool,
    isProfessional: bool,
    isCreative: bool)

  const DefaultTemplates: seq<Template> := [
    Template("classic", "Classic", "Traditional and ATS-friendly template with a clean layout",
             "/templates/classic.png", "#0072b1", false, true, true, false),
    Template("modern", "Modern", "Contemporary design with a professional touch",
             "/templates/modern.png", "#2a9d8f", true, false, true, false),
    Template("minimal", "Minimal", "Clean and simple design focusing on content",
             "/templates/minimal.png", "#6c757d", false, true, true, false),
    Template("professional", "Professional", "Structured layout with clear section dividers",
             "/lovable-uploads/aacdac04-ed3b-4ba4-a4e8-9b2bfb55064f.png", "#000000",
             false, false, true, false),
    Template("executive", "Executive", "Sophisticated template for senior positions",
             "/templates/executive.png", "#343a40", false, false, true, false),
    Template("creative", "Creative", "Unique layout for design and creative fields",
             "/templates/creative.png", "#e76f51", true, false, false, true),
    Template("corporate", "Corporate", "Professional template ideal for business positions",
             "/templates/corporate.png", "#1d3557", false, false, true, false),
    Template("simple", "Simple", "Direct and clean layout focusing on experience",
             "/templates/simple.png", "#495057", false, true, true, false),
    Template("tech", "Tech", "Tech-focused template highlighting skills",
             "/templates/tech.png", "#3a86ff", true, false, true, false),
    Template("elegant", "Elegant", "Sophisticated design with elegant typography",
             "/templates/elegant.png", "#7209b7", true, false, true, true)
  ]

  /** The identifiers of the catalog, in catalog order. */
  function CatalogIds(): (ids: seq<string>)
    ensures |ids| == |DefaultTemplates|
    ensures forall i :: 0 <= i < |ids| ==> ids[i] == DefaultTemplates[i].id
  {
    seq(|DefaultTemplates|, i requires 0 <= i < |DefaultTemplates| => DefaultTemplates[i].id)
  }

  /** No two catalog entries share an identifier, so an identifier names one
      template. */
  lemma CatalogIdsDistinct()
    ensures forall i, j :: 0 <= i < j < |DefaultTemplates| ==> DefaultTemplates[i].id != DefaultTemplates[j].id
  {
    assert CatalogIds() == ["classic", "modern", "minimal", "professional", "executive",
                            "creative", "corporate", "simple", "tech", "elegant"];
  }

  /** The first entry, which the empty resume selects, is Classic. */
  lemma FirstTemplateIsClassic()
    ensures |DefaultTemplates| > 0 && DefaultTemplates[0].id == "classic"
  {
  }

  /** Creative is the one template not flagged professional. */
  lemma OnlyCreativeIsNotProfessional()
    ensures forall i :: 0 <= i < |DefaultTemplates| ==>
      (!DefaultTemplates[i].isProfessional <==> DefaultTemplates[i].id == "creative")
  {
  }

  /** Creative and Elegant are the templates flagged creative. */
  lemma CreativeFlagged()
    ensures forall i :: 0 <= i < |DefaultTemplates| ==>
      (DefaultTemplates[i].isCreative <==>
         DefaultTemplates[i].id == "creative" || DefaultTemplates[i].id == "elegant")
  {
  }
}

/** The template gallery page: a text search and a category tab narrow the
    catalog, and choosing a card makes its template the selected one. */
module TemplateGallery {
  import Sequences
  import Text
  import opened TemplateCatalog
  import ResumeStore

  /** The search box's test: the lower-cased name or description includes
      the lower-cased term. */
  predicate MatchesTerm(t: Template, term: string) {
    Text.Contains(Text.Lower(t.name), Text.Lower(term))
      || Text.Contains(Text.Lower(t.description), Text.Lower(term))
  }

  /** The `switch` inside the category filter; a tab value it does not list
      keeps every template. */
  predicate CategoryCase(t: Template, category: string) {
    if category == "modern" then t.isModern
    else if category == "minimal" then t.isMinimal
    else if category == "professional" then t.isProfessional
    else if category == "creative" then t.isCreative
    else true
  }

  /** Whether a template is shown for the given search term and tab, stated
      without reference to how the list is built. */
  predicate Shown(t: Template, term: string, category: string) {
    && (term == "" || MatchesTerm(t, term))
    && (category == "modern" ==> t.isModern)
    && (category == "minimal" ==> t.isMinimal)
    && (category == "professional" ==> t.isProfessional)
    && (category == "creative" ==> t.isCreative)
  }

  /** The two filters of the gallery applied to any list of templates: the
      search filter when the term is not empty, then the category filter
      unless the tab is "all". */
  function FilterCatalog(catalog: seq<Template>, term: string, category: string): (r: seq<Template>)
    ensures Sequences.Subseq(r, catalog)
    ensures forall i :: 0 <= i < |r| ==> Shown(r[i], term, category)
    ensures forall x :: x in catalog && Shown(x, term, category) ==> x in r
    ensures forall x {:trigger multiset(r)[x]} :: multiset(r)[x] == if Shown(x, term, category) then multiset(catalog)[x] else 0
  {
    var bySearch := SearchStep(catalog, term);
    var r := CategoryStep(bySearch, category);
    Sequences.SubseqTransitive(r, bySearch, catalog);
    Sequences.SubseqMembers(r, bySearch);
    r
  }

  /** The search filter; an empty term keeps everything. */
  function SearchStep(catalog: seq<Template>, term: string): (r: seq<Template>)
    ensures Sequences.Subseq(r, catalog)
    ensures forall i :: 0 <= i < |r| ==> term == "" || MatchesTerm(r[i], term)
    ensures forall x :: x in catalog && (term == "" || MatchesTerm(x, term)) ==> x in r
    ensures forall x {:trigger multiset(r)[x]} :: multiset(r)[x] == if term == "" || MatchesTerm(x, term) then multiset(catalog)[x] else 0
  {
    if term != "" then
      Sequences.FilterKeeps(catalog, t => MatchesTerm(t, term));
      Sequences.FilterSubseq(catalog, t => MatchesTerm(t, term));
      Sequences.FilterCount(catalog, t => MatchesTerm(t, term));
      Sequences.Filter(catalog, t => MatchesTerm(t, term))
    else
      Sequences.SubseqRefl(catalog);
      catalog
  }

  /** The category filter; the "all" tab keeps everything. */
  function CategoryStep(s: seq<Template>, category: string): (r: seq<Template>)
    ensures Sequences.Subseq(r, s)
    ensures forall i :: 0 <= i < |r| ==> CategoryCase(r[i], category)
    ensures forall x :: x in s && CategoryCase(x, category) ==> x in r
    ensures forall x {:trigger multiset(r)[x]} :: multiset(r)[x] == if CategoryCase(x, category) then multiset(s)[x] else 0
  {
    if category != "all" then
      Sequences.FilterKeeps(s, t => CategoryCase(t, category));
      Sequences.FilterSubseq(s, t => CategoryCase(t, category));
      Sequences.FilterCount(s, t => CategoryCase(t, category));
      Sequences.Filter(s, t => CategoryCase(t, category))
    else
      Sequences.SubseqRefl(s);
      s
  }

  /** `filteredTemplates`: the catalog entries shown, in catalog order. */
  function FilteredTemplates(term: string, category: string): (r: seq<Template>)
    ensures Sequences.Subseq(r, DefaultTemplates)
    ensures forall i :: 0 <= i < |r| ==> Shown(r[i], term, category)
    ensures forall i :: 0 <= i < |DefaultTemplates| && Shown(DefaultTemplates[i], term, category) ==>
      DefaultTemplates[i] in r
  {
    FilterCatalog(DefaultTemplates, term, category)
  }

  function TemplateId(t: Template): string { t.id }

  /** Filtering never shows a template twice. */
  lemma FilteredIdsDistinct(term: string, category: string)
    ensures forall i, j :: 0 <= i < j < |FilteredTemplates(term, category)| ==>
      FilteredTemplates(term, category)[i].id != FilteredTemplates(term, category)[j].id
  {
    var r := FilteredTemplates(term, category);
    CatalogIdsDistinct();
    assert ResumeStore.UniqueKeys(DefaultTemplates, TemplateId);
    ResumeStore.SubseqUniqueKeys(r, DefaultTemplates, TemplateId);
    assert forall i, j :: 0 <= i < j < |r| ==> TemplateId(r[i]) != TemplateId(r[j]);
  }

  /** With an empty search and the "all" tab, or with a tab the filter does
      not know, the text filter and the category filter do nothing. */
  lemma NoFilterShowsCatalog(category: string)
    requires category !in {"modern", "minimal", "professional", "creative"}
    ensures FilteredTemplates("", category) == DefaultTemplates
  {
    if category != "all" {
      assert forall i :: 0 <= i < |DefaultTemplates| ==> CategoryCase(DefaultTemplates[i], category);
      Sequences.FilterAll(DefaultTemplates, t => CategoryCase(t, category));
    }
  }

  /** The "creative" tab with no search shows Creative and Elegant, in that
      order. */
  lemma CreativeTab()
    ensures FilteredTemplates("", "creative") == [DefaultTemplates[5], DefaultTemplates[9]]
  {
    var keep := (t: Template) => CategoryCase(t, "creative");
    var D := DefaultTemplates;
    assert Sequences.Filter(D[9..], keep) == [D[9]];
    assert Sequences.Filter(D[8..], keep) == [D[9]] by { assert D[8..][1..] == D[9..]; }
    assert Sequences.Filter(D[7..], keep) == [D[9]] by { assert D[7..][1..] == D[8..]; }
    assert Sequences.Filter(D[6..], keep) == [D[9]] by { assert D[6..][1..] == D[7..]; }
    assert Sequences.Filter(D[5..], keep) == [D[5], D[9]] by { assert D[5..][1..] == D[6..]; }
    assert Sequences.Filter(D[4..], keep) == [D[5], D[9]] by { assert D[4..][1..] == D[5..]; }
    assert Sequences.Filter(D[3..], keep) == [D[5], D[9]] by { assert D[3..][1..] == D[4..]; }
    assert Sequences.Filter(D[2..], keep) == [D[5], D[9]] by { assert D[2..][1..] == D[3..]; }
    assert Sequences.Filter(D[1..], keep) == [D[5], D[9]] by { assert D[1..][1..] == D[2..]; }
  }

  /** `handleTemplateSelect`: the card's identifier becomes the document's
      selected template. */
  function HandleTemplateSelect(r: ResumeStore.Resume, t: Template): (r': ResumeStore.Resume)
    ensures r'.selectedTemplate == t.id
    ensures r' == r.(selectedTemplate := t.id)
  {
    ResumeStore.SetSelectedTemplate(r, t.id)
  }

  /** Whatever the filters, choosing a shown card selects a catalog
      identifier. */
  lemma SelectingShownSelectsCatalogId(r: ResumeStore.Resume, term: string, category: string, k: nat)
    requires k < |FilteredTemplates(term, category)|
    ensures HandleTemplateSelect(r, FilteredTemplates(term, category)[k]).selectedTemplate in CatalogIds()
  {
    var shown := FilteredTemplates(term, category);
    Sequences.SubseqMembers(shown, DefaultTemplates);
    assert shown[k] in DefaultTemplates;
  }
}

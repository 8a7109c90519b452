# Zen Resume Builder: a Dafny model of the document store, editors and views

Zen Resume Builder is a browser application in which a user fills in a resume
and previews it in one of several visual templates. This project models
its logic as pure Dafny functions over immutable datatypes:

- **the resume store**: the `Resume` document (personal details, work
  experience, education, skills and the selected template), its
  `defaultResume`, and the reducers that merge, append, update by identifier
  and remove by identifier (`ResumeStore`);
- **the template catalog and gallery**: the ten catalog entries, the
  search-and-category filter of the gallery page, selecting a card
  (`TemplateCatalog`, `TemplateGallery`), and the preview's dispatch on the
  selected identifier with its Classic fallback (`ResumePreview`);
- **the editor forms**: the guards that decide whether a draft reaches the
  store, the draft a form shows afterwards, the date rules of the education,
  internship and project editors, and the drag-to-reorder handler that every
  list editor repeats (`Editor` plus one module per form);
- **the display helpers**: the Professional template's contact line, links
  line, skill grouping, bullet points and experience period
  (`ProfessionalTemplate`), and the custom sections block with its date line
  (`CustomSections`).

Shared modules are `Wrappers` (`Option`), `Sequences` (subsequences,
`filter`, the two-`splice` move, `join` and `split`), `Text` (ECMAScript
`trim`, ASCII `toLowerCase`, `includes`, first-occurrence `replace`,
zero-padded numerals) and `Dates` (an ordered instant type with a
`show`/`parse` pair standing for `toISOString` and `new Date(text)`).

A form handler is modelled by what it does to the state it can see. The
`experience`, `education` and `skills` editors change a `State` made of the
document and the draft, through the store's reducers. The other editors call
store functions (`addInternship`, `reorderProjects`, `addCustomSectionItem`,
...) whose definitions are not part of this model. For those, a handler
returns an `Editor.Step`: the argument of the store call it makes, if any, and
the draft left in the form. The drag handler returns the reordered list that
it hands to the store's reorder function.

Where an input carries the HTML `required` attribute, the browser refuses to
dispatch the submit event while it is empty. The education, experience and
skills editors rely on this, so each has a `Submit` function that applies the
browser's check before the handler.

## Model

| member | source | states |
|---|---|---|
| `ResumeStore.DefaultResume` | src/contexts/ResumeContext.tsx:51-65 | Every personal field is empty, the website is the empty string, all three collections are empty, and the selected template is the catalog's first identifier, `"classic"`. The document has unique identifiers. |
| `ResumeStore.UpdatePersonalInfo` | src/contexts/ResumeContext.tsx:94-99 | Each key present in the partial overwrites that personal field. Every absent key keeps its old value. Nothing outside `personal` changes. |
| `ResumeStore.PersonalMergeLaws` | src/contexts/ResumeContext.tsx:94-99 | The empty partial changes nothing. Two merges in a row equal one merge of the combined partial, where the later partial wins. Merging the same partial twice is the same as merging it once. |
| `ResumeStore.AddExperience` | src/contexts/ResumeContext.tsx:101-107 | The collection grows by one. Earlier entries are unchanged. The new last entry carries the given identifier and exactly the supplied fields. With a fresh identifier, identifiers stay distinct. Nothing else changes. |
| `ResumeStore.UpdateExperience` | src/contexts/ResumeContext.tsx:109-116 | Length and order are kept. Entries with another identifier are unchanged, and matching entries become the merge of old and partial. An unknown identifier leaves the document unchanged. A partial without `id` keeps every identifier and keeps them distinct. |
| `ResumeStore.RemoveExperience` | src/contexts/ResumeContext.tsx:118-123 | No entry carries the identifier afterwards. The survivors are a subsequence of the old list, and every other entry survives with all its copies. An absent identifier is a no-op. With distinct identifiers, exactly one entry goes. |
| `ResumeStore.AddEducation` | src/contexts/ResumeContext.tsx:125-131 | The same append law as for experience, for the education list. |
| `ResumeStore.UpdateEducation` | src/contexts/ResumeContext.tsx:133-140 | The same update-by-identifier law as for experience, for the education list. |
| `ResumeStore.RemoveEducation` | src/contexts/ResumeContext.tsx:142-147 | The same remove-by-identifier law as for experience, for the education list. |
| `ResumeStore.AddSkill` | src/contexts/ResumeContext.tsx:149-155 | The same append law, for the skills list. |
| `ResumeStore.UpdateSkill` | src/contexts/ResumeContext.tsx:157-164 | The same update-by-identifier law, for the skills list. |
| `ResumeStore.RemoveSkill` | src/contexts/ResumeContext.tsx:166-171 | The same remove-by-identifier law, for the skills list. |
| `ResumeStore.RemoveKey` | src/contexts/ResumeContext.tsx:121 | `filter(x => x.id !== id)` keeps exactly the entries with another identifier, in order, each as many times as it occurred. It returns the list itself iff the identifier is absent. It removes exactly one entry when identifiers are distinct and the identifier is present. |
| `ResumeStore.DraftRoundTrips` | src/contexts/ResumeContext.tsx:105 | Adding an identifier to supplied fields and then dropping it gives the fields back, for all three entry kinds. |
| `ResumeStore.SetSelectedTemplate` | src/contexts/ResumeContext.tsx:173-178 | Any string becomes the selected template, catalog identifier or not. Every other part of the document is kept. |
| `ResumeStore.ApplyKeepsIdsUnique` | src/contexts/ResumeContext.tsx:101-171 | One reducer call, with a fresh identifier for an add, keeps identifiers distinct in every collection. |
| `ResumeStore.RunKeepsIdsUnique` | src/contexts/ResumeContext.tsx:102 | Any sequence of reducer calls from `defaultResume` in which every add receives a fresh identifier leaves all identifiers distinct. |
| `TemplateCatalog.CatalogIds` | src/data/templates.ts:14-125 | The catalog's identifiers, one per entry, in catalog order. |
| `TemplateCatalog.CatalogIdsDistinct` | src/data/templates.ts:16-115 | No two catalog entries share an identifier. |
| `TemplateCatalog.FirstTemplateIsClassic` | src/data/templates.ts:16 | The first entry, which the default document selects, is `classic`. |
| `TemplateCatalog.OnlyCreativeIsNotProfessional` | src/data/templates.ts:71-80 | An entry is flagged not professional iff it is `creative`. |
| `TemplateCatalog.CreativeFlagged` | src/data/templates.ts:71-124 | An entry is flagged creative iff it is `creative` or `elegant`. |
| `TemplateGallery.SearchStep` | src/pages/Templates.tsx:22-28 | An empty term keeps everything. Otherwise a template is kept iff its lower-cased name or description includes the lower-cased term. The result is a subsequence of the input and keeps every copy of a kept template. |
| `TemplateGallery.CategoryStep` | src/pages/Templates.tsx:30-46 | `all` and any unlisted tab keep everything. The four named tabs keep exactly the templates with the matching flag. The result is a subsequence of the input and keeps every copy of a kept template. |
| `TemplateGallery.FilterCatalog` | src/pages/Templates.tsx:19-49 | Both filters together keep exactly the shown templates of any list, as a subsequence of it. Each shown template appears as often as in the list, and a hidden one not at all. |
| `TemplateGallery.FilteredTemplates` | src/pages/Templates.tsx:19-48 | The gallery shows a subsequence of the catalog in catalog order. It contains every catalog entry that passes both filters and only those. |
| `TemplateGallery.FilteredIdsDistinct` | src/pages/Templates.tsx:47-48 | Filtering never shows a template twice. |
| `TemplateGallery.NoFilterShowsCatalog` | src/pages/Templates.tsx:23-43 | With an empty search, the `all` tab or an unlisted tab shows the whole catalog unchanged. |
| `TemplateGallery.CreativeTab` | src/pages/Templates.tsx:40-41 | With no search, the creative tab shows exactly Creative and then Elegant. |
| `TemplateGallery.HandleTemplateSelect` | src/pages/Templates.tsx:51-54 | The chosen card's identifier becomes the selected template, and nothing else changes. |
| `TemplateGallery.SelectingShownSelectsCatalogId` | src/pages/Templates.tsx:51-52 | Whatever the filters, choosing a shown card selects an identifier from the catalog. |
| `ResumePreview.RenderTemplate` | src/components/resume/ResumePreview.tsx:10-21 | `modern` gives Modern and `minimal` gives Minimal, each iff that exact identifier. Every other string, `classic` included, gives Classic. |
| `ResumePreview.CatalogFallsBackToClassic` | src/components/resume/ResumePreview.tsx:18-19 | Every catalog identifier other than `modern` and `minimal`, `professional` included, is drawn by Classic. |
| `ResumePreview.DefaultPreviewIsClassic` | src/components/resume/ResumePreview.tsx:12-13 | The default document is drawn by Classic. |
| `ResumePreview.SelectThenPreview` | src/components/resume/ResumePreview.tsx:11 | After `setSelectedTemplate(t)` the preview dispatches on `t`. |
| `Editor.DragEnd` | src/components/editor/CoursesForm.tsx:61-69 | The same two-`splice` body appears in each list editor. No destination sends nothing. Otherwise the sent list is a permutation of the old one, of the same length. The moved item sits at the destination, clamped as `splice` clamps it, and the other items keep their relative order. |
| `Editor.DragBack` | src/components/editor/InternshipsForm.tsx:69-77 | Dragging the item back from its destination to its source restores the list. A drop where the item was picked up sends the list unchanged. |
| `CoursesForm.HandleAdd` | src/components/editor/CoursesForm.tsx:28-51 | A course is sent iff it has a name, whatever else is empty. It is sent as typed, and the form is then cleared. A refusal keeps the draft. |
| `CoursesForm.NoDoubleAdd` | src/components/editor/CoursesForm.tsx:38-45 | The cleared form cannot be submitted again. |
| `ExtracurricularForm.HandleAdd` | src/components/editor/ExtracurricularForm.tsx:28-50 | An activity is sent iff it has a title. It is sent as typed, and the form is then cleared. |
| `ExtracurricularForm.NoDoubleAdd` | src/components/editor/ExtracurricularForm.tsx:39-44 | The cleared form cannot be submitted again. |
| `ReferencesForm.HandleAdd` | src/components/editor/ReferencesForm.tsx:24-47 | A reference is sent iff it has a full name, whatever else is empty. It is sent as typed, and the form is then cleared. |
| `ReferencesForm.NoDoubleAdd` | src/components/editor/ReferencesForm.tsx:35-41 | The cleared form cannot be submitted again. |
| `HobbiesForm.HandleAdd` | src/components/editor/HobbiesForm.tsx:20-39 | A hobby is sent iff it has a description. It is sent as typed, and the form is then cleared. |
| `HobbiesForm.Edit` | src/components/editor/HobbiesForm.tsx:134-138 | Edit copies the hobby, identifier included, into the form and sends its identifier to `removeHobby`. |
| `HobbiesForm.EditThenSave` | src/components/editor/HobbiesForm.tsx:20-33 | Editing a hobby and saving it untouched sends the removed hobby back. A hobby without a description cannot be saved back. |
| `HobbiesForm.NoDoubleAdd` | src/components/editor/HobbiesForm.tsx:30-33 | The cleared form cannot be submitted again. |
| `LinksForm.HandleAdd` | src/components/editor/LinksForm.tsx:21-50 | A link is sent iff the label and the URL are both filled in and the URL parses. The form is then emptied. |
| `LinksForm.MissingFieldIgnoresUrlCheck` | src/components/editor/LinksForm.tsx:22-42 | When a field is missing, the outcome does not depend on the URL check at all. |
| `LinksForm.NoDoubleAdd` | src/components/editor/LinksForm.tsx:43-44 | The emptied form cannot be submitted again. |
| `LanguagesForm.HandleAdd` | src/components/editor/LanguagesForm.tsx:36-56 | A language is sent iff it has a name. The form then returns to an empty name at level `intermediate`. |
| `LanguagesForm.DefaultLevelIsListed` | src/components/editor/LanguagesForm.tsx:19-34 | The starting level is one of the selector's values. |
| `LanguagesForm.LevelLabel` | src/components/editor/LanguagesForm.tsx:160 | A listed level is shown by its label. An unlisted level is shown as stored. |
| `LanguagesForm.ListedLevelLabels` | src/components/editor/LanguagesForm.tsx:19-25 | `native`, `basic` and the default level are shown as Native, Basic and Intermediate. |
| `LanguagesForm.UnlistedLevelsShownRaw` | src/data/sampleResume.ts:68-69 | The sample document's capitalised `Native` and `Professional` match no option and are shown as stored. |
| `LanguagesForm.NoDoubleAdd` | src/components/editor/LanguagesForm.tsx:46-50 | The reset form cannot be submitted again. |
| `InternshipsForm.HandleAdd` | src/components/editor/InternshipsForm.tsx:35-59 | An internship is sent iff both the job title and the company are filled in. The form is then cleared, with `current` off. |
| `InternshipsForm.ToggleCurrent` | src/components/editor/InternshipsForm.tsx:161-166 | Switching on empties the end date. Switching off keeps it. |
| `InternshipsForm.ChangeStart` | src/components/editor/InternshipsForm.tsx:89-93 | The start becomes the picked date. The end date is emptied exactly when the internship is not current and its end date is set and before the picked date. Otherwise the end date is kept. |
| `InternshipsForm.ChangeEnd` | src/components/editor/InternshipsForm.tsx:94-96 | An end date picked while current is ignored. Otherwise it is stored, in order or not. |
| `InternshipsForm.NoEndWhileCurrentKept` | src/components/editor/InternshipsForm.tsx:101-111 | The switch and both pickers keep a current internship free of an end date, and the cleared form has none. |
| `InternshipsForm.StartChangeOrders` | src/components/editor/InternshipsForm.tsx:101-108 | After a start date is picked, the start and end are in order, given that the stored text of the picked date reads back as that date. |
| `InternshipsForm.ToggleLosesEnd` | src/components/editor/InternshipsForm.tsx:165 | Switching current on and then off loses the end date. |
| `InternshipsForm.HandleDateChange` | src/components/editor/InternshipsForm.tsx:79-115 | No date does nothing. With an identifier, the first entry carrying it is sent with the rule applied, and an unknown identifier sends nothing. Without one, the rule is applied to the form. |
| `InternshipsForm.Edit` | src/components/editor/InternshipsForm.tsx:301-305 | Edit copies the internship, identifier included, into the form and sends its identifier to `removeInternship`. |
| `InternshipsForm.EditThenSave` | src/components/editor/InternshipsForm.tsx:35-45 | Editing a complete internship and saving it untouched sends the same record back, identifier included. |
| `ProjectsForm.HandleAdd` | src/components/editor/ProjectsForm.tsx:33-55 | A project is sent iff it has a title. The form is then cleared. |
| `ProjectsForm.ChangeStart` | src/components/editor/ProjectsForm.tsx:85-89 | The start becomes the picked date. A set end date before it is emptied, and any other end date is kept. |
| `ProjectsForm.ChangeEnd` | src/components/editor/ProjectsForm.tsx:90-92 | An end date is always stored as picked. |
| `ProjectsForm.SameAsInternshipNotCurrent` | src/components/editor/ProjectsForm.tsx:97-105 | The project rules are exactly the internship rules for an internship that is not current. |
| `ProjectsForm.StartChangeOrders` | src/components/editor/ProjectsForm.tsx:97-102 | After a start date is picked, the start and end are in order. |
| `ProjectsForm.HandleDateChange` | src/components/editor/ProjectsForm.tsx:75-109 | No date does nothing. With an identifier, the first project carrying it is sent with the rule applied. Without one, the rule is applied to the form. |
| `ProjectsForm.Edit` | src/components/editor/ProjectsForm.tsx:264-268 | Edit copies the project, identifier included, into the form and sends its identifier to `removeProject`. |
| `ProjectsForm.EditThenSave` | src/components/editor/ProjectsForm.tsx:33-43 | Editing a titled project and saving it untouched sends the same record back. |
| `EducationForm.OneField` | src/components/editor/EducationForm.tsx:35 | `{ [name]: value }` holds exactly the one key, with the value given. |
| `EducationForm.OneFieldMerge` | src/components/editor/EducationForm.tsx:34-38 | Merging a one-field partial into an entry changes that field as the draft path changes it. The two paths of a handler edit the same way. |
| `EducationForm.HandleInputChange` | src/components/editor/EducationForm.tsx:28-39 | With an identifier, a one-field partial goes to `updateEducation` and the draft is kept. Without one, only that field of the draft changes. |
| `EducationForm.InputChangeOnEntry` | src/components/editor/EducationForm.tsx:34-35 | An input change on an entry changes that one field of the entries carrying the identifier and nothing else. |
| `EducationForm.HandleDateChange` | src/components/editor/EducationForm.tsx:49-101 | No date does nothing. An end before a set start and a start after a set end are refused, leaving everything unchanged. Otherwise that one field is set. An unknown identifier is not checked. |
| `EducationForm.AcceptedDateKeepsOrder` | src/components/editor/EducationForm.tsx:58-99 | A date the guard accepts leaves the start and end in order, whatever they were before. |
| `EducationForm.EqualDatesAccepted` | src/components/editor/EducationForm.tsx:58-90 | A date equal to the other side is never refused. |
| `EducationForm.AcceptedEntryDateKeepsOrder` | src/components/editor/EducationForm.tsx:54-77 | With distinct identifiers, the entry path checks the entry it changes. A date it accepts keeps that entry's dates in order. |
| `EducationForm.HandleAdd` | src/components/editor/EducationForm.tsx:103-133 | Nothing is added unless both dates are set. Otherwise the draft is appended and the form is cleared. |
| `EducationForm.Submit` | src/components/editor/EducationForm.tsx:270-304 | The handler runs only when institution, degree and field of study are filled in. |
| `EducationForm.SubmittedEntryComplete` | src/components/editor/EducationForm.tsx:107-129 | An entry added by pressing Add has every required field and both dates. Pressing Add again adds nothing. |
| `EducationForm.AddedEntryHasDates` | src/components/editor/EducationForm.tsx:107-123 | An entry added by the handler has both dates, in order whenever the draft's dates were. A second call on the cleared form adds nothing. |
| `ExperienceForm.OneField` | src/components/editor/ExperienceForm.tsx:32 | `{ [name]: value }` holds exactly the one key, with the value given. |
| `ExperienceForm.OneFieldMerge` | src/components/editor/ExperienceForm.tsx:31-35 | Merging a one-field partial into an entry changes that field as the draft path does. |
| `ExperienceForm.HandleInputChange` | src/components/editor/ExperienceForm.tsx:25-36 | With an identifier, a one-field partial goes to `updateExperience`. Without one, only that draft field changes. |
| `ExperienceForm.InputChangeOnEntry` | src/components/editor/ExperienceForm.tsx:31-32 | An input change on an entry changes that one field of the matching entries and nothing else. |
| `ExperienceForm.HandleDescriptionChange` | src/components/editor/ExperienceForm.tsx:38-44 | Only `description` is sent or set. |
| `ExperienceForm.HandleSwitchChange` | src/components/editor/ExperienceForm.tsx:46-52 | Only `current` is sent or set. |
| `ExperienceForm.SwitchKeepsEndDate` | src/components/editor/ExperienceForm.tsx:48 | The switch changes the flag of the matching entries and nothing else. End dates survive in the document and in the draft. |
| `ExperienceForm.SwitchBackShowsEndAgain` | src/components/resume/ProfessionalTemplate.tsx:143 | While current, the Professional template shows "Present". Switching off again brings back the period shown before. |
| `ExperienceForm.HandleAdd` | src/components/editor/ExperienceForm.tsx:54-64 | The draft is appended whatever it holds, and the form returns to empty strings with `current` off. |
| `ExperienceForm.Submit` | src/components/editor/ExperienceForm.tsx:170-221 | The handler runs only when company, position and start date are filled in, and the end date too unless the switch is on. |
| `ExperienceForm.SubmittedEntryComplete` | src/components/editor/ExperienceForm.tsx:181-221 | An entry added by pressing Add has every required field. Pressing Add again on the cleared form adds nothing. |
| `ExperienceForm.HandlerAloneAddsBlank` | src/components/editor/ExperienceForm.tsx:54-64 | The handler itself has no guard: a second call adds an entry with every field empty. |
| `SkillsForm.SliderValuesAreLevels` | src/components/editor/SkillsForm.tsx:133-140 | The slider's values, 1 to 5 in steps of 1, are exactly the levels 1 to 5. The starting level 3 is one of them. |
| `SkillsForm.HandleNameChange` | src/components/editor/SkillsForm.tsx:19-30 | With an identifier, only the name is sent. Without one, only the draft's name changes. |
| `SkillsForm.HandleLevelChange` | src/components/editor/SkillsForm.tsx:32-38 | The slider's first value is sent as `{ level }` or set in the draft. |
| `SkillsForm.HandleAdd` | src/components/editor/SkillsForm.tsx:40-52 | The draft is appended under a fresh identifier, and the form returns to an empty name at level 3. |
| `SkillsForm.Submit` | src/components/editor/SkillsForm.tsx:110-122 | The handler runs only with a name. |
| `SkillsForm.LevelChangeKeepsScale` | src/components/editor/SkillsForm.tsx:95-100 | When the slider reports one of its own values, every level in the document and the draft stays on the scale 1 to 5. |
| `SkillsForm.OtherHandlersKeepScale` | src/components/editor/SkillsForm.tsx:14-17 | Renaming and adding keep every level on the scale. |
| `SkillsForm.RemoveKeepsScale` | src/components/editor/SkillsForm.tsx:54-55 | Removing a skill keeps every level on the scale. |
| `SkillsForm.EverySkillGroupedOnce` | src/components/resume/ProfessionalTemplate.tsx:94-96 | On the slider's scale, the three groups of the Professional template together hold every skill exactly once. |
| `ProfessionalTemplate.ContactLine` | src/components/resume/ProfessionalTemplate.tsx:16-30 | The Phone label appears iff a location and a phone are both set. The Email label appears iff an email and a location or phone are set. The texts are the set fields in order. Labels only ever stand between two texts. The Phone label is always followed by the phone and the Email label by the email. |
| `ProfessionalTemplate.LinksLine` | src/components/resume/ProfessionalTemplate.tsx:36-56 | No section for missing or empty links. Otherwise every link is shown in order, followed by ", " except the last. |
| `ProfessionalTemplate.LinksTextIsJoin` | src/components/resume/ProfessionalTemplate.tsx:44-55 | The line reads as the labels joined by ", ". |
| `ProfessionalTemplate.SkillsSection` | src/components/resume/ProfessionalTemplate.tsx:80-125 | No section for an empty list. The plain list of every skill in order appears iff no skill has a truthy level of 4 or more. Otherwise the groups are well formed: headings in template order, each present iff some skill qualifies, and each group holding every qualifying skill as often as the document lists it, in document order. |
| `ProfessionalTemplate.GroupIfFacts` | src/components/resume/ProfessionalTemplate.tsx:100-119 | A heading appears iff some skill qualifies. Its members are a subsequence of the input holding every qualifying skill as often as the input lists it and nothing else. |
| `ProfessionalTemplate.GroupedFacts` | src/components/resume/ProfessionalTemplate.tsx:94-120 | The headings come in the order Frontend, Backend, Other Skills. Each is present iff its group is non-empty, and each group holds exactly its skills in input order. |
| `ProfessionalTemplate.HeadingsInOrder` | src/components/resume/ProfessionalTemplate.tsx:98-120 | The three optional groups, concatenated, keep the heading order. Each heading is present iff its group was emitted. |
| `ProfessionalTemplate.SliderLevelsPartition` | src/components/resume/ProfessionalTemplate.tsx:94-96 | For whole levels 1 to 5, Frontend, Backend and Other partition the skills, as multisets and by count. |
| `ProfessionalTemplate.OffScaleLevelInNoGroup` | src/components/resume/ProfessionalTemplate.tsx:90-96 | A level of 4.5 or 6 counts as high but falls in no group. A lone such skill gives a grouped view with no groups. |
| `ProfessionalTemplate.SampleLevelGroups` | src/components/resume/ProfessionalTemplate.tsx:92-120 | Skills with levels 5,5,4,4,4,3,3 are shown as the first two under Frontend, the next three under Backend and the last two under Other Skills. |
| `ProfessionalTemplate.SampleSkillGroups` | src/data/sampleResume.ts:45-53 | The sample document shows React and TypeScript under Frontend, Node.js, Python and AWS under Backend, and Docker and GraphQL under Other Skills. |
| `ProfessionalTemplate.SampleFrontendLine` | src/components/resume/ProfessionalTemplate.tsx:103 | The sample's Frontend line reads "React, TypeScript". |
| `ProfessionalTemplate.Description` | src/components/resume/ProfessionalTemplate.tsx:153-160 | A description is a list of points iff it contains a bullet. Otherwise it is shown whole. There are at most one more points than bullets, and each point is bullet-free and trimmed. The points are the trimmed non-empty stretches between the bullets. |
| `ProfessionalTemplate.DescriptionPoints` | src/components/resume/ProfessionalTemplate.tsx:153-160 | For any bullet-free pieces that join with bullets into the description, the points are those pieces with empty ones dropped, each trimmed. |
| `ProfessionalTemplate.PointsRoundTrip` | src/components/resume/ProfessionalTemplate.tsx:155-156 | Points that are trimmed, non-empty and bullet-free, each written after a bullet, are read back as exactly those points. |
| `ProfessionalTemplate.BlankPointKept` | src/components/resume/ProfessionalTemplate.tsx:155-156 | `filter(Boolean)` runs before `trim`, so a piece of white space alone survives as an empty point. |
| `ProfessionalTemplate.ExperiencePeriod` | src/components/resume/ProfessionalTemplate.tsx:142-144 | The period is the start, an em dash, and "Present" when current or the end date otherwise. |
| `CustomSections.DisplayDate` | src/components/resume/CustomSections.tsx:29 | `replace('-', '/')` keeps the length. It leaves dash-free text alone, and otherwise turns exactly the first dash into a slash. |
| `CustomSections.OnlyFirstDashReplaced` | src/components/resume/CustomSections.tsx:29-31 | A "YYYY-MM-DD" date keeps its second dash: it is shown as "YYYY/MM-DD". |
| `CustomSections.ItemDates` | src/components/resume/CustomSections.tsx:27-33 | The date line appears iff either date is non-empty. Each non-empty date is shown with its first dash replaced. " - " appears iff both dates are non-empty. |
| `CustomSections.DateTextCases` | src/components/resume/CustomSections.tsx:30 | The date line reads "start - end" when both dates are set, and just the one date otherwise. |
| `CustomSections.RenderItem` | src/components/resume/CustomSections.tsx:21-36 | The title is always shown. Location and description are shown iff non-empty. |
| `CustomSections.RenderSection` | src/components/resume/CustomSections.tsx:16-40 | A section shows its title, then the placeholder iff it has no items, else every item in order. |
| `CustomSections.Render` | src/components/resume/CustomSections.tsx:11-15 | A missing or empty list renders nothing. Otherwise every section is rendered in order. |
| `CustomSectionsForm.HandleAddSection` | src/components/editor/CustomSectionsForm.tsx:36-46 | A name is sent iff it does not trim to nothing. It is sent untrimmed, and the panel is then closed and emptied. A refusal keeps the panel as it was. |
| `CustomSectionsForm.AddedSectionNameUntrimmed` | src/components/editor/CustomSectionsForm.tsx:37-38 | The stored name keeps its surrounding white space, and the emptied panel refuses a second press. |
| `CustomSectionsForm.StartRenaming` | src/components/editor/CustomSectionsForm.tsx:157-161 | The rename input starts out holding the section's title. |
| `CustomSectionsForm.HandleUpdateSectionName` | src/components/editor/CustomSectionsForm.tsx:48-58 | A rename is sent iff the new name does not trim to nothing. A refused rename stays open unchanged, and the section is not touched. |
| `CustomSectionsForm.SaveUnchangedKeepsTitle` | src/components/editor/CustomSectionsForm.tsx:136-161 | Opening a rename and saving at once sends the section's own title back. A blank title is not sent, and the rename stays open. |
| `CustomSectionsForm.HandleAddItem` | src/components/editor/CustomSectionsForm.tsx:68-91 | An item is sent iff its title does not trim to nothing. The title is sent trimmed and every other field as typed. The panel is then closed and reset to empty fields. |
| `CustomSectionsForm.AddedItemTitleTrimmed` | src/components/editor/CustomSectionsForm.tsx:69-84 | The sent title is non-empty and trimming it again changes nothing. The other fields are the draft's, and the reset panel sends nothing. |
| `CustomSectionsForm.CancelItem` | src/components/editor/CustomSectionsForm.tsx:402-412 | Cancel closes the item panel and empties every field. |
| `CustomSectionsForm.OneItemFieldKeys` | src/components/editor/CustomSectionsForm.tsx:94 | `{ [field]: value }` holds exactly the one named key, with the value given. |
| `CustomSectionsForm.HandleUpdateItem` | src/components/editor/CustomSectionsForm.tsx:93-95 | Sends the section, the item and a partial with exactly the one named field, unchecked. |
| `CustomSectionsForm.PickerFormatSplits` | src/components/editor/CustomSectionsForm.tsx:107 | "yyyy-MM" has one dash and splits into the padded year and the padded month. |
| `CustomSectionsForm.HandleDateChange` | src/components/editor/CustomSectionsForm.tsx:105-110 | No date, no call. A date is sent as "yyyy-MM" in a partial holding only that field. |
| `CustomSectionsForm.SelectNewItemDate` | src/components/editor/CustomSectionsForm.tsx:341-344 | A picked month sets that date of the new item to "yyyy-MM" and nothing else. No date leaves the panel alone. |
| `CustomSectionsForm.FormatDisplayDateAsWritten` | src/components/editor/CustomSectionsForm.tsx:112-120 | `formatDisplayDate` as written: "" for a missing or empty date. |
| `CustomSectionsForm.AsWrittenSwapsYearMonth` | src/components/editor/CustomSectionsForm.tsx:112-120 | For "Y-M", or "Y-M" followed by a dash and more, the written label is M, "/", Y, and whatever follows the second piece is dropped. |
| `CustomSectionsForm.DashlessDateShowsUndefined` | src/components/editor/CustomSectionsForm.tsx:115-116 | A non-empty date without a dash, such as "2020", is shown as "undefined/2020". |
| `CustomSectionsForm.FormatDisplayDate` | src/components/editor/CustomSectionsForm.tsx:113-118 | The corrected label: "" for no date, and the text itself for a date without a dash. |
| `CustomSectionsForm.FormatDisplayDateAgrees` | src/components/editor/CustomSectionsForm.tsx:115-116 | The corrected label equals the written one on every date with a dash. On every other input it is the stored text, never "undefined". |
| `CustomSectionsForm.PickedMonthLabel` | src/components/editor/CustomSectionsForm.tsx:222 | A picked month is labelled "MM/YYYY", as the empty button's placeholder promises, by the written formatter and by the corrected one. |
| `CustomSectionsForm.DateButtonLabel` | src/components/editor/CustomSectionsForm.tsx:252 | The button shows the placeholder "MM/YYYY" iff the date is empty, and otherwise the date as the written formatter shows it. |
| `CustomSectionsForm.CorrectedDateButtonLabel` | src/components/editor/CustomSectionsForm.tsx:252 | The same button with the corrected formatter. |
| `CustomSectionsForm.DateButtonLabelsDiffer` | src/components/editor/CustomSectionsForm.tsx:252 | The two buttons agree except on a stored date without a dash, which the written one shows after "undefined/" and the corrected one as it is. |
| `CustomSectionsForm.EditorAndPreviewOrder` | src/components/editor/CustomSectionsForm.tsx:334 | For a picked month, the editor's button reads "MM/YYYY" while the preview shows the same stored date as "YYYY/MM". |

## Left out

- Loading and saving the document in `localStorage` and its JSON form are browser I/O, so they are not modelled. A corrupt saved document is not modelled either.
- `crypto.randomUUID` is not modelled. Each add takes the new identifier as a parameter, and the identity laws assume it is fresh.
- JavaScript `Date`, `toISOString`, `new Date(text)` and date-fns `format` are not modelled directly:
  - The editors that compare dates use an ordered instant type with a `show`/`parse` pair. `parse` gives no value for an invalid date, and every comparison with no value is false.
  - The custom-section pickers use a year and month formatted as zero-padded numerals.
- `new URL(...)` is a parameter `validUrl` of the links editor, since URL parsing is not modelled.
- `toLowerCase` is modelled on ASCII letters only. Other characters are left as they are.
- The PDF and image export, the rich-text and Markdown editors and the calendar widget are third-party code, so they are not modelled.
- Toasts, popovers, the "adding" panel flags, React hooks and the provider check are not modelled.
- Plain draft setters of the list editors (`setNewCourse({...newCourse, name})` and the like) are not modelled. They set one field of the draft.
- Store functions not defined in the store source are not modelled: `addInternship`, `updateProject`, `reorderX`, the custom-section operations and the remove handlers that only pass an identifier on. A form's handler is modelled as the call it makes. The extra second arguments of `addInternship` and `addProject` are dropped.
- Only the Professional template's display logic is modelled. The Classic, Modern and Minimal templates and the `resume/sections/*` renderers are layout.
- A partial is a record of options, so a key explicitly set to `undefined` cannot be expressed.
- A skill level is a real number, so `NaN` and a missing level cannot be expressed. A level of 0 plays the falsy value.
- In the experience list, the end date input of an entry is disabled while the entry is current. The view's `disabled` flag is not modelled.
- `Editor.DragEnd` requires the source index to be in range. The drag library only reports indices of items it rendered.
- `SkillsForm.HandleLevelChange` requires a non-empty slider value. The single-thumb slider always reports exactly one.

## Findings

| source | as written | input that shows it | evidently intended | confidence | as-written member | corrected member |
|---|---|---|---|---|---|---|
| src/components/editor/CustomSectionsForm.tsx:112-120 | `formatDisplayDate` splits on `-` and builds `${month}/${year}`. For text without a dash, `month` is `undefined` and is printed as the word "undefined". The `try` cannot throw, so the fallback that returns the text as it is never runs. | a custom item whose stored start date is "2020" (from a saved document, not from the picker) is labelled "undefined/2020" | the fallback's behaviour: text that is not "year-month" is shown unchanged, so "2020" is labelled "2020" | medium, not executed | `CustomSectionsForm.DashlessDateShowsUndefined` | `CustomSectionsForm.FormatDisplayDate` |

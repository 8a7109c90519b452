/** The resume document and the reducers its store offers. Every operation
    returns a new document built from the previous one; identifiers that come
    from `crypto.randomUUID` are passed in as arguments. */
module ResumeStore {
  import opened Wrappers
  import Sequences
  import TemplateCatalog

  datatype PersonalInfo = PersonalInfo(
    fullName: string,
    jobTitle: string,
    email: string,
    phone: string,
    location: string,
    website: Option<string>,
    summary: string)

  /** `Partial<PersonalInfo>`: None is a key the partial leaves out. */
  datatype PersonalPatch = PersonalPatch(
    fullName: Option<string>,
    jobTitle: Option<string>,
    email: Option<string>,
    phone: Option<string>,
    location: Option<string>,
    website: Option<string>,
    summary: Option<string>)

  datatype Experience = Experience(
    id: string,
    company: string,
    position: string,
    startDate: string,
    endDate: string,
    current: bool,
    description: string)

  /** `Omit<Experience, 'id'>`: what the editor hands to `addExperience`. */
  datatype ExperienceDraft = ExperienceDraft(
    company: string,
    position: string,
    startDate: string,
    endDate: string,
    current: bool,
    description: string)

  /** `Partial<Experience>`. */
  datatype ExperiencePatch = ExperiencePatch(
    id: Option<string>,
    company: Option<string>,
    position: Option<string>,
    startDate: Option<string>,
    endDate: Option<string>,
    current: Option<bool>,
    description: Option<string>)

  datatype Education = Education(
    id: string,
    institution: string,
    degree: string,
    field: string,
    startDate: string,
    endDate: string,
    description: string)

  datatype EducationDraft = EducationDraft(
    institution: string,
    degree: string,
    field: string,
    startDate: string,
    endDate: string,
    description: string)

  datatype EducationPatch = EducationPatch(
    id: Option<string>,
    institution: Option<string>,
    degree: Option<string>,
    field: Option<string>,
    startDate: Option<string>,
    endDate: Option<string>,
    description: Option<string>)

  /** A skill's `level` is a JavaScript number; the editor's slider only
      produces whole numbers, but nothing in the document forbids others. */
  datatype Skill = Skill(id: string, name: string, level: real)

  datatype SkillDraft = SkillDraft(name: string, level: real)

  datatype SkillPatch = SkillPatch(id: Option<string>, name: Option<string>, level: Option<real>)

  datatype Resume = Resume(
    personal: PersonalInfo,
    experience: seq<Experience>,
    education: seq<Education>,
    skills: seq<Skill>,
    selectedTemplate: string)

  // Identifiers within a collection

  function ExperienceId(e: Experience): string { e.id }
  function EducationId(e: Education): string { e.id }
  function SkillId(s: Skill): string { s.id }

  predicate HasKey<T>(s: seq<T>, key: T -> string, id: string) {
    exists i :: 0 <= i < |s| && key(s[i]) == id
  }

  /** No two entries of the collection carry the same identifier. */
  predicate UniqueKeys<T>(s: seq<T>, key: T -> string) {
    forall i, j :: 0 <= i < j < |s| ==> key(s[i]) != key(s[j])
  }

  /** Every collection of the document has pairwise distinct identifiers. */
  predicate ValidResume(r: Resume) {
    && UniqueKeys(r.experience, ExperienceId)
    && UniqueKeys(r.education, EducationId)
    && UniqueKeys(r.skills, SkillId)
  }

  /** Deleting entries keeps identifiers distinct. */
  lemma {:induction false} SubseqUniqueKeys<T>(a: seq<T>, b: seq<T>, key: T -> string)
    requires Sequences.Subseq(a, b) && UniqueKeys(b, key)
    ensures UniqueKeys(a, key)
    decreases |b|
  {
    if |a| > 0 {
      assert UniqueKeys(b[1..], key) by {
        forall i, j | 0 <= i < j < |b[1..]| ensures key(b[1..][i]) != key(b[1..][j]) {
          assert b[1..][i] == b[i + 1] && b[1..][j] == b[j + 1];
        }
      }
      if a[0] == b[0] && Sequences.Subseq(a[1..], b[1..]) {
        SubseqUniqueKeys(a[1..], b[1..], key);
        Sequences.SubseqMembers(a[1..], b[1..]);
        forall i, j | 0 <= i < j < |a| ensures key(a[i]) != key(a[j]) {
          if i == 0 {
            assert a[j] == a[1..][j - 1];
            assert a[j] in b[1..];
            var k :| 0 <= k < |b[1..]| && b[1..][k] == a[j];
            assert b[1..][k] == b[k + 1];
          } else {
            assert a[i] == a[1..][i - 1] && a[j] == a[1..][j - 1];
          }
        }
      } else {
        SubseqUniqueKeys(a, b[1..], key);
      }
    }
  }

  /** `filter(x => x.id !== id)`, the body of every `remove*` reducer. */
  function RemoveKey<T(==,!new)>(s: seq<T>, key: T -> string, id: string): (r: seq<T>)
    ensures forall i :: 0 <= i < |r| ==> key(r[i]) != id
    ensures forall i :: 0 <= i < |s| && key(s[i]) != id ==> s[i] in r
    ensures Sequences.Subseq(r, s)
    ensures !HasKey(s, key, id) <==> r == s
    ensures UniqueKeys(s, key) ==> UniqueKeys(r, key)
    ensures UniqueKeys(s, key) && HasKey(s, key, id) ==> |r| == |s| - 1
    ensures forall x {:trigger multiset(r)[x]} :: multiset(r)[x] == if key(x) != id then multiset(s)[x] else 0
  {
    var keep := x => key(x) != id;
    RemoveKeyCounts(s, key, id);
    Sequences.FilterCount(s, keep);
    Sequences.FilterKeeps(s, keep);
    Sequences.FilterSubseq(s, keep);
    if !HasKey(s, key, id) then
      Sequences.FilterAll(s, keep);
      Sequences.Filter(s, keep)
    else Sequences.Filter(s, keep)
  }

  lemma RemoveKeyCounts<T>(s: seq<T>, key: T -> string, id: string)
    ensures UniqueKeys(s, key) ==> UniqueKeys(Sequences.Filter(s, x => key(x) != id), key)
    ensures UniqueKeys(s, key) && HasKey(s, key, id) ==>
      |Sequences.Filter(s, x => key(x) != id)| == |s| - 1
  {
    var keep := x => key(x) != id;
    if UniqueKeys(s, key) {
      Sequences.FilterSubseq(s, keep);
      SubseqUniqueKeys(Sequences.Filter(s, keep), s, key);
      if HasKey(s, key, id) {
        var i :| 0 <= i < |s| && key(s[i]) == id;
        Sequences.FilterDropsOne(s, keep, i);
      }
    }
  }

  // The empty document

  /** `defaultResume`: the document a first visit starts from. */
  function DefaultResume(): (r: Resume)
    ensures r.personal.fullName == "" && r.personal.jobTitle == "" && r.personal.email == ""
    ensures r.personal.phone == "" && r.personal.location == "" && r.personal.summary == ""
    ensures r.personal.website == Some("")
    ensures r.experience == [] && r.education == [] && r.skills == []
    ensures r.selectedTemplate == TemplateCatalog.DefaultTemplates[0].id == "classic"
    ensures ValidResume(r)
  {
    Resume(
      PersonalInfo("", "", "", "", "", Some(""), ""),
      [], [], [],
      TemplateCatalog.DefaultTemplates[0].id)
  }

  // Personal information

  /** `{ ...old, ...patch }` for one field: a key present in the partial
      wins, a missing one keeps the old value. */
  predicate Overrides<T(==)>(after: T, before: T, given: Option<T>) {
    (given.Some? ==> after == given.value) && (given.None? ==> after == before)
  }

  function MergePersonal(p: PersonalInfo, patch: PersonalPatch): PersonalInfo {
    PersonalInfo(
      patch.fullName.GetOr(p.fullName),
      patch.jobTitle.GetOr(p.jobTitle),
      patch.email.GetOr(p.email),
      patch.phone.GetOr(p.phone),
      patch.location.GetOr(p.location),
      if patch.website.Some? then patch.website else p.website,
      patch.summary.GetOr(p.summary))
  }

  /** `updatePersonalInfo`: the partial's keys overwrite, every other personal
      field and every other part of the document stays as it was. */
  function UpdatePersonalInfo(r: Resume, patch: PersonalPatch): (r': Resume)
    ensures r' == r.(personal := r'.personal)
    ensures Overrides(r'.personal.fullName, r.personal.fullName, patch.fullName)
    ensures Overrides(r'.personal.jobTitle, r.personal.jobTitle, patch.jobTitle)
    ensures Overrides(r'.personal.email, r.personal.email, patch.email)
    ensures Overrides(r'.personal.phone, r.personal.phone, patch.phone)
    ensures Overrides(r'.personal.location, r.personal.location, patch.location)
    ensures patch.website.Some? ==> r'.personal.website == patch.website
    ensures patch.website.None? ==> r'.personal.website == r.personal.website
    ensures Overrides(r'.personal.summary, r.personal.summary, patch.summary)
  {
    r.(personal := MergePersonal(r.personal, patch))
  }

  /** The empty partial `{}`. */
  const NoPersonalChange := PersonalPatch(None, None, None, None, None, None, None)

  /** `{ ...a, ...b }`: the partial that applies `a` and then `b`. */
  function ThenPersonal(a: PersonalPatch, b: PersonalPatch): PersonalPatch {
    PersonalPatch(
      if b.fullName.Some? then b.fullName else a.fullName,
      if b.jobTitle.Some? then b.jobTitle else a.jobTitle,
      if b.email.Some? then b.email else a.email,
      if b.phone.Some? then b.phone else a.phone,
      if b.location.Some? then b.location else a.location,
      if b.website.Some? then b.website else a.website,
      if b.summary.Some? then b.summary else a.summary)
  }

  /** Merging is a last-writer-wins update: the empty partial changes nothing,
      two merges in a row are one merge of the combined partial, and merging
      the same partial again changes nothing more. */
  lemma PersonalMergeLaws(r: Resume, a: PersonalPatch, b: PersonalPatch)
    ensures UpdatePersonalInfo(r, NoPersonalChange) == r
    ensures UpdatePersonalInfo(UpdatePersonalInfo(r, a), b) == UpdatePersonalInfo(r, ThenPersonal(a, b))
    ensures UpdatePersonalInfo(UpdatePersonalInfo(r, a), a) == UpdatePersonalInfo(r, a)
  {
  }

  // Experience

  /** `{ ...experience, id }`. */
  function WithExperienceId(d: ExperienceDraft, id: string): Experience {
    Experience(id, d.company, d.position, d.startDate, d.endDate, d.current, d.description)
  }

  /** The entry without its identifier: the fields an editor supplied. */
  function ExperienceFields(e: Experience): ExperienceDraft {
    ExperienceDraft(e.company, e.position, e.startDate, e.endDate, e.current, e.description)
  }

  /** `{ ...exp, ...patch }`. */
  function MergeExperience(e: Experience, p: ExperiencePatch): Experience {
    Experience(
      p.id.GetOr(e.id),
      p.company.GetOr(e.company),
      p.position.GetOr(e.position),
      p.startDate.GetOr(e.startDate),
      p.endDate.GetOr(e.endDate),
      p.current.GetOr(e.current),
      p.description.GetOr(e.description))
  }

  /** `addExperience`: one more entry at the end, carrying the supplied
      fields and the new identifier; the earlier entries are untouched. */
  function AddExperience(r: Resume, d: ExperienceDraft, id: string): (r': Resume)
    ensures r' == r.(experience := r'.experience)
    ensures |r'.experience| == |r.experience| + 1
    ensures r'.experience[..|r.experience|] == r.experience
    ensures r'.experience[|r.experience|].id == id
    ensures ExperienceFields(r'.experience[|r.experience|]) == d
    ensures UniqueKeys(r.experience, ExperienceId) && !HasKey(r.experience, ExperienceId, id)
      ==> UniqueKeys(r'.experience, ExperienceId)
  {
    r.(experience := r.experience + [WithExperienceId(d, id)])
  }

  /** `updateExperience`: positions and length are kept, only the entries
      carrying `id` are merged with the partial, and an unknown `id` leaves
      the document as it was. */
  function UpdateExperience(r: Resume, id: string, p: ExperiencePatch): (r': Resume)
    ensures r' == r.(experience := r'.experience)
    ensures |r'.experience| == |r.experience|
    ensures forall i :: 0 <= i < |r.experience| && r.experience[i].id != id ==>
      r'.experience[i] == r.experience[i]
    ensures forall i :: 0 <= i < |r.experience| && r.experience[i].id == id ==>
      r'.experience[i] == MergeExperience(r.experience[i], p)
    ensures !HasKey(r.experience, ExperienceId, id) ==> r' == r
    ensures p.id.None? ==> forall i :: 0 <= i < |r.experience| ==> r'.experience[i].id == r.experience[i].id
    ensures p.id.None? && UniqueKeys(r.experience, ExperienceId) ==> UniqueKeys(r'.experience, ExperienceId)
  {
    var xs := r.experience;
    r.(experience := seq(|xs|, i requires 0 <= i < |xs| =>
                           if xs[i].id == id then MergeExperience(xs[i], p) else xs[i]))
  }

  /** `removeExperience`: no entry carries `id` afterwards, the others keep
      their relative order, and an unknown `id` changes nothing. */
  function RemoveExperience(r: Resume, id: string): (r': Resume)
    ensures r' == r.(experience := r'.experience)
    ensures !HasKey(r'.experience, ExperienceId, id)
    ensures Sequences.Subseq(r'.experience, r.experience)
    ensures forall i :: 0 <= i < |r.experience| && r.experience[i].id != id ==> r.experience[i] in r'.experience
    ensures !HasKey(r.experience, ExperienceId, id) ==> r' == r
    ensures UniqueKeys(r.experience, ExperienceId) ==> UniqueKeys(r'.experience, ExperienceId)
    ensures UniqueKeys(r.experience, ExperienceId) && HasKey(r.experience, ExperienceId, id) ==>
      |r'.experience| == |r.experience| - 1
    ensures forall x {:trigger multiset(r'.experience)[x]} ::
      multiset(r'.experience)[x] == if x.id != id then multiset(r.experience)[x] else 0
  {
    r.(experience := RemoveKey(r.experience, ExperienceId, id))
  }

  // Education

  function WithEducationId(d: EducationDraft, id: string): Education {
    Education(id, d.institution, d.degree, d.field, d.startDate, d.endDate, d.description)
  }

  function EducationFields(e: Education): EducationDraft {
    EducationDraft(e.institution, e.degree, e.field, e.startDate, e.endDate, e.description)
  }

  function MergeEducation(e: Education, p: EducationPatch): Education {
    Education(
      p.id.GetOr(e.id),
      p.institution.GetOr(e.institution),
      p.degree.GetOr(e.degree),
      p.field.GetOr(e.field),
      p.startDate.GetOr(e.startDate),
      p.endDate.GetOr(e.endDate),
      p.description.GetOr(e.description))
  }

  /** `addEducation`. */
  function AddEducation(r: Resume, d: EducationDraft, id: string): (r': Resume)
    ensures r' == r.(education := r'.education)
    ensures |r'.education| == |r.education| + 1
    ensures r'.education[..|r.education|] == r.education
    ensures r'.education[|r.education|].id == id
    ensures EducationFields(r'.education[|r.education|]) == d
    ensures UniqueKeys(r.education, EducationId) && !HasKey(r.education, EducationId, id)
      ==> UniqueKeys(r'.education, EducationId)
  {
    r.(education := r.education + [WithEducationId(d, id)])
  }

  /** `updateEducation`. */
  function UpdateEducation(r: Resume, id: string, p: EducationPatch): (r': Resume)
    ensures r' == r.(education := r'.education)
    ensures |r'.education| == |r.education|
    ensures forall i :: 0 <= i < |r.education| && r.education[i].id != id ==>
      r'.education[i] == r.education[i]
    ensures forall i :: 0 <= i < |r.education| && r.education[i].id == id ==>
      r'.education[i] == MergeEducation(r.education[i], p)
    ensures !HasKey(r.education, EducationId, id) ==> r' == r
    ensures p.id.None? ==> forall i :: 0 <= i < |r.education| ==> r'.education[i].id == r.education[i].id
    ensures p.id.None? && UniqueKeys(r.education, EducationId) ==> UniqueKeys(r'.education, EducationId)
  {
    var xs := r.education;
    r.(education := seq(|xs|, i requires 0 <= i < |xs| =>
                          if xs[i].id == id then MergeEducation(xs[i], p) else xs[i]))
  }

  /** `removeEducation`. */
  function RemoveEducation(r: Resume, id: string): (r': Resume)
    ensures r' == r.(education := r'.education)
    ensures !HasKey(r'.education, EducationId, id)
    ensures Sequences.Subseq(r'.education, r.education)
    ensures forall i :: 0 <= i < |r.education| && r.education[i].id != id ==> r.education[i] in r'.education
    ensures !HasKey(r.education, EducationId, id) ==> r' == r
    ensures UniqueKeys(r.education, EducationId) ==> UniqueKeys(r'.education, EducationId)
    ensures UniqueKeys(r.education, EducationId) && HasKey(r.education, EducationId, id) ==>
      |r'.education| == |r.education| - 1
    ensures forall x {:trigger multiset(r'.education)[x]} ::
      multiset(r'.education)[x] == if x.id != id then multiset(r.education)[x] else 0
  {
    r.(education := RemoveKey(r.education, EducationId, id))
  }

  // Skills

  function WithSkillId(d: SkillDraft, id: string): Skill {
    Skill(id, d.name, d.level)
  }

  function SkillFields(s: Skill): SkillDraft {
    SkillDraft(s.name, s.level)
  }

  function MergeSkill(s: Skill, p: SkillPatch): Skill {
    Skill(p.id.GetOr(s.id), p.name.GetOr(s.name), p.level.GetOr(s.level))
  }

  /** `addSkill`. */
  function AddSkill(r: Resume, d: SkillDraft, id: string): (r': Resume)
    ensures r' == r.(skills := r'.skills)
    ensures |r'.skills| == |r.skills| + 1
    ensures r'.skills[..|r.skills|] == r.skills
    ensures r'.skills[|r.skills|].id == id
    ensures SkillFields(r'.skills[|r.skills|]) == d
    ensures UniqueKeys(r.skills, SkillId) && !HasKey(r.skills, SkillId, id)
      ==> UniqueKeys(r'.skills, SkillId)
  {
    r.(skills := r.skills + [WithSkillId(d, id)])
  }

  /** `updateSkill`. */
  function UpdateSkill(r: Resume, id: string, p: SkillPatch): (r': Resume)
    ensures r' == r.(skills := r'.skills)
    ensures |r'.skills| == |r.skills|
    ensures forall i :: 0 <= i < |r.skills| && r.skills[i].id != id ==>
      r'.skills[i] == r.skills[i]
    ensures forall i :: 0 <= i < |r.skills| && r.skills[i].id == id ==>
      r'.skills[i] == MergeSkill(r.skills[i], p)
    ensures !HasKey(r.skills, SkillId, id) ==> r' == r
    ensures p.id.None? ==> forall i :: 0 <= i < |r.skills| ==> r'.skills[i].id == r.skills[i].id
    ensures p.id.None? && UniqueKeys(r.skills, SkillId) ==> UniqueKeys(r'.skills, SkillId)
  {
    var xs := r.skills;
    r.(skills := seq(|xs|, i requires 0 <= i < |xs| =>
                       if xs[i].id == id then MergeSkill(xs[i], p) else xs[i]))
  }

  /** `removeSkill`. */
  function RemoveSkill(r: Resume, id: string): (r': Resume)
    ensures r' == r.(skills := r'.skills)
    ensures !HasKey(r'.skills, SkillId, id)
    ensures Sequences.Subseq(r'.skills, r.skills)
    ensures forall i :: 0 <= i < |r.skills| && r.skills[i].id != id ==> r.skills[i] in r'.skills
    ensures !HasKey(r.skills, SkillId, id) ==> r' == r
    ensures UniqueKeys(r.skills, SkillId) ==> UniqueKeys(r'.skills, SkillId)
    ensures UniqueKeys(r.skills, SkillId) && HasKey(r.skills, SkillId, id) ==>
      |r'.skills| == |r.skills| - 1
    ensures forall x {:trigger multiset(r'.skills)[x]} ::
      multiset(r'.skills)[x] == if x.id != id then multiset(r.skills)[x] else 0
  {
    r.(skills := RemoveKey(r.skills, SkillId, id))
  }

  /** The entry fields survive the round trip through an identifier. */
  lemma DraftRoundTrips(e: ExperienceDraft, d: EducationDraft, s: SkillDraft, id: string)
    ensures ExperienceFields(WithExperienceId(e, id)) == e
    ensures EducationFields(WithEducationId(d, id)) == d
    ensures SkillFields(WithSkillId(s, id)) == s
  {
  }

  // Template

  /** `setSelectedTemplate`: any string is accepted, catalog entry or not;
      nothing else in the document changes. */
  function SetSelectedTemplate(r: Resume, templateId: string): (r': Resume)
    ensures r'.selectedTemplate == templateId
    ensures r'.personal == r.personal && r'.experience == r.experience
    ensures r'.education == r.education && r'.skills == r.skills
  {
    r.(selectedTemplate := templateId)
  }

  // Every reducer, as one step of the store

  datatype Action =
    | UpdatePersonal(patch: PersonalPatch)
    | AddExp(draft: ExperienceDraft, newId: string)
    | UpdateExp(id: string, expPatch: ExperiencePatch)
    | RemoveExp(id: string)
    | AddEdu(eduDraft: EducationDraft, newId: string)
    | UpdateEdu(id: string, eduPatch: EducationPatch)
    | RemoveEdu(id: string)
    | AddSk(skillDraft: SkillDraft, newId: string)
    | UpdateSk(id: string, skillPatch: SkillPatch)
    | RemoveSk(id: string)
    | SelectTemplate(templateId: string)

  function Apply(r: Resume, a: Action): Resume {
    match a
    case UpdatePersonal(p) => UpdatePersonalInfo(r, p)
    case AddExp(d, id) => AddExperience(r, d, id)
    case UpdateExp(id, p) => UpdateExperience(r, id, p)
    case RemoveExp(id) => RemoveExperience(r, id)
    case AddEdu(d, id) => AddEducation(r, d, id)
    case UpdateEdu(id, p) => UpdateEducation(r, id, p)
    case RemoveEdu(id) => RemoveEducation(r, id)
    case AddSk(d, id) => AddSkill(r, d, id)
    case UpdateSk(id, p) => UpdateSkill(r, id, p)
    case RemoveSk(id) => RemoveSkill(r, id)
    case SelectTemplate(t) => SetSelectedTemplate(r, t)
  }

  /** The identifier handed to an add is new to its collection (the role of
      `crypto.randomUUID`), and no partial rewrites an identifier. */
  predicate Admissible(r: Resume, a: Action) {
    match a
    case AddExp(_, id) => !HasKey(r.experience, ExperienceId, id)
    case AddEdu(_, id) => !HasKey(r.education, EducationId, id)
    case AddSk(_, id) => !HasKey(r.skills, SkillId, id)
    case UpdateExp(_, p) => p.id.None?
    case UpdateEdu(_, p) => p.id.None?
    case UpdateSk(_, p) => p.id.None?
    case _ => true
  }

  /** Starting from the empty document, any run of admissible reducer calls
      keeps every identifier unique within its collection. */
  lemma {:induction false} RunKeepsIdsUnique(actions: seq<Action>)
    requires forall k :: 0 <= k < |actions| ==> Admissible(Run(DefaultResume(), actions[..k]), actions[k])
    ensures ValidResume(Run(DefaultResume(), actions))
  {
    if |actions| > 0 {
      var init := actions[..|actions| - 1];
      forall k | 0 <= k < |init| ensures Admissible(Run(DefaultResume(), init[..k]), init[k]) {
        assert init[..k] == actions[..k];
      }
      RunKeepsIdsUnique(init);
      assert actions[..|actions| - 1] == init;
      ApplyKeepsIdsUnique(Run(DefaultResume(), init), actions[|actions| - 1]);
    }
  }

  /** One admissible reducer call keeps identifiers unique. */
  lemma ApplyKeepsIdsUnique(r: Resume, a: Action)
    requires ValidResume(r) && Admissible(r, a)
    ensures ValidResume(Apply(r, a))
  {
  }

  /** The document after a sequence of reducer calls, oldest first. */
  function Run(r: Resume, actions: seq<Action>): Resume
    decreases |actions|
  {
    if |actions| == 0 then r else Apply(Run(r, actions[..|actions| - 1]), actions[|actions| - 1])
  }
}

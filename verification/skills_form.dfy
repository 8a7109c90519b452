/** The skills editor: a name input and a level slider running over the
    whole numbers 1 to 5. As long as levels only come from the slider, every
    skill of the document belongs to exactly one group of the Professional
    template. */
module SkillsForm {
  import opened Wrappers
  import Sequences
  import opened ResumeStore
  import ProfessionalTemplate

  datatype State = State(resume: Resume, draft: SkillDraft)

  /** The slider's range and step. */
  const SliderMin := 1.0
  const SliderMax := 5.0
  const SliderStep := 1.0

  /** The level a new skill starts at. */
  const DefaultLevel := 3.0

  const EmptySkill := SkillDraft("", DefaultLevel)

  /** A value the slider can report: the minimum plus a whole number of
      steps, not past the maximum. */
  predicate SliderValue(x: real) {
    exists k: nat :: k <= 4 && x == Notch(k)
  }

  /** The position `k` steps above the minimum. */
  function Notch(k: nat): real {
    SliderMin + (k as real) * SliderStep
  }

  /** The slider's values are exactly the levels the template's groups
      cover, and the starting level is one of them. */
  lemma SliderValuesAreLevels(x: real)
    ensures SliderValue(x) <==> ProfessionalTemplate.SliderLevel(x)
    ensures SliderValue(DefaultLevel)
  {
    if ProfessionalTemplate.SliderLevel(x) {
      var k: nat := (x - SliderMin).Floor;
      assert x == Notch(k);
    }
    assert DefaultLevel == Notch(2);
  }

  /** `id` as the handlers test it: present and not the empty string. */
  predicate Given(id: Option<string>) {
    id.Some? && id.value != ""
  }

  const NoChange := SkillPatch(None, None, None)

  /** `handleInputChange` on the only input, `name`. */
  function HandleNameChange(s: State, value: string, id: Option<string>): (s': State)
    ensures Given(id) ==> s'.draft == s.draft
    ensures Given(id) ==> s'.resume == UpdateSkill(s.resume, id.value, NoChange.(name := Some(value)))
    ensures !Given(id) ==> s'.resume == s.resume && s'.draft == SkillDraft(value, s.draft.level)
  {
    if Given(id) then s.(resume := UpdateSkill(s.resume, id.value, NoChange.(name := Some(value))))
    else s.(draft := s.draft.(name := value))
  }

  /** `handleLevelChange`: the slider reports its single thumb as a
      one-element list, and its first element is the new level. */
  function HandleLevelChange(s: State, value: seq<real>, id: Option<string>): (s': State)
    requires |value| > 0
    ensures Given(id) ==> s'.draft == s.draft
    ensures Given(id) ==> s'.resume == UpdateSkill(s.resume, id.value, NoChange.(level := Some(value[0])))
    ensures !Given(id) ==> s'.resume == s.resume && s'.draft == SkillDraft(s.draft.name, value[0])
  {
    if Given(id) then s.(resume := UpdateSkill(s.resume, id.value, NoChange.(level := Some(value[0]))))
    else s.(draft := s.draft.(level := value[0]))
  }

  /** `handleAddSkill`: the draft is added under the fresh identifier
      `newId`, and the form goes back to an empty name at level 3. */
  function HandleAdd(s: State, newId: string): (s': State)
    ensures |s'.resume.skills| == |s.resume.skills| + 1
    ensures s'.resume.skills[|s.resume.skills|] == Skill(newId, s.draft.name, s.draft.level)
    ensures s'.resume == AddSkill(s.resume, s.draft, newId)
    ensures s'.draft == SkillDraft("", 3.0)
  {
    State(AddSkill(s.resume, s.draft, newId), EmptySkill)
  }

  /** Pressing Add: the name input is `required`, so the browser only
      dispatches the submit event with a name. */
  function Submit(s: State, newId: string): (s': State)
    ensures s.draft.name != "" ==> s' == HandleAdd(s, newId)
    ensures s.draft.name == "" ==> s' == s
  {
    if s.draft.name != "" then HandleAdd(s, newId) else s
  }

  /** Every level in the document and in the draft is one the slider can
      report. */
  predicate OnScale(s: State) {
    && ProfessionalTemplate.SliderLevel(s.draft.level)
    && forall i :: 0 <= i < |s.resume.skills| ==> ProfessionalTemplate.SliderLevel(s.resume.skills[i].level)
  }

  /** The level handler keeps every level on the slider's scale, provided
      the slider reports one of its own values. */
  lemma LevelChangeKeepsScale(s: State, value: seq<real>, id: Option<string>)
    requires OnScale(s)
    requires |value| > 0 && SliderValue(value[0])
    ensures OnScale(HandleLevelChange(s, value, id))
  {
    SliderValuesAreLevels(value[0]);
    var s' := HandleLevelChange(s, value, id);
    forall i | 0 <= i < |s'.resume.skills| ensures ProfessionalTemplate.SliderLevel(s'.resume.skills[i].level) {
    }
  }

  /** Renaming, adding and removing keep every level on the scale. */
  lemma OtherHandlersKeepScale(s: State, name: string, id: Option<string>, newId: string)
    requires OnScale(s)
    ensures OnScale(HandleNameChange(s, name, id))
    ensures OnScale(HandleAdd(s, newId))
    ensures OnScale(Submit(s, newId))
  {
    var s' := HandleNameChange(s, name, id);
    forall i | 0 <= i < |s'.resume.skills| ensures ProfessionalTemplate.SliderLevel(s'.resume.skills[i].level) {
    }
    var a := HandleAdd(s, newId);
    forall i | 0 <= i < |a.resume.skills| ensures ProfessionalTemplate.SliderLevel(a.resume.skills[i].level) {
      if i < |s.resume.skills| {
        assert a.resume.skills[i] == s.resume.skills[i];
      }
    }
  }

  /** The delete button keeps every level on the scale. */
  lemma RemoveKeepsScale(s: State, id: string)
    requires OnScale(s)
    ensures OnScale(State(RemoveSkill(s.resume, id), s.draft))
  {
    var r := RemoveSkill(s.resume, id);
    Sequences.SubseqMembers(r.skills, s.resume.skills);
    forall i | 0 <= i < |r.skills| ensures ProfessionalTemplate.SliderLevel(r.skills[i].level) {
      assert r.skills[i] in s.resume.skills;
    }
  }

  /** A state on the slider's scale shows every skill of the document in
      exactly one group when the Professional template groups them. */
  lemma EverySkillGroupedOnce(s: State)
    requires OnScale(s)
    ensures var skills := s.resume.skills;
      |Sequences.Filter(skills, ProfessionalTemplate.IsFrontend)|
      + |Sequences.Filter(skills, ProfessionalTemplate.IsBackend)|
      + |Sequences.Filter(skills, ProfessionalTemplate.IsOther)| == |skills|
  {
    ProfessionalTemplate.SliderLevelsPartition(s.resume.skills);
  }
}

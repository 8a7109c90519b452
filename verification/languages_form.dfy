/** The languages editor: a language needs a name, its level is chosen from
    five named levels, and a stored level is shown by its label. */
module LanguagesForm {
  import opened Wrappers
  import Sequences
  import Editor

  /** One choice of the level selector: the stored value and its label. */
  datatype LevelOption = LevelOption(value: string, caption: string)

  /** `languageLevels`, in selector order. */
  const LanguageLevels: seq<LevelOption> := [
    LevelOption("native", "Native"),
    LevelOption("fluent", "Fluent"),
    LevelOption("advanced", "Advanced"),
    LevelOption("intermediate", "Intermediate"),
    LevelOption("basic", "Basic")
  ]

  datatype LanguageDraft = LanguageDraft(name: string, level: string)

  /** The level a new language starts with and returns to after an add. */
  const DefaultLevel := "intermediate"

  /** `handleAdd`: rejected without a name; an accepted language is sent as
      typed, and the form returns to an empty name at the default level. */
  function HandleAdd(d: LanguageDraft): (s: Editor.Step<LanguageDraft, LanguageDraft>)
    ensures s.call.Some? <==> d.name != ""
    ensures s.call.Some? ==> s.call.value == d
    ensures s.call.Some? ==> s.draft.name == "" && s.draft.level == "intermediate"
    ensures s.call.None? ==> s.draft == d
  {
    Editor.Submit(d, d.name != "", LanguageDraft("", DefaultLevel))
  }

  /** The default level is one of the selector's values. */
  lemma DefaultLevelIsListed()
    ensures exists i :: 0 <= i < |LanguageLevels| && LanguageLevels[i].value == DefaultLevel
  {
    assert LanguageLevels[3].value == DefaultLevel;
  }

  /** An option stores the given level. */
  function HasValue(level: string): LevelOption -> bool {
    (o: LevelOption) => o.value == level
  }

  /** The text shown for a stored level: the label of the first listed option
      with that value, or else the stored text itself. */
  function LevelLabel(level: string): (shown: string)
    ensures (forall i :: 0 <= i < |LanguageLevels| ==> LanguageLevels[i].value != level) ==> shown == level
    ensures forall i :: 0 <= i < |LanguageLevels| && LanguageLevels[i].value == level ==>
      shown == LanguageLevels[i].caption
  {
    match Sequences.Find(LanguageLevels, HasValue(level))
    case None => level
    case Some(o) =>
      LevelValuesDistinct();
      if o.caption != "" then o.caption else level
  }

  /** No two options of the selector store the same value. */
  lemma LevelValuesDistinct()
    ensures forall i, j :: 0 <= i < j < |LanguageLevels| ==> LanguageLevels[i].value != LanguageLevels[j].value
  {
    var values := seq(|LanguageLevels|, i requires 0 <= i < |LanguageLevels| => LanguageLevels[i].value);
    assert values == ["native", "fluent", "advanced", "intermediate", "basic"];
    assert forall i :: 0 <= i < |values| ==> values[i][0] == "nfaib"[i];
  }

  /** The levels the selector stores are shown by their labels. */
  lemma ListedLevelLabels()
    ensures LevelLabel("native") == "Native" && LevelLabel("basic") == "Basic"
    ensures LevelLabel(DefaultLevel) == "Intermediate"
  {
    assert LanguageLevels[0].value == "native";
    assert LanguageLevels[3].value == DefaultLevel;
    assert LanguageLevels[4].value == "basic";
  }

  /** The capitalised levels of the sample document, which the selector
      never stores, are shown as they are. */
  lemma UnlistedLevelsShownRaw()
    ensures LevelLabel("Native") == "Native" && LevelLabel("Professional") == "Professional"
  {
    var values := ["native", "fluent", "advanced", "intermediate", "basic"];
    assert forall i :: 0 <= i < |LanguageLevels| ==> LanguageLevels[i].value == values[i];
    assert "Native" !in values;
    assert "Professional" !in values;
  }

  /** Submitting the cleared form again sends nothing. */
  lemma NoDoubleAdd(d: LanguageDraft)
    ensures HandleAdd(HandleAdd(d).draft).call.None?
  {
  }
}

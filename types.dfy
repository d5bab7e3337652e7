/** The rule schema of the plugin (src/types.ts): a flat record whose
    kind-specific parameters are all optional, as the settings file stores it. */
module Types {

  datatype Option<+T> = None | Some(value: T) {
    function GetOr(default: T): T {
      match this
      case Some(v) => v
      case None => default
    }
  }

  /** The five rule kinds. */
  datatype RuleType = Folder | Tag | Property | Multi | Dataview

  /** The string each kind is stored and selected as. */
  function RuleTypeTag(t: RuleType): string {
    match t
    case Folder => "folder"
    case Tag => "tag"
    case Property => "property"
    case Multi => "multi"
    case Dataview => "dataview"
  }

  /** The kind a stored string names, if it names one. */
  function RuleTypeFromTag(s: string): (r: Option<RuleType>)
    ensures r.Some? ==> RuleTypeTag(r.value) == s
  {
    if s == "folder" then Some(Folder)
    else if s == "tag" then Some(Tag)
    else if s == "property" then Some(Property)
    else if s == "multi" then Some(Multi)
    else if s == "dataview" then Some(Dataview)
    else None
  }

  /** Every kind is read back from its own tag, so no two kinds share a tag. */
  lemma RuleTypeTagsDistinct(a: RuleType, b: RuleType)
    ensures RuleTypeFromTag(RuleTypeTag(a)) == Some(a)
    ensures RuleTypeTag(a) == RuleTypeTag(b) ==> a == b
  {
    assert RuleTypeFromTag(RuleTypeTag(b)) == Some(b);
  }

  /** The kinds a sub-condition of a Multi rule may have. */
  datatype SubConditionType = SubFolder | SubTag | SubProperty

  function SubConditionTag(t: SubConditionType): string {
    match t
    case SubFolder => "folder"
    case SubTag => "tag"
    case SubProperty => "property"
  }

  /** A sub-condition's tag is that of a folder, tag or property rule: it never
      names a Multi or a Dataview rule, so sub-conditions cannot nest. */
  lemma SubConditionKindsAreFlat(t: SubConditionType)
    ensures RuleTypeFromTag(SubConditionTag(t)).Some?
    ensures RuleTypeFromTag(SubConditionTag(t)).value !in {Multi, Dataview}
  {
  }

  datatype SubCondition = SubCondition(
    kind: SubConditionType,
    negated: Option<bool>,
    path: Option<string>,
    recursive: Option<bool>,
    tag: Option<string>,
    includeSubtags: Option<bool>,
    propertyName: Option<string>,
    propertyValue: Option<string>)

  datatype MultiConditionLogic = Any | All

  /** One rule. `name`, `enabled`, `kind` and `enableSpellcheck` are always
      present; every other field may be absent. */
  datatype Rule = Rule(
    name: string,
    enabled: bool,
    kind: RuleType,
    enableSpellcheck: bool,
    negated: Option<bool>,
    path: Option<string>,
    recursive: Option<bool>,
    tag: Option<string>,
    includeSubtags: Option<bool>,
    propertyName: Option<string>,
    propertyValue: Option<string>,
    dataviewQuery: Option<string>,
    multiConditionLogic: Option<MultiConditionLogic>,
    conditions: Option<seq<SubCondition>>)

  /** Truthiness of an optional flag: an absent flag reads as false. */
  predicate IsTrue(b: Option<bool>) {
    b == Some(true)
  }

  /** Truthiness of an optional string: absent and empty both read as false. */
  predicate IsFilled(s: Option<string>) {
    s.Some? && s.value != ""
  }

  /** `s || ''` */
  function OrEmpty(s: Option<string>): (r: string)
    ensures IsFilled(s) <==> r != ""
    ensures IsFilled(s) ==> r == s.value
  {
    s.GetOr("")
  }

  datatype Settings = Settings(rules: seq<Rule>)

  const DefaultSettings: Settings := Settings([])

  /** What the plugin's data file yields: nothing at all, or an object that may
      or may not carry a rule list. */
  datatype StoredData = NothingStored | Stored(rules: Option<seq<Rule>>)

  /** `Object.assign({}, DEFAULT_SETTINGS, loaded)`: a stored rule list
      replaces the default one; otherwise the default empty list stays. */
  function MergeOverDefaults(loaded: StoredData): (s: Settings)
    ensures loaded.Stored? && loaded.rules.Some? ==> s.rules == loaded.rules.value
    ensures !(loaded.Stored? && loaded.rules.Some?) ==> s.rules == []
  {
    match loaded
    case NothingStored => DefaultSettings
    case Stored(rules) => Settings(rules.GetOr(DefaultSettings.rules))
  }
}

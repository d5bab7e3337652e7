/** The rule list as the settings tab edits it (src/settings.ts): appending,
    deleting and editing rules, the per-rule expanded flags kept in a list
    parallel to the rules, the heading of each rule, and the cached folder
    suggestions. Drawing the widgets is not modelled; each widget callback
    that changes state is a method of the tab. */
module Settings {
  import opened Types
  import opened Text
  import opened Main

  /** The rule the "Add new rule" button appends: an enabled, un-negated,
      recursive folder rule for the vault root that turns spellcheck off. */
  function NewRule(): (r: Rule)
    ensures r.name == "New Rule" && r.path == Some("")
    ensures r.enabled && r.kind == Folder && !r.enableSpellcheck && !IsTrue(r.negated)
    ensures IsRootRulePath(OrEmpty(r.path)) && IsTrue(r.recursive)
  {
    Rule("New Rule", true, Folder, false,
         None, Some(""), Some(true), None, None, None, None, None, None, None)
  }

  /** A fresh rule is a recursive root folder rule that turns spellcheck off:
      appended behind rules of which none matches, it matches every file and
      turns spellcheck off everywhere. */
  lemma NewRuleTurnsSpellcheckOff(host: Host, file: FileRef, rules: seq<Rule>)
    requires forall j :: 0 <= j < |rules| ==> !Selects(host, file, rules[j])
    ensures Selects(host, file, NewRule())
    ensures !Decision(host, file, rules + [NewRule()])
  {
    var all := rules + [NewRule()];
    assert forall j :: 0 <= j < |rules| ==> all[j] == rules[j];
    FirstSelectedDecides(host, file, all, |rules|);
  }

  /** The expanded flags after `display` adjusts them to `n` rules: missing
      flags are added as collapsed, surplus ones cut off. */
  function Resized(states: seq<bool>, n: nat): (r: seq<bool>)
    ensures |r| == n
    ensures forall i :: 0 <= i < n && i < |states| ==> r[i] == states[i]
    ensures forall i :: |states| <= i < n ==> !r[i]
  {
    if |states| < n then states + seq(n - |states|, _ => false) else states[..n]
  }

  /** `s.splice(i, 1)`: removes the entry at `i` and shifts the later ones
      down; an index past the end removes nothing. */
  function SpliceOut<T>(s: seq<T>, i: nat): (r: seq<T>)
    ensures i < |s| ==> |r| == |s| - 1
    ensures i < |s| ==> forall j :: 0 <= j < i ==> r[j] == s[j]
    ensures i < |s| ==> forall j :: i <= j < |r| ==> r[j] == s[j + 1]
    ensures i >= |s| ==> r == s
  {
    if i < |s| then s[..i] + s[i + 1..] else s
  }

  /** The name a rule heading shows. */
  function DisplayName(name: string): (r: string)
    ensures IsBlank(name) ==> r == "Unnamed Rule"
    ensures !IsBlank(name) ==> r == name
  {
    TrimEmptyIffBlank(name);
    if name != "" && Trim(name) != "" then name else "Unnamed Rule"
  }

  /** The heading of the rule at `index`: `Rule `, the one-based position in
      decimal, `: `, and the name as displayed. */
  function HeadingText(index: nat, name: string): (h: string)
    ensures StartsWith(h, "Rule ") && EndsWith(h, DisplayName(name))
    ensures var d := DecimalString(index + 1);
      5 + |d| < |h| && h[5..5 + |d|] == d && h[5 + |d|] == ':' && DecimalValue(d) == index + 1
  {
    var d, x := DecimalString(index + 1), DisplayName(name);
    HeadingLayout(d, x);
    DecimalRoundTrip(index + 1);
    "Rule " + d + ": " + x
  }

  /** Where the pieces of a heading sit: the number starts after `Rule `, a
      `:` follows it, and the name closes the heading after `: `. */
  lemma HeadingLayout(d: string, x: string)
    ensures var h := "Rule " + d + ": " + x;
      && |h| == 7 + |d| + |x| && h[..5] == "Rule " && h[5 + |d|] == ':'
      && h[5..5 + |d|] == d && h[7 + |d|..] == x
  {
    var h := "Rule " + d + ": " + x;
    var front := "Rule " + d;
    assert h == front + (": " + x);
    assert h[5 + |d|] == (": " + x)[0];
    assert front[5..] == d;
    assert h[..5 + |d|] == front;
  }

  /** A heading ends with the rule's name, or `Unnamed Rule` for a blank one. */
  lemma HeadingShowsName(index: nat, name: string)
    ensures var h := HeadingText(index, name);
      && (!IsBlank(name) ==> h[|h| - |name|..] == name)
      && (IsBlank(name) ==> h[|h| - 12..] == "Unnamed Rule")
  {
    HeadingLayout(DecimalString(index + 1), DisplayName(name));
  }

  /** Two digit strings that both run from position 5 up to a `:` of the
      same string are the same. */
  lemma DigitsUpToColon(h: string, d1: string, d2: string)
    requires IsDigits(d1) && IsDigits(d2)
    requires 5 + |d1| < |h| && h[5 + |d1|] == ':' && h[5..5 + |d1|] == d1
    requires 5 + |d2| < |h| && h[5 + |d2|] == ':' && h[5..5 + |d2|] == d2
    ensures d1 == d2
  {
    assert forall k :: 0 <= k < |d1| ==> h[5 + k] == d1[k];
    assert forall k :: 0 <= k < |d2| ==> h[5 + k] == d2[k];
    assert |d1| == |d2|;
  }

  /** Two rules at different positions never get the same heading, whatever
      their names: the heading determines the position. */
  lemma HeadingTextsDistinct(i: nat, j: nat, a: string, b: string)
    ensures HeadingText(i, a) == HeadingText(j, b) ==> i == j
  {
    var di, dj := DecimalString(i + 1), DecimalString(j + 1);
    HeadingLayout(di, DisplayName(a));
    HeadingLayout(dj, DisplayName(b));
    if HeadingText(i, a) == HeadingText(j, b) {
      DigitsUpToColon(HeadingText(i, a), di, dj);
      DecimalRoundTrip(i + 1);
      DecimalRoundTrip(j + 1);
    }
  }

  /** The "Include subfolders" toggle shows `rule.recursive !== false`. */
  predicate RecursiveToggleShown(rule: Rule) {
    rule.recursive != Some(false)
  }

  /** A rule whose `recursive` was never set shows the toggle on, yet is
      evaluated as non-recursive. */
  lemma UnsetRecursiveShownOnButNotApplied(file: FileRef, rule: Rule)
    requires rule.recursive == None
    ensures RecursiveToggleShown(rule)
    ensures EvaluateFolderRule(file, rule) == EvaluateFolderRule(file, rule.(recursive := Some(false)))
    ensures rule.path == Some("Notes") && file == FileRef("Notes/Sub/a.md", Some("Notes/Sub")) ==>
              !EvaluateFolderRule(file, rule) && EvaluateFolderRule(file, rule.(recursive := Some(true)))
  {
    if rule.path == Some("Notes") && file == FileRef("Notes/Sub/a.md", Some("Notes/Sub")) {
      assert "Notes/Sub/a.md"[..5] == "Notes";
      FolderNonRecursiveIsDirectParent(file, rule);
    }
  }

  /** A change made through one of the rule's widgets. */
  datatype RuleEdit =
    | SetName(name: string)
    | SetEnabled(enabled: bool)
    | SetType(kind: RuleType)
    | SetCondition(choice: string)
    | SetPath(path: string)
    | SetRecursive(recursive: bool)
    | SetTag(tag: string)
    | SetPropertyName(propertyName: string)
    | SetPropertyValue(propertyValue: string)
    | SetDataviewQuery(dataviewQuery: string)
    | SetEnableSpellcheck(enableSpellcheck: bool)

  /** The rule after one widget callback: each sets exactly its own field.
      The condition dropdown stores whether `not` was chosen. */
  function ApplyEdit(rule: Rule, edit: RuleEdit): (r: Rule)
    // what each widget writes
    ensures edit.SetName? ==> r.name == edit.name
    ensures edit.SetEnabled? ==> r.enabled == edit.enabled
    ensures edit.SetType? ==> r.kind == edit.kind
    ensures edit.SetCondition? ==> r.negated.Some? && (IsTrue(r.negated) <==> edit.choice == "not")
    ensures edit.SetPath? ==> r.path == Some(edit.path)
    ensures edit.SetRecursive? ==> r.recursive == Some(edit.recursive)
    ensures edit.SetTag? ==> r.tag == Some(edit.tag)
    ensures edit.SetPropertyName? ==> r.propertyName == Some(edit.propertyName)
    ensures edit.SetPropertyValue? ==> r.propertyValue == Some(edit.propertyValue)
    ensures edit.SetDataviewQuery? ==> r.dataviewQuery == Some(edit.dataviewQuery)
    ensures edit.SetEnableSpellcheck? ==> r.enableSpellcheck == edit.enableSpellcheck
    // and nothing else: a field changes only through its own widget
    ensures r.name != rule.name ==> edit.SetName?
    ensures r.enabled != rule.enabled ==> edit.SetEnabled?
    ensures r.kind != rule.kind ==> edit.SetType?
    ensures r.negated != rule.negated ==> edit.SetCondition?
    ensures r.path != rule.path ==> edit.SetPath?
    ensures r.recursive != rule.recursive ==> edit.SetRecursive?
    ensures r.tag != rule.tag ==> edit.SetTag?
    ensures r.propertyName != rule.propertyName ==> edit.SetPropertyName?
    ensures r.propertyValue != rule.propertyValue ==> edit.SetPropertyValue?
    ensures r.dataviewQuery != rule.dataviewQuery ==> edit.SetDataviewQuery?
    ensures r.enableSpellcheck != rule.enableSpellcheck ==> edit.SetEnableSpellcheck?
    ensures r.includeSubtags == rule.includeSubtags
    ensures r.multiConditionLogic == rule.multiConditionLogic && r.conditions == rule.conditions
  {
    match edit
    case SetName(v) => rule.(name := v)
    case SetEnabled(v) => rule.(enabled := v)
    case SetType(v) => rule.(kind := v)
    case SetCondition(v) => rule.(negated := Some(v == "not"))
    case SetPath(v) => rule.(path := Some(v))
    case SetRecursive(v) => rule.(recursive := Some(v))
    case SetTag(v) => rule.(tag := Some(v))
    case SetPropertyName(v) => rule.(propertyName := Some(v))
    case SetPropertyValue(v) => rule.(propertyValue := Some(v))
    case SetDataviewQuery(v) => rule.(dataviewQuery := Some(v))
    case SetEnableSpellcheck(v) => rule.(enableSpellcheck := v)
  }

  /** The kinds the type dropdown offers: Multi is not among them. */
  const TypeOptions: seq<RuleType> := [Folder, Tag, Property, Dataview]

  /** Changing a rule's kind keeps every other field, so a stale `negated`
      still applies: a negated rule switched to Dataview before its query is
      filled in matches every file. */
  lemma TypeChangeKeepsNegation(host: Host, file: FileRef, rule: Rule)
    requires IsTrue(rule.negated) && !IsFilled(rule.dataviewQuery)
    ensures var changed := ApplyEdit(rule, SetType(Dataview));
      changed.(kind := rule.kind) == rule && Matches(host, file, changed)
  {
  }

  /** An entry of the vault's loaded-file list. */
  datatype VaultEntry = FileEntry(path: string) | FolderEntry(path: string)

  /** The folder suggestions built from the vault's entries: `/` and every
      folder's path with `/` appended, and nothing else. */
  function FolderSuggestions(entries: seq<VaultEntry>): (r: set<string>)
    ensures "/" in r
    ensures forall i :: 0 <= i < |entries| && entries[i].FolderEntry? ==> entries[i].path + "/" in r
    ensures forall s :: s in r ==>
              (s == "/" || exists i :: 0 <= i < |entries| && entries[i].FolderEntry? && s == entries[i].path + "/")
    decreases |entries|
  {
    if entries == [] then {"/"}
    else
      var init := entries[..|entries| - 1];
      var last := entries[|entries| - 1];
      assert forall i :: 0 <= i < |init| ==> init[i] == entries[i];
      FolderSuggestions(init) + (if last.FolderEntry? then {last.path + "/"} else {})
  }

  /** The settings tab: the expanded flag of each rule, and the suggestion
      caches, next to the plugin whose rule list it edits. */
  class SettingTab {
    const plugin: SpellcheckControlPlugin
    var ruleExpandedStates: seq<bool>
    var allFolderPathsCache: Option<set<string>>
    var allTagsCache: Option<set<string>>
    var allPropertyNamesCache: Option<set<string>>

    /** One expanded flag per rule. */
    predicate Aligned()
      reads this, plugin
    {
      |ruleExpandedStates| == |plugin.settings.rules|
    }

    predicate CachesCleared()
      reads this
    {
      allFolderPathsCache.None? && allTagsCache.None? && allPropertyNamesCache.None?
    }

    constructor (plugin: SpellcheckControlPlugin)
      ensures this.plugin == plugin && ruleExpandedStates == [] && CachesCleared()
    {
      this.plugin := plugin;
      ruleExpandedStates := [];
      allFolderPathsCache := None;
      allTagsCache := None;
      allPropertyNamesCache := None;
    }

    /** `display`, without drawing: clears the caches and fits the expanded
      flags to the rule list. */
    method Display()
      modifies this
      ensures Aligned() && CachesCleared()
      ensures ruleExpandedStates == Resized(old(ruleExpandedStates), |plugin.settings.rules|)
    {
      allFolderPathsCache := None;
      allTagsCache := None;
      allPropertyNamesCache := None;

      var numRules := |plugin.settings.rules|;
      ghost var before := ruleExpandedStates;
      while |ruleExpandedStates| < numRules
        invariant |before| <= |ruleExpandedStates|
        invariant ruleExpandedStates[..|before|] == before
        invariant forall i :: |before| <= i < |ruleExpandedStates| ==> !ruleExpandedStates[i]
        invariant |ruleExpandedStates| <= numRules || ruleExpandedStates == before
        invariant CachesCleared()
        decreases numRules - |ruleExpandedStates|
      {
        ruleExpandedStates := ruleExpandedStates + [false];
      }
      ghost var grown := ruleExpandedStates;
      assert forall i :: 0 <= i < |before| ==> grown[i] == before[i] by {
        forall i | 0 <= i < |before| ensures grown[i] == before[i] {
          assert before[i] == grown[..|before|][i];
        }
      }
      if |ruleExpandedStates| > numRules {
        ruleExpandedStates := ruleExpandedStates[..numRules];
      }
    }

    /** The "Add new rule" button: appends a default rule, expanded, then
      redisplays. */
    method AddRule()
      modifies this, plugin
      ensures plugin.settings.rules == old(plugin.settings.rules) + [NewRule()]
      ensures Aligned() && CachesCleared()
      ensures ruleExpandedStates == Resized(old(ruleExpandedStates) + [true], |old(plugin.settings.rules)| + 1)
      ensures old(Aligned()) ==> ruleExpandedStates == old(ruleExpandedStates) + [true]
    {
      plugin.settings := plugin.settings.(rules := plugin.settings.rules + [NewRule()]);
      ruleExpandedStates := ruleExpandedStates + [true];
      Display();
    }

    /** The "Delete Rule" button of the rule at `index`: removes it and its
      expanded flag, then redisplays. An index past the end (a second click
      before the redisplay) removes nothing. */
    method DeleteRule(index: nat)
      modifies this, plugin
      ensures plugin.settings.rules == SpliceOut(old(plugin.settings.rules), index)
      ensures Aligned() && CachesCleared()
      ensures ruleExpandedStates == Resized(SpliceOut(old(ruleExpandedStates), index), |plugin.settings.rules|)
      ensures old(Aligned()) ==> ruleExpandedStates == SpliceOut(old(ruleExpandedStates), index)
    {
      plugin.settings := plugin.settings.(rules := SpliceOut(plugin.settings.rules, index));
      ruleExpandedStates := SpliceOut(ruleExpandedStates, index);
      Display();
    }

    /** A click on the heading of the rule at `index` flips its flag only. */
    method ToggleExpanded(index: nat)
      requires index < |ruleExpandedStates|
      modifies this`ruleExpandedStates
      ensures |ruleExpandedStates| == |old(ruleExpandedStates)|
      ensures ruleExpandedStates[index] == !old(ruleExpandedStates)[index]
      ensures forall j :: 0 <= j < |ruleExpandedStates| && j != index ==>
                ruleExpandedStates[j] == old(ruleExpandedStates)[j]
    {
      var isNowExpanded := !ruleExpandedStates[index];
      ruleExpandedStates := ruleExpandedStates[index := isNowExpanded];
    }

    /** A widget callback on the rule at `index`; changing the kind also
      redisplays. */
    method EditRule(index: nat, edit: RuleEdit)
      requires index < |plugin.settings.rules|
      requires edit.SetType? ==> edit.kind in TypeOptions
      modifies this, plugin
      ensures plugin.settings.rules ==
                old(plugin.settings.rules)[index := ApplyEdit(old(plugin.settings.rules)[index], edit)]
      ensures edit.SetType? ==>
                (Aligned() && CachesCleared() &&
                 ruleExpandedStates == Resized(old(ruleExpandedStates), |plugin.settings.rules|))
      ensures !edit.SetType? ==> unchanged(this)
    {
      var rules := plugin.settings.rules;
      plugin.settings := plugin.settings.(rules := rules[index := ApplyEdit(rules[index], edit)]);
      if edit.SetType? {
        Display();
      }
    }

    /** `getAvailableFolderPaths`: the cached set if there is one, otherwise
      the set built from the vault's entries, which is then cached. */
    method GetAvailableFolderPaths(entries: seq<VaultEntry>) returns (folders: set<string>)
      modifies this`allFolderPathsCache
      ensures old(allFolderPathsCache).Some? ==> folders == old(allFolderPathsCache).value
      ensures old(allFolderPathsCache).None? ==> folders == FolderSuggestions(entries)
      ensures allFolderPathsCache == Some(folders)
    {
      if allFolderPathsCache.Some? {
        return allFolderPathsCache.value;
      }
      folders := {"/"};
      for i := 0 to |entries|
        invariant folders == FolderSuggestions(entries[..i])
      {
        assert entries[..i + 1][..i] == entries[..i];
        if entries[i].FolderEntry? {
          folders := folders + {entries[i].path + "/"};
        }
      }
      assert entries[..|entries|] == entries;
      allFolderPathsCache := Some(folders);
    }
  }
}

# Spellcheck Controls — rule engine model

A Dafny model of the rule engine of the Obsidian plugin "Spellcheck Controls".
For the active note, the plugin walks an ordered list of user rules. It skips
disabled rules. It evaluates each enabled rule's predicate (folder location,
tag, frontmatter property, or membership in a Dataview query result) and XORs
the result with the rule's `negated` flag. The first rule that matches decides
whether spellcheck is on. When none matches, spellcheck is on. The settings tab
keeps the rule list and a parallel list of per-rule "expanded" flags, and
caches the folder suggestions.

Files:

- `text.dfy` (module `Text`): the JavaScript string operations the source uses.
  These are `startsWith`, `endsWith`, `trim` (with ECMAScript's whitespace set)
  and the decimal rendering of a number.
- `types.dfy` (module `Types`, from `src/types.ts`): `RuleType`, `SubCondition`,
  `Rule` as a flat record whose optional fields are `Option`s, `Settings`, the
  defaults, and the merge of loaded data over the defaults. It also holds the
  JavaScript truthiness of optional fields (`IsTrue`, `IsFilled`, `OrEmpty`).
- `main.dfy` (module `Main`, from `src/main.ts`): the four predicates, the
  negation, and the decision loop. The plugin object holds the settings.
- `settings.dfy` (module `Settings`, from `src/settings.ts`): the settings tab
  as a class. It has the expanded flags, the three suggestion caches, and one
  method per state-changing widget callback.

Host inputs are values:

- the active file: its path and its parent folder's path;
- the metadata-cache lookup, which may throw (`HostCall`), giving the resolved
  tags and the frontmatter;
- the Dataview plugin lookup: the registry lookup throws, no API, or an API
  whose query gives `QueryThrew`, `Unsuccessful` or `Succeeded(values)`.

Frontmatter values are already stringified (`String(v)`), as a single value or
a list.

Behaviours of the code a reader might not expect; the model follows the code:

- An empty folder path means the vault root, so with `recursive` it matches
  every file (src/main.ts:101-103).
- The Dataview registry lookup (src/main.ts:155) sits outside the predicate's
  own `try`. A failure there reaches the loop's `catch`, which makes it a
  non-match even for a negated rule. A query that throws inside the `try` is a
  raw `false`, which negation turns into a match. A null value in the result
  list throws inside the `try` too, so the scan stops there with `false`.
- `includeSubtags` is never set by the settings tab, so tag rules are exact
  matches in practice (`Main.TagRuleWithoutSubtagsIsExact`).

## Model

| member | source | states |
|---|---|---|
| `Types.RuleTypeFromTag` | src/types.ts:1-7 | a stored string is read as a kind only when it is that kind's tag |
| `Types.RuleTypeTagsDistinct` | src/types.ts:1-7 | each of the five kinds reads back from its own tag, so no two kinds share a tag |
| `Types.SubConditionKindsAreFlat` | src/types.ts:9-18 | a sub-condition is a folder, tag or property condition; it never names a Multi or Dataview rule |
| `Types.OrEmpty` | src/main.ts:101 | defaulting to the empty string gives a non-empty string exactly when the optional string is present and non-empty, and is then that string |
| `Types.MergeOverDefaults` | src/main.ts:26-28 | a stored rule list replaces the default; with no stored list the rules are the default empty list |
| `Text.StartsWith` | src/main.ts:108 | `startsWith` (also at src/main.ts:127): true exactly when the prefix is no longer than the string and agrees with it character by character |
| `Text.EndsWith` | src/main.ts:112 | `endsWith`: true exactly when the suffix is no longer than the string and agrees with its last characters |
| `Text.TrimStart` | src/main.ts:144 | the leading-whitespace half of `trim`: the result is a suffix of the string, what it drops is blank, and it does not start with whitespace |
| `Text.TrimEnd` | src/main.ts:144 | the trailing-whitespace half of `trim`: the result is a prefix of the string, what it drops is blank, and it does not end with whitespace |
| `Text.Trim` | src/main.ts:144 | `trim` (also at src/settings.ts:85): the result is the slice of the string that starts where the leading whitespace ends, is followed only by whitespace, and does not end with whitespace |
| `Text.DecimalString` | src/settings.ts:86 | the rendering of `${index + 1}` (also at src/settings.ts:108) is a non-empty string of decimal digits |
| `Text.TrimEmptyIffBlank` | src/main.ts:144 | `trim() === ''` holds exactly for strings made only of whitespace |
| `Text.DecimalRoundTrip` | src/settings.ts:86 | reading back the decimal rendering of a number gives the number |
| `Main.EvaluateFolderRule` | src/main.ts:100-115 | a recursive rule matches every file whose path starts with the rule path, and a root rule every file; a non-recursive rule never matches a file without a parent folder |
| `Main.FolderRootRecursiveMatchesAll` | src/main.ts:102-103 | an empty or `/` rule path with `recursive` set matches every file |
| `Main.FolderRootNonRecursiveMatchesRootChildren` | src/main.ts:102-105 | a root rule without `recursive` (absent included) matches exactly the files whose parent is `/` |
| `Main.FolderRecursiveIsStringPrefix` | src/main.ts:107-108 | a recursive non-root rule matches exactly when the rule path is a character prefix of the file path |
| `Main.FolderPrefixMatchesSiblingFolder` | src/main.ts:107-108 | the prefix test has no folder boundary: `Notes` matches `NotesArchive/doc.md` and `Notes/Sub/doc.md`, not `Archive/Notes.md` |
| `Main.FolderNonRecursiveIsDirectParent` | src/main.ts:109-114 | a non-recursive non-root rule matches exactly when the parent is the rule path less one trailing `/`; a file without a parent never matches |
| `Main.StripLeadingHash` | src/main.ts:123 | at most one leading `#` is removed; a string without one is unchanged |
| `Main.RuleTag` | src/main.ts:123 | the normalised rule tag always starts with `#` |
| `Main.RuleTagIdempotent` | src/main.ts:123 | normalising a normalised tag changes nothing, whether the rule's tag is set or absent |
| `Main.RuleTagHashOptional` | src/main.ts:123 | a tag `t` with no leading `#` (the empty tag included) and `#t` normalise alike |
| `Main.DoubleHashIsKept` | src/main.ts:123 | only one `#` is stripped: `#a` normalises to `#a`, while `##a` stays `##a` |
| `Main.AnyTagMatches` | src/main.ts:125-131 | true exactly when some document tag equals the rule tag or, with subtags, starts with the rule tag and `/` |
| `Main.EvaluateTagRule` | src/main.ts:117-132 | an error only when the cache lookup throws; a match only with a cache, a tag list and a matching tag |
| `Main.TagRuleWithoutSubtagsIsExact` | src/main.ts:125-131 | without `includeSubtags` the rule matches exactly when the normalised tag is among the document's tags |
| `Main.SubtagsOnlyWiden` | src/main.ts:125-131 | for every rule tag, the document tags that match exactly also match with `includeSubtags` |
| `Main.TagRuleSubtags` | src/main.ts:126-127 | the rule `proj` with subtags matches `#proj` and `#proj/sub` but not `#projects` |
| `Main.AnyStringEquals` | src/main.ts:148 | a list value matches exactly when the target is one of its stringified elements |
| `Main.EvaluatePropertyRule` | src/main.ts:134-151 | an error only when the lookup throws; no cache, no frontmatter or no property name gives false |
| `Main.PropertyRuleMeaning` | src/main.ts:134-151 | matches exactly when the named property is present and the target is absent, blank, or equal (untrimmed) to the value or an element of it |
| `Main.ScanValues` | src/main.ts:162-169 | true exactly when some value names the file by `path` or `file.path` and no null value comes before it |
| `Main.DataviewResult` | src/main.ts:153-170 | an error only when a query is set and the registry lookup throws; a match only for a successful result whose scan finds the file |
| `Main.EvaluateDataviewRule` | src/main.ts:153-170 | the loop with its early returns computes the Dataview predicate |
| `Main.RawMatch` | src/main.ts:80-94 | a Multi rule keeps the initial `false`; a folder rule never throws; an exception comes only from a throwing cache lookup, or for Dataview from a throwing registry lookup |
| `Main.Evaluation` | src/main.ts:79-98 | the result is the raw predicate XOR `negated` for every kind; an exception passes through unchanged |
| `Main.EvaluateRule` | src/main.ts:79-98 | the method, awaiting the Dataview predicate, computes the evaluation |
| `Main.NegationInverts` | src/main.ts:96-97 | when the predicate completes, the negated rule matches exactly when the un-negated one does not; `negated: false` equals absent |
| `Main.ErrorIsNeverAMatch` | src/main.ts:48-53 | an exception that reaches the loop is a non-match, negated or not |
| `Main.MultiMatchesIffNegated` | src/main.ts:80-97 | a Multi rule has no case in the switch, so it matches exactly when it is negated |
| `Main.DataviewExceptionsAndNegation` | src/main.ts:154-169 | for a negated Dataview rule, a query that throws or a missing API gives a match; a throwing registry lookup does not |
| `Main.NegatedPropertyRule` | src/main.ts:134-151 | a negated `status`/`done` rule matches when the property is missing or its value does not match `done` |
| `Main.FirstMatch` | src/main.ts:45-59 | the index found is an enabled matching rule with no enabled matching rule before it; none found means no enabled rule matches |
| `Main.EnabledBelow` | src/main.ts:45-47 | the evaluated indices are, in increasing order, exactly the enabled rules before the stop point |
| `Main.Decision` | src/main.ts:45-69 | spellcheck is off only when some enabled rule that matches says off; when every enabled rule says off and one matches, it is off |
| `Main.FirstSelectedDecides` | src/main.ts:55-58 | the first enabled matching rule is the one found, and its `enableSpellcheck` is the decision |
| `Main.NoMatchMeansEnabled` | src/main.ts:65-69 | when no enabled rule matches, the decision is `true` |
| `Main.DisabledRuleIsIgnored` | src/main.ts:46 | removing a disabled rule from the list never changes the decision |
| `Main.SpellcheckControlPlugin.constructor` | src/main.ts:5-6 | a new plugin object holds the default settings |
| `Main.SpellcheckControlPlugin.LoadSettings` | src/main.ts:26-28 | the settings become the loaded data merged over the defaults |
| `Main.SpellcheckControlPlugin.CheckAndApplySpellcheck` | src/main.ts:35-70 | no active file applies nothing; otherwise it applies the first-match decision and evaluates exactly the enabled rules up to and including the first match |
| `Settings.NewRule` | src/settings.ts:59-66 | the new rule is named `New Rule`, is enabled and not negated, is a recursive folder rule with the empty path (the vault root), and turns spellcheck off |
| `Settings.NewRuleTurnsSpellcheckOff` | src/settings.ts:59-66 | the default new rule matches every file, so appended behind non-matching rules it turns spellcheck off |
| `Settings.Resized` | src/settings.ts:40-46 | the flags get exactly one entry per rule; existing flags are kept and new ones are `false` |
| `Settings.SpliceOut` | src/settings.ts:202-203 | removes the entry at the index and shifts later ones down; an index past the end changes nothing |
| `Settings.DisplayName` | src/settings.ts:85 | a blank name shows as `Unnamed Rule`; any other name shows as written |
| `Settings.HeadingText` | src/settings.ts:85-86 | a heading starts with `Rule `, ends with the displayed name, and carries the one-based position in decimal just before its first `:` |
| `Settings.HeadingLayout` | src/settings.ts:86 | a heading is `Rule `, the number, `: `, the name, with the `:` right after the number |
| `Settings.HeadingShowsName` | src/settings.ts:85-86 | a heading ends with the rule's name, or with `Unnamed Rule` when the name is blank |
| `Settings.HeadingTextsDistinct` | src/settings.ts:86 | rules at different positions never share a heading, whatever their names |
| `Settings.UnsetRecursiveShownOnButNotApplied` | src/settings.ts:151 | an absent `recursive` shows the toggle on, but the rule is evaluated as non-recursive |
| `Settings.ApplyEdit` | src/settings.ts:102-193 | each of the eleven widget callbacks writes the value it was given into its own field, and every field changes only through its own widget; the condition dropdown negates exactly on `not`; no widget touches `includeSubtags` or the Multi fields |
| `Settings.TypeChangeKeepsNegation` | src/settings.ts:131-132 | changing the kind keeps every other field, so a negated rule switched to Dataview with no query matches every file |
| `Settings.FolderSuggestions` | src/settings.ts:211-217 | the suggestions hold `/` and each folder's path with `/` appended, and nothing else |
| `Settings.SettingTab.constructor` | src/settings.ts:8-21 | a new tab has no expanded flags and no caches |
| `Settings.SettingTab.Display` | src/settings.ts:36-46 | clears all three caches and resizes the flags to one per rule |
| `Settings.SettingTab.AddRule` | src/settings.ts:54-71 | appends the default rule and an expanded flag, and leaves the flags aligned with the rules |
| `Settings.SettingTab.DeleteRule` | src/settings.ts:201-205 | removes the rule and its flag at the index, shifting later ones, and leaves the two lists aligned; an index past the end removes nothing |
| `Settings.SettingTab.ToggleExpanded` | src/settings.ts:95-99 | flips the flag at the index and no other |
| `Settings.SettingTab.EditRule` | src/settings.ts:102-194 | a widget callback replaces the rule at the index by the edited rule; only a kind change redisplays; the kind dropdown offers every kind but Multi |
| `Settings.SettingTab.GetAvailableFolderPaths` | src/settings.ts:209-220 | a cached set is returned unchanged; otherwise the suggestions are built, cached and returned |

## Left out

- Writing the `spellcheck` attribute to the editor (`setSpellcheck`): editor I/O. The decision method returns the value it would apply.
- Event registration in `onload`, and persistence through `saveData`/`loadData`: host plumbing. Saving also re-runs the decision, which is not modelled.
- The debounce of text-field saves: timing only.
- Obsidian's `getFileCache` and `getAllTags`: their outcome is an input.
- The Dataview registry lookup and the awaited `dv.query`: their outcome is an input.
- Async suspension, and the race in which a stale decision lands on a note that is no longer active: concurrency. The model reads the rule list once per decision.
- The "Delete Rule" button stays live while `saveSettings` is awaited, before `display` redraws. A second click in that window splices again at the same index: it deletes the next rule, or nothing past the end. `Settings.SettingTab.DeleteRule` accepts any index, so each click is one call, but the interleaving with the pending save is not modelled.
- The `console.error` of a rule that throws (src/main.ts:52) and the `console.warn` when the Dataview predicate catches an exception (src/main.ts:167): logging only. The model keeps the value each path yields.
- Rule objects are edited in place through widget closures. The model replaces the rule value at its index, so aliasing between the closure and the list is not captured.
- All drawing in the settings tab: widgets, styles, collapsed classes.
- `getAvailableTags` and `getAvailablePropertyNames` read host caches and a private API. Their caches are modelled only as fields that `display` clears.
- The suggestion popup (src/suggest.ts) is not part of this model. It is a DOM widget.
- Multi and SubCondition have no combined any/all semantics, because the source never evaluates them.
- Loaded data is not validated by the source. A stored `type` string outside the five kinds is not modelled; such a rule would fall through the switch like Multi. A stored `rules: null` is not modelled either.
- `Main.EvaluatePropertyRule`: the frontmatter map holds the note's own properties only. In the source `frontmatter[name]` also reads members inherited from `Object.prototype`, so a property rule named `constructor`, `toString` or `__proto__` finds a value in every note with frontmatter; with a blank target it matches them all. The model treats such a name as absent unless the note defines it.
- `String(v)` of a non-string frontmatter value (numbers, booleans, nested lists, `null`) is taken as already computed.
- `Main.SpellcheckControlPlugin.constructor` starts with the default settings. In the source the field is unset until `loadSettings` runs.

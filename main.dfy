/** The rule-matching engine of the plugin (src/main.ts): one predicate per rule
    kind, negation applied on top of it, and the first-match-wins loop that
    decides whether spellcheck is on for the active note.

    What the host application supplies is taken as values: the active file
    (its path and its parent folder's path), the outcome of the metadata-cache
    lookup, and the outcome of looking up the Dataview plugin. */
module Main {
  import opened Types
  import opened Text

  /** The active file: its vault path and the path of its parent folder
      (`/` for the vault root; absent when the file has no parent). */
  datatype FileRef = FileRef(path: string, parent: Option<string>)

  /** A frontmatter value, already turned into strings by `String(...)`:
      a single value, or a list of values. */
  datatype FrontValue = Scalar(text: string) | List(items: seq<string>)

  /** What the metadata cache knows of a file: the tags `getAllTags` resolves
      (absent when it returns null) and the frontmatter. */
  datatype FileCache = FileCache(
    tags: Option<seq<string>>,
    frontmatter: Option<map<string, FrontValue>>)

  /** The outcome of a call into the host: a value, or an exception. */
  datatype HostCall<T> = Throws | Returns(value: T)

  /** One value of a Dataview result: null/undefined, or an object with an
      optional `path` and an optional `file.path`. */
  datatype DvValue = Nullish | Value(path: Option<string>, filePath: Option<string>)

  /** The outcome of awaiting `dv.query(q)`. */
  datatype QueryOutcome = QueryThrew | Unsuccessful | Succeeded(values: seq<DvValue>)

  /** The outcome of looking the Dataview API up in the plugin registry. */
  datatype DataviewLookup = RegistryThrew | NoApi | Api(query: string -> QueryOutcome)

  /** Everything the evaluators read from the host for one file. */
  datatype Host = Host(cache: HostCall<Option<FileCache>>, dataview: DataviewLookup)

  /** The outcome of evaluating one rule: a boolean, or an exception that the
      decision loop catches. */
  datatype Eval = Ok(matched: bool) | Error

  // ---------------------------------------------------------------- Folder

  /** An empty rule path and `/` both stand for the vault root. */
  predicate IsRootRulePath(p: string) {
    p == "/" || p == ""
  }

  /** `evaluateFolderRule`. A recursive rule matches every file whose path
      starts with the rule path (a root rule: every file); a non-recursive
      rule never matches a file that has no parent folder. */
  function EvaluateFolderRule(file: FileRef, rule: Rule): (r: bool)
    ensures IsTrue(rule.recursive) && StartsWith(file.path, OrEmpty(rule.path)) ==> r
    ensures IsTrue(rule.recursive) && IsRootRulePath(OrEmpty(rule.path)) ==> r
    ensures !IsTrue(rule.recursive) && file.parent.None? ==> !r
  {
    var rulePath := OrEmpty(rule.path);
    if IsRootRulePath(rulePath) then
      if IsTrue(rule.recursive) then true else file.parent == Some("/")
    else if IsTrue(rule.recursive) then
      StartsWith(file.path, rulePath)
    else
      var parentPath := if file.parent.Some? then file.parent.value + "/" else "";
      var normalizedRulePath := if EndsWith(rulePath, "/") then rulePath else rulePath + "/";
      parentPath == normalizedRulePath
  }

  /** A root rule with `recursive` set matches every file. */
  lemma FolderRootRecursiveMatchesAll(file: FileRef, rule: Rule)
    requires IsRootRulePath(OrEmpty(rule.path)) && IsTrue(rule.recursive)
    ensures EvaluateFolderRule(file, rule)
  {
  }

  /** A root rule without `recursive` (absent counts as unset) matches exactly
      the files directly in the vault root. */
  lemma FolderRootNonRecursiveMatchesRootChildren(file: FileRef, rule: Rule)
    requires IsRootRulePath(OrEmpty(rule.path)) && !IsTrue(rule.recursive)
    ensures EvaluateFolderRule(file, rule) <==> file.parent == Some("/")
  {
  }

  /** A recursive non-root rule is a character-by-character prefix test on the
      file's path, with no folder-boundary check. */
  lemma FolderRecursiveIsStringPrefix(file: FileRef, rule: Rule)
    requires !IsRootRulePath(OrEmpty(rule.path)) && IsTrue(rule.recursive)
    ensures var p := OrEmpty(rule.path);
      EvaluateFolderRule(file, rule) <==>
        |p| <= |file.path| && forall i :: 0 <= i < |p| ==> file.path[i] == p[i]
  {
    var p := OrEmpty(rule.path);
    if |p| <= |file.path| && forall i :: 0 <= i < |p| ==> file.path[i] == p[i] {
      assert file.path[..|p|] == p;
    }
  }

  /** A rule path with at most one trailing `/` removed. */
  function WithoutTrailingSlash(p: string): (r: string)
    ensures EndsWith(p, "/") ==> r + "/" == p
    ensures !EndsWith(p, "/") ==> r == p
  {
    if EndsWith(p, "/") then p[..|p| - 1] else p
  }

  /** A non-recursive non-root rule matches exactly the files whose parent
      folder is the rule's folder; a file without a parent never matches. */
  lemma FolderNonRecursiveIsDirectParent(file: FileRef, rule: Rule)
    requires !IsRootRulePath(OrEmpty(rule.path)) && !IsTrue(rule.recursive)
    ensures EvaluateFolderRule(file, rule) <==> file.parent == Some(WithoutTrailingSlash(OrEmpty(rule.path)))
  {
    var p := OrEmpty(rule.path);
    var q := WithoutTrailingSlash(p);
    var normalized := if EndsWith(p, "/") then p else p + "/";
    assert normalized == q + "/";
    if file.parent.Some? {
      var a := file.parent.value;
      if a + "/" == q + "/" {
        assert a == (a + "/")[..|a|] == (q + "/")[..|q|] == q;
      }
    }
  }

  /** The string-prefix quirk: a recursive rule for `Notes` also matches a note
      in the sibling folder `NotesArchive`. */
  lemma FolderPrefixMatchesSiblingFolder(rule: Rule)
    requires rule.path == Some("Notes") && rule.recursive == Some(true)
    ensures EvaluateFolderRule(FileRef("NotesArchive/doc.md", Some("NotesArchive")), rule)
    ensures EvaluateFolderRule(FileRef("Notes/Sub/doc.md", Some("Notes/Sub")), rule)
    ensures !EvaluateFolderRule(FileRef("Archive/Notes.md", Some("Archive")), rule)
  {
    assert "NotesArchive/doc.md"[..5] == "Notes";
    assert "Notes/Sub/doc.md"[..5] == "Notes";
    assert "Archive/Notes.md"[0] != 'N';
  }

  // ---------------------------------------------------------------- Tag

  /** `s.replace(/^#/, '')`: at most one leading `#` is removed. */
  function StripLeadingHash(s: string): (r: string)
    ensures s != [] && s[0] == '#' ==> s == "#" + r
    ensures !(s != [] && s[0] == '#') ==> r == s
  {
    if s != [] && s[0] == '#' then s[1..] else s
  }

  /** `'#' + (rule.tag?.replace(/^#/, '') || '')` */
  function RuleTag(rule: Rule): (r: string)
    ensures |r| >= 1 && r[0] == '#'
  {
    "#" + StripLeadingHash(OrEmpty(rule.tag))
  }

  /** Normalising a tag that is already normalised changes nothing, whether
      the rule's tag is set or absent (which normalises to `#`). */
  lemma {:induction false} RuleTagIdempotent(rule: Rule)
    ensures RuleTag(rule.(tag := Some(RuleTag(rule)))) == RuleTag(rule)
  {
    var n := RuleTag(rule);
    assert StripLeadingHash(n) == n[1..];
    assert "#" + n[1..] == n;
  }

  /** A tag written with or without its leading `#` normalises the same way. */
  lemma RuleTagHashOptional(rule: Rule, t: string)
    requires rule.tag == Some(t) && (t == [] || t[0] != '#')
    ensures RuleTag(rule.(tag := Some("#" + t))) == RuleTag(rule)
  {
    assert ("#" + t)[1..] == t;
  }

  /** Only one `#` is stripped: a tag written as `#a` normalises to `#a`, but
      prefixing it once more keeps both marks. */
  lemma DoubleHashIsKept(rule: Rule)
    requires rule.tag == Some("#a")
    ensures RuleTag(rule) == "#a"
    ensures RuleTag(rule.(tag := Some("##a"))) == "##a"
  {
    assert "#a"[1..] == "a";
    assert "##a"[1..] == "#a";
  }

  /** One document tag against the rule tag. */
  predicate TagMatches(t: string, ruleTag: string, includeSubtags: bool) {
    t == ruleTag || (includeSubtags && StartsWith(t, ruleTag + "/"))
  }

  /** `tags.some(...)` */
  function AnyTagMatches(tags: seq<string>, ruleTag: string, includeSubtags: bool): (r: bool)
    ensures r <==> exists i :: 0 <= i < |tags| && TagMatches(tags[i], ruleTag, includeSubtags)
    decreases |tags|
  {
    if tags == [] then false
    else TagMatches(tags[0], ruleTag, includeSubtags) || AnyTagMatches(tags[1..], ruleTag, includeSubtags)
  }

  /** `evaluateTagRule`: no cache or no tags gives false; an exception from the
      host is passed on. */
  function EvaluateTagRule(cache: HostCall<Option<FileCache>>, rule: Rule): (r: Eval)
    ensures r.Error? <==> cache.Throws?
    ensures r == Ok(true) <==>
      && cache.Returns? && cache.value.Some? && cache.value.value.tags.Some?
      && exists i :: 0 <= i < |cache.value.value.tags.value| &&
           TagMatches(cache.value.value.tags.value[i], RuleTag(rule), IsTrue(rule.includeSubtags))
  {
    match cache
    case Throws => Error
    case Returns(found) =>
      if found.None? || found.value.tags.None? then Ok(false)
      else Ok(AnyTagMatches(found.value.tags.value, RuleTag(rule), IsTrue(rule.includeSubtags)))
  }

  /** Without `includeSubtags` (which the settings screen never sets) a tag rule
      is an exact membership test of the normalised tag. */
  lemma TagRuleWithoutSubtagsIsExact(tags: seq<string>, frontmatter: Option<map<string, FrontValue>>, rule: Rule)
    requires !IsTrue(rule.includeSubtags)
    ensures EvaluateTagRule(Returns(Some(FileCache(Some(tags), frontmatter))), rule) == Ok(RuleTag(rule) in tags)
  {
    var r := EvaluateTagRule(Returns(Some(FileCache(Some(tags), frontmatter))), rule);
    if RuleTag(rule) in tags {
      var i :| 0 <= i < |tags| && tags[i] == RuleTag(rule);
      assert TagMatches(tags[i], RuleTag(rule), false);
    }
  }

  /** `includeSubtags` only widens a tag test: for every rule tag, the tags
      that match exactly also match hierarchically. */
  lemma SubtagsOnlyWiden(tags: seq<string>, ruleTag: string)
    ensures AnyTagMatches(tags, ruleTag, false) ==> AnyTagMatches(tags, ruleTag, true)
  {
    if AnyTagMatches(tags, ruleTag, false) {
      var i :| 0 <= i < |tags| && TagMatches(tags[i], ruleTag, false);
      assert TagMatches(tags[i], ruleTag, true);
    }
  }

  /** The rule `proj` with subtags: it matches `#proj` and `#proj/sub`, but not
      `#projects`, since a subtag must continue the tag with `/`. */
  lemma TagRuleSubtags(rule: Rule)
    requires rule.tag == Some("proj") && rule.includeSubtags == Some(true)
    ensures AnyTagMatches(["#proj"], RuleTag(rule), true)
    ensures AnyTagMatches(["#proj/sub"], RuleTag(rule), true)
    ensures !AnyTagMatches(["#projects"], RuleTag(rule), true)
  {
    assert RuleTag(rule) == "#proj";
    assert TagMatches("#proj/sub", "#proj", true) by {
      assert "#proj/sub"[..6] == "#proj/";
    }
    assert !TagMatches("#projects", "#proj", true) by {
      assert "#projects"[..6] != "#proj/" by { assert "#projects"[5] == 'e'; }
    }
  }

  // ---------------------------------------------------------------- Property

  /** `val.some(v => String(v) === target)` */
  function AnyStringEquals(items: seq<string>, target: string): (r: bool)
    ensures r <==> target in items
    decreases |items|
  {
    if items == [] then false
    else items[0] == target || AnyStringEquals(items[1..], target)
  }

  /** `evaluatePropertyRule` */
  function EvaluatePropertyRule(cache: HostCall<Option<FileCache>>, rule: Rule): (r: Eval)
    ensures r.Error? <==> cache.Throws?
    ensures cache.Returns? && (cache.value.None? || cache.value.value.frontmatter.None?) ==> r == Ok(false)
    ensures !IsFilled(rule.propertyName) && cache.Returns? ==> r == Ok(false)
  {
    match cache
    case Throws => Error
    case Returns(found) =>
      if found.None? || found.value.frontmatter.None? then Ok(false)
      else if !IsFilled(rule.propertyName) then Ok(false)
      else
        var frontmatter := found.value.frontmatter.value;
        var name := rule.propertyName.value;
        if name !in frontmatter then Ok(false)
        else if !IsFilled(rule.propertyValue) || Trim(rule.propertyValue.value) == "" then Ok(true)
        else
          var target := rule.propertyValue.value;
          match frontmatter[name]
          case List(items) => Ok(AnyStringEquals(items, target))
          case Scalar(text) => Ok(text == target)
  }

  /** A frontmatter value against the (untrimmed) target string. */
  predicate ValueMatches(v: FrontValue, target: string) {
    match v
    case Scalar(text) => text == target
    case List(items) => exists i :: 0 <= i < |items| && items[i] == target
  }

  /** With frontmatter present, a property rule matches exactly when the named
      property is present and either the target is missing or blank (presence
      only) or the value matches the target. */
  lemma PropertyRuleMeaning(tags: Option<seq<string>>, frontmatter: map<string, FrontValue>, rule: Rule)
    ensures EvaluatePropertyRule(Returns(Some(FileCache(tags, Some(frontmatter)))), rule) ==
      Ok(IsFilled(rule.propertyName) && rule.propertyName.value in frontmatter &&
         (rule.propertyValue.None? || IsBlank(rule.propertyValue.value) ||
          ValueMatches(frontmatter[rule.propertyName.value], rule.propertyValue.value)))
  {
    var e := EvaluatePropertyRule(Returns(Some(FileCache(tags, Some(frontmatter)))), rule);
    if IsFilled(rule.propertyName) && rule.propertyName.value in frontmatter && rule.propertyValue.Some? {
      var target := rule.propertyValue.value;
      TrimEmptyIffBlank(target);
      if !IsBlank(target) {
        var v := frontmatter[rule.propertyName.value];
        assert e == Ok(ValueMatches(v, target)) by {
          if v.List? {
            assert AnyStringEquals(v.items, target) <==> ValueMatches(v, target);
          }
        }
      }
    }
  }

  // ---------------------------------------------------------------- Dataview

  /** A result value that names the file, by its own `path` or its `file.path`. */
  predicate NamesFile(v: DvValue, path: string) {
    v.Value? && (v.path == Some(path) || v.filePath == Some(path))
  }

  /** What the scan of the result values yields: true at the first value that
      names the file; a nullish value before it throws, and the predicate's
      own catch turns that into false. */
  function ScanValues(values: seq<DvValue>, path: string): (r: bool)
    ensures r <==> exists i :: 0 <= i < |values| && NamesFile(values[i], path) &&
                              forall j :: 0 <= j < i ==> values[j].Value?
    decreases |values|
  {
    if values == [] then false
    else if values[0].Nullish? then false
    else if NamesFile(values[0], path) then true
    else
      var r := ScanValues(values[1..], path);
      assert r ==> exists i :: 0 < i < |values| && NamesFile(values[i], path) &&
                               forall j :: 0 <= j < i ==> values[j].Value? by {
        if r {
          var i :| 0 <= i < |values| - 1 && NamesFile(values[1..][i], path) &&
                   forall j :: 0 <= j < i ==> values[1..][j].Value?;
          assert forall j :: 0 <= j < i + 1 ==> values[j].Value? by {
            forall j | 0 <= j < i + 1 ensures values[j].Value? {
              if j > 0 { assert values[j] == values[1..][j - 1]; }
            }
          }
        }
      }
      assert (exists i :: 0 <= i < |values| && NamesFile(values[i], path) &&
                         forall j :: 0 <= j < i ==> values[j].Value?) ==> r by {
        if exists i :: 0 <= i < |values| && NamesFile(values[i], path) &&
                       forall j :: 0 <= j < i ==> values[j].Value? {
          var i :| 0 <= i < |values| && NamesFile(values[i], path) &&
                   forall j :: 0 <= j < i ==> values[j].Value?;
          assert i > 0;
          assert NamesFile(values[1..][i - 1], path);
          assert forall j :: 0 <= j < i - 1 ==> values[1..][j].Value?;
        }
      }
      r
  }

  /** `evaluateDataviewRule`, as a function of the registry lookup. */
  function DataviewResult(dataview: DataviewLookup, file: FileRef, rule: Rule): (r: Eval)
    ensures r.Error? <==> IsFilled(rule.dataviewQuery) && dataview.RegistryThrew?
    ensures r == Ok(true) <==>
      && IsFilled(rule.dataviewQuery) && dataview.Api?
      && dataview.query(rule.dataviewQuery.value).Succeeded?
      && ScanValues(dataview.query(rule.dataviewQuery.value).values, file.path)
  {
    if !IsFilled(rule.dataviewQuery) then Ok(false)
    else
      match dataview
      case RegistryThrew => Error
      case NoApi => Ok(false)
      case Api(query) =>
        match query(rule.dataviewQuery.value)
        case QueryThrew => Ok(false)
        case Unsuccessful => Ok(false)
        case Succeeded(values) => Ok(ScanValues(values, file.path))
  }

  /** `evaluateDataviewRule`: the loop over the result values with its early
      returns. */
  method EvaluateDataviewRule(dataview: DataviewLookup, file: FileRef, rule: Rule) returns (r: Eval)
    ensures r == DataviewResult(dataview, file, rule)
  {
    if !IsFilled(rule.dataviewQuery) {
      return Ok(false);
    }
    match dataview {
      case RegistryThrew =>
        // the registry lookup is outside the predicate's try block
        return Error;
      case NoApi =>
        return Ok(false);
      case Api(query) =>
        var result := query(rule.dataviewQuery.value);
        match result {
          case QueryThrew =>
            return Ok(false);
          case Unsuccessful =>
            return Ok(false);
          case Succeeded(values) =>
            var i := 0;
            while i < |values|
              invariant 0 <= i <= |values|
              invariant forall j :: 0 <= j < i ==> values[j].Value? && !NamesFile(values[j], file.path)
            {
              if values[i].Nullish? {
                // reading `path` of null throws; the predicate's catch returns false
                return Ok(false);
              }
              if values[i].path == Some(file.path) {
                return Ok(true);
              }
              if values[i].filePath == Some(file.path) {
                return Ok(true);
              }
              i := i + 1;
            }
            return Ok(false);
        }
    }
  }

  // ---------------------------------------------------------------- Rules

  /** The kind's predicate before negation (the `switch` of `evaluateRule`);
      a Multi rule has no case and keeps the initial `false`. */
  function RawMatch(host: Host, file: FileRef, rule: Rule): (r: Eval)
    ensures rule.kind == Multi ==> r == Ok(false)
    ensures rule.kind == Folder ==> r.Ok?
    ensures r.Error? ==> rule.kind != Dataview ==> host.cache.Throws?
    ensures r.Error? ==> rule.kind == Dataview ==> host.dataview.RegistryThrew?
  {
    match rule.kind
    case Folder => Ok(EvaluateFolderRule(file, rule))
    case Tag => EvaluateTagRule(host.cache, rule)
    case Property => EvaluatePropertyRule(host.cache, rule)
    case Dataview => DataviewResult(host.dataview, file, rule)
    case Multi => Ok(false)
  }

  /** `evaluateRule`: the raw predicate XOR `negated`, for every kind; an
      exception is passed on unchanged. */
  function Evaluation(host: Host, file: FileRef, rule: Rule): (r: Eval)
    ensures r.Error? <==> RawMatch(host, file, rule).Error?
    ensures r.Ok? ==> r.matched == (RawMatch(host, file, rule).matched != IsTrue(rule.negated))
  {
    match RawMatch(host, file, rule)
    case Error => Error
    case Ok(raw) => Ok(if IsTrue(rule.negated) then !raw else raw)
  }

  /** `evaluateRule`, awaiting the Dataview predicate. */
  method EvaluateRule(host: Host, file: FileRef, rule: Rule) returns (r: Eval)
    ensures r == Evaluation(host, file, rule)
  {
    var raw: Eval := Ok(false);
    match rule.kind {
      case Folder => raw := Ok(EvaluateFolderRule(file, rule));
      case Tag => raw := EvaluateTagRule(host.cache, rule);
      case Property => raw := EvaluatePropertyRule(host.cache, rule);
      case Dataview => raw := EvaluateDataviewRule(host.dataview, file, rule);
      case Multi =>
    }
    if raw.Error? {
      return Error;
    }
    if IsTrue(rule.negated) {
      return Ok(!raw.matched);
    }
    return raw;
  }

  /** Whether the decision loop takes a rule's evaluation as a match: an
      exception counts as no match. */
  predicate Matches(host: Host, file: FileRef, rule: Rule) {
    var e := Evaluation(host, file, rule);
    e.Ok? && e.matched
  }

  /** Whether the decision loop stops at a rule. */
  predicate Selects(host: Host, file: FileRef, rule: Rule) {
    rule.enabled && Matches(host, file, rule)
  }

  /** Negation inverts a rule whose predicate completes, whatever its kind. */
  lemma NegationInverts(host: Host, file: FileRef, rule: Rule)
    requires RawMatch(host, file, rule).Ok?
    ensures Matches(host, file, rule.(negated := Some(true))) == !Matches(host, file, rule.(negated := None))
    ensures Matches(host, file, rule.(negated := Some(false))) == Matches(host, file, rule.(negated := None))
  {
    assert RawMatch(host, file, rule.(negated := Some(true))) == RawMatch(host, file, rule);
    assert RawMatch(host, file, rule.(negated := None)) == RawMatch(host, file, rule);
    assert RawMatch(host, file, rule.(negated := Some(false))) == RawMatch(host, file, rule);
  }

  /** An exception that reaches the decision loop is a non-match, negated or not. */
  lemma ErrorIsNeverAMatch(host: Host, file: FileRef, rule: Rule)
    requires RawMatch(host, file, rule).Error?
    ensures !Matches(host, file, rule)
    ensures !Matches(host, file, rule.(negated := Some(true)))
  {
    assert RawMatch(host, file, rule.(negated := Some(true))) == RawMatch(host, file, rule);
  }

  /** A Multi rule is never evaluated: it matches exactly when it is negated. */
  lemma MultiMatchesIffNegated(host: Host, file: FileRef, rule: Rule)
    requires rule.kind == Multi
    ensures Matches(host, file, rule) <==> IsTrue(rule.negated)
  {
  }

  /** A Dataview query that throws is caught inside the predicate as `false`,
      which negation turns into a match; a failing registry lookup is caught by
      the loop instead, and is a non-match even when negated. */
  lemma DataviewExceptionsAndNegation(host: Host, file: FileRef, rule: Rule)
    requires rule.kind == Dataview && IsFilled(rule.dataviewQuery) && IsTrue(rule.negated)
    ensures host.dataview.Api? && host.dataview.query(rule.dataviewQuery.value).QueryThrew? ==>
              Matches(host, file, rule)
    ensures host.dataview.RegistryThrew? ==> !Matches(host, file, rule)
    ensures host.dataview.NoApi? ==> Matches(host, file, rule)
  {
  }

  /** A negated property rule matches the files that lack the property or whose
      value does not match the target. */
  lemma NegatedPropertyRule(host: Host, file: FileRef, rule: Rule, tags: Option<seq<string>>, frontmatter: map<string, FrontValue>)
    requires rule.kind == Property && IsTrue(rule.negated)
    requires host.cache == Returns(Some(FileCache(tags, Some(frontmatter))))
    requires rule.propertyName == Some("status") && rule.propertyValue == Some("done")
    ensures Matches(host, file, rule) <==>
      "status" !in frontmatter || !ValueMatches(frontmatter["status"], "done")
  {
    PropertyRuleMeaning(tags, frontmatter, rule);
    assert !IsBlank("done") by { assert !IsWhitespace("done"[0]); }
  }

  // ---------------------------------------------------------------- Decision

  /** The index of the first enabled rule that matches, if any. */
  function FirstMatch(host: Host, file: FileRef, rules: seq<Rule>): (r: Option<nat>)
    ensures r.Some? ==> r.value < |rules| && Selects(host, file, rules[r.value])
    ensures r.Some? ==> forall j :: 0 <= j < r.value ==> !Selects(host, file, rules[j])
    ensures r.None? ==> forall j :: 0 <= j < |rules| ==> !Selects(host, file, rules[j])
    decreases |rules|
  {
    if rules == [] then None
    else if Selects(host, file, rules[0]) then Some(0)
    else
      match FirstMatch(host, file, rules[1..])
      case None =>
        assert forall j :: 1 <= j < |rules| ==> rules[j] == rules[1..][j - 1];
        None
      case Some(i) =>
        assert forall j :: 1 <= j < i + 1 ==> rules[j] == rules[1..][j - 1];
        Some(i + 1)
  }

  /** The value applied to the editor: that of the first enabled rule that
      matches, or `true` when none does. */
  function Decision(host: Host, file: FileRef, rules: seq<Rule>): (r: bool)
    ensures !r ==> exists k :: 0 <= k < |rules| && Selects(host, file, rules[k]) && !rules[k].enableSpellcheck
    ensures ((forall k :: 0 <= k < |rules| && rules[k].enabled ==> !rules[k].enableSpellcheck) &&
             (exists k :: 0 <= k < |rules| && Selects(host, file, rules[k]))) ==> !r
  {
    match FirstMatch(host, file, rules)
    case Some(i) => rules[i].enableSpellcheck
    case None => true
  }

  /** How many rules the loop walks through: up to and including the first
      match, or all of them. */
  function StopIndex(host: Host, file: FileRef, rules: seq<Rule>): (n: nat)
    ensures n <= |rules|
  {
    match FirstMatch(host, file, rules)
    case Some(i) => i + 1
    case None => |rules|
  }

  /** The indices of the enabled rules below `n`, in order: the rules the loop
      evaluates when it stops at `n`. */
  function EnabledBelow(rules: seq<Rule>, n: nat): (r: seq<nat>)
    requires n <= |rules|
    ensures forall k :: 0 <= k < |r| ==> r[k] < n && rules[r[k]].enabled
    ensures forall j :: 0 <= j < n && rules[j].enabled ==> j in r
    ensures forall k, l :: 0 <= k < l < |r| ==> r[k] < r[l]
  {
    if n == 0 then []
    else EnabledBelow(rules, n - 1) + (if rules[n - 1].enabled then [n - 1] else [])
  }

  /** First match wins: any first selected rule decides. */
  lemma {:induction false} FirstSelectedDecides(host: Host, file: FileRef, rules: seq<Rule>, k: nat)
    requires k < |rules| && Selects(host, file, rules[k])
    requires forall j :: 0 <= j < k ==> !Selects(host, file, rules[j])
    ensures FirstMatch(host, file, rules) == Some(k)
    ensures Decision(host, file, rules) == rules[k].enableSpellcheck
  {
    var m := FirstMatch(host, file, rules);
    assert m.Some?;
    assert !(m.value < k);
    assert !(k < m.value);
  }

  /** The fallback: when no enabled rule matches, spellcheck is on. */
  lemma NoMatchMeansEnabled(host: Host, file: FileRef, rules: seq<Rule>)
    requires forall j :: 0 <= j < |rules| ==> !Selects(host, file, rules[j])
    ensures Decision(host, file, rules)
  {
  }

  /** A disabled rule takes no part in the decision: removing it changes nothing. */
  lemma {:induction false} DisabledRuleIsIgnored(host: Host, file: FileRef, rules: seq<Rule>, i: nat)
    requires i < |rules| && !rules[i].enabled
    ensures Decision(host, file, rules) == Decision(host, file, rules[..i] + rules[i + 1..])
  {
    var rest := rules[..i] + rules[i + 1..];
    assert forall j :: 0 <= j < i ==> rest[j] == rules[j];
    assert forall j :: i <= j < |rest| ==> rest[j] == rules[j + 1];
    match FirstMatch(host, file, rules)
    case None =>
      assert forall j :: 0 <= j < |rest| ==> !Selects(host, file, rest[j]);
    case Some(k) =>
      assert k != i;
      if k < i {
        FirstSelectedDecides(host, file, rest, k);
      } else {
        assert forall j :: 0 <= j < k - 1 ==> !Selects(host, file, rest[j]) by {
          forall j | 0 <= j < k - 1 ensures !Selects(host, file, rest[j]) {
            if j >= i { assert rest[j] == rules[j + 1]; }
          }
        }
        FirstSelectedDecides(host, file, rest, k - 1);
      }
  }

  /** The plugin object; its one piece of state is the settings. */
  class SpellcheckControlPlugin {
    var settings: Settings

    constructor ()
      ensures settings == DefaultSettings
    {
      settings := DefaultSettings;
    }

    /** `loadSettings`: the stored data merged over the defaults. */
    method LoadSettings(loaded: StoredData)
      modifies this
      ensures settings == MergeOverDefaults(loaded)
    {
      settings := MergeOverDefaults(loaded);
    }

    /** `checkAndApplySpellcheck`, returning the value it applies (none when
      there is no active markdown file) and the indices of the rules it
      evaluated, in order. */
    method CheckAndApplySpellcheck(host: Host, active: Option<FileRef>) returns (applied: Option<bool>, evaluated: seq<nat>)
      ensures active.None? ==> applied.None? && evaluated == []
      ensures active.Some? ==> applied == Some(Decision(host, active.value, settings.rules))
      ensures active.Some? ==>
        evaluated == EnabledBelow(settings.rules, StopIndex(host, active.value, settings.rules))
    {
      if active.None? {
        return None, [];
      }
      var file := active.value;
      var rules := settings.rules;
      var decision: Option<bool> := None;
      evaluated := [];
      var i := 0;
      while i < |rules|
        invariant 0 <= i <= |rules|
        invariant forall j :: 0 <= j < i ==> !Selects(host, file, rules[j])
        invariant evaluated == EnabledBelow(rules, i)
      {
        var rule := rules[i];
        if !rule.enabled {
          i := i + 1;
          continue;
        }
        evaluated := evaluated + [i];
        var matched := false;
        var outcome := EvaluateRule(host, file, rule);
        if outcome.Ok? {
          matched := outcome.matched;
        }
        // else: the exception is caught (its logging is not modelled), and
        // `matched` stays false
        if matched {
          decision := Some(rule.enableSpellcheck);
          FirstSelectedDecides(host, file, rules, i);
          break;
        }
        i := i + 1;
      }
      if decision.Some? {
        applied := decision;
      } else {
        NoMatchMeansEnabled(host, file, rules);
        applied := Some(true);
      }
    }
  }
}

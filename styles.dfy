/** The pure part of the synchroniser: the rules loaded from the `dynamicThemes`
    setting, the first-match lookup of a file's rule, the saved baselines and the
    preference writes each handler issues. */
module Styles {
  import opened Wrappers

  /** micromatch's `isMatch(path, glob)`. The glob language is not modelled: every
      property below holds for any matcher. */
  type Matcher = (string, string) -> bool

  /** One key of the `dynamicThemes` setting object, with the two fields of its value */
  datatype ConfigEntry = ConfigEntry(key: string, fontFamily: Option<string>, theme: Option<string>)

  /** A rule (`IPattern`): a glob with an optional font family and an optional theme */
  datatype Rule = Rule(pattern: string, fontFamily: Option<string>, theme: Option<string>)

  /** A baseline (`IState`): the theme and font a workspace had before the rules applied */
  datatype SavedState = SavedState(workspaceName: Option<string>, theme: Option<string>, fontFamily: Option<string>)

  /** The two preference keys the synchroniser writes */
  datatype Key = EditorFontFamily | WorkbenchColorTheme

  /** One `conf.update(key, value, globally)` call; an undefined value clears the setting */
  datatype Write = Write(key: Key, value: Option<string>, globally: bool)

  /** JavaScript truthiness of a setting that is a string or undefined */
  predicate Truthy(v: Option<string>) {
    v.Some? && v.value != ""
  }

  // ---------------------------------------------------------------------------
  // Loading the rules

  /** `Object.keys(patterns).map(...)`: one rule per key of the setting object, in
      the object's key order, carrying that key's font family and theme. */
  function LoadRules(entries: seq<ConfigEntry>): (rules: seq<Rule>)
    ensures |rules| == |entries|
    ensures forall i :: 0 <= i < |entries| ==>
              rules[i].pattern == entries[i].key &&
              rules[i].fontFamily == entries[i].fontFamily &&
              rules[i].theme == entries[i].theme
  {
    if entries == [] then []
    else [Rule(entries[0].key, entries[0].fontFamily, entries[0].theme)] + LoadRules(entries[1..])
  }

  // ---------------------------------------------------------------------------
  // Finding a file's rule

  // A rule applies to a file when micromatch matches the file against the rule's
  // pattern prefixed with "**/", i.e. the pattern at any directory depth.
  predicate MatchesRule(isMatch: Matcher, fileName: string, rule: Rule) {
    isMatch(fileName, "**/" + rule.pattern)
  }

  /** Index `i` holds the first rule, in rule order, that applies to the file */
  predicate IsFirstMatch(isMatch: Matcher, fileName: string, rules: seq<Rule>, i: int) {
    && 0 <= i < |rules|
    && MatchesRule(isMatch, fileName, rules[i])
    && forall j :: 0 <= j < i ==> !MatchesRule(isMatch, fileName, rules[j])
  }

  // `_patterns.filter(...)`: the applicable rules, in rule order
  function MatchingRules(isMatch: Matcher, fileName: string, rules: seq<Rule>): (st: seq<Rule>)
    ensures |st| <= |rules|
    ensures forall r :: r in st ==> r in rules && MatchesRule(isMatch, fileName, r)
    ensures forall i :: 0 <= i < |rules| && MatchesRule(isMatch, fileName, rules[i]) ==> rules[i] in st
  {
    if rules == [] then []
    else if MatchesRule(isMatch, fileName, rules[0]) then [rules[0]] + MatchingRules(isMatch, fileName, rules[1..])
    else MatchingRules(isMatch, fileName, rules[1..])
  }

  /** The head of the filtered list is the first applicable rule */
  lemma {:induction false} FilterHeadIsFirstMatch(isMatch: Matcher, fileName: string, rules: seq<Rule>)
    requires MatchingRules(isMatch, fileName, rules) != []
    ensures exists i :: IsFirstMatch(isMatch, fileName, rules, i) &&
                        rules[i] == MatchingRules(isMatch, fileName, rules)[0]
  {
    if MatchesRule(isMatch, fileName, rules[0]) {
      assert IsFirstMatch(isMatch, fileName, rules, 0);
    } else {
      var tail := rules[1..];
      assert MatchingRules(isMatch, fileName, rules) == MatchingRules(isMatch, fileName, tail);
      FilterHeadIsFirstMatch(isMatch, fileName, tail);
      var k :| IsFirstMatch(isMatch, fileName, tail, k) && tail[k] == MatchingRules(isMatch, fileName, tail)[0];
      forall j | 0 <= j < k + 1 ensures !MatchesRule(isMatch, fileName, rules[j]) {
        if j > 0 { assert rules[j] == tail[j - 1]; }
      }
      assert IsFirstMatch(isMatch, fileName, rules, k + 1);
    }
  }

  /** `getCustomStyle`: the first rule that applies to the file, or none when no rule does */
  function GetCustomStyle(isMatch: Matcher, patterns: seq<Rule>, fileName: string): (style: Option<Rule>)
    ensures style.None? <==> forall i :: 0 <= i < |patterns| ==> !MatchesRule(isMatch, fileName, patterns[i])
    ensures style.Some? ==> exists i :: IsFirstMatch(isMatch, fileName, patterns, i) && patterns[i] == style.value
  {
    var st := MatchingRules(isMatch, fileName, patterns);
    if |st| > 0 then
      FilterHeadIsFirstMatch(isMatch, fileName, patterns);
      Some(st[0])
    else
      None
  }

  /** `fileHasCustomStyle`: some rule applies to the file */
  function FileHasCustomStyle(isMatch: Matcher, patterns: seq<Rule>, fileName: string): (has: bool)
    ensures has <==> exists i :: 0 <= i < |patterns| && MatchesRule(isMatch, fileName, patterns[i])
  {
    GetCustomStyle(isMatch, patterns, fileName).Some?
  }

  // ---------------------------------------------------------------------------
  // Write scope

  /** `changeGlobally`: a `workspaceFolders` array that is undefined or empty makes every
      write global; an open folder makes it workspace-local. */
  function ChangeGlobally(workspaceFolders: Option<nat>): (globally: bool)
    ensures globally <==> workspaceFolders.None? || workspaceFolders.value == 0
  {
    match workspaceFolders
    case None => true
    case Some(count) => count <= 0
  }

  // ---------------------------------------------------------------------------
  // Baselines

  /** Index `i` holds the first baseline for workspace `name` */
  predicate IsFirstState(states: seq<SavedState>, name: Option<string>, i: int) {
    && 0 <= i < |states|
    && states[i].workspaceName == name
    && forall j :: 0 <= j < i ==> states[j].workspaceName != name
  }

  /** No workspace has two baselines */
  predicate UniqueNames(states: seq<SavedState>) {
    forall i, j :: 0 <= i < j < |states| ==> states[i].workspaceName != states[j].workspaceName
  }

  /** `states.find(s => s.workspaceName === name)` */
  function FindState(states: seq<SavedState>, name: Option<string>): (found: Option<SavedState>)
    ensures found.None? <==> forall i :: 0 <= i < |states| ==> states[i].workspaceName != name
    ensures found.Some? ==> exists i :: IsFirstState(states, name, i) && states[i] == found.value
  {
    if states == [] then None
    else if states[0].workspaceName == name then
      assert IsFirstState(states, name, 0);
      Some(states[0])
    else
      var found := FindState(states[1..], name);
      assert found.Some? ==> exists i :: IsFirstState(states[1..], name, i) && states[1..][i] == found.value;
      assert forall k :: IsFirstState(states[1..], name, k) ==> IsFirstState(states, name, k + 1);
      found
  }

  /** Appending a baseline for another workspace, or for one that already has a
      baseline, leaves every lookup as it was. */
  lemma {:induction false} FindStateAppend(states: seq<SavedState>, entry: SavedState, name: Option<string>)
    ensures FindState(states + [entry], name) ==
            if FindState(states, name).Some? then FindState(states, name)
            else if entry.workspaceName == name then Some(entry)
            else None
  {
    if states != [] {
      assert (states + [entry])[1..] == states[1..] + [entry];
      FindStateAppend(states[1..], entry, name);
    }
  }

  /** Lines 59-66 of src/extension.ts (`setWorkspaceState`): the baselines after the lazy capture of the
      current theme and font for workspace `name`. An existing baseline wins; the others
      are untouched; at most one entry is added, at the end; no workspace gets two. */
  function Capture(states: seq<SavedState>, name: Option<string>, theme: Option<string>, font: Option<string>): (captured: seq<SavedState>)
    ensures |states| <= |captured| <= |states| + 1 && captured[..|states|] == states
    ensures FindState(captured, name) == Some(FindState(states, name).GetOr(SavedState(name, theme, font)))
    ensures forall n :: n != name ==> FindState(captured, n) == FindState(states, n)
    ensures UniqueNames(states) ==> UniqueNames(captured)
  {
    if FindState(states, name).Some? then states
    else
      var entry := SavedState(name, theme, font);
      FindStateAppend(states, entry, name);
      forall n | n != name ensures FindState(states + [entry], n) == FindState(states, n) {
        FindStateAppend(states, entry, n);
      }
      assert (states + [entry])[..|states|] == states;
      states + [entry]
  }

  // ---------------------------------------------------------------------------
  // Writes

  /** Lines 69-85 of src/extension.ts (`setWorkspaceState`): the writes for a matching rule, read against the
      current font and theme. A font write happens when the rule's font family is truthy
      and differs from the current font. A theme write happens when the rule's theme is
      truthy and the rule's FONT FAMILY differs from the current theme (line 79 of src/extension.ts, kept as
      written). The font write comes first; both use the given scope. */
  function StyleWrites(rule: Rule, font: Option<string>, theme: Option<string>, globally: bool): (writes: seq<Write>)
    ensures |writes| <= 2
    ensures forall w :: w in writes ==>
              w.globally == globally && Truthy(w.value) &&
              (w == Write(EditorFontFamily, rule.fontFamily, globally) ||
               w == Write(WorkbenchColorTheme, rule.theme, globally))
    ensures Write(EditorFontFamily, rule.fontFamily, globally) in writes <==>
              Truthy(rule.fontFamily) && rule.fontFamily != font
    ensures Write(WorkbenchColorTheme, rule.theme, globally) in writes <==>
              Truthy(rule.theme) && rule.fontFamily != theme
    ensures |writes| == 2 ==> writes[0].key == EditorFontFamily && writes[1].key == WorkbenchColorTheme
  {
    var fontWrite := if Truthy(rule.fontFamily) && rule.fontFamily != font
                     then [Write(EditorFontFamily, rule.fontFamily, globally)] else [];
    var themeWrite := if Truthy(rule.theme) && rule.fontFamily != theme
                      then [Write(WorkbenchColorTheme, rule.theme, globally)] else [];
    fontWrite + themeWrite
  }

  /** `restoreWorkspaceState`: the writes that put back workspace `name`'s baseline, font
      first and then theme, even when a saved value is undefined. Nothing is written when
      there are no baselines or none for this workspace. */
  function RestoreWrites(states: seq<SavedState>, name: Option<string>, globally: bool): (writes: seq<Write>)
    ensures writes == [] <==> FindState(states, name).None?
    ensures writes != [] ==>
              exists i :: IsFirstState(states, name, i) &&
                writes == [Write(EditorFontFamily, states[i].fontFamily, globally),
                           Write(WorkbenchColorTheme, states[i].theme, globally)]
  {
    if |states| > 0 then
      match FindState(states, name)
      case Some(saved) => [Write(EditorFontFamily, saved.fontFamily, globally), Write(WorkbenchColorTheme, saved.theme, globally)]
      case None => []
    else
      []
  }
}

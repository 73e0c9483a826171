# dynamicThemes synchroniser, modelled in Dafny

The dynamicThemes editor extension switches two editor preferences, the font family
(`editor.fontFamily`) and the colour theme (`workbench.colorTheme`), according to the file
in the active editor. The user maps glob patterns to a font family and/or a theme in the
`dynamicThemes` setting. When the active file matches a pattern, that rule's font and theme
are written. When no pattern matches, the preferences the workspace had before are written
back. When the extension is unloaded, they are written back too.

All logic lives in `src/extension.ts`. It is a small state machine over three module globals:

- `states`: the saved baselines, one per workspace name;
- `_patterns`: the ordered rules;
- `_pendingChanges`: the number of rule writes (counted at lines 74 and 81) whose continuation has not yet run. The writes that restore a baseline are not counted.

The project has four files:

- `wrappers.dfy`: `Option`, used for every value the host may leave undefined.
- `styles.dfy` (module `Styles`): the pure core.
  - Loading the rules from the setting object.
  - `getCustomStyle` and `fileHasCustomStyle`, over any glob matcher.
  - The write scope.
  - `states.find`.
  - The lazy capture of a baseline.
  - The writes a matching rule causes, and the writes a restore causes.
- `sync_spec.dfy` (module `SyncSpec`): the state as a value (`Sync`).
  - The host inputs a handler reads (`Host`).
  - One step function per event: active-editor change, settings change, activation, disposal, write completion.
  - Lemmas stating what each step does.
  - Runs of events, with the invariant every reachable state keeps: the counter equals the number of counted writes awaiting their continuation (so it is never negative), only issued writes complete, and no workspace has two baselines.
- `extension.dfy` (module `Extension`): the imperative program.
  - `Workbench` stands for the host. It holds live preference values, workspace, active editor, setting object and write log.
  - `Synchronizer` holds the three globals. Its handler methods change them step by step as the source does.
  - Each handler is proved to move the state exactly as its `SyncSpec` step function says.
  - At the end, a client session opens a secret note and then a plain one.

Modelling choices:

- Glob matching is a parameter, `Matcher = (string, string) -> bool`, standing for micromatch's `isMatch`. It is applied to the file name and `"**/" + pattern`. Every property holds for every matcher.
- Host reads are the fields of `Workbench`. The handlers do not change them; the host may change them between events. A `conf.update` call appends one `Write(key, value, globally)` record to the log and does not change the live values. Within one handler, every read sees the host's state from before the handler's own writes, as happens with the configuration snapshot taken at the start of `setWorkspaceState`.
- Each counted write gets a number, 0, 1, 2, ... in the order the writes are issued. The state records how many have been issued (`issued`) and the numbers of those whose continuation has run (`completed`); write `id` is outstanding while it is issued and not completed. These two fields are ghost in `Synchronizer`: the source has no such record.
- The `.then(() => _pendingChanges--)` continuation of write `id` is a separate `WriteCompleted(id)` step. The host can deliver it only while write `id` is outstanding, and only once. The invariant proves that the counter always equals the number of outstanding writes, so it is never negative.
- `.then` is given no rejection handler, so a write the host rejects never lowers the counter. In the model such a write never gets its `WriteCompleted`. `SyncSpec.RejectedWriteBlocksReloads` proves that while one given counted write never completes, however many others do, it stays outstanding, the counter stays at one or more, and the rules never change again.
- JavaScript truthiness of an optional string is `Truthy`: the value is present and non-empty. Loose `!=` between optional strings is `Option` inequality.
- The theme write is gated on the rule's FONT FAMILY differing from the current theme, as line 79 is written. `SyncSpec.ThemeGateComparesFontFamily` shows two effects of that gate:
  - A theme-only rule is not applied while the current theme is undefined.
  - A rule whose theme is already current is written again, and that write is counted.
- `onDidChangeActiveTextEditor` may deliver no editor. `setWorkspaceState` then throws on `editor.document` before it changes anything, so that event is a no-op here.
- With no matching rule, `setWorkspaceState` always issues the two restoring writes, because lines 59-66 have just captured a baseline (`SyncSpec.ActiveEditorRestores`); only disposal can find none.

## Model

| member | source | states |
|---|---|---|
| `Styles.LoadRules` | src/extension.ts:97-101 | one rule per entry of the setting object, in key order, carrying that entry's key, font family and theme |
| `Styles.MatchingRules` | src/extension.ts:41 | the filtered list holds only rules of the list that apply to the file (glob `**/` + pattern), and every rule that applies |
| `Styles.FilterHeadIsFirstMatch` | src/extension.ts:41-43 | the head of the filtered list is the rule at the first index, in rule order, whose glob matches |
| `Styles.GetCustomStyle` | src/extension.ts:39-44 | none exactly when no rule applies; otherwise the first applicable rule in `_patterns` order |
| `Styles.FileHasCustomStyle` | src/extension.ts:46-49 | true exactly when some rule applies to the file |
| `Styles.ChangeGlobally` | src/extension.ts:54-56 | writes are global exactly when `workspaceFolders` is undefined or empty |
| `Styles.FindState` | src/extension.ts:29 | none exactly when no baseline has the workspace name; otherwise the first baseline with that name |
| `Styles.FindStateAppend` | src/extension.ts:59-66 | after an append, a lookup finds the old entry if there was one, else the appended entry if its name matches, else nothing |
| `Styles.Capture` | src/extension.ts:59-66 | the old baselines stay a prefix and at most one is added; afterwards the workspace's baseline is the old one if it had one, else the live theme and font; other workspaces' lookups are unchanged; no name is duplicated |
| `Styles.StyleWrites` | src/extension.ts:69-85 | at most two writes, font before theme, all at the given scope with truthy values; a font write exactly when the rule's font is truthy and differs from the current font; a theme write exactly when the rule's theme is truthy and the rule's font differs from the current theme |
| `Styles.RestoreWrites` | src/extension.ts:24-37 | nothing when there is no baseline for the workspace (including no baselines at all); otherwise that baseline's font, then its theme, possibly undefined, at the given scope |
| `SyncSpec.OutstandingKeepsCounter` | src/extension.ts:74-83 | in a state satisfying the invariant, while any counted write is outstanding the counter is at least one |
| `SyncSpec.ActiveEditorStep` | src/extension.ts:51-91 | `setWorkspaceState` as a step: the rules are kept, baselines and log are only appended to, at most two writes are issued, and each unit the counter rises is a newly numbered counted write, which happens only when a rule matches and something is written; no workspace gets a second baseline |
| `SyncSpec.EditorChangedStep` | src/extension.ts:143 | an event without an editor changes nothing (the handler throws at line 53 first); otherwise the rules are kept, the log only grows and only newly numbered counted writes are added |
| `SyncSpec.ReloadStep` | src/extension.ts:121-127 | nothing happens without an active editor; otherwise the rules are kept, the log only grows and only newly numbered counted writes are added |
| `SyncSpec.SettingsStep` | src/extension.ts:93-119 | with writes pending nothing changes; otherwise the rules become those of the setting and exactly one baseline remains; the log only grows and each unit the counter rises is a newly numbered counted write |
| `SyncSpec.ReloadSettings` | src/extension.ts:95-117 | the reloading branch: the rules become those read from the entries and exactly one baseline remains; the log only grows and each unit the counter rises is a newly numbered counted write |
| `SyncSpec.ActivateStep` | src/extension.ts:136-158 | the rules become those of the setting (none when it is absent, lines 136-141); the reload at line 158 changes nothing else without an active editor |
| `SyncSpec.DisposeStep` | src/extension.ts:147-156 | only the log changes, by two writes or none |
| `SyncSpec.CompletionStep` | src/extension.ts:74-83 | the continuation of outstanding write `id` takes one off the counter; write `id` is no longer outstanding, every other write stays as it was, and nothing else changes |
| `SyncSpec.ActiveEditorCapturesOnce` | src/extension.ts:59-66 | an existing baseline leaves `states` unchanged; otherwise exactly one entry with the live theme and font is appended; rules unchanged; invariant kept |
| `SyncSpec.ActiveEditorAppliesRule` | src/extension.ts:68-85 | with a matching rule, the log grows by that rule's style writes at the handler's scope and the counter grows by one per write |
| `SyncSpec.ActiveEditorRestores` | src/extension.ts:87-90 | with no matching rule, the counter is unchanged and the log grows by the workspace's baseline font then theme: the earlier baseline if any, else the values just captured |
| `SyncSpec.ActiveEditorKeepsBaselines` | src/extension.ts:59-66 | a saved baseline of any workspace survives an active-editor change |
| `SyncSpec.SettingsSuppressedWhilePending` | src/extension.ts:95 | while writes are pending, a settings change changes nothing |
| `SyncSpec.SettingsReloads` | src/extension.ts:95-117 | with no write pending: the rules are replaced by those of the setting; exactly one baseline with the live values remains (the re-run adds none); the style writes of the active file's rule are issued and counted if a rule applies to it; otherwise nothing is written |
| `SyncSpec.SettingsKeepsInvariant` | src/extension.ts:93-119 | a settings change keeps the counter non-negative and the baseline names distinct |
| `SyncSpec.DisposeRestores` | src/extension.ts:147-156 | disposal changes only the log; it is a no-op exactly when the workspace has no baseline; otherwise it writes that baseline's font then theme at the shared scope |
| `SyncSpec.CompletionDecrements` | src/extension.ts:74-83 | the completion of an outstanding write takes exactly one off the counter, which stays non-negative, and keeps the invariant |
| `SyncSpec.RejectedWriteBlocksReloads` | src/extension.ts:74-95 | while counted write `id` never completes, however many others do, it stays outstanding, the counter stays at one or more and the rules never change: a rejected counted write blocks every later reload |
| `SyncSpec.ApplyKeepsInvariant` | src/extension.ts:51-119 | every deliverable event keeps the counter equal to the number of outstanding counted writes and the baseline names distinct |
| `SyncSpec.RunKeepsInvariant` | src/extension.ts:20-22 | every run of events from a state satisfying the invariant ends in one that satisfies it |
| `SyncSpec.ReachableStatesKeepInvariant` | src/extension.ts:131-158 | in every state reachable after activation the counter equals the number of outstanding counted writes, so it is non-negative, and each workspace has at most one baseline |
| `SyncSpec.ApplyKeepsBaseline` | src/extension.ts:59-66 | any event other than a settings change leaves a saved baseline as it was |
| `SyncSpec.BaselineFixedWithinEpoch` | src/extension.ts:59-66 | through any run without a settings change, a saved baseline is never replaced |
| `SyncSpec.SwitchRestoresFirstBaseline` | src/extension.ts:51-91 | opening files of rule A, then rule B, then no rule: B's writes are issued with no restore in between, and the last file gets back the font and theme from before A |
| `SyncSpec.SecretNoteExample` | src/extension.ts:51-91 | a theme-only rule for `*.secret.md`: a secret note under theme "light" writes "dark", counted once; a plain note then writes back the font and "light" |
| `SyncSpec.ThemeGateComparesFontFamily` | src/extension.ts:78-79 | the theme gate compares the rule's font family: a theme-only rule writes nothing under an undefined theme, and an already current theme is rewritten |
| `Extension.Workbench.Update` | src/extension.ts:33-34 | `conf.update` appends exactly one write record to the log |
| `Extension.Synchronizer.constructor` | src/extension.ts:20-22 | module load: no baselines, no rules, no pending write |
| `Extension.Synchronizer.RestoreWorkspaceState` | src/extension.ts:24-37 | the log grows by the restore writes of the current workspace at the given scope |
| `Extension.Synchronizer.SetWorkspaceState` | src/extension.ts:51-91 | the state moves as `ActiveEditorStep` says, and the invariant is kept |
| `Extension.Synchronizer.ApplyStyle` | src/extension.ts:69-84 | each issued write is counted: the log grows by the style writes, and the counter and the number of issued counted writes grow by their number |
| `Extension.Synchronizer.IssueCounted` | src/extension.ts:74-75 | `_pendingChanges ++` then `conf.update`: one write appended, the counter and the issued count each up by one |
| `Extension.Synchronizer.OnDidChangeActiveTextEditor` | src/extension.ts:143 | no editor changes nothing; an editor runs `setWorkspaceState` on its file |
| `Extension.Synchronizer.ReloadCurrentDocument` | src/extension.ts:121-127 | runs `setWorkspaceState` on the active editor's file when there is one |
| `Extension.Synchronizer.OnSettingsChanged` | src/extension.ts:93-119 | the state moves as `SettingsStep` says, and the invariant is kept |
| `Extension.Synchronizer.Activate` | src/extension.ts:136-158 | the rules are loaded from the setting, none when it is absent (lines 136-141), then the current document is reloaded (line 158) |
| `Extension.Synchronizer.Dispose` | src/extension.ts:147-156 | the current workspace's baseline is written back at the scope `changeGlobally` gives |
| `Extension.Synchronizer.WriteCompleted` | src/extension.ts:76 | the completion of outstanding write `id` moves the state as `CompletionStep` says, and keeps the invariant |
| `Extension.StartNotes` | src/extension.ts:131-141 | activation with one rule for secret notes and no editor open loads that rule and writes nothing |
| `Extension.OpenSecretNote` | src/extension.ts:59-84 | opening a secret note with no baseline captures the live font and theme and issues only the theme write, counted as the next numbered write |
| `Extension.OpenPlainNote` | src/extension.ts:87-90 | opening a plain note writes the baseline back, font then theme, whatever the live theme has become, and counts nothing |

## Left out

- The host API plumbing is not modelled: `getConfiguration`, the `onDidChange*` subscriptions, `ExtensionContext.subscriptions` and `vscode.Disposable`. The handlers are explicit methods, and the host values they read are fields.
- micromatch's glob language is left out because it is a foreign library. Matching is an arbitrary `Matcher`; only the `**/` prefix and the first-match choice are modelled.
- Promise timing and interleaving are left out. A counted write is counted and numbered when issued, and its successful completion is the separate `WriteCompleted(id)` step, which the host may deliver in any order. A rejected write is one whose completion never comes; it keeps the counter raised for good, and the model covers that. The restore writes have no continuation, so their outcome is not modelled.
- What a completed write does to the live preference values is left out, because it depends on the host's precedence between global and workspace settings. The live values stay host inputs, so races with the user's own edits are not modelled.
- The order of `Object.keys` is not modelled. The setting object is given as an ordered sequence of entries.
- `Styles.LoadRules`: the entries of the model may repeat a key, which the keys of a JavaScript object cannot. Repeated entries give repeated rules; with a repeated key only the first of its rules can ever match.
- `Extension.Synchronizer.OnSettingsChanged`: requires the `dynamicThemes` setting to be present whenever the handler reloads. Without the `|| {}` guard of `activate`, the source throws in that case.
- `Extension.Synchronizer.Activate`: does not model the `vscode.workspace && getConfiguration()` guard, which always holds in the host.
- `deactivate` is not modelled: its body is commented out, so it does nothing.
- The unused `path` import has no behaviour and is not modelled.
- Settings values that are not strings are not modelled: `conf.get` results are optional strings. Nor is a `dynamicThemes` entry whose value is `null`: `patterns[k].fontFamily` then throws (lines 100 and 140 of src/extension.ts), and a `ConfigEntry` cannot represent such an entry.

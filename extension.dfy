/** The extension as it runs: the host it talks to (`Workbench`) and the module globals
    with the handlers that update them (`Synchronizer`). Every handler is proved to change
    the fields exactly as the matching step function of SyncSpec says, and to keep the
    invariant `Valid()`. */
module Extension {
  import opened Wrappers
  import opened Styles
  import opened SyncSpec

  /** The host: the live preference values, the workspace, the active editor, the
      `dynamicThemes` setting, and the preference writes issued to it, in order. The host
      changes the first six between events; the synchroniser only appends to `log`. */
  class Workbench {
    var font: Option<string>
    var theme: Option<string>
    var workspaceName: Option<string>
    var workspaceFolders: Option<nat>
    var activeFile: Option<string>
    var dynamicThemes: Option<seq<ConfigEntry>>
    var log: seq<Write>

    constructor (h: Host)
      ensures View() == h && log == []
    {
      font, theme := h.font, h.theme;
      workspaceName, workspaceFolders := h.workspaceName, h.workspaceFolders;
      activeFile, dynamicThemes := h.activeFile, h.dynamicThemes;
      log := [];
    }

    /** What a handler reads from the host */
    function View(): Host
      reads this
    {
      Host(font, theme, workspaceName, workspaceFolders, activeFile, dynamicThemes)
    }

    /** `conf.update(key, value, globally)`: issues the write. When it takes effect is
        up to the host; the live values are not changed here. */
    method Update(key: Key, value: Option<string>, globally: bool)
      modifies this`log
      ensures log == old(log) + [Write(key, value, globally)]
    {
      log := log + [Write(key, value, globally)];
    }
  }

  /** The module globals `states`, `_patterns` and `_pendingChanges`, the host they read,
      and the glob matcher */
  class Synchronizer {
    const host: Workbench
    const isMatch: Matcher
    var states: seq<SavedState>
    var patterns: seq<Rule>
    var pending: int
    /** How many counted writes have been issued, and the numbers of those whose
        continuation has run */
    ghost var issued: nat
    ghost var completed: set<nat>

    /** The state as a value */
    ghost function Model(): Sync
      reads this, host
    {
      Sync(states, patterns, pending, issued, completed, host.log)
    }

    ghost predicate Valid()
      reads this, host
    {
      Inv(Model())
    }

    /** Loading the module: no baselines, no rules, no pending write */
    constructor (host: Workbench, isMatch: Matcher)
      ensures this.host == host && this.isMatch == isMatch
      ensures Model() == Initial().(log := host.log) && Valid()
    {
      this.host, this.isMatch := host, isMatch;
      states, patterns, pending := [], [], 0;
      issued, completed := 0, {};
    }

    /** `restoreWorkspaceState`: writes the current workspace's baseline back, if any */
    method RestoreWorkspaceState(globally: bool)
      modifies host`log
      ensures host.log == old(host.log) + RestoreWrites(states, host.workspaceName, globally)
    {
      if |states| > 0 {
        var workspaceState := FindState(states, host.workspaceName);
        if workspaceState.Some? {
          host.Update(EditorFontFamily, workspaceState.value.fontFamily, globally);
          host.Update(WorkbenchColorTheme, workspaceState.value.theme, globally);
        }
      }
    }

    /** `setWorkspaceState`: captures the workspace's baseline if it has none, then
        applies the file's rule or, with no rule, restores the baseline. */
    method SetWorkspaceState(fileName: string)
      requires Valid()
      modifies this`states, this`pending, this`issued, host`log
      ensures Valid()
      ensures Model() == ActiveEditorStep(old(Model()), old(host.View()), isMatch, fileName)
    {
      ghost var s0, h := Model(), host.View();
      var changeGlobally := ChangeGlobally(host.workspaceFolders);
      var name, font, theme := host.workspaceName, host.font, host.theme;
      if FindState(states, name).None? {
        states := states + [SavedState(name, theme, font)];
      }
      assert states == Capture(s0.states, name, theme, font);
      var customStyle := GetCustomStyle(isMatch, patterns, fileName);
      if customStyle.Some? {
        ApplyStyle(customStyle.value, font, theme, changeGlobally);
      }
      if customStyle.None? {
        RestoreWorkspaceState(changeGlobally);
      }
      ActiveEditorCapturesOnce(s0, h, isMatch, fileName);
    }

    /** The rule half of `setWorkspaceState`: each write is counted before it is issued */
    method ApplyStyle(rule: Rule, font: Option<string>, theme: Option<string>, changeGlobally: bool)
      modifies this`pending, this`issued, host`log
      ensures host.log == old(host.log) + StyleWrites(rule, font, theme, changeGlobally)
      ensures pending == old(pending) + |StyleWrites(rule, font, theme, changeGlobally)|
      ensures issued == old(issued) + |StyleWrites(rule, font, theme, changeGlobally)|
    {
      if Truthy(rule.fontFamily) && rule.fontFamily != font {
        IssueCounted(EditorFontFamily, rule.fontFamily, changeGlobally);
      }
      if Truthy(rule.theme) && rule.fontFamily != theme {
        IssueCounted(WorkbenchColorTheme, rule.theme, changeGlobally);
      }
    }

    /** `_pendingChanges++` followed by `conf.update(...)`: the write is counted, and
        numbered, before it is issued */
    method IssueCounted(key: Key, value: Option<string>, globally: bool)
      modifies this`pending, this`issued, host`log
      ensures host.log == old(host.log) + [Write(key, value, globally)]
      ensures pending == old(pending) + 1 && issued == old(issued) + 1
    {
      pending, issued := pending + 1, issued + 1;
      host.Update(key, value, globally);
    }

    /** `onDidChangeActiveTextEditor`: no editor makes the handler throw before it changes
        anything; an editor runs `setWorkspaceState` for its file. */
    method OnDidChangeActiveTextEditor(editor: Option<string>)
      requires Valid()
      modifies this`states, this`pending, this`issued, host`log
      ensures Valid()
      ensures Model() == EditorChangedStep(old(Model()), old(host.View()), isMatch, editor)
    {
      if editor.Some? {
        SetWorkspaceState(editor.value);
      }
    }

    /** `reloadCurrentDocument`: re-runs `setWorkspaceState` for the active editor, if any */
    method ReloadCurrentDocument()
      requires Valid()
      modifies this`states, this`pending, this`issued, host`log
      ensures Valid()
      ensures Model() == ReloadStep(old(Model()), old(host.View()), isMatch)
    {
      if host.activeFile.Some? {
        SetWorkspaceState(host.activeFile.value);
      }
    }

    /** `onSettingsChanged`: ignored while writes are pending; otherwise reloads the rules,
        resets the baselines and re-applies the active file's rule if one applies. */
    method OnSettingsChanged()
      requires Valid()
      requires pending > 0 || host.dynamicThemes.Some?
      modifies this`states, this`patterns, this`pending, this`issued, host`log
      ensures Valid()
      ensures Model() == SettingsStep(old(Model()), old(host.View()), isMatch)
    {
      ghost var s0, h := Model(), host.View();
      if pending <= 0 {
        patterns := LoadRules(host.dynamicThemes.value);
        states := [];
        states := states + [SavedState(host.workspaceName, host.theme, host.font)];
        assert Valid();
        if host.activeFile.Some? && FileHasCustomStyle(isMatch, patterns, host.activeFile.value) {
          ReloadCurrentDocument();
        }
      }
    }

    /** The rule-loading part of `activate`, then `reloadCurrentDocument` */
    method Activate()
      requires Valid()
      modifies this`states, this`patterns, this`pending, this`issued, host`log
      ensures Valid()
      ensures Model() == ActivateStep(old(Model()), old(host.View()), isMatch)
    {
      patterns := LoadRules(host.dynamicThemes.GetOr([]));
      ReloadCurrentDocument();
    }

    /** The disposal callback registered by `activate` */
    method Dispose()
      requires Valid()
      modifies host`log
      ensures Valid()
      ensures Model() == DisposeStep(old(Model()), old(host.View()))
    {
      var changeGlobally := ChangeGlobally(host.workspaceFolders);
      RestoreWorkspaceState(changeGlobally);
    }

    /** The continuation of counted write number `id`, which has succeeded:
        `_pendingChanges--` */
    method WriteCompleted(ghost id: nat)
      requires Valid() && Outstanding(Model(), id)
      modifies this`pending, this`completed
      ensures Valid()
      ensures Model() == CompletionStep(old(Model()), id)
    {
      pending, completed := pending - 1, completed + {id};
    }
  }

  /** A stand-in for micromatch that knows a single glob */
  function SecretNoteGlob(path: string, glob: string): bool {
    glob == "**/*.secret.md" && |path| >= 10 && path[|path| - 10..] == ".secret.md"
  }

  /** Opening a secret note while no baseline is saved and the theme is light: the baseline
      is captured and only the theme write is issued, and counted. */
  method OpenSecretNote(sync: Synchronizer)
    requires sync.Valid() && sync.states == []
    requires sync.patterns == [Rule("*.secret.md", None, Some("dark"))]
    requires sync.isMatch("notes/x.secret.md", "**/*.secret.md")
    requires sync.host.font == Some("Menlo") && sync.host.theme == Some("light")
    requires sync.host.workspaceName == Some("notes") && sync.host.workspaceFolders == Some(1)
    modifies sync`states, sync`pending, sync`issued, sync.host`log
    ensures sync.Valid()
    ensures sync.states == [SavedState(Some("notes"), Some("light"), Some("Menlo"))]
    ensures sync.host.log == old(sync.host.log) + [Write(WorkbenchColorTheme, Some("dark"), false)]
    ensures sync.pending == old(sync.pending) + 1
    ensures sync.issued == old(sync.issued) + 1 && sync.completed == old(sync.completed)
  {
    var rule := Rule("*.secret.md", None, Some("dark"));
    assert "**/" + rule.pattern == "**/*.secret.md";
    assert GetCustomStyle(sync.isMatch, [rule], "notes/x.secret.md") == Some(rule);
    assert ChangeGlobally(Some(1)) == false;
    assert StyleWrites(rule, Some("Menlo"), Some("light"), false) == [Write(WorkbenchColorTheme, Some("dark"), false)];
    sync.OnDidChangeActiveTextEditor(Some("notes/x.secret.md"));
  }

  /** Opening a plain note with that baseline saved: the baseline is written back, font
      then theme, whatever the live theme has become, and nothing is counted. */
  method OpenPlainNote(sync: Synchronizer)
    requires sync.Valid()
    requires sync.states == [SavedState(Some("notes"), Some("light"), Some("Menlo"))]
    requires sync.patterns == [Rule("*.secret.md", None, Some("dark"))]
    requires !sync.isMatch("notes/x.md", "**/*.secret.md")
    requires sync.host.workspaceName == Some("notes") && sync.host.workspaceFolders == Some(1)
    modifies sync`states, sync`pending, sync`issued, sync.host`log
    ensures sync.Valid() && sync.states == old(sync.states) && sync.pending == old(sync.pending)
    ensures sync.host.log == old(sync.host.log) +
              [Write(EditorFontFamily, Some("Menlo"), false), Write(WorkbenchColorTheme, Some("light"), false)]
  {
    var rule := Rule("*.secret.md", None, Some("dark"));
    assert "**/" + rule.pattern == "**/*.secret.md";
    assert GetCustomStyle(sync.isMatch, [rule], "notes/x.md").None?;
    ActiveEditorRestores(sync.Model(), sync.host.View(), sync.isMatch, "notes/x.md");
    sync.OnDidChangeActiveTextEditor(Some("notes/x.md"));
  }

  /** Activation with a rule for secret notes, the theme light and no editor open: the rule
      is loaded and nothing is written. */
  method StartNotes() returns (sync: Synchronizer)
    ensures fresh(sync) && fresh(sync.host) && sync.Valid() && sync.isMatch == SecretNoteGlob
    ensures sync.patterns == [Rule("*.secret.md", None, Some("dark"))]
    ensures sync.states == [] && sync.pending == 0 && sync.issued == 0 && sync.completed == {}
    ensures sync.host.log == []
    ensures sync.host.View() == Host(Some("Menlo"), Some("light"), Some("notes"), Some(1), None,
                                     Some([ConfigEntry("*.secret.md", None, Some("dark"))]))
  {
    var host := new Workbench(Host(Some("Menlo"), Some("light"), Some("notes"), Some(1), None,
                                   Some([ConfigEntry("*.secret.md", None, Some("dark"))])));
    sync := new Synchronizer(host, SecretNoteGlob);
    sync.Activate();
  }

  /** A session: the secret note opened while the theme is light, its theme write completing,
      and a plain note opened after the host has switched to dark. */
  method SecretNoteSession()
  {
    var sync := StartNotes();
    OpenSecretNote(sync);
    sync.WriteCompleted(0);
    assert sync.pending == 0;
    sync.host.theme := Some("dark");
    OpenPlainNote(sync);
    assert sync.host.log == [Write(WorkbenchColorTheme, Some("dark"), false),
                             Write(EditorFontFamily, Some("Menlo"), false),
                             Write(WorkbenchColorTheme, Some("light"), false)];
  }
}

/** The LazyGit key bindings of `lazygit_ai/utils/shortcuts.py`: the
    `customCommands` list of LazyGit's YAML configuration, held in memory,
    with install, forced install and uninstall.  Reading and writing the YAML
    file are not part of this model. */
module Shortcuts {
  import opened Text
  import opened Config

  /** One custom command: a YAML mapping ("key", "context", "command", ...). */
  type Command = map<string, Value>

  const AiCommitCommand: string := "lazygit-ai commit"

  /** The entry `install_shortcut` appends. */
  function NewShortcut(key: string, context: string): (c: Command)
    ensures Matches(c, key, context)
  {
    map["key" := Str(key), "context" := Str(context), "command" := Str(AiCommitCommand),
        "description" := Str("AI commit"), "subprocess" := Bool(true)]
  }

  /** `command.get("key") == key and command.get("context") == context`. */
  predicate Matches(c: Command, key: string, context: string) {
    "key" in c && c["key"] == Str(key) && "context" in c && c["context"] == Str(context)
  }

  /** Index of the first entry bound to `key` in `context`. */
  function FirstMatch(cmds: seq<Command>, key: string, context: string): (r: Option<nat>)
    ensures r.Some? ==> r.value < |cmds| && Matches(cmds[r.value], key, context)
    ensures r.Some? ==> forall j :: 0 <= j < r.value ==> !Matches(cmds[j], key, context)
    ensures r.None? ==> forall j :: 0 <= j < |cmds| ==> !Matches(cmds[j], key, context)
    decreases |cmds|
  {
    if cmds == [] then None
    else if Matches(cmds[0], key, context) then Some(0)
    else match FirstMatch(cmds[1..], key, context)
      case Some(i) => Some(i + 1)
      case None => None
  }

  /** The first match is pinned down by its two defining properties. */
  lemma FirstMatchAt(cmds: seq<Command>, key: string, context: string, i: nat)
    requires i <= |cmds|
    requires i < |cmds| ==> Matches(cmds[i], key, context)
    requires forall j :: 0 <= j < i ==> !Matches(cmds[j], key, context)
    ensures FirstMatch(cmds, key, context) == if i < |cmds| then Some(i) else None
  {
  }

  /** `list.remove(x)` drops the first entry equal to `x`; for the first
      match that is the entry at its own index. */
  function RemoveAt(cmds: seq<Command>, i: nat): seq<Command>
    requires i < |cmds|
  {
    cmds[..i] + cmds[i + 1..]
  }

  /** The list and the result of `install_shortcut`. */
  function Installed(cmds: seq<Command>, key: string, context: string, force: bool): (seq<Command>, bool) {
    match FirstMatch(cmds, key, context)
    case Some(i) =>
      if force then (RemoveAt(cmds, i) + [NewShortcut(key, context)], true) else (cmds, false)
    case None => (cmds + [NewShortcut(key, context)], true)
  }

  /** The list and the result of `uninstall_shortcut`. */
  function Uninstalled(cmds: seq<Command>, key: string, context: string): (seq<Command>, bool) {
    match FirstMatch(cmds, key, context)
    case Some(i) => (RemoveAt(cmds, i), true)
    case None => (cmds, false)
  }

  /** Every entry has the fields `validate_config` requires. */
  predicate WellFormed(cmds: seq<Command>) {
    forall j :: 0 <= j < |cmds| ==> "key" in cmds[j] && "context" in cmds[j] && "command" in cmds[j]
  }

  /** A `shortcuts` entry whose key and context, where present, are strings
      (the source annotates both as `str`). */
  predicate StringFields(s: Command) {
    ("key" in s ==> s["key"].Str?) && ("context" in s ==> s["context"].Str?)
  }

  /** `if key and context:` for an entry with string fields. */
  predicate Eligible(s: Command)
    requires StringFields(s)
  {
    "key" in s && s["key"].s != "" && "context" in s && s["context"].s != ""
  }

  /** The results-dictionary key `f"{key}:{context}"`. */
  function Label(s: Command): string
    requires StringFields(s) && Eligible(s)
  {
    s["key"].s + ":" + s["context"].s
  }

  /** The list and the results after installing `shortcuts` in order. */
  function InstalledAll(cmds: seq<Command>, shortcuts: seq<Command>, force: bool): (seq<Command>, map<string, bool>)
    requires forall j :: 0 <= j < |shortcuts| ==> StringFields(shortcuts[j])
    decreases |shortcuts|
  {
    if shortcuts == [] then (cmds, map[])
    else
      var before := InstalledAll(cmds, shortcuts[..|shortcuts| - 1], force);
      var s := shortcuts[|shortcuts| - 1];
      if Eligible(s) then
        var after := Installed(before.0, s["key"].s, s["context"].s, force);
        (after.0, before.1[Label(s) := after.1])
      else before
  }

  /** `get_default_shortcuts`. */
  function DefaultShortcuts(): seq<Command> {
    [ map["key" := Str("C"), "context" := Str("files"), "command" := Str("lazygit-ai commit"),
          "description" := Str("AI commit"), "subprocess" := Bool(true)],
      map["key" := Str("A"), "context" := Str("files"), "command" := Str("lazygit-ai commit --no-ai"),
          "description" := Str("Rule-based commit"), "subprocess" := Bool(true)],
      map["key" := Str("X"), "context" := Str("files"), "command" := Str("lazygit-ai commit --copy"),
          "description" := Str("Copy commit message"), "subprocess" := Bool(true)] ]
  }

  /** The `customCommands` section of the loaded LazyGit configuration. */
  class ShortcutManager {
    /** None while the loaded configuration has no `customCommands` key. */
    var customCommands: Option<seq<Command>>

    constructor (loaded: Option<seq<Command>>)
      ensures customCommands == loaded
    {
      customCommands := loaded;
    }

    /** The list as the methods see it once the section exists. */
    function Commands(): seq<Command>
      reads this
    {
      if customCommands.Some? then customCommands.value else []
    }

    /** `_ensure_custom_commands_section`: adds an empty list only when the
        key is missing, so a second call changes nothing. */
    method EnsureCustomCommandsSection()
      modifies this
      ensures customCommands == Some(old(Commands()))
      ensures old(customCommands).Some? ==> customCommands == old(customCommands)
    {
      if customCommands.None? {
        customCommands := Some([]);
      }
    }

    /** `get_shortcut_command`: the first entry bound to `key` in `context`. */
    method GetShortcutCommand(key: string, context: string) returns (found: Option<Command>)
      modifies this
      ensures customCommands == Some(old(Commands()))
      ensures FirstMatch(Commands(), key, context).None? ==> found.None?
      ensures FirstMatch(Commands(), key, context).Some? ==>
        found == Some(Commands()[FirstMatch(Commands(), key, context).value])
    {
      EnsureCustomCommandsSection();
      var cmds := customCommands.value;
      var i := 0;
      while i < |cmds|
        invariant 0 <= i <= |cmds|
        invariant forall j :: 0 <= j < i ==> !Matches(cmds[j], key, context)
      {
        if Matches(cmds[i], key, context) {
          return Some(cmds[i]);
        }
        i := i + 1;
      }
      return None;
    }

    /** `install_shortcut`. */
    method InstallShortcut(key: string, context: string, force: bool) returns (ok: bool)
      modifies this
      ensures customCommands == Some(Installed(old(Commands()), key, context, force).0)
      ensures ok == Installed(old(Commands()), key, context, force).1
    {
      var existing := GetShortcutCommand(key, context);
      var cmds := customCommands.value;
      if existing.Some? && !force {
        return false;
      }
      if existing.Some? && force {
        var i := FirstMatch(cmds, key, context).value;
        cmds := RemoveAt(cmds, i);
      }
      customCommands := Some(cmds + [NewShortcut(key, context)]);
      return true;
    }

    /** `uninstall_shortcut`. */
    method UninstallShortcut(key: string, context: string) returns (ok: bool)
      modifies this
      ensures customCommands == Some(Uninstalled(old(Commands()), key, context).0)
      ensures ok == Uninstalled(old(Commands()), key, context).1
    {
      var existing := GetShortcutCommand(key, context);
      if existing.None? {
        return false;
      }
      var i := FirstMatch(customCommands.value, key, context).value;
      customCommands := Some(RemoveAt(customCommands.value, i));
      return true;
    }

    /** `validate_config`. */
    predicate ValidateConfig()
      reads this
    {
      customCommands.Some? && WellFormed(customCommands.value)
    }

    /** `install_multiple_shortcuts`. */
    method InstallMultipleShortcuts(shortcuts: seq<Command>, force: bool) returns (results: map<string, bool>)
      requires forall j :: 0 <= j < |shortcuts| ==> StringFields(shortcuts[j])
      modifies this
      ensures Commands() == InstalledAll(old(Commands()), shortcuts, force).0
      ensures results == InstalledAll(old(Commands()), shortcuts, force).1
    {
      results := map[];
      var i := 0;
      while i < |shortcuts|
        invariant 0 <= i <= |shortcuts|
        invariant (Commands(), results) == InstalledAll(old(Commands()), shortcuts[..i], force)
      {
        var s := shortcuts[i];
        assert shortcuts[..i + 1][..i] == shortcuts[..i];
        if "key" in s && s["key"].s != "" && "context" in s && s["context"].s != "" {
          var ok := InstallShortcut(s["key"].s, s["context"].s, force);
          results := results[s["key"].s + ":" + s["context"].s := ok];
        }
        i := i + 1;
      }
      assert shortcuts[..i] == shortcuts;
    }
  }

  // -----------------------------------------------------------------------
  // Properties of the list operations
  // -----------------------------------------------------------------------

  /** Without `force`, an existing binding is kept and nothing changes. */
  lemma InstallKeepsExisting(cmds: seq<Command>, key: string, context: string)
    requires exists j :: 0 <= j < |cmds| && Matches(cmds[j], key, context)
    ensures Installed(cmds, key, context, false) == (cmds, false)
  {
  }

  /** A new binding is appended after the existing entries. */
  lemma InstallAppends(cmds: seq<Command>, key: string, context: string, force: bool)
    requires forall j :: 0 <= j < |cmds| ==> !Matches(cmds[j], key, context)
    ensures Installed(cmds, key, context, force) == (cmds + [NewShortcut(key, context)], true)
  {
  }

  /** With `force`, exactly the first matching entry is replaced: the length
      is unchanged, the new entry is last, and the other entries keep their order. */
  lemma ForceReplacesFirst(cmds: seq<Command>, key: string, context: string)
    requires exists j :: 0 <= j < |cmds| && Matches(cmds[j], key, context)
    ensures var (after, ok) := Installed(cmds, key, context, true);
      && ok
      && |after| == |cmds|
      && after[|after| - 1] == NewShortcut(key, context)
      && multiset(after) == multiset(cmds) - multiset{cmds[FirstMatch(cmds, key, context).value]} + multiset{NewShortcut(key, context)}
    ensures var (after, _) := Installed(cmds, key, context, true);
      var i := FirstMatch(cmds, key, context).value;
      && (forall j :: 0 <= j < i ==> after[j] == cmds[j])
      && (forall j :: i <= j < |cmds| - 1 ==> after[j] == cmds[j + 1])
  {
    var i := FirstMatch(cmds, key, context).value;
    var after := RemoveAt(cmds, i) + [NewShortcut(key, context)];
    assert Installed(cmds, key, context, true) == (after, true);
    RemoveAtMultiset(cmds, i);
    RemoveAtOrder(cmds, i, after);
  }

  /** Removing position `i` shifts the later entries down by one. */
  lemma RemoveAtOrder(cmds: seq<Command>, i: nat, after: seq<Command>)
    requires i < |cmds| == |after| && after[..|cmds| - 1] == RemoveAt(cmds, i)
    ensures forall j :: 0 <= j < i ==> after[j] == cmds[j]
    ensures forall j :: i <= j < |cmds| - 1 ==> after[j] == cmds[j + 1]
  {
    forall j | 0 <= j < i ensures after[j] == cmds[j] {
      assert after[j] == after[..|cmds| - 1][j];
    }
    forall j | i <= j < |cmds| - 1 ensures after[j] == cmds[j + 1] {
      assert after[j] == after[..|cmds| - 1][j];
    }
  }

  /** Removing position `i` removes one occurrence of its entry. */
  lemma RemoveAtMultiset(cmds: seq<Command>, i: nat)
    requires i < |cmds|
    ensures |RemoveAt(cmds, i)| == |cmds| - 1
    ensures multiset(RemoveAt(cmds, i)) == multiset(cmds) - multiset{cmds[i]}
  {
    assert cmds == cmds[..i] + [cmds[i]] + cmds[i + 1..];
  }

  /** Uninstalling removes exactly the first match, or fails with nothing changed. */
  lemma UninstallRemovesFirst(cmds: seq<Command>, key: string, context: string)
    ensures var (after, ok) := Uninstalled(cmds, key, context);
      && (ok <==> exists j :: 0 <= j < |cmds| && Matches(cmds[j], key, context))
      && (!ok ==> after == cmds)
      && (ok ==> |after| == |cmds| - 1
                 && multiset(after) == multiset(cmds) - multiset{cmds[FirstMatch(cmds, key, context).value]})
  {
    match FirstMatch(cmds, key, context)
    case Some(i) =>
      RemoveAtMultiset(cmds, i);
    case None =>
  }

  /** A successful install leaves the binding findable. */
  lemma InstallThenFound(cmds: seq<Command>, key: string, context: string, force: bool)
    requires Installed(cmds, key, context, force).1
    ensures FirstMatch(Installed(cmds, key, context, force).0, key, context).Some?
  {
    var after := Installed(cmds, key, context, force).0;
    assert Matches(after[|after| - 1], key, context);
  }

  /** Installing a fresh binding and uninstalling it restores the list. */
  lemma InstallUninstallRoundTrip(cmds: seq<Command>, key: string, context: string, force: bool)
    requires forall j :: 0 <= j < |cmds| ==> !Matches(cmds[j], key, context)
    ensures Uninstalled(Installed(cmds, key, context, force).0, key, context) == (cmds, true)
  {
    FirstMatchAt(cmds, key, context, |cmds|);
    var after := cmds + [NewShortcut(key, context)];
    assert forall j :: 0 <= j < |cmds| ==> after[j] == cmds[j];
    FirstMatchAt(after, key, context, |cmds|);
    assert after[..|cmds|] == cmds;
    assert after[|cmds| + 1..] == [];
    assert Installed(cmds, key, context, force).0 == after;
    assert RemoveAt(after, |cmds|) == cmds;
  }

  /** Install and uninstall keep every entry well formed. */
  lemma OperationsKeepWellFormed(cmds: seq<Command>, key: string, context: string, force: bool)
    requires WellFormed(cmds)
    ensures WellFormed(Installed(cmds, key, context, force).0)
    ensures WellFormed(Uninstalled(cmds, key, context).0)
  {
    forall i | 0 <= i < |cmds| ensures WellFormed(RemoveAt(cmds, i)) {
      forall j | 0 <= j < |RemoveAt(cmds, i)|
        ensures "key" in RemoveAt(cmds, i)[j] && "context" in RemoveAt(cmds, i)[j] && "command" in RemoveAt(cmds, i)[j]
      {
        if j < i { assert RemoveAt(cmds, i)[j] == cmds[j]; }
        else { assert RemoveAt(cmds, i)[j] == cmds[j + 1]; }
      }
    }
  }

  /** The results record exactly the entries that have a key and a context. */
  lemma {:induction false} ResultsCoverEligible(cmds: seq<Command>, shortcuts: seq<Command>, force: bool)
    requires forall j :: 0 <= j < |shortcuts| ==> StringFields(shortcuts[j])
    ensures InstalledAll(cmds, shortcuts, force).1.Keys
      == set j | 0 <= j < |shortcuts| && Eligible(shortcuts[j]) :: Label(shortcuts[j])
    decreases |shortcuts|
  {
    if shortcuts != [] {
      var n := |shortcuts| - 1;
      var init := shortcuts[..n];
      ResultsCoverEligible(cmds, init, force);
      assert forall j :: 0 <= j < n ==> init[j] == shortcuts[j];
      var before := set j | 0 <= j < n && Eligible(init[j]) :: Label(init[j]);
      var whole := set j | 0 <= j < |shortcuts| && Eligible(shortcuts[j]) :: Label(shortcuts[j]);
      if Eligible(shortcuts[n]) {
        assert whole == before + {Label(shortcuts[n])};
      } else {
        assert whole == before;
      }
    }
  }

  /** Installing the three defaults into an empty list binds C, A and X in
      the files context, every one of them to `lazygit-ai commit`: the
      per-default commands ("--no-ai", "--copy") are not what gets installed. */
  lemma DefaultsInstallOneCommand()
    ensures InstalledAll([], DefaultShortcuts(), false) ==
      ([NewShortcut("C", "files"), NewShortcut("A", "files"), NewShortcut("X", "files")],
       map["C:files" := true, "A:files" := true, "X:files" := true])
  {
    var d := DefaultShortcuts();
    DefaultsThird();
    assert d[..3] == d;
  }

  lemma DefaultsFirst()
    ensures InstalledAll([], DefaultShortcuts()[..1], false) == ([NewShortcut("C", "files")], map["C:files" := true])
  {
    var d := DefaultShortcuts();
    var e: seq<Command> := [];
    assert d[..1][..0] == e;
    assert "C" + ":" + "files" == "C:files";
    FirstMatchAt(e, "C", "files", 0);
    assert e + [NewShortcut("C", "files")] == [NewShortcut("C", "files")];
  }

  lemma DefaultsSecond()
    ensures InstalledAll([], DefaultShortcuts()[..2], false)
      == ([NewShortcut("C", "files"), NewShortcut("A", "files")], map["C:files" := true, "A:files" := true])
  {
    var d := DefaultShortcuts();
    var c := NewShortcut("C", "files");
    DefaultsFirst();
    assert d[..2][..1] == d[..1];
    assert "A" + ":" + "files" == "A:files";
    FirstMatchAt([c], "A", "files", 1);
    assert [c] + [NewShortcut("A", "files")] == [c, NewShortcut("A", "files")];
  }

  lemma DefaultsThird()
    ensures InstalledAll([], DefaultShortcuts()[..3], false)
      == ([NewShortcut("C", "files"), NewShortcut("A", "files"), NewShortcut("X", "files")],
          map["C:files" := true, "A:files" := true, "X:files" := true])
  {
    var d := DefaultShortcuts();
    var c, a := NewShortcut("C", "files"), NewShortcut("A", "files");
    DefaultsSecond();
    assert d[..3][..2] == d[..2];
    assert "X" + ":" + "files" == "X:files";
    FirstMatchAt([c, a], "X", "files", 2);
    assert [c, a] + [NewShortcut("X", "files")] == [c, a, NewShortcut("X", "files")];
  }
}

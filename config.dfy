/** The settings store of `lazygit_ai/utils/config.py`: a nested map of
    TOML values addressed by dotted keys ("commit.max_length"), the default
    settings, and the range checks applied to them.  Loading and saving the
    TOML file are not part of this model: the manager holds the loaded map. */
module Config {
  import opened Text

  /** A TOML value as the manager sees it: tables nest. */
  datatype Value =
    | Bool(b: bool)
    | Int(i: int)
    | Real(r: real)
    | Str(s: string)
    | Table(entries: map<string, Value>)

  /** Python truthiness, as `if self.commit_config["conventional"]` reads a value. */
  predicate Truthy(v: Value) {
    match v
    case Bool(b) => b
    case Int(i) => i != 0
    case Real(r) => r != 0.0
    case Str(s) => s != ""
    case Table(m) => m != map[]
  }

  /** The number a value compares as (`True < 0` is legal in Python); strings
      and tables make `<` raise TypeError. */
  function Number(v: Value): Option<real> {
    match v
    case Bool(b) => Some(if b then 1.0 else 0.0)
    case Int(i) => Some(i as real)
    case Real(r) => Some(r)
    case _ => None
  }

  // ---------------------------------------------------------------------
  // Dotted paths
  // ---------------------------------------------------------------------

  /** `value = value[k]` for each key in turn: None where a key is missing
      (KeyError) or the value indexed is not a table (TypeError). */
  function Lookup(v: Value, keys: seq<string>): Option<Value>
    decreases |keys|
  {
    if keys == [] then Some(v)
    else if v.Table? && keys[0] in v.entries then Lookup(v.entries[keys[0]], keys[1..])
    else None
  }

  /** The tables `set` creates below a missing key: one fresh table per
      remaining segment, holding `v` under the last one. */
  function Fresh(keys: seq<string>, v: Value): (m: map<string, Value>)
    requires |keys| > 0
    ensures keys[0] in m
    decreases |keys|
  {
    if |keys| == 1 then map[keys[0] := v]
    else map[keys[0] := Table(Fresh(keys[1..], v))]
  }

  /** The map after `set`, or None when the walk meets an existing value that
      is not a table (Python raises TypeError there, before changing anything). */
  function SetPath(t: map<string, Value>, keys: seq<string>, v: Value): Option<map<string, Value>>
    requires |keys| > 0
    decreases |keys|
  {
    if |keys| == 1 then Some(t[keys[0] := v])
    else if keys[0] !in t then Some(t[keys[0] := Table(Fresh(keys[1..], v))])
    else match t[keys[0]]
      case Table(inner) =>
        (match SetPath(inner, keys[1..], v)
         case Some(n) => Some(t[keys[0] := Table(n)])
         case None => None)
      case _ => None
  }

  /** Two paths that part ways at some segment. */
  predicate Diverges(a: seq<string>, b: seq<string>)
    decreases |a|
  {
    |a| > 0 && |b| > 0 && (a[0] != b[0] || Diverges(a[1..], b[1..]))
  }

  /** Every existing value strictly above the last segment is a table. */
  predicate OpenPath(t: map<string, Value>, keys: seq<string>) {
    forall i :: 0 < i < |keys| ==> NotScalar(Lookup(Table(t), keys[..i]))
  }

  predicate NotScalar(o: Option<Value>) {
    o.None? || o.value.Table?
  }

  /** A freshly built path holds `v` at its end. */
  lemma {:induction false} FreshHolds(keys: seq<string>, v: Value)
    requires |keys| > 0
    ensures Lookup(Table(Fresh(keys, v)), keys) == Some(v)
    decreases |keys|
  {
    if |keys| > 1 {
      FreshHolds(keys[1..], v);
    }
  }

  /** After a successful `set(key, v)`, `get(key)` is `v`. */
  lemma {:induction false} SetThenGet(t: map<string, Value>, keys: seq<string>, v: Value)
    requires |keys| > 0 && SetPath(t, keys, v).Some?
    ensures Lookup(Table(SetPath(t, keys, v).value), keys) == Some(v)
    decreases |keys|
  {
    if |keys| > 1 {
      if keys[0] !in t {
        FreshHolds(keys[1..], v);
      } else {
        SetThenGet(t[keys[0]].entries, keys[1..], v);
      }
    }
  }

  /** A path that parts ways from the path set looks up what it did before. */
  lemma {:induction false} FreshElsewhere(keys: seq<string>, v: Value, other: seq<string>)
    requires |keys| > 0 && Diverges(keys, other)
    ensures Lookup(Table(Fresh(keys, v)), other) == None
    decreases |keys|
  {
    if keys[0] == other[0] {
      FreshElsewhere(keys[1..], v, other[1..]);
    }
  }

  /** `set` leaves every entry off the key's path unchanged. */
  lemma {:induction false} SetLeavesOthers(t: map<string, Value>, keys: seq<string>, v: Value, other: seq<string>)
    requires |keys| > 0 && SetPath(t, keys, v).Some? && Diverges(keys, other)
    ensures Lookup(Table(SetPath(t, keys, v).value), other) == Lookup(Table(t), other)
    decreases |keys|
  {
    if keys[0] == other[0] && |keys| > 1 {
      if keys[0] !in t {
        FreshElsewhere(keys[1..], v, other[1..]);
      } else {
        SetLeavesOthers(t[keys[0]].entries, keys[1..], v, other[1..]);
      }
    }
  }

  /** Looking up below one segment is looking up in that segment's value. */
  lemma LookupStep(t: map<string, Value>, keys: seq<string>, i: nat)
    requires 0 < i <= |keys| && keys[0] in t
    ensures Lookup(Table(t), keys[..i]) == Lookup(t[keys[0]], keys[1..][..i - 1])
  {
    assert keys[..i][1..] == keys[1..][..i - 1];
  }

  /** `set` fails exactly when an existing value above the last segment is
      not a table. */
  lemma {:induction false} SetSucceedsIff(t: map<string, Value>, keys: seq<string>, v: Value)
    requires |keys| > 0
    ensures SetPath(t, keys, v).Some? <==> OpenPath(t, keys)
    decreases |keys|
  {
    if |keys| > 1 {
      var k := keys[0];
      if k !in t {
        forall i | 0 < i < |keys| ensures NotScalar(Lookup(Table(t), keys[..i])) {
          assert keys[..i][0] == k;
        }
      } else {
        LookupStep(t, keys, 1);
        match t[k]
        case Table(inner) =>
          SetSucceedsIff(inner, keys[1..], v);
          if OpenPath(inner, keys[1..]) {
            forall i | 0 < i < |keys| ensures NotScalar(Lookup(Table(t), keys[..i])) {
              LookupStep(t, keys, i);
              if i > 1 {
                assert NotScalar(Lookup(Table(inner), keys[1..][..i - 1]));
              }
            }
          } else {
            var j :| 0 < j < |keys[1..]| && !NotScalar(Lookup(Table(inner), keys[1..][..j]));
            LookupStep(t, keys, j + 1);
          }
        case _ =>
          assert keys[..1][1..] == [];
      }
    }
  }

  /** `"a.b".split(".")` for segments without a dot. */
  lemma SplitDotted(a: string, b: string)
    requires '.' !in a && '.' !in b
    ensures Split(a + "." + b, '.') == [a, b]
  {
    var s := a + "." + b;
    assert s[|a|] == '.';
    assert forall i :: 0 <= i < |a| ==> s[i] == a[i];
    assert s[..|a|] == a;
    assert s[|a| + 1..] == b;
  }

  // ---------------------------------------------------------------------
  // Settings
  // ---------------------------------------------------------------------

  /** `_get_default_config`. */
  function DefaultConfig(): map<string, Value> {
    map[
      "ai" := Table(map[
        "provider" := Str("none"),
        "model" := Str("gpt-4"),
        "temperature" := Real(0.3),
        "max_tokens" := Int(150),
        "timeout" := Int(30)]),
      "commit" := Table(map[
        "conventional" := Bool(true),
        "max_length" := Int(72),
        "scope_style" := Str("lowercase"),
        "include_scope" := Bool(true),
        "auto_scope" := Bool(true)]),
      "rules" := Table(map[
        "enable_todos" := Bool(true),
        "enable_fixes" := Bool(true),
        "enable_bugs" := Bool(true),
        "branch_analysis" := Bool(true),
        "file_type_analysis" := Bool(true),
        "diff_analysis" := Bool(true)]),
      "ui" := Table(map[
        "show_banner" := Bool(true),
        "colors" := Bool(true),
        "interactive" := Bool(true),
        "copy_to_clipboard" := Bool(true)]),
      "lazygit" := Table(map[
        "auto_install" := Bool(true),
        "default_key" := Str("C"),
        "default_context" := Str("files")])
    ]
  }

  datatype AiSettings = AiSettings(provider: Value, model: Value, temperature: Value, maxTokens: Value, timeout: Value)

  datatype CommitSettings = CommitSettings(conventional: Value, maxLength: Value, scopeStyle: Value, includeScope: Value, autoScope: Value)

  datatype RulesSettings = RulesSettings(
    enableTodos: Value, enableFixes: Value, enableBugs: Value,
    branchAnalysis: Value, fileTypeAnalysis: Value, diffAnalysis: Value)

  const ScopeStyles: seq<string> := ["lowercase", "kebab-case", "camelCase"]

  /** The in-memory settings of a `ConfigManager`. */
  class ConfigManager {
    var config: map<string, Value>

    /** The manager over an already loaded (or defaulted) settings map. */
    constructor (loaded: map<string, Value>)
      ensures config == loaded
    {
      config := loaded;
    }

    /** `get(key, default)`: the value at the dotted path, else `default`. */
    function Get(key: string, default: Value): (r: Value)
      reads this
    {
      GetPath(Split(key, '.'), default)
    }

    /** The lookup `get` performs once the key is split at its dots. */
    function GetPath(keys: seq<string>, default: Value): (r: Value)
      reads this
      ensures Lookup(Table(config), keys).Some? ==> Lookup(Table(config), keys) == Some(r)
      ensures Lookup(Table(config), keys).None? ==> r == default
    {
      match Lookup(Table(config), keys)
      case Some(v) => v
      case None => default
    }

    /** `set(key, value)`: `ok` is false where Python raises TypeError, and
        then nothing has changed. */
    method Set(key: string, v: Value) returns (ok: bool)
      modifies this
      ensures ok <==> OpenPath(old(config), Split(key, '.'))
      ensures ok ==> SetPath(old(config), Split(key, '.'), v) == Some(config)
      ensures ok ==> Lookup(Table(config), Split(key, '.')) == Some(v)
      ensures !ok ==> config == old(config)
    {
      var keys := Split(key, '.');
      SetSucceedsIff(config, keys, v);
      match SetPath(config, keys, v)
      case Some(n) =>
        SetThenGet(config, keys, v);
        config := n;
        ok := true;
      case None =>
        ok := false;
    }

    /** `ai_enabled`. */
    predicate AiEnabled()
      reads this
    {
      GetPath(["ai", "provider"], Str("none")) != Str("none")
    }

    /** `get_ai_config`. */
    function AiConfig(): AiSettings
      reads this
    {
      AiSettings(GetPath(["ai", "provider"], Str("none")), GetPath(["ai", "model"], Str("gpt-4")),
        GetPath(["ai", "temperature"], Real(0.3)), GetPath(["ai", "max_tokens"], Int(150)), GetPath(["ai", "timeout"], Int(30)))
    }

    /** `get_commit_config`. */
    function CommitConfig(): CommitSettings
      reads this
    {
      CommitSettings(GetPath(["commit", "conventional"], Bool(true)), GetPath(["commit", "max_length"], Int(72)),
        GetPath(["commit", "scope_style"], Str("lowercase")), GetPath(["commit", "include_scope"], Bool(true)),
        GetPath(["commit", "auto_scope"], Bool(true)))
    }

    /** `get_rules_config`. */
    function RulesConfig(): RulesSettings
      reads this
    {
      RulesSettings(GetPath(["rules", "enable_todos"], Bool(true)), GetPath(["rules", "enable_fixes"], Bool(true)),
        GetPath(["rules", "enable_bugs"], Bool(true)), GetPath(["rules", "branch_analysis"], Bool(true)),
        GetPath(["rules", "file_type_analysis"], Bool(true)), GetPath(["rules", "diff_analysis"], Bool(true)))
    }

    /** `validate_config`: a comparison that raises TypeError counts as invalid. */
    predicate ValidateConfig()
      reads this
      ensures ValidateConfig() ==>
        var ai := AiConfig();
        var commit := CommitConfig();
        && Number(ai.temperature).Some? && 0.0 <= Number(ai.temperature).value <= 1.0
        && Number(ai.maxTokens).Some? && Number(ai.maxTokens).value >= 1.0
        && Number(ai.timeout).Some? && Number(ai.timeout).value >= 1.0
        && Number(commit.maxLength).Some? && Number(commit.maxLength).value >= 10.0
        && commit.scopeStyle.Str? && commit.scopeStyle.s in ScopeStyles
    {
      var ai := AiConfig();
      var commit := CommitConfig();
      match (Number(ai.temperature), Number(ai.maxTokens), Number(ai.timeout), Number(commit.maxLength))
      case (Some(temperature), Some(maxTokens), Some(timeout), Some(maxLength)) =>
        if temperature < 0.0 || temperature > 1.0 then false
        else if maxTokens < 1.0 then false
        else if timeout < 1.0 then false
        else if maxLength < 10.0 then false
        else commit.scopeStyle in [Str("lowercase"), Str("kebab-case"), Str("camelCase")]
      case _ => false
    }
  }

  /** `get` on a key with one dot reads the two-segment path, which is how
      the `get_*_config` helpers are written here. */
  lemma GetDotted(m: ConfigManager, section: string, name: string, default: Value)
    requires '.' !in section && '.' !in name
    ensures m.Get(section + "." + name, default) == m.GetPath([section, name], default)
  {
    SplitDotted(section, name);
  }

  /** Every lookup in an empty map falls back to its default. */
  lemma EmptyGet(m: ConfigManager, key: string, default: Value)
    requires m.config == map[]
    ensures m.Get(key, default) == default
  {
    assert |Split(key, '.')| >= 1;
  }

  /** With nothing configured, the commit settings are the documented defaults. */
  lemma EmptyCommitConfig(m: ConfigManager)
    requires m.config == map[]
    ensures m.CommitConfig() == CommitSettings(Bool(true), Int(72), Str("lowercase"), Bool(true), Bool(true))
  {
    var keys := ["commit", "max_length"];
    assert keys[0] !in m.config;
  }

  /** The default settings pass `validate_config`. */
  lemma DefaultValidates(m: ConfigManager)
    requires m.config == DefaultConfig()
    ensures m.ValidateConfig()
  {
    DefaultAiSettings(m);
    DefaultCommitSettings(m);
    var ai := m.AiConfig();
    var commit := m.CommitConfig();
    assert Number(ai.temperature) == Some(0.3);
    assert Number(ai.maxTokens) == Some(150.0);
    assert Number(ai.timeout) == Some(30.0);
    assert Number(commit.maxLength) == Some(72.0);
  }

  /** A two-segment path reads the entry of a sub-table. */
  lemma LookupTwo(t: map<string, Value>, a: string, b: string)
    requires a in t && t[a].Table? && b in t[a].entries
    ensures Lookup(Table(t), [a, b]) == Some(t[a].entries[b])
  {
    assert [a, b][1..] == [b];
    assert [b][1..] == [];
    var v := t[a].entries[b];
    assert Lookup(v, []) == Some(v);
    assert Lookup(t[a], [b]) == Some(v);
  }

  lemma DefaultAiSettings(m: ConfigManager)
    requires m.config == DefaultConfig()
    ensures m.AiConfig().temperature == Real(0.3) && m.AiConfig().maxTokens == Int(150)
      && m.AiConfig().timeout == Int(30)
  {
    var d := DefaultConfig();
    LookupTwo(d, "ai", "temperature");
    LookupTwo(d, "ai", "max_tokens");
    LookupTwo(d, "ai", "timeout");
  }

  lemma DefaultCommitSettings(m: ConfigManager)
    requires m.config == DefaultConfig()
    ensures m.CommitConfig().maxLength == Int(72) && m.CommitConfig().scopeStyle == Str("lowercase")
  {
    var d := DefaultConfig();
    LookupTwo(d, "commit", "max_length");
    LookupTwo(d, "commit", "scope_style");
  }

  /** The default provider is "none", so AI enhancement starts disabled. */
  lemma DefaultAiDisabled(m: ConfigManager)
    requires m.config == DefaultConfig()
    ensures !m.AiEnabled()
  {
    assert m.GetPath(["ai", "provider"], Str("none")) == DefaultConfig()["ai"].entries["provider"];
  }

  /** After `set("ai.provider", p)` succeeds with `p` other than "none",
      AI enhancement is enabled. */
  lemma SetProviderEnables(m: ConfigManager, t: map<string, Value>, provider: string)
    requires provider != "none"
    requires SetPath(t, ["ai", "provider"], Str(provider)) == Some(m.config)
    ensures m.AiEnabled()
  {
    SetThenGet(t, ["ai", "provider"], Str(provider));
  }
}

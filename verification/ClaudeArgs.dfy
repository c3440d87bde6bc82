/** The command line normalisers of extensions/anthropic/cli-shared.ts. */
module ClaudeArgs {
  import opened Options
  import opened JsStrings

  const CLAUDE_LEGACY_SKIP_PERMISSIONS_ARG := "--dangerously-skip-permissions"
  const CLAUDE_PERMISSION_MODE_ARG := "--permission-mode"
  const CLAUDE_BYPASS_PERMISSIONS_MODE := "bypassPermissions"
  const CLAUDE_SETTING_SOURCES_ARG := "--setting-sources"
  const CLAUDE_SAFE_SETTING_SOURCES := "user"

  /** What can follow a flag as its value: `trim` leaves something of it (see `JsStrings.TrimShape`),
      and it does not start with a dash. */
  predicate IsValue(arg: string) {
    !IsBlank(arg) && !StartsWith(arg, "-")
  }

  predicate HasValue(args: seq<string>, i: nat)
    requires i < |args|
  {
    i + 1 < |args| && IsValue(args[i + 1])
  }

  /** `${flag}=...` */
  predicate Assigns(arg: string, flag: string) {
    StartsWith(arg, flag + "=")
  }

  /** The three flags, the assignments to them and values are all different things. */
  lemma {:induction false} FlagsDiffer(arg: string)
    ensures arg in [CLAUDE_LEGACY_SKIP_PERMISSIONS_ARG, CLAUDE_PERMISSION_MODE_ARG, CLAUDE_SETTING_SOURCES_ARG] ==>
              !IsValue(arg) && !Assigns(arg, CLAUDE_PERMISSION_MODE_ARG) && !Assigns(arg, CLAUDE_SETTING_SOURCES_ARG)
    ensures IsValue(arg) ==> !Assigns(arg, CLAUDE_PERMISSION_MODE_ARG) && !Assigns(arg, CLAUDE_SETTING_SOURCES_ARG)
    ensures !(Assigns(arg, CLAUDE_PERMISSION_MODE_ARG) && Assigns(arg, CLAUDE_SETTING_SOURCES_ARG))
    ensures CLAUDE_LEGACY_SKIP_PERMISSIONS_ARG != CLAUDE_PERMISSION_MODE_ARG
    ensures CLAUDE_PERMISSION_MODE_ARG != CLAUDE_SETTING_SOURCES_ARG
    ensures CLAUDE_LEGACY_SKIP_PERMISSIONS_ARG != CLAUDE_SETTING_SOURCES_ARG
  {
    assert CLAUDE_LEGACY_SKIP_PERMISSIONS_ARG[2] == 'd' && CLAUDE_PERMISSION_MODE_ARG[2] == 'p'
            && CLAUDE_SETTING_SOURCES_ARG[2] == 's';
    assert (CLAUDE_PERMISSION_MODE_ARG + "=")[2] == 'p' && (CLAUDE_SETTING_SOURCES_ARG + "=")[2] == 's';
    assert (CLAUDE_PERMISSION_MODE_ARG + "=")[0] == '-' && (CLAUDE_SETTING_SOURCES_ARG + "=")[0] == '-';
    assert StartsWith(arg, "-") <==> arg != "" && arg[0] == '-' by {
      if arg != "" && arg[0] == '-' {
        assert arg[..1] == "-";
      }
    }
  }

  // ---------------------------------------------------------------- the two passes

  /** How many arguments are taken at once at `i`, if `flag` is the flag that takes a value. */
  function Width(args: seq<string>, i: nat, flag: string): (n: nat)
    requires i < |args|
    ensures 1 <= n <= |args| - i
  {
    if args[i] == flag && HasValue(args, i) then 2 else 1
  }

  /** What is left of the arguments at `i`. */
  function PermissionsAt(args: seq<string>, i: nat): seq<string>
    requires i < |args|
  {
    if args[i] == CLAUDE_LEGACY_SKIP_PERMISSIONS_ARG then []
    else if args[i] == CLAUDE_PERMISSION_MODE_ARG then
      if HasValue(args, i) then [args[i]] + [args[i + 1]] else []
    else [args[i]]
  }

  function PermissionsFrom(args: seq<string>, i: nat): seq<string>
    requires i <= |args|
    decreases |args| - i
  {
    if i == |args| then []
    else PermissionsAt(args, i) + PermissionsFrom(args, i + Width(args, i, CLAUDE_PERMISSION_MODE_ARG))
  }

  function SettingSourcesAt(args: seq<string>, i: nat): seq<string>
    requires i < |args|
  {
    if args[i] == CLAUDE_SETTING_SOURCES_ARG then
      if HasValue(args, i) then [args[i], CLAUDE_SAFE_SETTING_SOURCES] else []
    else if Assigns(args[i], CLAUDE_SETTING_SOURCES_ARG)
    then [CLAUDE_SETTING_SOURCES_ARG + "=" + CLAUDE_SAFE_SETTING_SOURCES]
    else [args[i]]
  }

  function SettingSourcesFrom(args: seq<string>, i: nat): seq<string>
    requires i <= |args|
    decreases |args| - i
  {
    if i == |args| then []
    else SettingSourcesAt(args, i) + SettingSourcesFrom(args, i + Width(args, i, CLAUDE_SETTING_SOURCES_ARG))
  }

  predicate GivesAt(args: seq<string>, i: nat, flag: string)
    requires i < |args|
  {
    if args[i] == flag then HasValue(args, i) else Assigns(args[i], flag)
  }

  /** The list gives `flag` a value, at `i` or later. */
  predicate GivesFrom(args: seq<string>, i: nat, flag: string)
    requires i <= |args|
    decreases |args| - i
  {
    i < |args| && (GivesAt(args, i, flag) || GivesFrom(args, i + Width(args, i, flag), flag))
  }

  function WithPermissions(args: seq<string>): seq<string> {
    if GivesFrom(args, 0, CLAUDE_PERMISSION_MODE_ARG) then PermissionsFrom(args, 0)
    else PermissionsFrom(args, 0) + [CLAUDE_PERMISSION_MODE_ARG, CLAUDE_BYPASS_PERMISSIONS_MODE]
  }

  function WithSettingSources(args: seq<string>): seq<string> {
    if GivesFrom(args, 0, CLAUDE_SETTING_SOURCES_ARG) then SettingSourcesFrom(args, 0)
    else SettingSourcesFrom(args, 0) + [CLAUDE_SETTING_SOURCES_ARG, CLAUDE_SAFE_SETTING_SOURCES]
  }

  /** `done` is what the permission pass has made of the arguments before `i`. */
  ghost predicate PermissionsDone(args: seq<string>, i: nat, done: seq<string>) {
    i <= |args| && done + PermissionsFrom(args, i) == PermissionsFrom(args, 0)
  }

  lemma {:induction false} PermissionsStep(args: seq<string>, i: nat, done: seq<string>)
    requires i < |args| && PermissionsDone(args, i, done)
    ensures PermissionsDone(args, i + Width(args, i, CLAUDE_PERMISSION_MODE_ARG), done + PermissionsAt(args, i))
  {
    var rest := PermissionsFrom(args, i + Width(args, i, CLAUDE_PERMISSION_MODE_ARG));
    assert done + (PermissionsAt(args, i) + rest) == done + PermissionsAt(args, i) + rest;
  }

  ghost predicate SettingSourcesDone(args: seq<string>, i: nat, done: seq<string>) {
    i <= |args| && done + SettingSourcesFrom(args, i) == SettingSourcesFrom(args, 0)
  }

  lemma {:induction false} SettingSourcesStep(args: seq<string>, i: nat, done: seq<string>)
    requires i < |args| && SettingSourcesDone(args, i, done)
    ensures SettingSourcesDone(args, i + Width(args, i, CLAUDE_SETTING_SOURCES_ARG), done + SettingSourcesAt(args, i))
  {
    var rest := SettingSourcesFrom(args, i + Width(args, i, CLAUDE_SETTING_SOURCES_ARG));
    assert done + (SettingSourcesAt(args, i) + rest) == done + SettingSourcesAt(args, i) + rest;
  }

  /** `given` says rightly, as far as `i`, whether the list gives `flag` a value. */
  ghost predicate GivenSoFar(args: seq<string>, i: nat, flag: string, given: bool) {
    i <= |args| && GivesFrom(args, 0, flag) == (given || GivesFrom(args, i, flag))
  }

  lemma {:induction false} GivenStep(args: seq<string>, i: nat, flag: string, given: bool)
    requires i < |args| && GivenSoFar(args, i, flag, given)
    ensures GivenSoFar(args, i + Width(args, i, flag), flag, given || GivesAt(args, i, flag))
  {
  }

  method NormalizeClaudePermissionArgs(args: Option<seq<string>>) returns (result: Option<seq<string>>)
    ensures result == if args.None? then None else Some(WithPermissions(args.value))
  {
    if args.None? {
      return args;
    }
    var all := args.value;
    var normalized := [];
    var hasPermissionMode := false;
    var i := 0;
    while i < |all|
      invariant i <= |all|
      invariant PermissionsDone(all, i, normalized)
      invariant GivenSoFar(all, i, CLAUDE_PERMISSION_MODE_ARG, hasPermissionMode)
    {
      var arg := all[i];
      PermissionsStep(all, i, normalized);
      GivenStep(all, i, CLAUDE_PERMISSION_MODE_ARG, hasPermissionMode);
      ghost var next := normalized + PermissionsAt(all, i);
      ghost var given := hasPermissionMode || GivesAt(all, i, CLAUDE_PERMISSION_MODE_ARG);
      ghost var after := i + Width(all, i, CLAUDE_PERMISSION_MODE_ARG);
      if arg == CLAUDE_LEGACY_SKIP_PERMISSIONS_ARG {
        FlagsDiffer(arg);
        i := i + 1;
        assert normalized == next && hasPermissionMode == given && i == after;
        continue;
      }
      if arg == CLAUDE_PERMISSION_MODE_ARG {
        if HasValue(all, i) {
          hasPermissionMode := true;
          assert (normalized + [arg]) + [all[i + 1]] == normalized + ([arg] + [all[i + 1]]);
          normalized := normalized + [arg];
          normalized := normalized + [all[i + 1]];
          i := i + 1;
        }
        i := i + 1;
        assert normalized == next && hasPermissionMode == given && i == after;
        continue;
      }
      if Assigns(arg, CLAUDE_PERMISSION_MODE_ARG) {
        hasPermissionMode := true;
      }
      normalized := normalized + [arg];
      i := i + 1;
      assert normalized == next && hasPermissionMode == given && i == after;
    }
    assert normalized == PermissionsFrom(all, 0);
    if !hasPermissionMode {
      normalized := normalized + [CLAUDE_PERMISSION_MODE_ARG, CLAUDE_BYPASS_PERMISSIONS_MODE];
    }
    return Some(normalized);
  }

  method NormalizeClaudeSettingSourcesArgs(args: Option<seq<string>>) returns (result: Option<seq<string>>)
    ensures result == if args.None? then None else Some(WithSettingSources(args.value))
  {
    if args.None? {
      return args;
    }
    var all := args.value;
    var normalized := [];
    var hasSettingSources := false;
    var i := 0;
    while i < |all|
      invariant i <= |all|
      invariant SettingSourcesDone(all, i, normalized)
      invariant GivenSoFar(all, i, CLAUDE_SETTING_SOURCES_ARG, hasSettingSources)
    {
      var arg := all[i];
      SettingSourcesStep(all, i, normalized);
      GivenStep(all, i, CLAUDE_SETTING_SOURCES_ARG, hasSettingSources);
      ghost var next := normalized + SettingSourcesAt(all, i);
      ghost var given := hasSettingSources || GivesAt(all, i, CLAUDE_SETTING_SOURCES_ARG);
      ghost var after := i + Width(all, i, CLAUDE_SETTING_SOURCES_ARG);
      if arg == CLAUDE_SETTING_SOURCES_ARG {
        if HasValue(all, i) {
          hasSettingSources := true;
          normalized := normalized + [arg, CLAUDE_SAFE_SETTING_SOURCES];
          i := i + 1;
        }
        i := i + 1;
        assert normalized == next && hasSettingSources == given && i == after;
        continue;
      }
      if Assigns(arg, CLAUDE_SETTING_SOURCES_ARG) {
        hasSettingSources := true;
        normalized := normalized + [CLAUDE_SETTING_SOURCES_ARG + "=" + CLAUDE_SAFE_SETTING_SOURCES];
        i := i + 1;
        assert normalized == next && hasSettingSources == given && i == after;
        continue;
      }
      normalized := normalized + [arg];
      i := i + 1;
      assert normalized == next && hasSettingSources == given && i == after;
    }
    assert normalized == SettingSourcesFrom(all, 0);
    if !hasSettingSources {
      normalized := normalized + [CLAUDE_SETTING_SOURCES_ARG, CLAUDE_SAFE_SETTING_SOURCES];
    }
    return Some(normalized);
  }

  /** What `normalizeClaudeBackendConfig` makes of either argument list. */
  function Normalized(args: seq<string>): seq<string> {
    WithPermissions(WithSettingSources(args))
  }

  datatype BackendConfig = BackendConfig(args: Option<seq<string>>, resumeArgs: Option<seq<string>>)

  method NormalizeClaudeBackendConfig(config: BackendConfig) returns (result: BackendConfig)
    ensures result.args == if config.args.None? then None else Some(Normalized(config.args.value))
    ensures result.resumeArgs == if config.resumeArgs.None? then None else Some(Normalized(config.resumeArgs.value))
  {
    var args := NormalizeClaudeSettingSourcesArgs(config.args);
    args := NormalizeClaudePermissionArgs(args);
    var resumeArgs := NormalizeClaudeSettingSourcesArgs(config.resumeArgs);
    resumeArgs := NormalizeClaudePermissionArgs(resumeArgs);
    return BackendConfig(args, resumeArgs);
  }

  // ---------------------------------------------------------------- in so many words

  /** What counts as the value of a flag. */
  lemma {:induction false} ValuesAre(v: string)
    ensures IsValue(v) <==> Trim(v) != "" && v[0] != '-'
  {
    TrimShape(v);
    if v != "" && v[0] == '-' {
      assert v[..1] == "-";
    }
  }

  lemma {:induction false} FlagTexts()
    ensures CLAUDE_LEGACY_SKIP_PERMISSIONS_ARG == "--dangerously-skip-permissions"
    ensures CLAUDE_PERMISSION_MODE_ARG == "--permission-mode" && CLAUDE_BYPASS_PERMISSIONS_MODE == "bypassPermissions"
    ensures CLAUDE_SETTING_SOURCES_ARG == "--setting-sources" && CLAUDE_SAFE_SETTING_SOURCES == "user"
  {
  }

  /** With nothing asked for, the settings are the user's and permissions are bypassed; the flag that skips
      them is dropped. */
  lemma {:induction false} DefaultsAdded()
    ensures Normalized([]) == ["--setting-sources", "user", "--permission-mode", "bypassPermissions"]
    ensures WithPermissions(["--dangerously-skip-permissions"]) == ["--permission-mode", "bypassPermissions"]
  {
    var safe := [CLAUDE_SETTING_SOURCES_ARG, CLAUDE_SAFE_SETTING_SOURCES];
    FlagTexts();
    FlagsDiffer(CLAUDE_SETTING_SOURCES_ARG);
    assert CLAUDE_SAFE_SETTING_SOURCES[0] == 'u';
    FlagsDiffer(CLAUDE_SAFE_SETTING_SOURCES);
    assert WithSettingSources([]) == safe;
    OtherFlagStays(CLAUDE_SETTING_SOURCES_ARG, CLAUDE_SAFE_SETTING_SOURCES);
    FlagsDiffer(CLAUDE_LEGACY_SKIP_PERMISSIONS_ARG);
  }

  /** Two arguments that have nothing to do with permissions. */
  lemma {:induction false} OtherFlagStays(a: string, b: string)
    requires a != CLAUDE_LEGACY_SKIP_PERMISSIONS_ARG && b != CLAUDE_LEGACY_SKIP_PERMISSIONS_ARG
    requires a != CLAUDE_PERMISSION_MODE_ARG && b != CLAUDE_PERMISSION_MODE_ARG
    requires !Assigns(a, CLAUDE_PERMISSION_MODE_ARG) && !Assigns(b, CLAUDE_PERMISSION_MODE_ARG)
    ensures WithPermissions([a, b]) == [a, b, CLAUDE_PERMISSION_MODE_ARG, CLAUDE_BYPASS_PERMISSIONS_MODE]
  {
    var args := [a, b];
    assert PermissionsFrom(args, 1) == [b] + PermissionsFrom(args, 2);
    assert PermissionsFrom(args, 0) == [a] + PermissionsFrom(args, 1) == [a, b];
    assert !GivesFrom(args, 2, CLAUDE_PERMISSION_MODE_ARG) && !GivesFrom(args, 1, CLAUDE_PERMISSION_MODE_ARG);
  }

  /** A flag and a value behind it: the mode is kept, the setting sources become the user's. */
  lemma {:induction false} ValueBehindFlag(v: string)
    requires Trim(v) != "" && v[0] != '-'
    ensures WithPermissions(["--permission-mode", v]) == ["--permission-mode", v]
    ensures WithSettingSources(["--setting-sources", v]) == ["--setting-sources", "user"]
  {
    FlagTexts();
    ValuesAre(v);
    FlagsDiffer(CLAUDE_PERMISSION_MODE_ARG);
    var modes, sources := [CLAUDE_PERMISSION_MODE_ARG, v], [CLAUDE_SETTING_SOURCES_ARG, v];
    assert PermissionsFrom(modes, 0) == ([modes[0]] + [v]) + PermissionsFrom(modes, 2) == modes;
    assert SettingSourcesFrom(sources, 0) ==
             [CLAUDE_SETTING_SOURCES_ARG, CLAUDE_SAFE_SETTING_SOURCES] + SettingSourcesFrom(sources, 2);
  }

  /** A flag with something else behind it, blank or starting with a dash, is dropped alone, and the
      default takes its place. */
  lemma {:induction false} NoValueBehindFlag(v: string)
    requires Trim(v) == "" || v[0] == '-'
    requires v !in ["--dangerously-skip-permissions", "--permission-mode", "--setting-sources"]
    requires !("--permission-mode=" <= v) && !("--setting-sources=" <= v)
    ensures WithPermissions(["--permission-mode", v]) == [v, "--permission-mode", "bypassPermissions"]
    ensures WithSettingSources(["--setting-sources", v]) == [v, "--setting-sources", "user"]
  {
    FlagTexts();
    AssignmentTexts();
    ValuesAre(v);
    ModeWithoutValue(v);
    SourcesWithoutValue(v);
  }

  lemma {:induction false} ModeWithoutValue(v: string)
    requires !IsValue(v) && v != CLAUDE_LEGACY_SKIP_PERMISSIONS_ARG && v != CLAUDE_PERMISSION_MODE_ARG
    requires !Assigns(v, CLAUDE_PERMISSION_MODE_ARG)
    ensures WithPermissions([CLAUDE_PERMISSION_MODE_ARG, v]) ==
              [v, CLAUDE_PERMISSION_MODE_ARG, CLAUDE_BYPASS_PERMISSIONS_MODE]
  {
    var args := [CLAUDE_PERMISSION_MODE_ARG, v];
    FlagsDiffer(CLAUDE_PERMISSION_MODE_ARG);
    assert PermissionsFrom(args, 1) == [v] + PermissionsFrom(args, 2) == [v];
    assert PermissionsFrom(args, 0) == [] + PermissionsFrom(args, 1) == [v];
    assert !GivesFrom(args, 1, CLAUDE_PERMISSION_MODE_ARG);
  }

  lemma {:induction false} SourcesWithoutValue(v: string)
    requires !IsValue(v) && v != CLAUDE_SETTING_SOURCES_ARG && !Assigns(v, CLAUDE_SETTING_SOURCES_ARG)
    ensures WithSettingSources([CLAUDE_SETTING_SOURCES_ARG, v]) ==
              [v, CLAUDE_SETTING_SOURCES_ARG, CLAUDE_SAFE_SETTING_SOURCES]
  {
    var args := [CLAUDE_SETTING_SOURCES_ARG, v];
    FlagsDiffer(CLAUDE_SETTING_SOURCES_ARG);
    assert SettingSourcesFrom(args, 1) == [v] + SettingSourcesFrom(args, 2) == [v];
    assert SettingSourcesFrom(args, 0) == [] + SettingSourcesFrom(args, 1) == [v];
    assert !GivesFrom(args, 1, CLAUDE_SETTING_SOURCES_ARG);
  }

  lemma {:induction false} AssignmentTexts()
    ensures CLAUDE_PERMISSION_MODE_ARG + "=" == "--permission-mode="
    ensures CLAUDE_SETTING_SOURCES_ARG + "=" == "--setting-sources="
  {
  }

  /** A flag and its value in one argument. */
  lemma {:induction false} AssignedValue(v: string)
    ensures WithPermissions(["--permission-mode=" + v]) == ["--permission-mode=" + v]
    ensures WithSettingSources(["--setting-sources=" + v]) == ["--setting-sources=user"]
  {
    FlagTexts();
    AssignmentTexts();
    var mode, source := "--permission-mode=" + v, "--setting-sources=" + v;
    assert Assigns(mode, CLAUDE_PERMISSION_MODE_ARG) && Assigns(source, CLAUDE_SETTING_SOURCES_ARG);
    FlagsDiffer(mode);
    FlagsDiffer(source);
    assert PermissionsFrom([mode], 0) == [mode] + PermissionsFrom([mode], 1);
    assert "--setting-sources=" + "user" == "--setting-sources=user";
    assert SettingSourcesFrom([source], 0) == ["--setting-sources=user"] + SettingSourcesFrom([source], 1);
  }
}

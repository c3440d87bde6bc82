/** What the normalised Claude command lines of extensions/anthropic/cli-shared.ts mean: a reading of
    an argument list as tokens, and what the two passes together do to it. */
module ClaudeArgsMeaning {
  import opened JsStrings
  import opened ClaudeArgs

  datatype Token =
    | SkipPermissions
    | Mode(value: string)
    | BareMode
    | ModeIs(arg: string)
    | Sources(value: string)
    | BareSources
    | SourcesAre(arg: string)
    | Other(arg: string)
  {
    predicate Bare?() {
      BareMode? || BareSources?
    }
  }

  function Text(t: Token): seq<string> {
    match t
    case SkipPermissions => [CLAUDE_LEGACY_SKIP_PERMISSIONS_ARG]
    case Mode(value) => [CLAUDE_PERMISSION_MODE_ARG, value]
    case BareMode => [CLAUDE_PERMISSION_MODE_ARG]
    case Sources(value) => [CLAUDE_SETTING_SOURCES_ARG, value]
    case BareSources => [CLAUDE_SETTING_SOURCES_ARG]
    case ModeIs(arg) => [arg]
    case SourcesAre(arg) => [arg]
    case Other(arg) => [arg]
  }

  function FlatMap<X>(ts: seq<Token>, f: Token -> seq<X>): seq<X> {
    if ts == [] then [] else f(ts[0]) + FlatMap(ts[1..], f)
  }

  lemma {:induction false} FlatMapConcat<X>(a: seq<Token>, b: seq<Token>, f: Token -> seq<X>)
    ensures FlatMap(a + b, f) == FlatMap(a, f) + FlatMap(b, f)
  {
    if a == [] {
      assert a + b == b;
    } else {
      assert (a + b)[1..] == a[1..] + b;
      FlatMapConcat(a[1..], b, f);
    }
  }

  lemma {:induction false} FlatMapOne<X>(t: Token, f: Token -> seq<X>)
    ensures FlatMap([t], f) == f(t)
  {
    assert [t][1..] == [];
  }

  /** Two passes that, token by token, come to a third come to it on the whole list. */
  lemma {:induction false} FlatMapTwice<X(!new)>(ts: seq<Token>, f: Token -> seq<Token>,
                                                 g: Token -> seq<X>, h: Token -> seq<X>)
    requires forall t :: FlatMap(f(t), g) == h(t)
    ensures FlatMap(FlatMap(ts, f), g) == FlatMap(ts, h)
  {
    if ts != [] {
      FlatMapTwice(ts[1..], f, g, h);
      FlatMapConcat(f(ts[0]), FlatMap(ts[1..], f), g);
    }
  }

  function TokenAt(args: seq<string>, i: nat): (t: Token)
    requires i < |args|
  {
    var arg := args[i];
    if arg == CLAUDE_LEGACY_SKIP_PERMISSIONS_ARG then SkipPermissions
    else if arg == CLAUDE_PERMISSION_MODE_ARG then if HasValue(args, i) then Mode(args[i + 1]) else BareMode
    else if arg == CLAUDE_SETTING_SOURCES_ARG then if HasValue(args, i) then Sources(args[i + 1]) else BareSources
    else if Assigns(arg, CLAUDE_PERMISSION_MODE_ARG) then ModeIs(arg)
    else if Assigns(arg, CLAUDE_SETTING_SOURCES_ARG) then SourcesAre(arg)
    else Other(arg)
  }

  function TokenWidth(args: seq<string>, i: nat): (n: nat)
    requires i < |args|
    ensures 1 <= n <= |args| - i
  {
    if TokenAt(args, i).Mode? || TokenAt(args, i).Sources? then 2 else 1
  }

  /** The argument list from `i` on, read in one go: a flag takes the value behind it, if there is one. */
  function TokensFrom(args: seq<string>, i: nat): seq<Token>
    requires i <= |args|
    decreases |args| - i
  {
    if i == |args| then [] else [TokenAt(args, i)] + TokensFrom(args, i + TokenWidth(args, i))
  }

  function Tokens(args: seq<string>): seq<Token> {
    TokensFrom(args, 0)
  }

  function Render(ts: seq<Token>): seq<string> {
    FlatMap(ts, Text)
  }

  /** Reading loses nothing. */
  lemma {:induction false} RenderTokens(args: seq<string>, i: nat)
    requires i <= |args|
    ensures Render(TokensFrom(args, i)) == args[i..]
    decreases |args| - i
  {
    if i < |args| {
      RenderTokens(args, i + TokenWidth(args, i));
      assert args[i..] == Text(TokenAt(args, i)) + args[i + TokenWidth(args, i)..];
    }
  }

  // ---------------------------------------------------------------- token lists that read back

  predicate IsToken(t: Token) {
    match t
    case Mode(value) => IsValue(value)
    case Sources(value) => IsValue(value)
    case ModeIs(arg) => Assigns(arg, CLAUDE_PERMISSION_MODE_ARG)
    case SourcesAre(arg) => Assigns(arg, CLAUDE_SETTING_SOURCES_ARG)
    case Other(arg) =>
      && arg !in [CLAUDE_LEGACY_SKIP_PERMISSIONS_ARG, CLAUDE_PERMISSION_MODE_ARG, CLAUDE_SETTING_SOURCES_ARG]
      && !Assigns(arg, CLAUDE_PERMISSION_MODE_ARG) && !Assigns(arg, CLAUDE_SETTING_SOURCES_ARG)
    case _ => true
  }

  predicate StartsWithValue(ts: seq<Token>) {
    ts != [] && ts[0].Other? && IsValue(ts[0].arg)
  }

  /** No flag without a value has one right behind it. */
  predicate ReadsBack(ts: seq<Token>) {
    ts == [] || (IsToken(ts[0]) && (ts[0].Bare?() ==> !StartsWithValue(ts[1..])) && ReadsBack(ts[1..]))
  }

  lemma {:induction false} TokenAtIs(args: seq<string>, i: nat)
    requires i < |args|
    ensures IsToken(TokenAt(args, i))
    ensures (TokenAt(args, i).Other? && IsValue(TokenAt(args, i).arg)) == IsValue(args[i])
    ensures TokenAt(args, i).Bare?() ==> !HasValue(args, i) && TokenWidth(args, i) == 1
  {
    FlagsDiffer(args[i]);
  }

  lemma {:induction false} ReadsBackInFront(t: Token, rest: seq<Token>)
    requires IsToken(t) && ReadsBack(rest) && (t.Bare?() ==> !StartsWithValue(rest))
    ensures ReadsBack([t] + rest)
    ensures StartsWithValue([t] + rest) <==> t.Other? && IsValue(t.arg)
  {
    assert ([t] + rest)[1..] == rest;
  }

  lemma {:induction false} TokensReadBack(args: seq<string>, i: nat)
    requires i <= |args|
    ensures ReadsBack(TokensFrom(args, i))
    ensures StartsWithValue(TokensFrom(args, i)) <==> i < |args| && IsValue(args[i])
    decreases |args| - i
  {
    if i < |args| {
      var t, rest := TokenAt(args, i), TokensFrom(args, i + TokenWidth(args, i));
      TokensReadBack(args, i + TokenWidth(args, i));
      TokenAtIs(args, i);
      ReadsBackInFront(t, rest);
    }
  }

  lemma {:induction false} TokensOfRender(args: seq<string>, i: nat, ts: seq<Token>)
    requires i <= |args| && args[i..] == Render(ts) && ReadsBack(ts)
    ensures TokensFrom(args, i) == ts
    decreases |ts|
  {
    if ts != [] {
      var n := |Text(ts[0])|;
      assert args[i + n..] == args[i..][n..] == Render(ts[1..]);
      TokensOfRender(args, i + n, ts[1..]);
      FirstToken(args, i, ts);
    }
  }

  lemma {:induction false} FirstToken(args: seq<string>, i: nat, ts: seq<Token>)
    requires i <= |args| && ts != [] && args[i..] == Render(ts) && ReadsBack(ts)
    ensures i < |args| && TokenAt(args, i) == ts[0] && TokenWidth(args, i) == |Text(ts[0])|
  {
    var t := ts[0];
    assert args[i] == args[i..][0] == Text(t)[0];
    FlagsDiffer(args[i]);
    if t.Mode? || t.Sources? {
      assert args[i + 1] == args[i..][1] == t.value;
    } else if t.Bare?() && i + 1 < |args| {
      assert args[i + 1] == args[i..][1] == Render(ts[1..])[0] == Text(ts[1])[0];
      FlagsDiffer(args[i + 1]);
    }
  }

  // ---------------------------------------------------------------- the passes on tokens

  /** What the setting sources pass makes of a token. */
  function Safe(t: Token): seq<Token> {
    match t
    case Sources(_) => [Sources(CLAUDE_SAFE_SETTING_SOURCES)]
    case SourcesAre(_) => [SourcesAre(CLAUDE_SETTING_SOURCES_ARG + "=" + CLAUDE_SAFE_SETTING_SOURCES)]
    case BareSources => []
    case _ => [t]
  }

  function SafeAll(ts: seq<Token>): seq<Token> {
    FlatMap(ts, Safe)
  }

  /** What the permission pass makes of a token. */
  function Kept(t: Token): seq<Token> {
    match t
    case SkipPermissions => []
    case BareMode => []
    case _ => [t]
  }

  function KeptAll(ts: seq<Token>): seq<Token> {
    FlatMap(ts, Kept)
  }

  /** The `value` of `flag=value` */
  function AssignedTo(arg: string, flag: string): string {
    if |arg| > |flag| then arg[|flag| + 1..] else ""
  }

  function ModeOf(t: Token): seq<string> {
    match t
    case Mode(value) => [value]
    case ModeIs(arg) => [AssignedTo(arg, CLAUDE_PERMISSION_MODE_ARG)]
    case _ => []
  }

  function SourcesOf(t: Token): seq<string> {
    match t
    case Sources(value) => [value]
    case SourcesAre(arg) => [AssignedTo(arg, CLAUDE_SETTING_SOURCES_ARG)]
    case _ => []
  }

  function OtherOf(t: Token): seq<string> {
    if t.Other? then [t.arg] else []
  }

  /** The permission modes given, in order. */
  function Modes(ts: seq<Token>): seq<string> {
    FlatMap(ts, ModeOf)
  }

  /** The setting sources given, in order. */
  function SettingSources(ts: seq<Token>): seq<string> {
    FlatMap(ts, SourcesOf)
  }

  /** Everything that has nothing to do with permissions or setting sources, in order. */
  function Others(ts: seq<Token>): seq<string> {
    FlatMap(ts, OtherOf)
  }

  /** What both passes make of a list of tokens. */
  function Cleaned(ts: seq<Token>): seq<Token> {
    var us := WithSources(ts);
    KeptAll(us) + if Modes(us) == [] then [Mode(CLAUDE_BYPASS_PERMISSIONS_MODE)] else []
  }

  function WithSources(ts: seq<Token>): seq<Token> {
    SafeAll(ts) + if SettingSources(ts) == [] then [Sources(CLAUDE_SAFE_SETTING_SOURCES)] else []
  }

  lemma {:induction false} SettingSourcesPass(args: seq<string>, i: nat)
    requires i <= |args|
    ensures SettingSourcesFrom(args, i) == Render(SafeAll(TokensFrom(args, i)))
    decreases |args| - i
  {
    if i < |args| {
      var t, n := TokenAt(args, i), TokenWidth(args, i);
      SettingSourcesPass(args, i + n);
      FlatMapConcat(Safe(t), SafeAll(TokensFrom(args, i + n)), Text);
      SafeText(args, i);
    }
  }

  /** One token's worth of the pass. */
  lemma {:induction false} SafeAt(args: seq<string>, i: nat)
    requires i < |args|
    ensures !TokenAt(args, i).Mode? ==>
              && SettingSourcesAt(args, i) == Render(Safe(TokenAt(args, i)))
              && Width(args, i, CLAUDE_SETTING_SOURCES_ARG) == TokenWidth(args, i)
    ensures TokenAt(args, i).Mode? ==>
              && SettingSourcesAt(args, i) == [args[i]] && Width(args, i, CLAUDE_SETTING_SOURCES_ARG) == 1
              && SettingSourcesAt(args, i + 1) == [args[i + 1]] && Width(args, i + 1, CLAUDE_SETTING_SOURCES_ARG) == 1
              && Render(Safe(TokenAt(args, i))) == [args[i]] + [args[i + 1]]
  {
    var t := TokenAt(args, i);
    FlagsDiffer(args[i]);
    FlatMapOne(t, Text);
    if t.Mode? {
      FlagsDiffer(args[i + 1]);
    } else if Safe(t) != [] {
      FlatMapOne(Safe(t)[0], Text);
    }
  }

  lemma {:induction false} SafeText(args: seq<string>, i: nat)
    requires i < |args|
    ensures SettingSourcesFrom(args, i) == Render(Safe(TokenAt(args, i))) +
              SettingSourcesFrom(args, i + TokenWidth(args, i))
  {
    var piece := Render(Safe(TokenAt(args, i)));
    SafeAt(args, i);
    if TokenAt(args, i).Mode? {
      PlainSettingSources(args, i, piece);
    } else {
      OneSettingSources(args, i, TokenWidth(args, i), piece);
    }
  }

  lemma {:induction false} OneSettingSources(args: seq<string>, i: nat, n: nat, piece: seq<string>)
    requires i < |args| && Width(args, i, CLAUDE_SETTING_SOURCES_ARG) == n && SettingSourcesAt(args, i) == piece
    ensures SettingSourcesFrom(args, i) == piece + SettingSourcesFrom(args, i + n)
  {
  }

  lemma {:induction false} PlainSettingSources(args: seq<string>, i: nat, piece: seq<string>)
    requires i + 1 < |args| && SettingSourcesAt(args, i) == [args[i]] && Width(args, i, CLAUDE_SETTING_SOURCES_ARG) == 1
    requires SettingSourcesAt(args, i + 1) == [args[i + 1]] && Width(args, i + 1, CLAUDE_SETTING_SOURCES_ARG) == 1
    requires piece == [args[i]] + [args[i + 1]]
    ensures SettingSourcesFrom(args, i) == piece + SettingSourcesFrom(args, i + 2)
  {
    assert SettingSourcesFrom(args, i + 1) == [args[i + 1]] + SettingSourcesFrom(args, i + 2);
    TwoPieces([args[i]], [args[i + 1]], SettingSourcesFrom(args, i + 2));
  }

  lemma {:induction false} TwoPieces(a: seq<string>, b: seq<string>, c: seq<string>)
    ensures a + (b + c) == (a + b) + c
  {
  }

  lemma {:induction false} PermissionsPass(args: seq<string>, i: nat)
    requires i <= |args|
    ensures PermissionsFrom(args, i) == Render(KeptAll(TokensFrom(args, i)))
    decreases |args| - i
  {
    if i < |args| {
      var t, n := TokenAt(args, i), TokenWidth(args, i);
      PermissionsPass(args, i + n);
      FlatMapConcat(Kept(t), KeptAll(TokensFrom(args, i + n)), Text);
      KeptText(args, i);
    }
  }

  lemma {:induction false} KeptAt(args: seq<string>, i: nat)
    requires i < |args|
    ensures !TokenAt(args, i).Sources? ==>
              && PermissionsAt(args, i) == Render(Kept(TokenAt(args, i)))
              && Width(args, i, CLAUDE_PERMISSION_MODE_ARG) == TokenWidth(args, i)
    ensures TokenAt(args, i).Sources? ==>
              && PermissionsAt(args, i) == [args[i]] && Width(args, i, CLAUDE_PERMISSION_MODE_ARG) == 1
              && PermissionsAt(args, i + 1) == [args[i + 1]] && Width(args, i + 1, CLAUDE_PERMISSION_MODE_ARG) == 1
              && Render(Kept(TokenAt(args, i))) == [args[i]] + [args[i + 1]]
  {
    var t := TokenAt(args, i);
    FlagsDiffer(args[i]);
    FlatMapOne(t, Text);
    if t.Sources? {
      FlagsDiffer(args[i + 1]);
    }
  }

  lemma {:induction false} KeptText(args: seq<string>, i: nat)
    requires i < |args|
    ensures PermissionsFrom(args, i) == Render(Kept(TokenAt(args, i))) + PermissionsFrom(args, i + TokenWidth(args, i))
  {
    var piece := Render(Kept(TokenAt(args, i)));
    KeptAt(args, i);
    if TokenAt(args, i).Sources? {
      PlainPermissions(args, i, piece);
    } else {
      OnePermissions(args, i, TokenWidth(args, i), piece);
    }
  }

  lemma {:induction false} OnePermissions(args: seq<string>, i: nat, n: nat, piece: seq<string>)
    requires i < |args| && Width(args, i, CLAUDE_PERMISSION_MODE_ARG) == n && PermissionsAt(args, i) == piece
    ensures PermissionsFrom(args, i) == piece + PermissionsFrom(args, i + n)
  {
  }

  lemma {:induction false} PlainPermissions(args: seq<string>, i: nat, piece: seq<string>)
    requires i + 1 < |args| && PermissionsAt(args, i) == [args[i]] && Width(args, i, CLAUDE_PERMISSION_MODE_ARG) == 1
    requires PermissionsAt(args, i + 1) == [args[i + 1]] && Width(args, i + 1, CLAUDE_PERMISSION_MODE_ARG) == 1
    requires piece == [args[i]] + [args[i + 1]]
    ensures PermissionsFrom(args, i) == piece + PermissionsFrom(args, i + 2)
  {
    assert PermissionsFrom(args, i + 1) == [args[i + 1]] + PermissionsFrom(args, i + 2);
    TwoPieces([args[i]], [args[i + 1]], PermissionsFrom(args, i + 2));
  }

  predicate Gives(t: Token, flag: string) {
    if flag == CLAUDE_PERMISSION_MODE_ARG then t.Mode? || t.ModeIs? else t.Sources? || t.SourcesAre?
  }

  predicate AnyGives(ts: seq<Token>, flag: string) {
    ts != [] && (Gives(ts[0], flag) || AnyGives(ts[1..], flag))
  }

  lemma {:induction false} GivenTokens(args: seq<string>, i: nat, flag: string)
    requires i <= |args| && flag in [CLAUDE_PERMISSION_MODE_ARG, CLAUDE_SETTING_SOURCES_ARG]
    ensures GivesFrom(args, i, flag) <==> AnyGives(TokensFrom(args, i), flag)
    decreases |args| - i
  {
    if i < |args| {
      var n := TokenWidth(args, i);
      GivenTokens(args, i + n, flag);
      GivenAt(args, i, flag);
      if n == 2 {
        ValueGivesNothing(args, i + 1, flag);
      }
    }
  }

  lemma {:induction false} GivenAt(args: seq<string>, i: nat, flag: string)
    requires i < |args| && flag in [CLAUDE_PERMISSION_MODE_ARG, CLAUDE_SETTING_SOURCES_ARG]
    ensures GivesAt(args, i, flag) <==> Gives(TokenAt(args, i), flag)
    ensures Width(args, i, flag) <= TokenWidth(args, i)
  {
    FlagsDiffer(args[i]);
  }

  lemma {:induction false} ValueGivesNothing(args: seq<string>, i: nat, flag: string)
    requires i < |args| && IsValue(args[i]) && flag in [CLAUDE_PERMISSION_MODE_ARG, CLAUDE_SETTING_SOURCES_ARG]
    ensures GivesFrom(args, i, flag) == GivesFrom(args, i + 1, flag)
  {
    FlagsDiffer(args[i]);
  }

  lemma {:induction false} GivenLists(ts: seq<Token>)
    ensures Modes(ts) != [] <==> AnyGives(ts, CLAUDE_PERMISSION_MODE_ARG)
    ensures SettingSources(ts) != [] <==> AnyGives(ts, CLAUDE_SETTING_SOURCES_ARG)
  {
    if ts != [] {
      GivenLists(ts[1..]);
      FlagsDiffer("");
    }
  }

  // ---------------------------------------------------------------- both passes together

  predicate NoBareSources(ts: seq<Token>) {
    ts == [] || (!ts[0].BareSources? && NoBareSources(ts[1..]))
  }

  lemma {:induction false} SafeReadsBack(ts: seq<Token>)
    requires ReadsBack(ts)
    ensures ReadsBack(SafeAll(ts)) && NoBareSources(SafeAll(ts))
    ensures !StartsWithValue(ts) ==> !StartsWithValue(SafeAll(ts))
  {
    if ts != [] {
      SafeReadsBack(ts[1..]);
      var rest := SafeAll(ts[1..]);
      if ts[0].BareSources? {
        assert [] + rest == rest;
      } else {
        SafeIsToken(ts[0]);
        assert ([Safe(ts[0])[0]] + rest)[1..] == rest;
      }
    }
  }

  lemma {:induction false} SafeIsToken(t: Token)
    requires IsToken(t) && !t.BareSources?
    ensures |Safe(t)| == 1 && IsToken(Safe(t)[0]) && (Safe(t)[0].Bare?() <==> t.Bare?())
    ensures Safe(t)[0].Other? <==> t.Other?
    ensures t.Other? ==> Safe(t)[0] == t
    ensures !Safe(t)[0].BareSources?
  {
    DefaultsAreValues();
    var same := CLAUDE_SETTING_SOURCES_ARG + "=" + CLAUDE_SAFE_SETTING_SOURCES;
    assert same[..|CLAUDE_SETTING_SOURCES_ARG + "="|] == CLAUDE_SETTING_SOURCES_ARG + "=";
  }

  lemma {:induction false} DefaultsAreValues()
    ensures IsValue(CLAUDE_SAFE_SETTING_SOURCES) && IsValue(CLAUDE_BYPASS_PERMISSIONS_MODE)
  {
    assert CLAUDE_SAFE_SETTING_SOURCES[0] == 'u' && CLAUDE_BYPASS_PERMISSIONS_MODE[0] == 'b' && "-"[0] == '-';
  }

  lemma {:induction false} KeptReadsBack(ts: seq<Token>)
    requires ReadsBack(ts) && NoBareSources(ts)
    ensures ReadsBack(KeptAll(ts))
  {
    if ts != [] {
      KeptReadsBack(ts[1..]);
      var rest := KeptAll(ts[1..]);
      if Kept(ts[0]) == [] {
        assert [] + rest == rest;
      } else {
        assert ([ts[0]] + rest)[1..] == rest;
      }
    }
  }

  lemma {:induction false} OneMoreReadsBack(ts: seq<Token>, t: Token)
    requires ReadsBack(ts) && IsToken(t) && !t.Bare?() && !t.Other?
    ensures ReadsBack(ts + [t]) && (NoBareSources(ts) ==> NoBareSources(ts + [t]))
    ensures StartsWithValue(ts + [t]) <==> StartsWithValue(ts)
  {
    if ts != [] {
      OneMoreReadsBack(ts[1..], t);
      assert (ts + [t])[1..] == ts[1..] + [t];
    }
  }

  lemma {:induction false} WithSourcesReadsBack(ts: seq<Token>)
    requires ReadsBack(ts)
    ensures ReadsBack(WithSources(ts)) && NoBareSources(WithSources(ts))
  {
    SafeReadsBack(ts);
    DefaultsAreValues();
    OneMoreReadsBack(SafeAll(ts), Sources(CLAUDE_SAFE_SETTING_SOURCES));
    assert SafeAll(ts) + [] == SafeAll(ts);
  }

  lemma {:induction false} CleanedReadsBack(ts: seq<Token>)
    requires ReadsBack(ts)
    ensures ReadsBack(Cleaned(ts))
  {
    var us := WithSources(ts);
    WithSourcesReadsBack(ts);
    KeptReadsBack(us);
    DefaultsAreValues();
    OneMoreReadsBack(KeptAll(us), Mode(CLAUDE_BYPASS_PERMISSIONS_MODE));
    assert KeptAll(us) + [] == KeptAll(us);
  }

  lemma {:induction false} WithSettingSourcesIs(args: seq<string>)
    ensures WithSettingSources(args) == Render(WithSources(Tokens(args)))
    ensures Tokens(WithSettingSources(args)) == WithSources(Tokens(args))
  {
    var ts := Tokens(args);
    SettingSourcesPass(args, 0);
    GivenTokens(args, 0, CLAUDE_SETTING_SOURCES_ARG);
    GivenLists(ts);
    FlatMapConcat(SafeAll(ts), [Sources(CLAUDE_SAFE_SETTING_SOURCES)], Text);
    FlatMapOne(Sources(CLAUDE_SAFE_SETTING_SOURCES), Text);
    assert SafeAll(ts) + [] == SafeAll(ts);
    TokensReadBack(args, 0);
    WithSourcesReadsBack(ts);
    var out := WithSettingSources(args);
    assert out[0..] == out;
    TokensOfRender(out, 0, WithSources(ts));
  }

  lemma {:induction false} WithPermissionsIs(args: seq<string>)
    ensures WithPermissions(args) ==
              Render(KeptAll(Tokens(args)) +
                     if Modes(Tokens(args)) == [] then [Mode(CLAUDE_BYPASS_PERMISSIONS_MODE)] else [])
  {
    var ts := Tokens(args);
    PermissionsPass(args, 0);
    GivenTokens(args, 0, CLAUDE_PERMISSION_MODE_ARG);
    GivenLists(ts);
    FlatMapConcat(KeptAll(ts), [Mode(CLAUDE_BYPASS_PERMISSIONS_MODE)], Text);
    FlatMapOne(Mode(CLAUDE_BYPASS_PERMISSIONS_MODE), Text);
    assert KeptAll(ts) + [] == KeptAll(ts);
  }

  /** The two passes over strings come to one cleaning of the tokens, and the result reads as just
      that: the second pass neither splits a pair the first one made nor joins a new one. */
  lemma {:induction false} NormalizedIsCleaned(args: seq<string>)
    ensures Tokens(Normalized(args)) == Cleaned(Tokens(args))
    ensures Normalized(args) == Render(Cleaned(Tokens(args)))
  {
    WithSettingSourcesIs(args);
    WithPermissionsIs(WithSettingSources(args));
    TokensReadBack(args, 0);
    CleanedReadsBack(Tokens(args));
    var out := Normalized(args);
    assert out[0..] == out;
    TokensOfRender(out, 0, Cleaned(Tokens(args)));
  }

  // ---------------------------------------------------------------- what survives

  predicate AllSafe(values: seq<string>) {
    forall i :: 0 <= i < |values| ==> values[i] == CLAUDE_SAFE_SETTING_SOURCES
  }

  lemma {:induction false} SafeKeepsTheRest(ts: seq<Token>)
    ensures Modes(SafeAll(ts)) == Modes(ts) && Others(SafeAll(ts)) == Others(ts)
  {
    FlatMapTwice(ts, Safe, ModeOf, ModeOf);
    FlatMapTwice(ts, Safe, OtherOf, OtherOf);
  }

  lemma {:induction false} KeptKeepsAll(ts: seq<Token>)
    ensures Modes(KeptAll(ts)) == Modes(ts) && Others(KeptAll(ts)) == Others(ts)
    ensures SettingSources(KeptAll(ts)) == SettingSources(ts)
  {
    FlatMapTwice(ts, Kept, ModeOf, ModeOf);
    FlatMapTwice(ts, Kept, OtherOf, OtherOf);
    FlatMapTwice(ts, Kept, SourcesOf, SourcesOf);
  }

  lemma {:induction false} SafeSources(t: Token)
    ensures SettingSources(Safe(t)) == if SourcesOf(t) == [] then [] else [CLAUDE_SAFE_SETTING_SOURCES]
    ensures |SourcesOf(t)| <= 1
  {
    var same := CLAUDE_SETTING_SOURCES_ARG + "=" + CLAUDE_SAFE_SETTING_SOURCES;
    assert AssignedTo(same, CLAUDE_SETTING_SOURCES_ARG) == CLAUDE_SAFE_SETTING_SOURCES;
    if Safe(t) != [] {
      FlatMapOne(Safe(t)[0], SourcesOf);
    }
  }

  /** The setting sources pass keeps as many sources as there were, and makes each the user's. */
  lemma {:induction false} SafeMakesSafe(ts: seq<Token>)
    ensures |SettingSources(SafeAll(ts))| == |SettingSources(ts)| && AllSafe(SettingSources(SafeAll(ts)))
  {
    if ts != [] {
      SafeMakesSafe(ts[1..]);
      SafeSources(ts[0]);
      FlatMapConcat(Safe(ts[0]), SafeAll(ts[1..]), SourcesOf);
    }
  }

  lemma {:induction false} WithSourcesGives(ts: seq<Token>)
    ensures Modes(WithSources(ts)) == Modes(ts) && Others(WithSources(ts)) == Others(ts)
    ensures AllSafe(SettingSources(WithSources(ts)))
    ensures |SettingSources(WithSources(ts))| == if SettingSources(ts) == [] then 1 else |SettingSources(ts)|
  {
    var user := Sources(CLAUDE_SAFE_SETTING_SOURCES);
    SafeKeepsTheRest(ts);
    SafeMakesSafe(ts);
    FlatMapConcat(SafeAll(ts), [user], ModeOf);
    FlatMapConcat(SafeAll(ts), [user], SourcesOf);
    FlatMapConcat(SafeAll(ts), [user], OtherOf);
    assert SafeAll(ts) + [] == SafeAll(ts);
    assert SettingSources([user]) == [CLAUDE_SAFE_SETTING_SOURCES] && Modes([user]) == [] && Others([user]) == [];
  }

  /** What the normalised command line means, for every argument list: the permission modes asked for,
      or bypassing if none is; as many setting sources as before, but at least one, all of them the
      user's; and everything else as it was, in order. */
  lemma {:induction false} NormalizedMeans(args: seq<string>)
    ensures var before, after := Tokens(args), Tokens(Normalized(args));
            && Modes(after) == (if Modes(before) == [] then [CLAUDE_BYPASS_PERMISSIONS_MODE] else Modes(before))
            && AllSafe(SettingSources(after))
            && |SettingSources(after)| == (if SettingSources(before) == [] then 1 else |SettingSources(before)|)
            && Others(after) == Others(before)
  {
    var us, bypass := WithSources(Tokens(args)), Mode(CLAUDE_BYPASS_PERMISSIONS_MODE);
    NormalizedIsCleaned(args);
    WithSourcesGives(Tokens(args));
    KeptKeepsAll(us);
    FlatMapConcat(KeptAll(us), [bypass], ModeOf);
    FlatMapConcat(KeptAll(us), [bypass], SourcesOf);
    FlatMapConcat(KeptAll(us), [bypass], OtherOf);
    assert KeptAll(us) + [] == KeptAll(us);
    assert SettingSources([bypass]) == [] && Modes([bypass]) == [CLAUDE_BYPASS_PERMISSIONS_MODE]
            && Others([bypass]) == [];
  }

  // ---------------------------------------------------------------- the fixed points

  /** What a clean argument list has at `i`. */
  predicate IsCleanAt(args: seq<string>, i: nat)
    requires i < |args|
  {
    && args[i] != CLAUDE_LEGACY_SKIP_PERMISSIONS_ARG
    && (args[i] == CLAUDE_PERMISSION_MODE_ARG ==> HasValue(args, i))
    && (args[i] == CLAUDE_SETTING_SOURCES_ARG ==> i + 1 < |args| && args[i + 1] == CLAUDE_SAFE_SETTING_SOURCES)
    && (Assigns(args[i], CLAUDE_SETTING_SOURCES_ARG) ==>
          args[i] == CLAUDE_SETTING_SOURCES_ARG + "=" + CLAUDE_SAFE_SETTING_SOURCES)
  }

  predicate IsCleanFrom(args: seq<string>, i: nat) {
    forall j :: i <= j < |args| ==> IsCleanAt(args, j)
  }

  /** A command line that never skips permissions, says where permissions stand, and takes settings
      from the user only. */
  predicate IsClean(args: seq<string>) {
    && IsCleanFrom(args, 0)
    && (exists i :: 0 <= i < |args| && GivesAt(args, i, CLAUDE_PERMISSION_MODE_ARG))
    && (exists i :: 0 <= i < |args| && GivesAt(args, i, CLAUDE_SETTING_SOURCES_ARG))
  }

  predicate CleanToken(t: Token) {
    Kept(t) == [t] && Safe(t) == [t]
  }

  predicate CleanTokens(ts: seq<Token>) {
    ts == [] || (CleanToken(ts[0]) && CleanTokens(ts[1..]))
  }

  lemma {:induction false} CleanAt(args: seq<string>, i: nat)
    requires i < |args|
    ensures IsCleanAt(args, i) <==> CleanToken(TokenAt(args, i))
    ensures TokenWidth(args, i) == 2 ==> IsCleanAt(args, i + 1)
  {
    FlagsDiffer(args[i]);
    DefaultsAreValues();
    if TokenWidth(args, i) == 2 {
      FlagsDiffer(args[i + 1]);
    }
  }

  lemma {:induction false} CleanReads(args: seq<string>, i: nat)
    requires i <= |args|
    ensures IsCleanFrom(args, i) <==> CleanTokens(TokensFrom(args, i))
    decreases |args| - i
  {
    if i < |args| {
      var n := TokenWidth(args, i);
      CleanAt(args, i);
      CleanReads(args, i + n);
      assert IsCleanFrom(args, i) <==> IsCleanAt(args, i) && IsCleanFrom(args, i + n) by {
        if IsCleanAt(args, i) && IsCleanFrom(args, i + n) {
          forall j | i <= j < |args| ensures IsCleanAt(args, j) {
            assert j == i || j == i + 1 || i + n <= j;
          }
        }
      }
    }
  }

  lemma {:induction false} GivenSomewhere(args: seq<string>, i: nat, flag: string)
    requires i <= |args| && flag in [CLAUDE_PERMISSION_MODE_ARG, CLAUDE_SETTING_SOURCES_ARG]
    ensures GivesFrom(args, i, flag) <==> exists j :: i <= j < |args| && GivesAt(args, j, flag)
    decreases |args| - i
  {
    if i < |args| && !GivesAt(args, i, flag) {
      GivenSomewhere(args, i + 1, flag);
    }
  }

  /** A list is clean exactly if all its tokens are, and modes and setting sources are among them. */
  lemma {:induction false} CleanIs(args: seq<string>)
    ensures IsClean(args) <==>
              CleanTokens(Tokens(args)) && Modes(Tokens(args)) != [] && SettingSources(Tokens(args)) != []
  {
    CleanReads(args, 0);
    GivenSomewhere(args, 0, CLAUDE_PERMISSION_MODE_ARG);
    GivenSomewhere(args, 0, CLAUDE_SETTING_SOURCES_ARG);
    GivenTokens(args, 0, CLAUDE_PERMISSION_MODE_ARG);
    GivenTokens(args, 0, CLAUDE_SETTING_SOURCES_ARG);
    GivenLists(Tokens(args));
  }

  lemma {:induction false} CleanStay(ts: seq<Token>)
    requires CleanTokens(ts)
    ensures SafeAll(ts) == ts && KeptAll(ts) == ts
  {
    if ts != [] {
      CleanStay(ts[1..]);
    }
  }

  lemma {:induction false} KeptSafeIsClean(ts: seq<Token>)
    ensures CleanTokens(KeptAll(SafeAll(ts)))
  {
    if ts != [] {
      KeptSafeIsClean(ts[1..]);
      var rest := SafeAll(ts[1..]);
      if Safe(ts[0]) == [] {
        assert [] + rest == rest;
      } else {
        var t := Safe(ts[0])[0];
        assert ([t] + rest)[1..] == rest;
        if Kept(t) == [] {
          assert [] + KeptAll(rest) == KeptAll(rest);
        } else {
          assert ([t] + KeptAll(rest))[1..] == KeptAll(rest);
        }
      }
    }
  }

  lemma {:induction false} OneMoreClean(ts: seq<Token>, t: Token)
    requires CleanTokens(ts) && CleanToken(t)
    ensures CleanTokens(ts + [t])
  {
    if ts != [] {
      OneMoreClean(ts[1..], t);
      assert (ts + [t])[1..] == ts[1..] + [t];
    }
  }

  lemma {:induction false} WithSourcesIsClean(ts: seq<Token>)
    ensures CleanTokens(KeptAll(WithSources(ts)))
  {
    var user := Sources(CLAUDE_SAFE_SETTING_SOURCES);
    KeptSafeIsClean(ts);
    if SettingSources(ts) == [] {
      FlatMapConcat(SafeAll(ts), [user], Kept);
      FlatMapOne(user, Kept);
      OneMoreClean(KeptAll(SafeAll(ts)), user);
    } else {
      assert SafeAll(ts) + [] == SafeAll(ts);
    }
  }

  lemma {:induction false} CleanedIsClean(ts: seq<Token>)
    ensures CleanTokens(Cleaned(ts))
  {
    var kept := KeptAll(WithSources(ts));
    WithSourcesIsClean(ts);
    OneMoreClean(kept, Mode(CLAUDE_BYPASS_PERMISSIONS_MODE));
    assert kept + [] == kept;
  }

  /** Normalising yields a clean list, and leaves alone exactly the clean lists. */
  lemma {:induction false} CleanListsAreTheFixedPoints(args: seq<string>)
    ensures IsClean(Normalized(args))
    ensures IsClean(args) <==> Normalized(args) == args
  {
    var ts, out := Tokens(args), Normalized(args);
    NormalizedIsCleaned(args);
    NormalizedMeans(args);
    CleanedIsClean(ts);
    CleanIs(out);
    CleanIs(args);
    if IsClean(args) {
      CleanStay(ts);
      assert ts + [] == ts;
      RenderTokens(args, 0);
      assert args[0..] == args;
    }
  }

  /** Normalising twice is normalising once. */
  lemma {:induction false} NormalizedTwice(args: seq<string>)
    ensures Normalized(Normalized(args)) == Normalized(args)
  {
    CleanListsAreTheFixedPoints(args);
    CleanListsAreTheFixedPoints(Normalized(args));
  }
}

/** Placeholder substitution and the two argument dialects: the legacy
    `minecraftArguments` string and the modern `arguments` lists with their
    conditional entries, plus the Forge and Fabric augmentation. */
module Arguments {
  import opened Wrappers
  import opened Text
  import opened Rules
  import opened Paths
  import opened Manifest
  import opened Planner

  /** A replacement table in insertion order (a Python dict literal). */
  type Replacements = seq<(string, string)>

  /** Each pair applied in turn with `str.replace`, so that a value inserted
      by an earlier pair is itself subject to the later pairs. */
  function ReplaceAllPairs(s: string, pairs: Replacements): string
    decreases |pairs|
  {
    if pairs == [] then s
    else
      var last := pairs[|pairs| - 1];
      ReplaceAll(ReplaceAllPairs(s, pairs[..|pairs| - 1]), last.0, last.1)
  }

  /** `replace_arg(arg_str, replacements)`. */
  method ReplaceArg(argStr: string, replacements: Replacements) returns (r: string)
    ensures r == ReplaceAllPairs(argStr, replacements)
  {
    r := argStr;
    var i := 0;
    while i < |replacements|
      invariant 0 <= i <= |replacements|
      invariant r == ReplaceAllPairs(argStr, replacements[..i])
    {
      assert replacements[..i + 1][..i] == replacements[..i];
      r := ReplaceAll(r, replacements[i].0, replacements[i].1);
      i := i + 1;
    }
    assert replacements[..|replacements|] == replacements;
  }

  /** Every key is a non-empty marker starting with '$'. */
  predicate Placeholders(pairs: Replacements) {
    forall i :: 0 <= i < |pairs| ==> pairs[i].0 != [] && pairs[i].0[0] == '$'
  }

  /** A string without '$' passes through any table of placeholders. */
  lemma {:induction false} ReplacePairsDollarFree(s: string, pairs: Replacements)
    requires '$' !in s && Placeholders(pairs)
    ensures ReplaceAllPairs(s, pairs) == s
    decreases |pairs|
  {
    if pairs != [] {
      var last := pairs[|pairs| - 1];
      ReplacePairsDollarFree(s, pairs[..|pairs| - 1]);
      FirstCharAbsent(s, last.0);
      ReplaceAbsent(s, last.0, last.1);
    }
  }

  /** The table applied front to back: the first pair, then the rest. */
  lemma {:induction false} ReplacePairsFirst(s: string, pairs: Replacements)
    requires pairs != []
    ensures ReplaceAllPairs(s, pairs) == ReplaceAllPairs(ReplaceAll(s, pairs[0].0, pairs[0].1), pairs[1..])
    decreases |pairs|
  {
    if |pairs| == 1 {
      assert pairs[1..] == [];
    } else {
      var init := pairs[..|pairs| - 1];
      ReplacePairsFirst(s, init);
      assert init[1..] == pairs[1..][..|pairs[1..]| - 1];
    }
  }

  /** A string shorter than every key is left alone. */
  lemma {:induction false} ShortStringUntouched(s: string, pairs: Replacements)
    requires forall i :: 0 <= i < |pairs| ==> |pairs[i].0| > |s|
    ensures ReplaceAllPairs(s, pairs) == s
    decreases |pairs|
  {
    if pairs != [] {
      var last := pairs[|pairs| - 1];
      ShortStringUntouched(s, pairs[..|pairs| - 1]);
      ContainsShorterFails(s, last.0);
      ReplaceAbsent(s, last.0, last.1);
    }
  }

  // ---------------------------------------------------------------------
  // The replacement tables.
  // ---------------------------------------------------------------------

  /** The offline access token. */
  const AccessToken := "0"
  const LauncherName := "RaposoLauncher"
  const LauncherVersion := "1.0"

  /** `version_data.get("type", "release")`. */
  function VersionTypeOf(merged: Descriptor): string {
    merged.versionType.GetOr("release")
  }

  function LegacyReplacements(c: Config, version: string, merged: Descriptor): (pairs: Replacements)
    ensures |pairs| == 12 && pairs[0] == ("${auth_player_name}", c.username)
    ensures Placeholders(pairs)
  {
    [ ("${auth_player_name}", c.username),
      ("${auth_uuid}", EffectiveUuid(c)),
      ("${auth_access_token}", AccessToken),
      ("${auth_session}", AccessToken),
      ("${user_type}", "legacy"),
      ("${user_properties}", "{}"),
      ("${version_name}", version),
      ("${game_directory}", c.gameDir),
      ("${assets_root}", AssetsDir(c)),
      ("${game_assets}", AssetsDir(c)),
      ("${assets_index_name}", AssetIndexId(merged)),
      ("${version_type}", VersionTypeOf(merged)) ]
  }

  function ModernReplacements(c: Config, version: string, merged: Descriptor, nativesDir: string, classpath: string)
    : (pairs: Replacements)
    ensures |pairs| == 16
    ensures Placeholders(pairs)
    ensures forall i :: 0 <= i < |pairs| ==> |pairs[i].0| >= 12
  {
    [ ("${auth_player_name}", c.username),
      ("${auth_uuid}", EffectiveUuid(c)),
      ("${auth_access_token}", AccessToken),
      ("${user_type}", "legacy"),
      ("${user_properties}", "{}"),
      ("${version_name}", version),
      ("${game_directory}", c.gameDir),
      ("${assets_root}", AssetsDir(c)),
      ("${assets_index_name}", AssetIndexId(merged)),
      ("${version_type}", VersionTypeOf(merged)),
      ("${natives_directory}", nativesDir),
      ("${library_directory}", LibrariesDir(c)),
      ("${classpath_separator}", [ClasspathSeparator(c)]),
      ("${classpath}", classpath),
      ("${launcher_name}", LauncherName),
      ("${launcher_version}", LauncherVersion) ]
  }

  /** A placeholder the modern table does not know survives substitution:
      `${clientid}` is shorter than every key of the table. */
  lemma {:induction false} UnknownPlaceholderSurvives(c: Config, version: string, merged: Descriptor, nativesDir: string, classpath: string)
    ensures ReplaceAllPairs("${clientid}", ModernReplacements(c, version, merged, nativesDir, classpath)) == "${clientid}"
  {
    ShortStringUntouched("${clientid}", ModernReplacements(c, version, merged, nativesDir, classpath));
  }

  // ---------------------------------------------------------------------
  // The legacy dialect.
  // ---------------------------------------------------------------------

  function MemoryFlags(c: Config): seq<string> {
    ["-Xmx" + c.ram, "-Xms" + c.ram]
  }

  function DarwinFlags(c: Config): seq<string> {
    if IsDarwin(c) then ["-XstartOnFirstThread"] else []
  }

  function LegacyJvmArgs(c: Config, nativesDir: string, classpath: string): seq<string> {
    MemoryFlags(c) + DarwinFlags(c) + ["-Djava.library.path=" + nativesDir, "-cp", classpath]
  }

  /** The substituted `minecraftArguments` split on whitespace. */
  function LegacyGameArgs(c: Config, version: string, merged: Descriptor, template: string): seq<string> {
    Words(ReplaceAllPairs(template, LegacyReplacements(c, version, merged)))
  }

  /** The legacy branch of the launch thread. */
  method LegacyArguments(c: Config, version: string, merged: Descriptor, template: string,
                         nativesDir: string, classpath: string)
    returns (jvm: seq<string>, game: seq<string>)
    ensures jvm == LegacyJvmArgs(c, nativesDir, classpath)
    ensures game == LegacyGameArgs(c, version, merged, template)
  {
    jvm := [];
    jvm := jvm + ["-Xmx" + c.ram];
    jvm := jvm + ["-Xms" + c.ram];
    if Lower(c.system) == "darwin" {
      jvm := jvm + ["-XstartOnFirstThread"];
    }
    jvm := jvm + ["-Djava.library.path=" + nativesDir];
    jvm := jvm + ["-cp"];
    jvm := jvm + [classpath];
    var replaced := ReplaceArg(template, LegacyReplacements(c, version, merged));
    game := Words(replaced);
  }

  /** The legacy JVM arguments: memory twice, the macOS thread flag exactly
      on Darwin, then the native library path and the classpath after `-cp`. */
  lemma {:induction false} LegacyJvmShape(c: Config, nativesDir: string, classpath: string)
    ensures var jvm := LegacyJvmArgs(c, nativesDir, classpath);
      && |jvm| == (if IsDarwin(c) then 6 else 5)
      && jvm[0] == "-Xmx" + c.ram && jvm[1] == "-Xms" + c.ram
      && (jvm[2] == "-XstartOnFirstThread" <==> IsDarwin(c))
      && jvm[|jvm| - 3] == "-Djava.library.path=" + nativesDir
      && jvm[|jvm| - 2] == "-cp" && jvm[|jvm| - 1] == classpath
  {
    var jvm := LegacyJvmArgs(c, nativesDir, classpath);
    if !IsDarwin(c) {
      assert jvm[2] == "-Djava.library.path=" + nativesDir;
      assert jvm[2][1] == 'D';
    }
  }

  /** A template without placeholders is only split into words. */
  lemma {:induction false} LegacyTemplateWithoutPlaceholders(c: Config, version: string, merged: Descriptor, template: string)
    requires '$' !in template
    ensures LegacyGameArgs(c, version, merged, template) == Words(template)
  {
    ReplacePairsDollarFree(template, LegacyReplacements(c, version, merged));
  }

  /** Substituting the leading placeholder of a table whose values and
      template hold no other marker. */
  lemma {:induction false} LeadingPlaceholder(prefix: string, pairs: Replacements)
    requires pairs != [] && Placeholders(pairs) && '$' !in prefix && '$' !in pairs[0].1
    ensures ReplaceAllPairs(prefix + pairs[0].0, pairs) == prefix + pairs[0].1
  {
    var key := pairs[0].0;
    ReplacePairsFirst(prefix + key, pairs);
    ReplaceAfterPlainPrefix(prefix, key, key, pairs[0].1);
    ReplaceWhole(key, pairs[0].1);
    var once := prefix + pairs[0].1;
    assert '$' !in once;
    assert Placeholders(pairs[1..]) by {
      forall i | 0 <= i < |pairs[1..]|
        ensures pairs[1..][i].0 != [] && pairs[1..][i].0[0] == '$'
      {
        assert pairs[1..][i] == pairs[i + 1];
      }
    }
    ReplacePairsDollarFree(once, pairs[1..]);
  }

  /** `--username ${auth_player_name}` becomes the two words `--username`
      and the player name. */
  lemma {:induction false} LegacyUsernameExample(c: Config, version: string, merged: Descriptor)
    requires IsWord(c.username) && '$' !in c.username
    ensures LegacyGameArgs(c, version, merged, "--username ${auth_player_name}") == ["--username", c.username]
  {
    var pairs := LegacyReplacements(c, version, merged);
    assert "--username ${auth_player_name}" == "--username " + pairs[0].0;
    LeadingPlaceholder("--username ", pairs);
    assert "--username " + c.username == Join(["--username", c.username], " ");
    WordsJoin(["--username", c.username]);
  }

  // ---------------------------------------------------------------------
  // The modern dialect.
  // ---------------------------------------------------------------------

  /** The fixed feature set: every feature the launcher knows of is off. */
  const ModernFeatures: map<string, bool> := map[
    "is_demo_user" := false,
    "has_custom_resolution" := false,
    "has_quick_plays_support" := false,
    "is_quick_play_singleplayer" := false,
    "is_quick_play_multiplayer" := false,
    "is_quick_play_realms" := false]

  const MainClassMarker := "net.minecraft.client.main.Main"
  const OfflineAuthFlag := "-Dauthlib.environment=offline"

  /** A vanilla 1.19, 1.20 or 1.21 profile: no loader flavour, no parent. */
  predicate IsModernVanilla(version: string, child: Descriptor, merged: Descriptor) {
    && FlavourOf(merged) == OtherFlavour
    && !(child.inheritsFrom.Some? && child.inheritsFrom.value != [])
    && (Contains(version, "1.19") || Contains(version, "1.20") || Contains(version, "1.21"))
  }

  /** `check_rules` on an argument entry AS WRITTEN: on a bare string the
      test `"rules" not in entry` is a substring test, and a string that
      contains "rules" is then indexed by a key, which raises. */
  function EntryAllowedAsWritten(entry: ArgEntry, system: string): Result<bool, LaunchError> {
    match entry
    case Plain(text) => if Contains(text, "rules") then Err(RulesOnPlainArgument(text)) else Ok(true)
    case Conditional(rules, _) => Ok(Allowed(rules, system, ModernFeatures))
  }

  /** The intended check: a bare string has no rules and is always used. */
  predicate EntryAllowed(entry: ArgEntry, system: string) {
    entry.Plain? || Allowed(entry.rules, system, ModernFeatures)
  }

  /** The two checks differ only on a bare string containing "rules". */
  lemma {:induction false} EntryCheckAgreesElsewhere(entry: ArgEntry, system: string)
    ensures EntryAllowedAsWritten(entry, system).Err? <==> entry.Plain? && Contains(entry.text, "rules")
    ensures EntryAllowedAsWritten(entry, system).Ok? ==> EntryAllowedAsWritten(entry, system).value == EntryAllowed(entry, system)
  {
  }

  /** A bare string such as `--rulesFile` makes the check as written fail,
      while the intended check uses it. */
  lemma {:induction false} BareRulesArgumentFailsAsWritten(system: string)
    ensures EntryAllowedAsWritten(Plain("--rulesFile"), system) == Err(RulesOnPlainArgument("--rulesFile"))
    ensures EntryAllowed(Plain("--rulesFile"), system)
  {
    assert "--rulesFile" == "--" + "rules" + "File";
    ContainsAppended("--", "rules", "File");
  }

  /** A bare string that `check_rules` as written cannot take. */
  predicate BareRules(entry: ArgEntry) {
    entry.Plain? && Contains(entry.text, "rules")
  }

  /** `check_rules` on one argument entry, as written. */
  method CheckEntry(entry: ArgEntry, system: string) returns (allowed: Result<bool, LaunchError>)
    ensures allowed == EntryAllowedAsWritten(entry, system)
  {
    if entry.Plain? {
      if Contains(entry.text, "rules") {
        allowed := Err(RulesOnPlainArgument(entry.text));
      } else {
        allowed := Ok(true);
      }
    } else {
      var used := CheckRules(entry.rules, system, ModernFeatures);
      allowed := Ok(used);
    }
  }

  /** An entry gated on any known feature being on is never used. */
  lemma {:induction false} FeatureGatedEntryExcluded(name: string, value: ArgValue, system: string)
    requires name in ModernFeatures
    ensures !EntryAllowed(Conditional(Some([Rule("allow", None, Some(map[name := true]))]), value), system)
  {
    var rule := Rule("allow", None, Some(map[name := true]));
    assert name in map[name := true] && map[name := true][name];
    assert FeatureValue(ModernFeatures, name) == false;
    assert !FeaturesMatch(map[name := true], ModernFeatures);
    assert !RuleApplies(rule, CurrentOs(system), ModernFeatures);
    assert [rule][..0] == [];
    assert Decision([rule], CurrentOs(system), ModernFeatures) == "disallow";
  }

  /** The strings an allowed entry contributes. */
  function EntryValues(entry: ArgEntry): seq<string> {
    match entry
    case Plain(text) => [text]
    case Conditional(_, value) =>
      match value
      case StringValue(t) => [t]
      case ListValue(items) => items
      case NoValue => []
  }

  /** A JVM value naming the vanilla main class is dropped; any other is
      substituted. */
  function KeptJvmValue(v: string, pairs: Replacements): seq<string> {
    if Contains(v, MainClassMarker) then [] else [ReplaceAllPairs(v, pairs)]
  }

  function KeptJvmValues(values: seq<string>, pairs: Replacements): seq<string>
    decreases |values|
  {
    if values == [] then []
    else KeptJvmValues(values[..|values| - 1], pairs) + KeptJvmValue(values[|values| - 1], pairs)
  }

  function GameValues(values: seq<string>, pairs: Replacements): seq<string>
    decreases |values|
  {
    if values == [] then []
    else GameValues(values[..|values| - 1], pairs) + [ReplaceAllPairs(values[|values| - 1], pairs)]
  }

  /** The two argument lists of the modern dialect. */
  datatype ArgList = JvmList | GameList

  /** What an allowed entry adds to its list: JVM values lose the vanilla
      main class, game values are all kept; both are substituted. */
  function Contribution(list: ArgList, entry: ArgEntry, pairs: Replacements): seq<string> {
    match list
    case JvmList => KeptJvmValues(EntryValues(entry), pairs)
    case GameList => GameValues(EntryValues(entry), pairs)
  }

  /** The loop over one argument list as written: the first bare string
      containing "rules" raises, otherwise each allowed entry contributes. */
  function EntryArgs(list: ArgList, entries: seq<ArgEntry>, system: string, pairs: Replacements)
    : Result<seq<string>, LaunchError>
    decreases |entries|
  {
    if entries == [] then Ok([])
    else
      var last := entries[|entries| - 1];
      match EntryArgs(list, entries[..|entries| - 1], system, pairs)
      case Err(e) => Err(e)
      case Ok(earlier) =>
        match EntryAllowedAsWritten(last, system)
        case Err(e) => Err(e)
        case Ok(allowed) => Ok(earlier + (if allowed then Contribution(list, last, pairs) else []))
  }

  /** The same loop with the intended check, which never fails. */
  function IntendedEntryArgs(list: ArgList, entries: seq<ArgEntry>, system: string, pairs: Replacements): seq<string>
    decreases |entries|
  {
    if entries == [] then []
    else
      var last := entries[|entries| - 1];
      IntendedEntryArgs(list, entries[..|entries| - 1], system, pairs) +
        (if EntryAllowed(last, system) then Contribution(list, last, pairs) else [])
  }

  lemma {:induction false} EntryStep(list: ArgList, entries: seq<ArgEntry>, i: nat, system: string, pairs: Replacements)
    requires i < |entries|
    ensures EntryArgs(list, entries[..i + 1], system, pairs) ==
      match EntryArgs(list, entries[..i], system, pairs)
      case Err(e) => Err(e)
      case Ok(earlier) =>
        match EntryAllowedAsWritten(entries[i], system)
        case Err(e) => Err(e)
        case Ok(allowed) => Ok(earlier + (if allowed then Contribution(list, entries[i], pairs) else []))
  {
    assert entries[..i + 1][..i] == entries[..i];
  }

  /** Once the loop has raised, the rest of the list changes nothing. */
  lemma {:induction false} EntryErrorPersists(list: ArgList, entries: seq<ArgEntry>, i: nat, j: nat,
                                               system: string, pairs: Replacements)
    requires i <= j <= |entries|
    requires EntryArgs(list, entries[..i], system, pairs).Err?
    ensures EntryArgs(list, entries[..j], system, pairs) == EntryArgs(list, entries[..i], system, pairs)
    decreases j - i
  {
    if i < j {
      EntryStep(list, entries, i, system, pairs);
      EntryErrorPersists(list, entries, i + 1, j, system, pairs);
    }
  }

  /** The loop raises exactly when the list holds a bare string containing
      "rules", and then for the first such string; otherwise it yields what
      the intended check yields. */
  lemma {:induction false} EntryArgsFailsExactly(list: ArgList, entries: seq<ArgEntry>, system: string, pairs: Replacements)
    ensures EntryArgs(list, entries, system, pairs).Err? <==> exists i :: 0 <= i < |entries| && BareRules(entries[i])
    ensures EntryArgs(list, entries, system, pairs).Err? ==>
      exists i :: 0 <= i < |entries| && BareRules(entries[i])
        && EntryArgs(list, entries, system, pairs).error == RulesOnPlainArgument(entries[i].text)
        && forall j :: 0 <= j < i ==> !BareRules(entries[j])
    ensures EntryArgs(list, entries, system, pairs).Ok? ==>
      EntryArgs(list, entries, system, pairs).value == IntendedEntryArgs(list, entries, system, pairs)
    decreases |entries|
  {
    if entries != [] {
      var n := |entries| - 1;
      var init := entries[..n];
      EntryArgsFailsExactly(list, init, system, pairs);
      EntryCheckAgreesElsewhere(entries[n], system);
      forall i | 0 <= i < n
        ensures init[i] == entries[i]
      {
      }
      if EntryArgs(list, init, system, pairs).Err? {
        var i :| 0 <= i < n && BareRules(init[i])
          && EntryArgs(list, init, system, pairs).error == RulesOnPlainArgument(init[i].text)
          && forall j :: 0 <= j < i ==> !BareRules(init[j]);
        assert BareRules(entries[i]);
      } else if BareRules(entries[n]) {
        assert forall j :: 0 <= j < n ==> !BareRules(entries[j]);
      } else {
        assert forall j :: 0 <= j < n ==> !BareRules(entries[j]);
        assert forall j :: 0 <= j < |entries| ==> !BareRules(entries[j]);
      }
    }
  }

  lemma {:induction false} KeptJvmStep(values: seq<string>, j: nat, pairs: Replacements)
    requires j < |values|
    ensures Contains(values[j], MainClassMarker) ==> KeptJvmValues(values[..j + 1], pairs) == KeptJvmValues(values[..j], pairs)
    ensures !Contains(values[j], MainClassMarker) ==>
      KeptJvmValues(values[..j + 1], pairs) == KeptJvmValues(values[..j], pairs) + [ReplaceAllPairs(values[j], pairs)]
  {
    assert values[..j + 1][..j] == values[..j];
    assert KeptJvmValues(values[..j], pairs) + [] == KeptJvmValues(values[..j], pairs);
  }

  lemma {:induction false} GameValueStep(values: seq<string>, j: nat, pairs: Replacements)
    requires j < |values|
    ensures GameValues(values[..j + 1], pairs) == GameValues(values[..j], pairs) + [ReplaceAllPairs(values[j], pairs)]
  {
    assert values[..j + 1][..j] == values[..j];
  }

  /** The loop over `arguments.jvm`. */
  method AppendJvmEntries(entries: seq<ArgEntry>, system: string, pairs: Replacements)
    returns (r: Result<seq<string>, LaunchError>)
    ensures r == EntryArgs(JvmList, entries, system, pairs)
  {
    var args := [];
    var i := 0;
    while i < |entries|
      invariant 0 <= i <= |entries|
      invariant EntryArgs(JvmList, entries[..i], system, pairs) == Ok(args)
    {
      EntryStep(JvmList, entries, i, system, pairs);
      var allowed := CheckEntry(entries[i], system);
      if allowed.Err? {
        EntryErrorPersists(JvmList, entries, i + 1, |entries|, system, pairs);
        assert entries[..|entries|] == entries;
        return Err(allowed.error);
      }
      if allowed.value {
        args := AppendJvmValues(args, EntryValues(entries[i]), pairs);
      } else {
        assert args + [] == args;
      }
      i := i + 1;
    }
    assert entries[..|entries|] == entries;
    r := Ok(args);
  }

  /** The inner loop over the values of one allowed JVM entry. */
  method AppendJvmValues(before: seq<string>, values: seq<string>, pairs: Replacements) returns (args: seq<string>)
    ensures args == before + KeptJvmValues(values, pairs)
  {
    args := before;
    var j := 0;
    while j < |values|
      invariant 0 <= j <= |values|
      invariant args == before + KeptJvmValues(values[..j], pairs)
    {
      KeptJvmStep(values, j, pairs);
      if !Contains(values[j], MainClassMarker) {
        var replaced := ReplaceArg(values[j], pairs);
        args := args + [replaced];
      }
      j := j + 1;
    }
    assert values[..|values|] == values;
  }

  /** The loop over `arguments.game`. */
  method AppendGameEntries(entries: seq<ArgEntry>, system: string, pairs: Replacements)
    returns (r: Result<seq<string>, LaunchError>)
    ensures r == EntryArgs(GameList, entries, system, pairs)
  {
    var args := [];
    var i := 0;
    while i < |entries|
      invariant 0 <= i <= |entries|
      invariant EntryArgs(GameList, entries[..i], system, pairs) == Ok(args)
    {
      EntryStep(GameList, entries, i, system, pairs);
      var allowed := CheckEntry(entries[i], system);
      if allowed.Err? {
        EntryErrorPersists(GameList, entries, i + 1, |entries|, system, pairs);
        assert entries[..|entries|] == entries;
        return Err(allowed.error);
      }
      if allowed.value {
        args := AppendGameValues(args, EntryValues(entries[i]), pairs);
      } else {
        assert args + [] == args;
      }
      i := i + 1;
    }
    assert entries[..|entries|] == entries;
    r := Ok(args);
  }

  /** The inner loop over the values of one allowed game entry. */
  method AppendGameValues(before: seq<string>, values: seq<string>, pairs: Replacements) returns (args: seq<string>)
    ensures args == before + GameValues(values, pairs)
  {
    args := before;
    var j := 0;
    while j < |values|
      invariant 0 <= j <= |values|
      invariant args == before + GameValues(values[..j], pairs)
    {
      GameValueStep(values, j, pairs);
      var replaced := ReplaceArg(values[j], pairs);
      args := args + [replaced];
      j := j + 1;
    }
    assert values[..|values|] == values;
  }

  /** The kept JVM values are exactly the substituted values that do not
      name the vanilla main class. */
  lemma {:induction false} KeptJvmValuesExactly(values: seq<string>, pairs: Replacements, x: string)
    ensures x in KeptJvmValues(values, pairs) <==>
      exists i :: 0 <= i < |values| && !Contains(values[i], MainClassMarker) && x == ReplaceAllPairs(values[i], pairs)
    decreases |values|
  {
    if values != [] {
      var init := values[..|values| - 1];
      KeptJvmValuesExactly(init, pairs, x);
      if x in KeptJvmValues(values, pairs) && x !in KeptJvmValues(init, pairs) {
        assert !Contains(values[|values| - 1], MainClassMarker) && x == ReplaceAllPairs(values[|values| - 1], pairs);
      }
      if i :| 0 <= i < |values| && !Contains(values[i], MainClassMarker) && x == ReplaceAllPairs(values[i], pairs) {
        if i < |values| - 1 {
          assert init[i] == values[i];
        }
      }
    }
  }

  /** Game values are all substituted, one for one, in order. */
  lemma {:induction false} GameValuesPointwise(values: seq<string>, pairs: Replacements)
    ensures |GameValues(values, pairs)| == |values|
    ensures forall i :: 0 <= i < |values| ==> GameValues(values, pairs)[i] == ReplaceAllPairs(values[i], pairs)
    decreases |values|
  {
    if values != [] {
      GameValuesPointwise(values[..|values| - 1], pairs);
    }
  }

  /** The JVM arguments of the modern dialect, or the error of the `jvm`
      loop. */
  function ModernJvmArgs(c: Config, version: string, child: Descriptor, merged: Descriptor, args: Arguments,
                         pairs: Replacements, classpath: string): Result<seq<string>, LaunchError>
  {
    var entries := if args.jvm.Some? then EntryArgs(JvmList, args.jvm.value, c.system, pairs) else Ok([]);
    if entries.Err? then Err(entries.error)
    else
      Ok(MemoryFlags(c) + DarwinFlags(c)
         + (if IsModernVanilla(version, child, merged) then [OfflineAuthFlag] else [])
         + entries.value
         + (if FlavourOf(merged) != OtherFlavour then ["-cp", classpath] else []))
  }

  /** The eight pairs appended for modern Forge. */
  function ForgeGameArgs(c: Config, version: string, merged: Descriptor): seq<string> {
    [ "--username", c.username, "--uuid", EffectiveUuid(c), "--accessToken", AccessToken,
      "--version", version, "--gameDir", c.gameDir, "--assetsDir", AssetsDir(c),
      "--assetIndex", AssetIndexId(merged), "--userType", "legacy" ]
  }

  /** The pair of asset arguments appended for Fabric. */
  function FabricGameArgs(c: Config, merged: Descriptor): seq<string> {
    ["--assetsDir", AssetsDir(c), "--assetIndex", AssetIndexId(merged)]
  }

  /** The game arguments of the modern dialect, or the error of the `game`
      loop. The Fabric pair belongs to the `game` branch; the Forge pairs do
      not. */
  function ModernGameArgs(c: Config, version: string, merged: Descriptor, args: Arguments, pairs: Replacements)
    : Result<seq<string>, LaunchError>
  {
    var entries := if args.game.Some? then EntryArgs(GameList, args.game.value, c.system, pairs) else Ok([]);
    if entries.Err? then Err(entries.error)
    else
      Ok((if args.game.Some?
          then entries.value + (if FlavourOf(merged) == ModernFabric then FabricGameArgs(c, merged) else [])
          else [])
         + (if FlavourOf(merged) == ModernForge then ForgeGameArgs(c, version, merged) else []))
  }

  /** Both halves of the modern dialect; the `jvm` loop runs first, so its
      error wins. */
  function ModernDialect(c: Config, version: string, child: Descriptor, merged: Descriptor, args: Arguments,
                         nativesDir: string, classpath: string): Result<(seq<string>, seq<string>), LaunchError>
  {
    var pairs := ModernReplacements(c, version, merged, nativesDir, classpath);
    match ModernJvmArgs(c, version, child, merged, args, pairs, classpath)
    case Err(e) => Err(e)
    case Ok(jvm) =>
      match ModernGameArgs(c, version, merged, args, pairs)
      case Err(e) => Err(e)
      case Ok(game) => Ok((jvm, game))
  }

  /** The JVM half of the modern branch. */
  method ModernJvm(c: Config, version: string, child: Descriptor, merged: Descriptor, args: Arguments,
                   pairs: Replacements, classpath: string)
    returns (r: Result<seq<string>, LaunchError>)
    ensures r == ModernJvmArgs(c, version, child, merged, args, pairs, classpath)
  {
    var flavour := FlavourOf(merged);
    var modernVanilla := flavour == OtherFlavour
      && !(child.inheritsFrom.Some? && child.inheritsFrom.value != [])
      && (Contains(version, "1.19") || Contains(version, "1.20") || Contains(version, "1.21"));
    var jvm := MemoryFlags(c);
    if Lower(c.system) == "darwin" {
      jvm := jvm + ["-XstartOnFirstThread"];
    } else {
      assert jvm + [] == jvm;
    }
    if modernVanilla {
      jvm := jvm + [OfflineAuthFlag];
    } else {
      assert jvm + [] == jvm;
    }
    var entries: seq<string> := [];
    if args.jvm.Some? {
      var looped := AppendJvmEntries(args.jvm.value, c.system, pairs);
      if looped.Err? {
        return Err(looped.error);
      }
      entries := looped.value;
    }
    jvm := jvm + entries;
    if flavour == ModernForge || flavour == ModernFabric {
      jvm := jvm + ["-cp", classpath];
    } else {
      assert jvm + [] == jvm;
    }
    r := Ok(jvm);
  }

  /** The game half of the modern branch. */
  method ModernGame(c: Config, version: string, merged: Descriptor, args: Arguments, pairs: Replacements)
    returns (r: Result<seq<string>, LaunchError>)
    ensures r == ModernGameArgs(c, version, merged, args, pairs)
  {
    var flavour := FlavourOf(merged);
    var game: seq<string> := [];
    if args.game.Some? {
      var looped := AppendGameEntries(args.game.value, c.system, pairs);
      if looped.Err? {
        return Err(looped.error);
      }
      game := looped.value;
      if flavour == ModernFabric {
        game := game + ["--assetsDir", AssetsDir(c)];
        game := game + ["--assetIndex", AssetIndexId(merged)];
        assert game == looped.value + FabricGameArgs(c, merged);
      } else {
        assert game == looped.value + [];
      }
    }
    if flavour == ModernForge {
      game := game + ForgeGameArgs(c, version, merged);
    } else {
      assert game == game + [];
    }
    r := Ok(game);
  }

  /** The modern branch of the launch thread. */
  method ModernArguments(c: Config, version: string, child: Descriptor, merged: Descriptor, args: Arguments,
                         nativesDir: string, classpath: string)
    returns (r: Result<(seq<string>, seq<string>), LaunchError>)
    ensures r == ModernDialect(c, version, child, merged, args, nativesDir, classpath)
  {
    var pairs := ModernReplacements(c, version, merged, nativesDir, classpath);
    var jvm := ModernJvm(c, version, child, merged, args, pairs, classpath);
    if jvm.Err? {
      return Err(jvm.error);
    }
    var game := ModernGame(c, version, merged, args, pairs);
    if game.Err? {
      return Err(game.error);
    }
    r := Ok((jvm.value, game.value));
  }

  /** The modern branch fails exactly when one of its lists holds a bare
      string containing "rules"; the `jvm` list is looked at first. */
  lemma {:induction false} ModernDialectFailsExactly(c: Config, version: string, child: Descriptor, merged: Descriptor,
                                                      args: Arguments, nativesDir: string, classpath: string)
    ensures ModernDialect(c, version, child, merged, args, nativesDir, classpath).Err? <==>
      (args.jvm.Some? && exists i :: 0 <= i < |args.jvm.value| && BareRules(args.jvm.value[i])) ||
      (args.game.Some? && exists i :: 0 <= i < |args.game.value| && BareRules(args.game.value[i]))
    ensures ModernDialect(c, version, child, merged, args, nativesDir, classpath).Err? ==>
      ModernDialect(c, version, child, merged, args, nativesDir, classpath).error.RulesOnPlainArgument?
    ensures var jvmLoop := if args.jvm.Some?
                           then EntryArgs(JvmList, args.jvm.value, c.system, ModernReplacements(c, version, merged, nativesDir, classpath))
                           else Ok([]);
      jvmLoop.Err? ==> ModernDialect(c, version, child, merged, args, nativesDir, classpath) == Err(jvmLoop.error)
  {
    var pairs := ModernReplacements(c, version, merged, nativesDir, classpath);
    if args.jvm.Some? {
      EntryArgsFailsExactly(JvmList, args.jvm.value, c.system, pairs);
    }
    if args.game.Some? {
      EntryArgsFailsExactly(GameList, args.game.value, c.system, pairs);
    }
  }

  /** Fabric gets its asset pair only when the descriptor has a `game` list:
      without one its game arguments are empty. */
  lemma {:induction false} FabricAssetsNeedGameList(c: Config, version: string, merged: Descriptor, args: Arguments, pairs: Replacements)
    requires FlavourOf(merged) == ModernFabric
    ensures args.game.None? ==> ModernGameArgs(c, version, merged, args, pairs) == Ok([])
    ensures args.game.Some? && ModernGameArgs(c, version, merged, args, pairs).Ok? ==>
      var game := ModernGameArgs(c, version, merged, args, pairs).value;
      |game| >= 4 && game[|game| - 4..] == ["--assetsDir", AssetsDir(c), "--assetIndex", AssetIndexId(merged)]
  {
  }

  /** Modern Forge always ends with its sixteen game tokens and puts the
      classpath last among the JVM arguments; a loader profile never gets the
      offline authentication flag. */
  lemma {:induction false} ForgeAugmentation(c: Config, version: string, child: Descriptor, merged: Descriptor, args: Arguments,
                          pairs: Replacements, classpath: string)
    requires FlavourOf(merged) == ModernForge
    ensures ModernGameArgs(c, version, merged, args, pairs).Ok? ==>
      var game := ModernGameArgs(c, version, merged, args, pairs).value;
      |game| >= 16 && game[|game| - 16..] == ForgeGameArgs(c, version, merged)
    ensures ModernJvmArgs(c, version, child, merged, args, pairs, classpath).Ok? ==>
      var jvm := ModernJvmArgs(c, version, child, merged, args, pairs, classpath).value;
      |jvm| >= 2 && jvm[|jvm| - 2..] == ["-cp", classpath]
    ensures !IsModernVanilla(version, child, merged)
  {
  }

  /** The offline authentication flag follows the memory (and macOS) flags
      exactly for a modern vanilla profile. */
  lemma {:induction false} OfflineFlagPosition(c: Config, version: string, child: Descriptor, merged: Descriptor, args: Arguments,
                            pairs: Replacements, classpath: string)
    requires IsModernVanilla(version, child, merged)
    requires ModernJvmArgs(c, version, child, merged, args, pairs, classpath).Ok?
    ensures var jvm := ModernJvmArgs(c, version, child, merged, args, pairs, classpath).value;
      jvm[|MemoryFlags(c) + DarwinFlags(c)|] == OfflineAuthFlag
    ensures var jvm := ModernJvmArgs(c, version, child, merged, args, pairs, classpath).value;
      "-cp" !in jvm[..|MemoryFlags(c) + DarwinFlags(c)| + 1]
  {
    var jvm := ModernJvmArgs(c, version, child, merged, args, pairs, classpath).value;
    var head := MemoryFlags(c) + DarwinFlags(c) + [OfflineAuthFlag];
    assert jvm[..|head|] == head;
    assert "-Xmx" <= head[0] && "-Xms" <= head[1];
  }

  /** A value without a placeholder marker is passed through the modern table
      unchanged. */
  lemma {:induction false} ModernValueWithoutPlaceholders(c: Config, version: string, merged: Descriptor, nativesDir: string,
                                       classpath: string, v: string)
    requires '$' !in v
    ensures ReplaceAllPairs(v, ModernReplacements(c, version, merged, nativesDir, classpath)) == v
  {
    ReplacePairsDollarFree(v, ModernReplacements(c, version, merged, nativesDir, classpath));
  }
}

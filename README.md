# RaposoLauncher launch planning in Dafny

This project models how the RaposoLauncher (`cat.py`) plans and assembles a
Minecraft launch. A launch runs in these stages:

1. Find the version descriptor of the selected profile, and the parent it
   `inheritsFrom`.
2. Merge the child over the parent and read the loader flavour (modern Forge
   or Fabric) off the merged main class.
3. Plan the missing files: the main and parent jars, the libraries, the
   native classifiers and the asset objects. Count their downloads with the
   throttled progress loop.
4. Build the classpath over the files present after the downloads.
5. Choose which members of each native archive to extract.
6. Synthesise the JVM and game arguments in the legacy `minecraftArguments`
   dialect or the modern `arguments` dialect, including the Forge and Fabric
   augmentation.
7. Build the final command, with empty tokens dropped, and the Windows
   console flag.

The project also models the rule evaluator (`check_rules`) that libraries,
natives and argument entries share, and placeholder substitution
(`replace_arg`). The version-selection dialog contributes its version sort
key, its category classifier and the loop that makes display names unique.

## Modules

- **Wrappers**, **Text**: `Option` and `Result`, plus the string operations
  the launcher uses: `str.replace`, `split`, `join`, whitespace `split()`,
  `rstrip`, ASCII `lower`, and decimal digits.
- **Rules**: the rule evaluator.
- **Paths**: the managed directories and `os.path.join`. It also holds the
  environment a launch reads:
  - the platform answers;
  - the account;
  - the RAM, Java and terminal settings.
- **Manifest**: the descriptors, the merge, the flavour, and descriptor
  lookup.
- **Planner**: the download planner (jars, libraries, natives, assets), and
  the legacy sequential asset downloader.
- **Events**: the download-progress messages of the UI queue, kept as an event log.
- **Progress**: the progress loop of the parallel downloads.
- **Classpath**: the classpath set and its joined string.
- **Natives**: selecting native archives and their members.
- **Arguments**: both argument dialects.
- **Launch**: the command line and the whole launch thread.
- **Versions**: the version selector's key, categories and display names.

Most of the core works by updating lists, sets and counters in loops. Those
parts are methods with loop invariants, each proved against a specification
function:

- the rule loop;
- the library, asset and legacy asset loops;
- the progress loop;
- the classpath loop;
- the native selection loop;
- the argument loops;
- the display-name loop.

The lemmas are stated about those functions.

## Model

| member | source | states |
|---|---|---|
| Rules.CheckRules | cat.py:2864-2905 | An entry without rules is allowed. Otherwise the verdict is "allow" exactly when the last rule that applies says "allow"; with no applying rule the default is "disallow". |
| Rules.MatchFeatures | cat.py:2891-2898 | The feature loop answers true exactly when every required feature has the required value. A missing feature counts as false. |
| Rules.CurrentOs | cat.py:2872-2873 | The OS tag is always windows, linux or osx. It is windows exactly when the lower-cased system name contains "windows". Otherwise it is linux exactly when the name contains "linux". In every other case it is osx. |
| Rules.DecisionIsLastApplying | cat.py:2879-2903 | When rule i applies and no later rule does, the decision is rule i's action. |
| Rules.DecisionWithoutApplyingRule | cat.py:2879-2905 | Either some rule is the last applying one, or the decision is "disallow". |
| Rules.AllowedIffLastApplyingAllows | cat.py:2869-2905 | Both directions: an entry with rules is allowed iff a last applying rule exists and its action is "allow". |
| Rules.FeatureFreeRulesIgnoreFeatures | cat.py:2886-2898 | Rules without a features clause give the same verdict for every feature map. |
| Rules.FalseFeaturesLikeAbsent | cat.py:2894 | Supplying features as false decides like supplying none. So the argument feature set (3437-3444) behaves like the library feature set `{}` (3133). |
| Arguments.ReplaceArg | cat.py:2908-2912 | The result is each replacement applied in turn, in table order. |
| Arguments.ReplacePairsDollarFree | cat.py:2908-2912 | A string without '$' is unchanged by any placeholder table. |
| Arguments.ReplacePairsFirst | cat.py:2910-2911 | Substitution is the first pair's `replace`, then the remaining pairs. |
| Arguments.ShortStringUntouched | cat.py:2910-2911 | A string shorter than every key is unchanged. |
| Arguments.UnknownPlaceholderSurvives | cat.py:3418-3435 | `${clientid}`, which the modern table lacks, survives substitution unchanged. |
| Paths.PathJoinShape | cat.py:3229 | A joined path ends with its second part. A relative part after a directory without a trailing '/' is separated from it by exactly one '/'. |
| Paths.ClasspathSeparator | cat.py:3364 | The separator is ';' iff `os.name` is "nt", and ':' otherwise. |
| Paths.EffectiveUuid | cat.py:3376 | A non-empty account UUID is used; otherwise the offline UUID is used. |
| Manifest.Merge | cat.py:3176-3181 | Every key the child has wins, and every key it lacks comes from the parent. Libraries are the parent's followed by the child's. The main class is the child's, else the parent's. |
| Manifest.MergedLibraryOrder | cat.py:3178-3180 | The merged libraries list every parent library in order, then every child library in order. |
| Manifest.MergeOverEmptyParent | cat.py:3156-3181 | Merging over the empty parent yields the child, with its library list made explicit. |
| Manifest.MergeExample | cat.py:3176-3181 | A child `{mainClass A, [x]}` over a parent `{mainClass B, [y]}` merges to main class A and libraries [y, x]. |
| Manifest.FlavourOf | cat.py:3183-3185 | Both directions: modern Forge iff the main class is exactly the bootstrap launcher; Fabric iff it is exactly the Knot client. |
| Manifest.ResolveChild | cat.py:3138-3150 | The child can be read iff it is on disk, or it is a vanilla id and the fetch succeeded. A loader-branded id that is missing fails with "not installed". A failed vanilla fetch fails as a fetch error. |
| Manifest.ResolveParent | cat.py:3154-3164 | The lookup fails iff `inheritsFrom` is truthy, the parent is not on disk, and fetching it failed. The error names the parent. |
| Manifest.LoaderIdNeedsInstallation | cat.py:3139-3150 | A missing Forge, Fabric or OptiFine descriptor always ends the attempt, whatever the fetch would do. |
| Planner.LibraryUrlAsWritten | cat.py:3232-3242 | The URL the planner uses is never empty. A custom repository URL is tried first, with its trailing '/' stripped. Then the artifact's URL. Then the Forge Maven host when the path contains `net.minecraftforge`, as the code tests, and otherwise the Mojang host. |
| Planner.LibraryUrl | cat.py:3232-3242 | The URL is never empty. The precedence is that of Planner.LibraryUrlAsWritten, except that the Forge Maven host is chosen when the path contains `net/minecraftforge`, the corrected test (see Findings). |
| Planner.ForgeLibraryMissesForgeHostAsWritten | cat.py:3211-3242 | A library named `net.minecraftforge:<artifact>:<version>` with no URL, downloads or natives gets the Maven path `net/minecraftforge/...`. The artifact and version must not themselves contain `net.minecraftforge`. Its jar task, when one is planned, fetches from the Mojang host. |
| Planner.ForgeGroupUsesForgeHost | cat.py:3213-3242 | A `net.minecraftforge...` coordinate without download records gets a library path and the Forge Maven URL. |
| Planner.MavenPathOfJoin | cat.py:3214-3221 | A colon-joined coordinate of at least three parts builds the Maven path of those parts. |
| Planner.MavenPathLayout | cat.py:3215-3221 | `group:artifact:version` builds `group-with-slashes/artifact/version/artifact-version.jar`. |
| Planner.MavenPathLayoutClassified | cat.py:3219-3221 | A fourth part adds `-classifier` before `.jar`. |
| Planner.MavenGroupDirectory | cat.py:3216 | The Maven path starts with the group, with its dots made into slashes. |
| Planner.CoordinatesLibPath | cat.py:3211-3221 | A library with a name and no downloads or natives is planned at its Maven path. |
| Planner.NativeKey | cat.py:3253-3255 | The classifier key is the library's non-empty `natives` entry for the OS, else `natives-<os>`. It is never empty. |
| Planner.LibraryStep | cat.py:3200-3261 | The step for one library: a disallowed library adds nothing; a native lookup error ends the plan; otherwise the library's jar task and native task are appended. The jar's URL is chosen as the code does, by Planner.LibraryUrlAsWritten. |
| Planner.PlanLibraries | cat.py:3200-3261 | The library loop returns exactly the specification of the library plan, jar URLs chosen as the code does. |
| Planner.LibrariesErrorPersists | cat.py:3250-3261 | Once a library fails, the whole plan fails with that error. |
| Planner.NativesWithoutClassifiersFail | cat.py:3250-3257 | An allowed library with `natives` but no `classifiers`, after a successful prefix, fails the plan with the classifiers-missing error. |
| Planner.ShortNameNoTask | cat.py:3213-3224 | A name with fewer than three colon parts is skipped, with no task and no error. |
| Planner.ParentJar | cat.py:3192-3194 | Both directions: a parent jar exists iff `inheritsFrom` is truthy and the flavour is not modern Forge. Its path is the parent's jar. |
| Planner.PlanJars | cat.py:3187-3197 | The jar tasks are the main jar and then the parent jar, each only when it is missing and its client URL is truthy. |
| Planner.PlanAssets | cat.py:3264-3281 | The asset loop returns exactly the specification of the asset plan. |
| Planner.AssetTaskExactly | cat.py:3275-3281 | Both directions: a task is planned for an object iff the object has a hash and its object file is missing. The task then has the object's URL and path. |
| Planner.AssetTasksSound | cat.py:3274-3281 | Every planned asset task comes from some object of the index. |
| Planner.AssetTasksComplete | cat.py:3274-3281 | Every object that has a hash and lacks its file gets a task. |
| Planner.AssetPathShape | cat.py:3277-3280 | The object path is `<assets>/objects/<first two chars>/<hash>`. The URL is the resource host, the two-character prefix, then the hash. |
| Planner.FirstFailure | cat.py:2984-2992 | The position of the first task whose download fails: every earlier task succeeds, and the task at that position fails unless it is past the end. |
| Planner.CollectAssetDownloads | cat.py:2961-2972 | The first loop of `download_assets` returns exactly the missing objects' downloads, in index order. |
| Planner.FetchAssets | cat.py:2974-2992 | A start event sized to the downloads, then one status and one step per successful download. When a download fails, its status line is the last event and the loop ends with the error naming its file. |
| Planner.DownloadAssets | cat.py:2943-2994 | An unreadable index ends the call with an error and no events. Otherwise the downloads are exactly the missing objects' downloads. With none, there are no events at all. With some, the events and the outcome are those of the fetch loop, up to the first failed download. |
| Planner.AssetPlannersAgree | cat.py:2962-2972 | The legacy downloader and the planner (3274-3281) target the same URLs and destinations, in the same order. |
| Planner.IndexObjects | cat.py:3264-3272 | The index step fails exactly when the index has a URL, is not on disk and its download fails; the error names the index. Otherwise the objects are read exactly when the index is on disk or has a URL, so it was just fetched. |
| Planner.PlanDownloads | cat.py:3187-3281 | The whole plan is jars, then libraries, then the assets of the index when it exists. It fails with the library error first, then with the index download error. |
| Planner.PlanNeverRedownloads | cat.py:3188-3281 | Every planned task's destination was missing before planning. |
| Planner.PlannedDestinationsUnderRoots | cat.py:3186-3280 | When the version ids, library and classifier paths and asset hashes are relative, every planned destination starts with the libraries, assets or versions root and a '/'. |
| Planner.AbsoluteLibraryPathEscapesRoot | cat.py:3229 | An absolute artifact path replaces the libraries root: the jar is planned at that path itself, which lies under no managed root when it contains no 's'. |
| Planner.EvilJarPlannedOutsideRoots | cat.py:3229 | The artifact path `/tmp/evil.jar` is downloaded to `/tmp/evil.jar`, outside every managed root. |
| Progress.TrackProgress | cat.py:3284-3308 | No tasks means no events. Otherwise there is a start event sized to the tasks, then the throttled reports. |
| Progress.PercentMonotone | cat.py:3303 | The integer percent never falls as completions grow. |
| Progress.PercentAtEnd | cat.py:3303 | The last completion is at 100 percent, and the one before it is below 100. |
| Progress.ThrottleBound | cat.py:3305-3308 | After k completions there are at most (percent of k) + 1 reports, two events each. |
| Progress.FinalReport | cat.py:3305-3308 | The last completion is always reported, with value total and percent 100. |
| Progress.ReportedPercentsIncrease | cat.py:3302-3308 | The reported completion counts, and their percents, rise strictly. |
| Classpath.CollectLibraries | cat.py:3326-3361 | The library loop returns exactly the specification of the library entries. |
| Classpath.BuildClasspath | cat.py:3319-3364 | The classpath set is exactly the specification of the entries. The order is a duplicate-free enumeration of the set. The string joins it with the platform separator, and splits back into it. |
| Classpath.ClasspathSplits | cat.py:3364 | A joined classpath whose entries lack the separator splits back into its entries. |
| Classpath.NamesExactly | cat.py:3327-3329 | Both directions: a name is processed iff some library has it. |
| Classpath.LibraryEntriesSound | cat.py:3326-3361 | Every classpath library entry comes from some library that is first of its name, allowed, present, and has that path. |
| Classpath.LibraryEntriesComplete | cat.py:3326-3361 | Every contributing library's path is on the classpath. |
| Classpath.DisallowedFirstHidesLater | cat.py:3328-3330 | A disallowed library hides a later library of the same name, because the name is marked processed before the rules are checked. |
| Classpath.ClasspathEntriesPresent | cat.py:3323-3361 | Every classpath entry exists on disk. |
| Classpath.PlannerAndBuilderAgree | cat.py:3339-3355 | Without a `downloads.path`, the classpath builder picks the same library path as the planner (3211-3221). |
| Natives.SelectEntries | cat.py:2846-2848 | The member loop returns exactly the selected members. |
| Natives.SelectedExactly | cat.py:2845-2848 | Both directions: a member is extracted iff it is listed and no exclude prefix starts it. |
| Natives.ExtractNatives | cat.py:2806-2856 | The natives directory is `<game>/natives/<version>`. The extraction result is exactly the specification across all libraries. |
| Natives.ExtractionErrorPersists | cat.py:2834-2836 | Once a library fails the extraction, for example with a classifier record that lacks `path`, later libraries do not change that error. |
| Natives.ExtractorFindsPlannedNative | cat.py:2823-2836 | An allowed library whose native the planner (3250-3261) downloads is extracted from that same jar. |
| Natives.ExtractorSkipsNativesWithoutClassifiers | cat.py:2823-2834 | The extractor skips a library with natives and no classifiers, on which the planner fails. |
| Arguments.LegacyArguments | cat.py:3384-3413 | The JVM arguments are the memory, macOS, library-path and classpath flags. The game arguments are the substituted template split on whitespace. |
| Arguments.LegacyReplacements | cat.py:3387-3400 | The table has the twelve legacy placeholders, username first. Every key starts with '$'. |
| Arguments.LegacyJvmShape | cat.py:3402-3410 | Memory flags come first, then `-XstartOnFirstThread` exactly on Darwin. The list ends with the library path, `-cp` and the classpath. |
| Arguments.LegacyTemplateWithoutPlaceholders | cat.py:3412-3413 | A template without '$' yields its whitespace-separated words. |
| Arguments.LeadingPlaceholder | cat.py:3412-3413 | A template made of a '$'-free prefix and the table's first key yields the prefix and the first value. |
| Arguments.LegacyUsernameExample | cat.py:3387-3413 | `--username ${auth_player_name}` yields `--username` and the player name. |
| Arguments.ModernReplacements | cat.py:3418-3435 | The table has sixteen placeholders, and every key is at least twelve characters. |
| Arguments.CheckEntry | cat.py:3466-3473 | The entry check as the code runs it (cat.py:2869-2875): a bare string containing "rules" raises, any other bare string is used, and a conditional entry follows its rules under the fixed features. |
| Arguments.EntryArgsFailsExactly | cat.py:3464-3508 | Both directions: an argument loop raises iff its list holds a bare string containing "rules". The error names the first such string. A loop that does not raise yields what the intended check yields. |
| Arguments.EntryErrorPersists | cat.py:3464-3480 | Once the loop has raised, later entries change nothing. |
| Arguments.FeatureGatedEntryExcluded | cat.py:3437-3444 | An entry allowed only when a known feature is on is never used. |
| Arguments.AppendJvmEntries | cat.py:3464-3480 | The JVM entry loop returns exactly its specification: the error of the first bare string containing "rules", or the substituted values of the allowed entries, minus values naming the vanilla main class. |
| Arguments.AppendGameEntries | cat.py:3491-3503 | The game entry loop returns exactly its specification: the same error, or the substituted values of the allowed entries. |
| Arguments.KeptJvmValuesExactly | cat.py:3475-3480 | Both directions: a JVM value is kept iff it comes from a value that does not name the vanilla main class. |
| Arguments.GameValuesPointwise | cat.py:3502-3503 | Each game value is substituted in place; the length is unchanged. |
| Arguments.ModernArguments | cat.py:3415-3519 | The modern branch matches its specification: the error of the `jvm` loop, else the error of the `game` loop, else both argument lists. |
| Arguments.ModernDialectFailsExactly | cat.py:3415-3508 | Both directions: the modern branch fails iff its `jvm` or `game` list holds a bare string containing "rules". The error is always that TypeError, and the `jvm` list's error wins. |
| Arguments.ForgeAugmentation | cat.py:3482-3519 | When its loops succeed, modern Forge ends with its sixteen game tokens and its JVM arguments end with `-cp` and the classpath. It is never "modern vanilla". |
| Arguments.FabricAssetsNeedGameList | cat.py:3491-3508 | Fabric's asset pair is appended only inside the `game` branch. Without a `game` list, the game arguments are empty; with one whose loop succeeds, they end with the pair. |
| Arguments.OfflineFlagPosition | cat.py:3446-3462 | For a modern vanilla profile whose `jvm` loop succeeds, the offline authentication flag follows the memory and macOS flags, before any `-cp`. |
| Arguments.ModernValueWithoutPlaceholders | cat.py:3475-3503 | A value without '$' passes through the modern table unchanged. |
| Launch.AssembleCommand | cat.py:3372-3526 | The command matches its specification: a missing main class fails first, then the legacy dialect, then the modern one (which can end with the TypeError of its loops), then the "unknown format" error. Empty tokens are filtered out. |
| Launch.BareRulesArgumentEndsLaunch | cat.py:3415-3508 | Both directions: for a modern descriptor with a main class, the command fails iff an argument list holds a bare string containing "rules". It then fails with that TypeError. |
| Launch.NoMainClassFails | cat.py:3373-3374 | Both directions: the command fails with "no main class" iff the main class is absent or empty. |
| Launch.NeitherDialectFails | cat.py:3520-3521 | Both directions: the unknown-format error occurs iff there is a main class and neither argument key. |
| Launch.LegacyDialectWins | cat.py:3384-3415 | With both keys, the legacy dialect is used. |
| Launch.FilterEmpty | cat.py:3526 | Both directions: a token is kept iff it is in the command and is not empty. |
| Launch.FilterEmptyConcat | cat.py:3526 | Filtering distributes over concatenation. |
| Launch.CommandSeparatesMainClass | cat.py:3525-3526 | The filtered command is the filtered Java executable and JVM arguments, then the main class, then the filtered game arguments. |
| Launch.CommandWithoutEmptyTokens | cat.py:3525-3526 | Without empty tokens, the command is exactly `[java] + jvm + [main] + game`. |
| Launch.CommandShape | cat.py:3525-3526 | A built command has no empty token and contains the main class. It starts with the Java executable when that is non-empty. |
| Launch.ConsoleFlags | cat.py:3535-3539 | Both directions: CREATE_NO_WINDOW iff the terminal is hidden on Windows, and 0 otherwise. |
| Launch.PrepareLaunch | cat.py:3138-3539 | The launch thread matches its specification function: descriptor lookup, planning with the asset index download, then the later stages, each with its error. Its classpath order enumerates, without duplicates, the entries present after the downloads. |
| Launch.FinishLaunch | cat.py:3284-3539 | The stages after planning match their specification: progress, classpath, natives, then the command with its argument errors. |
| Launch.AssetIndexFetchFailureEndsLaunch | cat.py:3264-3281 | Once the descriptors resolve and the libraries plan, a missing index with a URL whose download fails ends the launch with that error. A missing index without a URL means no asset is planned. |
| Launch.LaunchPlanFacts | cat.py:3187-3539 | A successful launch downloads only missing files. It reports progress iff it downloads, and starts with a start event sized to the downloads. It uses the platform console flag and the command of its merged descriptor. |
| Launch.UninstalledLoaderFails | cat.py:3138-3150 | A missing loader-branded version ends the launch with "not installed" before anything is planned. |
| Versions.VersionKeyOfRelease | cat.py:1269-1282 | The key of `a.b.c` followed by a non-digit is (a, b, c). |
| Versions.VersionKeyOfPair | cat.py:1275-1282 | The key of `a.b` followed by neither a digit nor '.' is (a, b, 0). |
| Versions.VersionKeySkipsPrefix | cat.py:1275 | A digit-free prefix does not change the key. |
| Versions.VersionKeyWithoutDot | cat.py:1284-1286 | A name without '.' gets the low key (0, 0, 0). |
| Versions.ReleaseOrderIsNumeric | cat.py:1269-1282 | Both directions: release keys compare numerically and component-wise, so 1.12.2 sorts above 1.9.4. |
| Versions.PrefixedReleaseIsKeyed | cat.py:1275-1282 | A loader id such as `forge-1.20.1-x` is keyed by its first release triple. |
| Versions.ClassifyVersionMarkers | cat.py:1402-1414 | Both directions: neoforge iff the name contains "neoforge"; forge iff it contains "forge" but not "neoforge". Others iff no earlier test matches. |
| Versions.NeoForgeIsForge | cat.py:1407-1410 | A name containing "neoforge" contains "forge", which is why the NeoForge test comes first. |
| Versions.DigitsAndDotsAreVanilla | cat.py:1402-1434 | A name of digits and dots that starts with a digit and has a dotted pair is vanilla. |
| Versions.ReleaseIsVanilla | cat.py:1429-1430 | Every release `a.b.c` is classified vanilla. |
| Versions.UniqueDisplayName | cat.py:2231-2237 | The display name is not yet taken. It is the pretty name iff that is free; otherwise it is the pretty name with a numbered suffix. |
| Versions.NumberedInjective | cat.py:2235 | Different counters give different suffixed names. |
| Versions.ListVersions | cat.py:2227-2242 | One row per version, in order, with its category and directory. Display names are pairwise distinct. The mapping takes each display back to its directory, and its keys are exactly the displays. Each row's display is its pretty name iff no earlier row uses that name. Otherwise it is the first numbered form, from 2 on, that no earlier row uses. |
| Text.SplitJoin | cat.py:3215 | Splitting a join on a separator no part contains gives back the parts. |
| Text.JoinSplit | cat.py:3230 | Joining the parts of a split gives back the string. |
| Text.WordsJoin | cat.py:3413 | Whitespace-splitting a space-join of words gives back the words. |

## Left out

- Reading the descriptors: the Tk UI, Modrinth, Discord presence, the network, HTTP and JSON parsing are outside the model. The parsed descriptors are inputs. Whether a descriptor is on disk, and whether its fetch succeeded, are booleans of the `Disk` record.
- A JSON `null` or a value of the wrong type is not modelled. An absent key is `None`, and a falsy value is the empty string, map or list.
- The asset index's content is an input (`objects`). Whether its download succeeds is the boolean `Disk.indexFetched`. An index file that exists but cannot be parsed is not modelled.
- Executing downloads is out of scope, as are the thread pool, its worker count and the file sizes. `Disk.failed` is the set of pool downloads that leave no file. In the pool (cat.py:3293-3300) a failed download is caught and still counts as completed. `download_file` opens its destination (cat.py:2932) before it streams the chunks, so a failure mid-stream leaves a partial file. The classpath check (cat.py:3359) and the natives extractor (cat.py:2840) then treat that file as present: such a download is not in `Disk.failed`. The index download (cat.py:3268-3269) and the sequential asset downloads (cat.py:2989) are not caught, and the model ends them with an error.
- The status and indeterminate-progress messages of the launch thread (cat.py:3167-3168, 3315-3316 and the later stages) are not in the event log. Only the progress messages of the downloads are.
- Process start and zip extraction are out of scope. The extraction plan says which archive members would go to the natives directory. An archive that cannot be read is one with no entry listing.
- Planner.PlannedDestinationsUnderRoots: requires relative paths. `os.path.join` drops its root in front of an absolute path, so a descriptor's absolute artifact path, classifier path or version id, or an asset hash starting with '/', puts a download outside the managed roots (Planner.AbsoluteLibraryPathEscapesRoot). The launcher does not reject such paths, and the model plans them as it does.
- Natives.ExtractNatives: a zip error part-way through an archive leaves the members already written. The model has no partial extraction.
- The pretty version name (`_get_pretty_version_name`) is an input of Versions.ListVersions, not a computed value.
- UUIDv3 derivation for offline accounts is not modelled: the offline UUID is a field of the configuration.
- The float percent `int((k / n) * 100)` is modelled as `k * 100 / n` on naturals. Float rounding is not modelled.
- `os.path.join` is modelled with POSIX semantics only. Windows drive letters and backslashes are left out.
- `str.lower` is modelled on ASCII letters only, and `\d` on ASCII digits only.
- Persistence of settings, `core_update.py`, `update.py` and `sus.py` are not part of this model.
- Planner.DownloadAssets is modelled, although no caller in `cat.py` invokes `download_assets`. Its agreement with the planner is stated by Planner.AssetPlannersAgree.
- Versions.ClassifyVersion's snapshot, alpha/beta, release and fallback tests are modelled in full. Their properties are stated only for the cases in Versions.DigitsAndDotsAreVanilla and Versions.ReleaseIsVanilla.
- Versions.ReleaseOrderIsNumeric compares release keys only. The sort over mixed ids (`sorted(..., key=_version_key, reverse=True)`) is not modelled.
- Arguments.ModernReplacements has no `${clientid}` or `${auth_xuid}` key, so such a placeholder stays in the command (Arguments.UnknownPlaceholderSurvives).
- The comment at cat.py:1284-1285 says "a1.0.16" has no version pattern. The regular expression does find `1.0.16` in it, and the model follows the code.

## Findings

In both rows the launch runs the as-written member, so the model computes what the code does. The corrected member states the intended behaviour, with its property proved.

| source | as written | input that shows it | evidently intended | confidence | as-written member | corrected member |
|---|---|---|---|---|---|---|
| cat.py:3239-3240 | The Forge host is chosen by testing for `net.minecraftforge` in the library path, after the group's dots are turned into slashes, so the test never matches a coordinate-built path. The launch plan follows the code as written. | A library named `net.minecraftforge:forge:1.12.2-14.23.5.2860` with no `downloads` and no `url`. | A coordinate in the `net.minecraftforge` group is fetched from the Forge Maven host. | not executed | Planner.LibraryUrlAsWritten (Planner.ForgeLibraryMissesForgeHostAsWritten) | Planner.LibraryUrl (Planner.ForgeGroupUsesForgeHost) |
| cat.py:2869 | The modern argument loops at lines 3466 and 3493 give `check_rules` bare-string entries. Its `"rules" not in entry` test is a substring test, so a string containing "rules" is then indexed by a key, which raises a TypeError. The argument loops follow the code as written. | The bare game argument `--rulesFile`. | A bare string has no rules and is always used. | not executed | Arguments.EntryAllowedAsWritten (Arguments.BareRulesArgumentFailsAsWritten) | Arguments.EntryAllowed (Arguments.EntryCheckAgreesElsewhere) |

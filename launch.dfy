/** The launch thread from descriptor lookup to the final command line: the
    order of its stages, the error each stage can end the attempt with, the
    empty-token filter and the console flag of the game process. */
module Launch {
  import opened Wrappers
  import opened Text
  import opened Paths
  import opened Manifest
  import opened Events
  import opened Planner
  import opened Progress
  import opened Classpath
  import opened Natives
  import opened Arguments

  // ---------------------------------------------------------------------
  // The command line.
  // ---------------------------------------------------------------------

  /** `[arg for arg in command if arg]`. */
  function FilterEmpty(xs: seq<string>): (r: seq<string>)
    ensures |r| <= |xs|
    ensures forall x :: x in r <==> x in xs && x != []
    decreases |xs|
  {
    if xs == [] then []
    else
      var last := xs[|xs| - 1];
      assert xs == xs[..|xs| - 1] + [last];
      FilterEmpty(xs[..|xs| - 1]) + (if last == [] then [] else [last])
  }

  lemma {:induction false} FilterEmptyConcat(a: seq<string>, b: seq<string>)
    ensures FilterEmpty(a + b) == FilterEmpty(a) + FilterEmpty(b)
    decreases |b|
  {
    if b == [] {
      assert a + b == a;
    } else {
      var init := b[..|b| - 1];
      FilterEmptyConcat(a, init);
      assert (a + b)[..|a + b| - 1] == a + init;
      assert (a + b)[|a + b| - 1] == b[|b| - 1];
    }
  }

  /** A sequence of non-empty tokens is kept as it is. */
  lemma {:induction false} FilterEmptyKeepsTokens(xs: seq<string>)
    requires forall i :: 0 <= i < |xs| ==> xs[i] != []
    ensures FilterEmpty(xs) == xs
    decreases |xs|
  {
    if xs != [] {
      FilterEmptyKeepsTokens(xs[..|xs| - 1]);
      assert xs == xs[..|xs| - 1] + [xs[|xs| - 1]];
    }
  }

  /** The java executable, the JVM arguments, the main class, the game
      arguments, empty tokens removed. */
  function Command(javaExec: string, jvm: seq<string>, mainClass: string, game: seq<string>): seq<string> {
    FilterEmpty([javaExec] + jvm + [mainClass] + game)
  }

  /** The filter never moves a token across the main class: every surviving
      JVM argument precedes it and every game argument follows it. */
  lemma {:induction false} CommandSeparatesMainClass(javaExec: string, jvm: seq<string>, mainClass: string, game: seq<string>)
    requires mainClass != []
    ensures Command(javaExec, jvm, mainClass, game) ==
      FilterEmpty([javaExec]) + FilterEmpty(jvm) + [mainClass] + FilterEmpty(game)
  {
    FilterEmptyConcat([javaExec] + jvm + [mainClass], game);
    FilterEmptyConcat([javaExec] + jvm, [mainClass]);
    FilterEmptyConcat([javaExec], jvm);
    assert [mainClass][..0] == [];
  }

  /** With no empty token the command is the plain concatenation. */
  lemma {:induction false} CommandWithoutEmptyTokens(javaExec: string, jvm: seq<string>, mainClass: string, game: seq<string>)
    requires javaExec != [] && mainClass != []
    requires forall i :: 0 <= i < |jvm| ==> jvm[i] != []
    requires forall i :: 0 <= i < |game| ==> game[i] != []
    ensures Command(javaExec, jvm, mainClass, game) == [javaExec] + jvm + [mainClass] + game
  {
    CommandSeparatesMainClass(javaExec, jvm, mainClass, game);
    FilterEmptyKeepsTokens([javaExec]);
    FilterEmptyKeepsTokens(jvm);
    FilterEmptyKeepsTokens(game);
  }

  /** CREATE_NO_WINDOW. */
  const NoConsoleWindow := 0x08000000

  /** The process creation flags: no console window exactly when the terminal
      is hidden on Windows. */
  function ConsoleFlags(c: Config): (flags: int)
    ensures flags == NoConsoleWindow <==> !c.showTerminal && IsWindows(c)
    ensures flags == 0 <==> c.showTerminal || !IsWindows(c)
  {
    if !c.showTerminal && Lower(c.system) == "windows" then NoConsoleWindow else 0
  }

  // ---------------------------------------------------------------------
  // Main class and dialect.
  // ---------------------------------------------------------------------

  function MainClassOf(merged: Descriptor): Result<string, LaunchError> {
    if merged.mainClass.Some? && merged.mainClass.value != [] then Ok(merged.mainClass.value) else Err(NoMainClass)
  }

  /** The JVM and game arguments: the legacy dialect when the descriptor has
      `minecraftArguments`, else the modern one when it has `arguments`. */
  function DialectArguments(c: Config, version: string, child: Descriptor, merged: Descriptor,
                            nativesDir: string, classpath: string): Result<(seq<string>, seq<string>), LaunchError>
  {
    if merged.minecraftArguments.Some? then
      Ok((LegacyJvmArgs(c, nativesDir, classpath), LegacyGameArgs(c, version, merged, merged.minecraftArguments.value)))
    else if merged.arguments.Some? then
      ModernDialect(c, version, child, merged, merged.arguments.value, nativesDir, classpath)
    else Err(UnsupportedManifest)
  }

  function CommandFor(c: Config, version: string, child: Descriptor, merged: Descriptor,
                      nativesDir: string, classpath: string): Result<seq<string>, LaunchError>
  {
    match MainClassOf(merged)
    case Err(e) => Err(e)
    case Ok(mainClass) =>
      match DialectArguments(c, version, child, merged, nativesDir, classpath)
      case Err(e) => Err(e)
      case Ok(args) => Ok(Command(c.javaExec, args.0, mainClass, args.1))
  }

  /** Steps 7 to 9 of the launch thread. */
  method AssembleCommand(c: Config, version: string, child: Descriptor, merged: Descriptor,
                         nativesDir: string, classpath: string)
    returns (r: Result<seq<string>, LaunchError>)
    ensures r == CommandFor(c, version, child, merged, nativesDir, classpath)
  {
    var mainClass := merged.mainClass;
    if mainClass.None? || mainClass.value == [] {
      return Err(NoMainClass);
    }
    var jvm: seq<string>;
    var game: seq<string>;
    if merged.minecraftArguments.Some? {
      jvm, game := LegacyArguments(c, version, merged, merged.minecraftArguments.value, nativesDir, classpath);
    } else if merged.arguments.Some? {
      var modern := ModernArguments(c, version, child, merged, merged.arguments.value, nativesDir, classpath);
      if modern.Err? {
        return Err(modern.error);
      }
      jvm, game := modern.value.0, modern.value.1;
    } else {
      return Err(UnsupportedManifest);
    }
    var command := [c.javaExec] + jvm + [mainClass.value] + game;
    r := Ok(FilterEmpty(command));
  }

  /** A missing or empty main class fails first, whatever the dialect. */
  lemma {:induction false} NoMainClassFails(c: Config, version: string, child: Descriptor, merged: Descriptor,
                         nativesDir: string, classpath: string)
    ensures CommandFor(c, version, child, merged, nativesDir, classpath) == Err(NoMainClass) <==>
      merged.mainClass.None? || merged.mainClass.value == []
  {
    if merged.minecraftArguments.None? && merged.arguments.Some? {
      ModernDialectFailsExactly(c, version, child, merged, merged.arguments.value, nativesDir, classpath);
    }
  }

  /** A descriptor with a main class but with neither dialect is rejected. */
  lemma {:induction false} NeitherDialectFails(c: Config, version: string, child: Descriptor, merged: Descriptor,
                            nativesDir: string, classpath: string)
    ensures CommandFor(c, version, child, merged, nativesDir, classpath) == Err(UnsupportedManifest) <==>
      merged.mainClass.Some? && merged.mainClass.value != [] &&
      merged.minecraftArguments.None? && merged.arguments.None?
  {
    if merged.minecraftArguments.None? && merged.arguments.Some? {
      ModernDialectFailsExactly(c, version, child, merged, merged.arguments.value, nativesDir, classpath);
    }
  }

  /** A modern descriptor whose argument lists hold a bare string containing
      "rules" ends the launch with the error for that string. */
  lemma {:induction false} BareRulesArgumentEndsLaunch(c: Config, version: string, child: Descriptor, merged: Descriptor,
                                                        nativesDir: string, classpath: string)
    requires merged.mainClass.Some? && merged.mainClass.value != []
    requires merged.minecraftArguments.None? && merged.arguments.Some?
    ensures var args := merged.arguments.value;
      CommandFor(c, version, child, merged, nativesDir, classpath).Err? <==>
        (args.jvm.Some? && exists i :: 0 <= i < |args.jvm.value| && BareRules(args.jvm.value[i])) ||
        (args.game.Some? && exists i :: 0 <= i < |args.game.value| && BareRules(args.game.value[i]))
    ensures CommandFor(c, version, child, merged, nativesDir, classpath).Err? ==>
      CommandFor(c, version, child, merged, nativesDir, classpath).error.RulesOnPlainArgument?
  {
    var args := merged.arguments.value;
    var pairs := ModernReplacements(c, version, merged, nativesDir, classpath);
    ModernDialectFailsExactly(c, version, child, merged, args, nativesDir, classpath);
    if args.jvm.Some? {
      EntryArgsFailsExactly(JvmList, args.jvm.value, c.system, pairs);
    }
    if args.game.Some? {
      EntryArgsFailsExactly(GameList, args.game.value, c.system, pairs);
    }
  }

  /** The legacy dialect wins when both keys are present. */
  lemma {:induction false} LegacyDialectWins(c: Config, version: string, child: Descriptor, merged: Descriptor,
                          nativesDir: string, classpath: string)
    requires merged.mainClass.Some? && merged.mainClass.value != [] && merged.minecraftArguments.Some?
    ensures CommandFor(c, version, child, merged, nativesDir, classpath) ==
      Ok(Command(c.javaExec, LegacyJvmArgs(c, nativesDir, classpath), merged.mainClass.value,
                 LegacyGameArgs(c, version, merged, merged.minecraftArguments.value)))
  {
  }

  /** A command holds no empty token, starts with the java executable when
      that is non-empty, and names the main class. */
  lemma {:induction false} CommandTokens(javaExec: string, jvm: seq<string>, mainClass: string, game: seq<string>)
    requires mainClass != []
    ensures var cmd := Command(javaExec, jvm, mainClass, game);
      && (forall i :: 0 <= i < |cmd| ==> cmd[i] != [])
      && mainClass in cmd
      && (javaExec != [] ==> cmd[0] == javaExec)
  {
    var cmd := Command(javaExec, jvm, mainClass, game);
    CommandSeparatesMainClass(javaExec, jvm, mainClass, game);
    if javaExec != [] {
      FilterEmptyKeepsTokens([javaExec]);
    }
    forall i | 0 <= i < |cmd|
      ensures cmd[i] != []
    {
      assert cmd[i] in cmd;
    }
  }

  lemma {:induction false} CommandShape(c: Config, version: string, child: Descriptor, merged: Descriptor,
                     nativesDir: string, classpath: string)
    requires CommandFor(c, version, child, merged, nativesDir, classpath).Ok?
    ensures var cmd := CommandFor(c, version, child, merged, nativesDir, classpath).value;
      && (forall i :: 0 <= i < |cmd| ==> cmd[i] != [])
      && merged.mainClass.value in cmd
      && (c.javaExec != [] ==> cmd[0] == c.javaExec)
  {
    var args := DialectArguments(c, version, child, merged, nativesDir, classpath).value;
    CommandTokens(c.javaExec, args.0, merged.mainClass.value, args.1);
  }

  // ---------------------------------------------------------------------
  // The whole launch.
  // ---------------------------------------------------------------------

  /** What the launch finds on disk and what the outside world does: whether
      each descriptor is on disk or its fetch succeeds, whether the download
      of a missing asset index succeeds, the files present before the
      downloads, the pool downloads that fail without leaving a file, and the
      entry listing of each readable native archive. */
  datatype Disk = Disk(
    childOnDisk: bool,
    childFetched: bool,
    parentOnDisk: bool,
    parentFetched: bool,
    indexFetched: bool,
    present: set<string>,
    failed: set<string>,
    archives: map<string, seq<string>>)

  datatype LaunchPlan = LaunchPlan(
    downloads: seq<DownloadTask>,
    progress: seq<UiEvent>,
    classpath: string,
    nativesDir: string,
    extractions: seq<Extraction>,
    command: seq<string>,
    creationFlags: int)

  /** The parent descriptor is read only for a truthy `inheritsFrom`. */
  function ParentData(child: Descriptor, parent: Descriptor): Descriptor {
    if child.inheritsFrom.Some? && child.inheritsFrom.value != [] then parent else EmptyDescriptor
  }

  function Destinations(tasks: seq<DownloadTask>): set<string> {
    set i | 0 <= i < |tasks| :: tasks[i].dest
  }

  /** The files present once the pool is done. `failed` is the set of pool
      downloads that leave no file. A download that fails after opening its
      destination leaves a partial file there, which the classpath and the
      natives extractor then treat as present: it is not in `failed`. */
  function PresentAfter(present: set<string>, tasks: seq<DownloadTask>, failed: set<string>): set<string> {
    present + (Destinations(tasks) - failed)
  }

  function ProgressEvents(n: nat): seq<UiEvent> {
    if n == 0 then [] else [StartDeterminate(n)] + ThrottleEvents(n, n)
  }

  /** The launch thread: lookup, planning (with the asset index download),
      downloading, classpath, natives, arguments. `objects` is the content of
      the asset index file; `order` is the iteration order of the classpath
      set. */
  function LaunchOutcome(c: Config, version: string, child: Descriptor, parent: Descriptor,
                         objects: seq<AssetObject>, disk: Disk, order: seq<string>)
    : Result<LaunchPlan, LaunchError>
  {
    match ResolveChild(version, disk.childOnDisk, disk.childFetched)
    case Err(e) => Err(e)
    case Ok(_) =>
      match ResolveParent(child.inheritsFrom, disk.parentOnDisk, disk.parentFetched)
      case Err(e) => Err(e)
      case Ok(_) =>
        var parentData := ParentData(child, parent);
        match PlannedTasks(c, version, child, parentData, objects, disk.indexFetched, disk.present)
        case Err(e) => Err(e)
        case Ok(tasks) => LaunchAfterDownloads(c, version, child, parentData, tasks, disk, order)
  }

  /** What follows the downloads: the classpath, the native extraction and
      the command line. */
  function LaunchAfterDownloads(c: Config, version: string, child: Descriptor, parentData: Descriptor,
                                tasks: seq<DownloadTask>, disk: Disk, order: seq<string>)
    : Result<LaunchPlan, LaunchError>
  {
    var after := PresentAfter(disk.present, tasks, disk.failed);
    var classpath := Join(order, [ClasspathSeparator(c)]);
    var merged := Merge(parentData, child);
    match ExtractionPlan(c, LibrariesOf(merged), after, disk.archives)
    case Err(e) => Err(e)
    case Ok(extractions) =>
      match CommandFor(c, version, child, merged, NativesDir(c, version), classpath)
      case Err(e) => Err(e)
      case Ok(command) =>
        Ok(LaunchPlan(tasks, ProgressEvents(|tasks|), classpath, NativesDir(c, version), extractions,
                      command, ConsoleFlags(c)))
  }

  /** The pool of workers in the order it completes the downloads: any
      permutation of the tasks. Only the count reaches the events. */
  method PrepareLaunch(c: Config, version: string, child: Descriptor, parent: Descriptor,
                       objects: seq<AssetObject>, disk: Disk)
    returns (r: Result<LaunchPlan, LaunchError>, order: seq<string>)
    ensures r == LaunchOutcome(c, version, child, parent, objects, disk, order)
    ensures r.Ok? ==>
      var after := PresentAfter(disk.present, r.value.downloads, disk.failed);
      var entries := ClasspathEntries(c, version, child, ParentData(child, parent), after);
      Distinct(order) && forall x :: x in order <==> x in entries
  {
    order := [];
    var resolved := ResolveChild(version, disk.childOnDisk, disk.childFetched);
    if resolved.Err? {
      return Err(resolved.error), order;
    }
    var parentResolved := ResolveParent(child.inheritsFrom, disk.parentOnDisk, disk.parentFetched);
    if parentResolved.Err? {
      return Err(parentResolved.error), order;
    }
    var parentData := if child.inheritsFrom.Some? && child.inheritsFrom.value != [] then parent else EmptyDescriptor;
    var planned := PlanDownloads(c, version, child, parentData, objects, disk.indexFetched, disk.present);
    if planned.Err? {
      return Err(planned.error), order;
    }
    r, order := FinishLaunch(c, version, child, parentData, planned.value, disk);
  }

  /** Progress, classpath, natives and command once the tasks are planned;
      the classpath is built over the files present after the downloads. */
  method FinishLaunch(c: Config, version: string, child: Descriptor, parentData: Descriptor,
                      tasks: seq<DownloadTask>, disk: Disk)
    returns (r: Result<LaunchPlan, LaunchError>, order: seq<string>)
    ensures r == LaunchAfterDownloads(c, version, child, parentData, tasks, disk, order)
    ensures var after := PresentAfter(disk.present, tasks, disk.failed);
      Distinct(order) && forall x :: x in order <==> x in ClasspathEntries(c, version, child, parentData, after)
  {
    var progress := TrackProgress(tasks);
    var after := PresentAfter(disk.present, tasks, disk.failed);
    var entries, classpath;
    entries, order, classpath := BuildClasspath(c, version, child, parentData, after);
    var merged := Merge(parentData, child);
    var nativesDir, extracted := ExtractNatives(c, version, LibrariesOf(merged), after, disk.archives);
    if extracted.Err? {
      return Err(extracted.error), order;
    }
    var command := AssembleCommand(c, version, child, merged, nativesDir, classpath);
    if command.Err? {
      return Err(command.error), order;
    }
    var flags := 0;
    if !c.showTerminal && Lower(c.system) == "windows" {
      flags := NoConsoleWindow;
    }
    r := Ok(LaunchPlan(tasks, progress, classpath, nativesDir, extracted.value, command.value, flags));
  }

  /** A successful launch downloads only what was missing, reports progress
      for exactly those downloads, and starts the process with the console
      flag of the platform. */
  lemma {:induction false} LaunchPlanFacts(c: Config, version: string, child: Descriptor, parent: Descriptor,
                        objects: seq<AssetObject>, disk: Disk, order: seq<string>)
    requires LaunchOutcome(c, version, child, parent, objects, disk, order).Ok?
    ensures var plan := LaunchOutcome(c, version, child, parent, objects, disk, order).value;
      && AllMissing(plan.downloads, disk.present)
      && (plan.downloads == [] <==> plan.progress == [])
      && (plan.downloads != [] ==> plan.progress[0] == StartDeterminate(|plan.downloads|))
      && plan.creationFlags == ConsoleFlags(c)
      && plan.command == CommandFor(c, version, child, Merge(ParentData(child, parent), child),
                                    NativesDir(c, version), Join(order, [ClasspathSeparator(c)])).value
  {
    PlanNeverRedownloads(c, version, child, ParentData(child, parent), objects, disk.indexFetched, disk.present);
  }

  /** A missing asset index whose download fails ends the launch once its
      descriptors are resolved and its libraries planned, before anything is
      downloaded; without a URL a missing index only means no asset is
      planned. */
  lemma {:induction false} AssetIndexFetchFailureEndsLaunch(c: Config, version: string, child: Descriptor, parent: Descriptor,
                                                         objects: seq<AssetObject>, disk: Disk, order: seq<string>)
    requires ResolveChild(version, disk.childOnDisk, disk.childFetched).Ok?
    requires ResolveParent(child.inheritsFrom, disk.parentOnDisk, disk.parentFetched).Ok?
    requires LibrariesTasks(c, LibrariesOf(Merge(ParentData(child, parent), child)), disk.present).Ok?
    requires AssetIndexPath(c, Merge(ParentData(child, parent), child)) !in disk.present
    ensures HasIndexUrl(Merge(ParentData(child, parent), child)) && !disk.indexFetched ==>
      LaunchOutcome(c, version, child, parent, objects, disk, order) ==
        Err(AssetIndexFetchFailed(AssetIndexId(Merge(ParentData(child, parent), child))))
    ensures !HasIndexUrl(Merge(ParentData(child, parent), child)) &&
            LaunchOutcome(c, version, child, parent, objects, disk, order).Ok? ==>
      LaunchOutcome(c, version, child, parent, objects, disk, order).value.downloads ==
        JarTasks(c, version, child, ParentData(child, parent), disk.present) +
        LibrariesTasks(c, LibrariesOf(Merge(ParentData(child, parent), child)), disk.present).value
  {
    var merged := Merge(ParentData(child, parent), child);
    var jars := JarTasks(c, version, child, ParentData(child, parent), disk.present);
    var libs := LibrariesTasks(c, LibrariesOf(merged), disk.present).value;
    assert jars + libs + [] == jars + libs;
  }

  /** A loader-branded version that is not installed ends the launch before
      anything is planned, whatever else is on disk. */
  lemma {:induction false} UninstalledLoaderFails(c: Config, version: string, child: Descriptor, parent: Descriptor,
                               objects: seq<AssetObject>, disk: Disk, order: seq<string>)
    requires !disk.childOnDisk
    requires Contains(Lower(version), "forge") || Contains(Lower(version), "fabric") || Contains(Lower(version), "optifine")
    ensures LaunchOutcome(c, version, child, parent, objects, disk, order) == Err(MissingInstallation(version))
  {
    LoaderIdNeedsInstallation(version, disk.childFetched);
  }
}

/** The download planner of a launch: the list of `(url, destination, label)`
    tasks for the main and parent jars, the libraries, their native
    classifiers and the content-addressed asset objects. A task is planned
    only for a destination that is not already on disk. */
module Planner {
  import opened Wrappers
  import opened Text
  import opened Rules
  import opened Paths
  import opened Manifest
  import opened Events

  datatype DownloadTask = DownloadTask(url: string, dest: string, fileName: string)

  const UnknownLibraryName := "NOME_DESCONHECIDO"
  const ForgeMavenHost := "https://maven.minecraftforge.net/"
  const MojangLibrariesHost := "https://libraries.minecraft.net/"
  const ResourcesHost := "https://resources.download.minecraft.net/"

  // ---------------------------------------------------------------------
  // Reading a library entry the way the launch planner does.
  // ---------------------------------------------------------------------

  /** `lib.get("name", "NOME_DESCONHECIDO")`. */
  function LibraryName(lib: Library): string {
    lib.name.GetOr(UnknownLibraryName)
  }

  /** `lib.get("downloads", {}).get("artifact")`. */
  function ArtifactOf(lib: Library): Option<Artifact> {
    if lib.downloads.Some? then lib.downloads.value.artifact else None
  }

  /** `lib.get("downloads", {}).get("classifiers")`. */
  function ClassifiersOf(lib: Library): Option<map<string, Artifact>> {
    if lib.downloads.Some? then lib.downloads.value.classifiers else None
  }

  predicate HasArtifact(lib: Library) {
    ArtifactOf(lib).Some? && ArtifactOf(lib).value.Truthy()
  }

  predicate HasClassifiers(lib: Library) {
    ClassifiersOf(lib).Some? && |ClassifiersOf(lib).value| > 0
  }

  predicate HasNatives(lib: Library) {
    lib.natives.Some? && |lib.natives.value| > 0
  }

  /** `artifact.get("path")` when it is truthy. */
  function ArtifactPath(lib: Library): (p: Option<string>)
    ensures p.Some? ==> HasArtifact(lib) && p.value != []
  {
    if ArtifactOf(lib).Some? && ArtifactOf(lib).value.path.Some? && ArtifactOf(lib).value.path.value != []
    then ArtifactOf(lib).value.path else None
  }

  // ---------------------------------------------------------------------
  // Maven layout.
  // ---------------------------------------------------------------------

  /** `group/artifact/version/artifact-version[-classifier].jar` from
      `group:artifact:version[:classifier]`, dots of the group turned into
      slashes; None when the name has fewer than three parts (the IndexError
      the planner catches). */
  function MavenPath(name: string): Option<string> {
    var parts := Split(name, ':');
    if |parts| < 3 then None else Some(MavenLayout(parts))
  }

  function MavenLayout(parts: seq<string>): string
    requires |parts| >= 3
  {
    var group := ReplaceAll(parts[0], ".", "/");
    var fileName := parts[1] + "-" + parts[2] + (if |parts| > 3 then "-" + parts[3] else "") + ".jar";
    group + "/" + parts[1] + "/" + parts[2] + "/" + fileName
  }

  /** Colon-free coordinates joined by ':' are laid out from exactly those
      coordinates. */
  lemma {:induction false} MavenPathOfJoin(parts: seq<string>)
    requires |parts| >= 3
    requires forall i :: 0 <= i < |parts| ==> ':' !in parts[i]
    ensures MavenPath(Join(parts, ":")) == Some(MavenLayout(parts))
  {
    SplitJoin(parts, ':');
  }

  /** A colon-free group, artifact and version map to the Maven layout. */
  lemma {:induction false} MavenPathLayout(group: string, artifact: string, version: string)
    requires ':' !in group && ':' !in artifact && ':' !in version
    ensures MavenPath(group + ":" + artifact + ":" + version) ==
      Some(ReplaceAll(group, ".", "/") + "/" + artifact + "/" + version + "/" + artifact + "-" + version + ".jar")
  {
    var parts := [group, artifact, version];
    assert parts[1..] == [artifact, version];
    assert parts[1..][1..] == [version];
    assert Join([artifact, version], ":") == artifact + ":" + version;
    assert Join(parts, ":") == group + ":" + artifact + ":" + version;
    MavenPathOfJoin(parts);
    var pre := ReplaceAll(group, ".", "/") + "/" + artifact + "/" + version + "/";
    assert MavenLayout(parts) == pre + (artifact + "-" + version + "" + ".jar");
    assert artifact + "-" + version + "" + ".jar" == artifact + "-" + version + ".jar";
    assert pre + (artifact + "-" + version + ".jar") == pre + artifact + "-" + version + ".jar";
  }

  /** With a fourth part the file name carries `-classifier`; parts past the
      fourth are ignored. */
  lemma {:induction false} MavenPathLayoutClassified(group: string, artifact: string, version: string, classifier: string)
    requires ':' !in group && ':' !in artifact && ':' !in version && ':' !in classifier
    ensures MavenPath(group + ":" + artifact + ":" + version + ":" + classifier) ==
      Some(ReplaceAll(group, ".", "/") + "/" + artifact + "/" + version + "/" +
           artifact + "-" + version + "-" + classifier + ".jar")
  {
    var parts := [group, artifact, version, classifier];
    assert parts[1..] == [artifact, version, classifier];
    assert parts[1..][1..] == [version, classifier];
    assert parts[1..][1..][1..] == [classifier];
    assert Join([version, classifier], ":") == version + ":" + classifier;
    assert Join([artifact, version, classifier], ":") == artifact + ":" + version + ":" + classifier;
    assert Join(parts, ":") == group + ":" + artifact + ":" + version + ":" + classifier;
    MavenPathOfJoin(parts);
    var pre := ReplaceAll(group, ".", "/") + "/" + artifact + "/" + version + "/";
    assert MavenLayout(parts) == pre + (artifact + "-" + version + ("-" + classifier) + ".jar");
    assert pre + (artifact + "-" + version + ("-" + classifier) + ".jar") ==
           pre + artifact + "-" + version + "-" + classifier + ".jar";
  }

  /** The synthesised path of `g1.g2:name:ver` is `g1/g2/name/ver/name-ver.jar`
      character for character: every dot of the group became a slash. */
  lemma {:induction false} MavenGroupDirectory(group: string, artifact: string, version: string)
    requires ':' !in group && ':' !in artifact && ':' !in version
    ensures var p := MavenPath(group + ":" + artifact + ":" + version);
      && p.Some? && |p.value| > |group|
      && (forall i :: 0 <= i < |group| ==> p.value[i] == if group[i] == '.' then '/' else group[i])
      && p.value[|group|] == '/'
  {
    MavenPathLayout(group, artifact, version);
    ReplaceCharwise(group, '.', '/');
  }

  // ---------------------------------------------------------------------
  // Library path and URL.
  // ---------------------------------------------------------------------

  /** `lib_path_str` of the planner: the artifact path, or the Maven path
      when the library has no artifact, classifiers or natives. */
  function PlannerLibPath(lib: Library): Option<string> {
    if ArtifactPath(lib).Some? then ArtifactPath(lib)
    else if !HasArtifact(lib) && !HasClassifiers(lib) && !HasNatives(lib) then MavenPath(LibraryName(lib))
    else None
  }

  /** The URL precedence as the planner writes it: custom repository, then
      the artifact URL, then a default host, the Forge one being chosen when
      the path contains "net.minecraftforge". */
  function LibraryUrlAsWritten(lib: Library, pathStr: string): (url: string)
    ensures url != []
    ensures lib.url.Some? && lib.url.value != [] ==> url == RStrip(lib.url.value, '/') + "/" + pathStr
    ensures ((lib.url.None? || lib.url.value == []) && HasArtifact(lib) && ArtifactOf(lib).value.url.Some? &&
             ArtifactOf(lib).value.url.value != []) ==> url == ArtifactOf(lib).value.url.value
    ensures ((lib.url.None? || lib.url.value == []) &&
             !(HasArtifact(lib) && ArtifactOf(lib).value.url.Some? && ArtifactOf(lib).value.url.value != [])) ==>
            url == (if Contains(pathStr, "net.minecraftforge") then ForgeMavenHost else MojangLibrariesHost) + pathStr
  {
    if lib.url.Some? && lib.url.value != [] then RStrip(lib.url.value, '/') + "/" + pathStr
    else if HasArtifact(lib) && ArtifactOf(lib).value.url.Some? && ArtifactOf(lib).value.url.value != [] then
      ArtifactOf(lib).value.url.value
    else if Contains(pathStr, "net.minecraftforge") then ForgeMavenHost + pathStr
    else MojangLibrariesHost + pathStr
  }

  /** The URL precedence with the Forge test made on the path's own form of
      the group, "net/minecraftforge". */
  function LibraryUrl(lib: Library, pathStr: string): (url: string)
    ensures url != []
    ensures lib.url.Some? && lib.url.value != [] ==> url == RStrip(lib.url.value, '/') + "/" + pathStr
    ensures ((lib.url.None? || lib.url.value == []) && HasArtifact(lib) && ArtifactOf(lib).value.url.Some? &&
             ArtifactOf(lib).value.url.value != []) ==> url == ArtifactOf(lib).value.url.value
    ensures ((lib.url.None? || lib.url.value == []) &&
             !(HasArtifact(lib) && ArtifactOf(lib).value.url.Some? && ArtifactOf(lib).value.url.value != [])) ==>
            url == (if Contains(pathStr, "net/minecraftforge") then ForgeMavenHost else MojangLibrariesHost) + pathStr
  {
    if lib.url.Some? && lib.url.value != [] then RStrip(lib.url.value, '/') + "/" + pathStr
    else if HasArtifact(lib) && ArtifactOf(lib).value.url.Some? && ArtifactOf(lib).value.url.value != [] then
      ArtifactOf(lib).value.url.value
    else if Contains(pathStr, "net/minecraftforge") then ForgeMavenHost + pathStr
    else MojangLibrariesHost + pathStr
  }

  /** The dotted Forge group becomes "net/minecraftforge", and so does the
      start of every group that begins with it. */
  lemma {:induction false} ForgeGroupReplaced(rest: string)
    ensures ReplaceAll("net.minecraftforge" + rest, ".", "/") == "net/minecraftforge" + ReplaceAll(rest, ".", "/")
  {
    var net, mf := "net", "minecraftforge";
    assert "." !in [] && '.' !in net && '.' !in mf;
    assert "net.minecraftforge" + rest == net + "." + mf + rest by {
      assert "net.minecraftforge" == net + "." + mf;
    }
    DottedPairReplaced(net, mf, rest);
    assert net + "/" + mf == "net/minecraftforge";
  }

  /** Two dot-free names joined by a dot become two directories. */
  lemma {:induction false} DottedPairReplaced(a: string, b: string, rest: string)
    requires '.' !in a && '.' !in b
    ensures ReplaceAll(a + "." + b + rest, ".", "/") == a + "/" + b + ReplaceAll(rest, ".", "/")
  {
    var x := b + rest;
    var r := ReplaceAll(rest, ".", "/");
    var s := a + ("." + x);
    assert a + "." + b + rest == s;
    var y := ReplaceAll("." + x, ".", "/");
    assert ReplaceAll(s, ".", "/") == a + y by {
      ReplaceAfterPlainPrefix(a, "." + x, ".", "/");
    }
    assert y == "/" + ReplaceAll(x, ".", "/") by {
      ReplaceAtPattern(".", x, "/");
    }
    assert ReplaceAll(x, ".", "/") == b + r by {
      ReplaceAfterPlainPrefix(b, rest, ".", "/");
    }
    assert a + ("/" + (b + r)) == a + "/" + b + r;
  }

  /** The Forge group "net.minecraftforge" as directories. */
  lemma {:induction false} ForgeGroupDirectories()
    ensures ReplaceAll("net.minecraftforge", ".", "/") == "net/minecraftforge"
  {
    ForgeGroupReplaced("");
    assert "net.minecraftforge" + "" == "net.minecraftforge";
    assert ReplaceAll("", ".", "/") == "";
  }

  /** The Maven path `dir/artifact/version/artifact-version.jar` holds no
      occurrence of a pattern that none of its pieces holds and that
      neither the separators '/' and '-' nor the 'j' of ".jar" can be part
      of. */
  lemma {:induction false} MavenPathLacks(dir: string, artifact: string, version: string, sub: string)
    requires sub != [] && '/' !in sub && '-' !in sub && 'j' !in sub && sub[|sub| - 1] != '.' && |sub| > 2
    requires !Contains(dir, sub) && !Contains(artifact, sub) && !Contains(version, sub)
    ensures !Contains(dir + "/" + artifact + "/" + version + "/" + artifact + "-" + version + ".jar", sub)
  {
    var s1 := dir + "/" + artifact;
    var s2 := s1 + "/" + version;
    var s3 := s2 + "/" + artifact;
    var s4 := s3 + "-" + version;
    assert !Contains(s4, sub) by {
      ContainsAcross(dir, '/', artifact, sub);
      ContainsAcross(s1, '/', version, sub);
      ContainsAcross(s2, '/', artifact, sub);
      ContainsAcross(s3, '-', version, sub);
    }
    assert !Contains(s4 + ".", sub) by {
      ContainsDropLast(s4, '.', sub);
    }
    ContainsShorterFails("ar", sub);
    ContainsAcross(s4 + ".", 'j', "ar", sub);
    assert s4 + "." + ['j'] + "ar" == s4 + ".jar";
  }

  /** The Maven path of a `net.minecraftforge` artifact and version that do
      not themselves contain the dotted group does not contain it either. */
  lemma {:induction false} ForgeDirectoriesLackDottedGroup(artifact: string, version: string)
    requires !Contains(artifact, "net.minecraftforge") && !Contains(version, "net.minecraftforge")
    ensures !Contains("net/minecraftforge" + "/" + artifact + "/" + version + "/" + artifact + "-" + version + ".jar",
                      "net.minecraftforge")
  {
    var sub := "net.minecraftforge";
    assert '/' !in sub && '-' !in sub && 'j' !in sub && sub[|sub| - 1] != '.';
    var dir := "net/minecraftforge";
    assert !Contains(dir, sub) by {
      assert dir[3] != sub[3];
      ContainsShorterFails(dir[1..], sub);
    }
    MavenPathLacks(dir, artifact, version, sub);
  }

  /** A library named by colon-free coordinates and declaring neither
      downloads nor natives is planned at its Maven path. */
  lemma {:induction false} CoordinatesLibPath(lib: Library, group: string, artifact: string, version: string)
    requires ':' !in group && ':' !in artifact && ':' !in version
    requires lib.name == Some(group + ":" + artifact + ":" + version)
    requires lib.downloads.None? && lib.natives.None?
    ensures PlannerLibPath(lib) ==
      Some(ReplaceAll(group, ".", "/") + "/" + artifact + "/" + version + "/" + artifact + "-" + version + ".jar")
  {
    MavenPathLayout(group, artifact, version);
  }

  /** ... and that path starts with the group's directories. */
  lemma {:induction false} CoordinatesLibPathPrefix(lib: Library, group: string, artifact: string, version: string)
    requires ':' !in group && ':' !in artifact && ':' !in version
    requires lib.name == Some(group + ":" + artifact + ":" + version)
    requires lib.downloads.None? && lib.natives.None?
    ensures PlannerLibPath(lib).Some? && ReplaceAll(group, ".", "/") <= PlannerLibPath(lib).value
  {
    var parts := [group, artifact, version];
    assert parts[1..] == [artifact, version];
    assert parts[1..][1..] == [version];
    assert Join([artifact, version], ":") == artifact + ":" + version;
    assert Join(parts, ":") == group + ":" + artifact + ":" + version;
    MavenPathOfJoin(parts);
    MavenLayoutStartsWithGroup(parts);
  }

  /** The layout starts with the group's directories. */
  lemma {:induction false} MavenLayoutStartsWithGroup(parts: seq<string>)
    requires |parts| >= 3
    ensures ReplaceAll(parts[0], ".", "/") <= MavenLayout(parts)
  {
    var dir := ReplaceAll(parts[0], ".", "/");
    var fileName := parts[1] + "-" + parts[2] + (if |parts| > 3 then "-" + parts[3] else "") + ".jar";
    PrefixOfPrefix(dir, dir, "/");
    PrefixOfPrefix(dir, dir + "/", parts[1]);
    PrefixOfPrefix(dir, dir + "/" + parts[1], "/");
    PrefixOfPrefix(dir, dir + "/" + parts[1] + "/", parts[2]);
    PrefixOfPrefix(dir, dir + "/" + parts[1] + "/" + parts[2], "/");
    PrefixOfPrefix(dir, dir + "/" + parts[1] + "/" + parts[2] + "/", fileName);
  }

  /** A Forge library declared by name alone in the group
      "net.minecraftforge" (the Forge jar "net.minecraftforge:forge:1.12.2-14.23.5.2860"
      is one) gets a Maven path in which the dotted group never occurs, so
      the planner's test sends it to the Mojang host. */
  lemma {:induction false} ForgeLibraryMissesForgeHostAsWritten(lib: Library, artifact: string, version: string)
    requires ':' !in artifact && ':' !in version
    requires !Contains(artifact, "net.minecraftforge") && !Contains(version, "net.minecraftforge")
    requires lib.name == Some("net.minecraftforge:" + artifact + ":" + version)
    requires lib.url.None? && lib.downloads.None? && lib.natives.None?
    ensures PlannerLibPath(lib) == Some("net/minecraftforge" + "/" + artifact + "/" + version + "/" + artifact + "-" + version + ".jar")
    ensures LibraryUrlAsWritten(lib, PlannerLibPath(lib).value) == MojangLibrariesHost + PlannerLibPath(lib).value
    ensures forall c, present :: JarTask(c, lib, present) != [] ==>
      JarTask(c, lib, present) == [DownloadTask(MojangLibrariesHost + PlannerLibPath(lib).value,
                                                PathJoin(LibrariesDir(c), PlannerLibPath(lib).value),
                                                LastPart(PlannerLibPath(lib).value, '/'))]
  {
    var group := "net.minecraftforge";
    assert ':' !in group;
    assert lib.name.value == group + ":" + artifact + ":" + version;
    CoordinatesLibPath(lib, group, artifact, version);
    ForgeGroupDirectories();
    ForgeDirectoriesLackDottedGroup(artifact, version);
  }

  /** With the corrected test, every library named by Maven coordinates in a
      `net.minecraftforge` group and declaring neither URL nor downloads is
      fetched from the Forge Maven host. */
  lemma {:induction false} ForgeGroupUsesForgeHost(lib: Library, rest: string, artifact: string, version: string)
    requires ':' !in rest && ':' !in artifact && ':' !in version
    requires lib.name == Some("net.minecraftforge" + rest + ":" + artifact + ":" + version)
    requires lib.url.None? && lib.downloads.None? && lib.natives.None?
    ensures PlannerLibPath(lib).Some?
    ensures LibraryUrl(lib, PlannerLibPath(lib).value) == ForgeMavenHost + PlannerLibPath(lib).value
  {
    var group := "net.minecraftforge" + rest;
    assert ':' !in group;
    CoordinatesLibPathPrefix(lib, group, artifact, version);
    ForgeGroupReplaced(rest);
    var fd := "net/minecraftforge";
    PrefixOfPrefix(fd, fd, ReplaceAll(rest, ".", "/"));
    PrefixTransitive(fd, ReplaceAll(group, ".", "/"), PlannerLibPath(lib).value);
  }

  // ---------------------------------------------------------------------
  // Library and native tasks.
  // ---------------------------------------------------------------------

  /** The classifier key for the current OS tag: `natives[os]` when it is
      present and non-empty, otherwise "natives-<os>". */
  function NativeKey(lib: Library, currentOs: string): (key: string)
    ensures key != []
    ensures lib.natives.Some? && currentOs in lib.natives.value && lib.natives.value[currentOs] != [] ==>
              key == lib.natives.value[currentOs]
    ensures !(lib.natives.Some? && currentOs in lib.natives.value && lib.natives.value[currentOs] != []) ==>
              key == "natives-" + currentOs
  {
    if lib.natives.Some? && currentOs in lib.natives.value && lib.natives.value[currentOs] != []
    then lib.natives.value[currentOs]
    else "natives-" + currentOs
  }

  /** The download of a library jar to `os.path.join(LIBRARIES_DIR, path)`
      unless it is already there: under the libraries root for a relative
      path, at the path itself for an absolute one. The URL is chosen by
      LibraryUrlAsWritten. */
  function JarTask(c: Config, lib: Library, present: set<string>): seq<DownloadTask> {
    var p := PlannerLibPath(lib);
    if p.None? then []
    else
      var dest := PathJoin(LibrariesDir(c), p.value);
      if dest in present then [] else [DownloadTask(LibraryUrlAsWritten(lib, p.value), dest, LastPart(p.value, '/'))]
  }

  /** The native classifier task of a library. A library with natives but no
      classifiers record fails (the planner calls `get` on None), and so does
      a selected classifier whose record lacks `path`, or lacks `url` when its
      destination is missing (the planner indexes the record). */
  function NativeTask(c: Config, lib: Library, present: set<string>): Result<seq<DownloadTask>, LaunchError> {
    if !HasClassifiers(lib) && !HasNatives(lib) then Ok([])
    else if ClassifiersOf(lib).None? then Err(ClassifiersMissing(LibraryName(lib)))
    else
      var key := NativeKey(lib, CurrentOs(c.system));
      var classifiers := ClassifiersOf(lib).value;
      if key !in classifiers || !classifiers[key].Truthy() then Ok([])
      else
        var info := classifiers[key];
        if info.path.None? then Err(MissingKey(LibraryName(lib), "path"))
        else
          var dest := PathJoin(LibrariesDir(c), info.path.value);
          if dest in present then Ok([])
          else if info.url.None? then Err(MissingKey(LibraryName(lib), "url"))
          else Ok([DownloadTask(info.url.value, dest, LastPart(info.path.value, '/'))])
  }

  /** What one library contributes: nothing when its rules (under no
      features) disallow it, else its jar task then its native task. */
  function LibraryTasks(c: Config, lib: Library, present: set<string>): Result<seq<DownloadTask>, LaunchError> {
    if !Allowed(lib.rules, c.system, map[]) then Ok([])
    else
      match NativeTask(c, lib, present)
      case Err(e) => Err(e)
      case Ok(natives) => Ok(JarTask(c, lib, present) + natives)
  }

  /** The library tasks in library order; the first failing library ends
      the plan. */
  function LibrariesTasks(c: Config, libs: seq<Library>, present: set<string>): Result<seq<DownloadTask>, LaunchError>
    decreases |libs|
  {
    if libs == [] then Ok([])
    else
      match LibrariesTasks(c, libs[..|libs| - 1], present)
      case Err(e) => Err(e)
      case Ok(earlier) =>
        match LibraryTasks(c, libs[|libs| - 1], present)
        case Err(e) => Err(e)
        case Ok(more) => Ok(earlier + more)
  }

  /** Once a prefix of the libraries fails, the whole list fails the same way. */
  lemma {:induction false} LibrariesErrorPersists(c: Config, libs: seq<Library>, k: nat, present: set<string>)
    requires k <= |libs|
    requires LibrariesTasks(c, libs[..k], present).Err?
    ensures LibrariesTasks(c, libs, present) == LibrariesTasks(c, libs[..k], present)
    decreases |libs| - k
  {
    if k < |libs| {
      var n := |libs|;
      assert libs[..k + 1][..k] == libs[..k];
      LibrariesErrorPersists(c, libs[..k + 1] + libs[k + 1..], k + 1, present);
      assert libs[..k + 1] + libs[k + 1..] == libs;
    } else {
      assert libs[..k] == libs;
    }
  }

  /** One more library extends the plan by that library's tasks. */
  lemma {:induction false} LibrariesTasksSnoc(c: Config, libs: seq<Library>, i: nat, present: set<string>, earlier: seq<DownloadTask>)
    requires i < |libs| && LibrariesTasks(c, libs[..i], present) == Ok(earlier)
    ensures LibrariesTasks(c, libs[..i + 1], present) ==
      match LibraryTasks(c, libs[i], present)
      case Err(e) => Err(e)
      case Ok(more) => Ok(earlier + more)
  {
    assert libs[..i + 1][..i] == libs[..i];
    assert libs[..i + 1][i] == libs[i];
  }

  /** One step of the library loop: a disallowed library adds nothing, a
      failing native task ends the whole plan, otherwise the jar task and
      the native task are appended. */
  lemma {:induction false} LibraryStep(c: Config, libs: seq<Library>, i: nat, present: set<string>, earlier: seq<DownloadTask>)
    requires i < |libs| && LibrariesTasks(c, libs[..i], present) == Ok(earlier)
    ensures !Allowed(libs[i].rules, c.system, map[]) ==> LibrariesTasks(c, libs[..i + 1], present) == Ok(earlier)
    ensures Allowed(libs[i].rules, c.system, map[]) && NativeTask(c, libs[i], present).Err? ==>
      LibrariesTasks(c, libs, present) == Err(NativeTask(c, libs[i], present).error)
    ensures Allowed(libs[i].rules, c.system, map[]) && NativeTask(c, libs[i], present).Ok? ==>
      LibrariesTasks(c, libs[..i + 1], present) == Ok(earlier + JarTask(c, libs[i], present) + NativeTask(c, libs[i], present).value)
  {
    LibrariesTasksSnoc(c, libs, i, present, earlier);
    if Allowed(libs[i].rules, c.system, map[]) && NativeTask(c, libs[i], present).Err? {
      LibrariesErrorPersists(c, libs, i + 1, present);
    } else if Allowed(libs[i].rules, c.system, map[]) {
      var jar, native := JarTask(c, libs[i], present), NativeTask(c, libs[i], present).value;
      assert earlier + (jar + native) == earlier + jar + native;
    } else {
      assert earlier + [] == earlier;
    }
  }

  /** The library loop of the planner. */
  method PlanLibraries(c: Config, libs: seq<Library>, present: set<string>) returns (r: Result<seq<DownloadTask>, LaunchError>)
    ensures r == LibrariesTasks(c, libs, present)
  {
    var tasks: seq<DownloadTask> := [];
    var i := 0;
    while i < |libs|
      invariant 0 <= i <= |libs|
      invariant LibrariesTasks(c, libs[..i], present) == Ok(tasks)
    {
      var lib := libs[i];
      LibraryStep(c, libs, i, present, tasks);
      var allowed := CheckRules(lib.rules, c.system, map[]);
      if allowed {
        var jar := JarTask(c, lib, present);
        var native := NativeTask(c, lib, present);
        if native.Err? {
          return Err(native.error);
        }
        tasks := tasks + jar;
        tasks := tasks + native.value;
      }
      i := i + 1;
    }
    assert libs[..|libs|] == libs;
    r := Ok(tasks);
  }

  // ---------------------------------------------------------------------
  // Main and parent jars.
  // ---------------------------------------------------------------------

  /** `<versions>/<v>/<v>.jar`. */
  function VersionJarPath(c: Config, v: string): string {
    PathJoin(PathJoin(VersionsDir(c), v), v + ".jar")
  }

  /** The parent jar of the launch: only for a truthy `inheritsFrom` of the
      child and a merged flavour other than modern Forge (whose bootstrap
      brings its own game jar). */
  function ParentJar(c: Config, child: Descriptor, merged: Descriptor): (p: Option<string>)
    ensures p.Some? <==> child.inheritsFrom.Some? && child.inheritsFrom.value != [] && FlavourOf(merged) != ModernForge
    ensures p.Some? ==> p.value == VersionJarPath(c, child.inheritsFrom.value)
  {
    if child.inheritsFrom.Some? && child.inheritsFrom.value != [] && FlavourOf(merged) != ModernForge
    then Some(VersionJarPath(c, child.inheritsFrom.value))
    else None
  }

  /** A jar task needs a missing destination and a truthy client URL. */
  function ClientJarTask(url: Option<string>, dest: string, fileName: string, present: set<string>): seq<DownloadTask> {
    if dest !in present && url.Some? && url.value != [] then [DownloadTask(url.value, dest, fileName)] else []
  }

  /** The main jar from the child's client download, then the parent jar
      from the parent's. */
  function JarTasks(c: Config, version: string, child: Descriptor, parent: Descriptor, present: set<string>): seq<DownloadTask> {
    var main := ClientJarTask(ClientUrl(child), VersionJarPath(c, version), version + ".jar", present);
    var pj := ParentJar(c, child, Merge(parent, child));
    if pj.None? then main
    else main + ClientJarTask(ClientUrl(parent), pj.value, child.inheritsFrom.value + ".jar", present)
  }

  // ---------------------------------------------------------------------
  // Asset objects.
  // ---------------------------------------------------------------------

  /** One entry of the asset index's `objects`, in the index's order. */
  datatype AssetObject = AssetObject(name: string, hash: Option<string>)

  /** `assetIndex.id`, "legacy" when absent. */
  function AssetIndexId(merged: Descriptor): string {
    if merged.assetIndex.Some? && merged.assetIndex.value.id.Some? then merged.assetIndex.value.id.value else "legacy"
  }

  /** `<assets>/objects/h[:2]/h`. */
  function AssetObjectPath(c: Config, h: string): string {
    PathJoin(PathJoin(PathJoin(AssetsDir(c), "objects"), Take(h, 2)), h)
  }

  function AssetUrl(h: string): string {
    ResourcesHost + Take(h, 2) + "/" + h
  }

  /** The hash of an object when it is truthy. */
  predicate HasHash(obj: AssetObject) {
    obj.hash.Some? && obj.hash.value != []
  }

  /** The parallel planner's task for one object, labelled `h[:10]`. */
  function AssetTask(c: Config, obj: AssetObject, present: set<string>): seq<DownloadTask> {
    if !HasHash(obj) || AssetObjectPath(c, obj.hash.value) in present then []
    else [DownloadTask(AssetUrl(obj.hash.value), AssetObjectPath(c, obj.hash.value), Take(obj.hash.value, 10))]
  }

  function AssetTasks(c: Config, objects: seq<AssetObject>, present: set<string>): seq<DownloadTask>
    decreases |objects|
  {
    if objects == [] then []
    else AssetTasks(c, objects[..|objects| - 1], present) + AssetTask(c, objects[|objects| - 1], present)
  }

  lemma {:induction false} AssetTasksSnoc(c: Config, objects: seq<AssetObject>, i: nat, present: set<string>)
    requires i < |objects|
    ensures AssetTasks(c, objects[..i + 1], present) == AssetTasks(c, objects[..i], present) + AssetTask(c, objects[i], present)
  {
    assert objects[..i + 1][..i] == objects[..i];
    assert objects[..i + 1][i] == objects[i];
  }

  /** The asset loop of the planner. */
  method PlanAssets(c: Config, objects: seq<AssetObject>, present: set<string>) returns (tasks: seq<DownloadTask>)
    ensures tasks == AssetTasks(c, objects, present)
  {
    tasks := [];
    var i := 0;
    while i < |objects|
      invariant 0 <= i <= |objects|
      invariant tasks == AssetTasks(c, objects[..i], present)
    {
      AssetTasksSnoc(c, objects, i, present);
      var obj := objects[i];
      if obj.hash.Some? && obj.hash.value != [] {
        var h := obj.hash.value;
        var hashPrefix := Take(h, 2);
        var assetPath := PathJoin(PathJoin(PathJoin(AssetsDir(c), "objects"), hashPrefix), h);
        if assetPath !in present {
          tasks := tasks + [DownloadTask(ResourcesHost + hashPrefix + "/" + h, assetPath, Take(h, 10))];
        } else {
          assert tasks + [] == tasks;
        }
      } else {
        assert tasks + [] == tasks;
      }
      i := i + 1;
    }
    assert objects[..|objects|] == objects;
  }

  /** The sequential `download_assets` labels a task with the last path
      component of the object's name instead. */
  function LegacyAssetTask(c: Config, obj: AssetObject, present: set<string>): seq<DownloadTask> {
    if !HasHash(obj) || AssetObjectPath(c, obj.hash.value) in present then []
    else [DownloadTask(AssetUrl(obj.hash.value), AssetObjectPath(c, obj.hash.value), LastPart(obj.name, '/'))]
  }

  function LegacyAssetTasks(c: Config, objects: seq<AssetObject>, present: set<string>): seq<DownloadTask>
    decreases |objects|
  {
    if objects == [] then []
    else LegacyAssetTasks(c, objects[..|objects| - 1], present) + LegacyAssetTask(c, objects[|objects| - 1], present)
  }

  lemma {:induction false} LegacyAssetTasksSnoc(c: Config, objects: seq<AssetObject>, i: nat, present: set<string>)
    requires i < |objects|
    ensures LegacyAssetTasks(c, objects[..i + 1], present) ==
            LegacyAssetTasks(c, objects[..i], present) + LegacyAssetTask(c, objects[i], present)
  {
    assert objects[..i + 1][..i] == objects[..i];
    assert objects[..i + 1][i] == objects[i];
  }

  /** The events of the first `k` of `n` sequential asset downloads. */
  function LegacyAssetEvents(k: nat, n: nat): seq<UiEvent> {
    if k == 0 then [] else LegacyAssetEvents(k - 1, n) + [Status(AssetStatusText(k, n)), Step]
  }

  /** The position of the first task whose download fails, or the number
      of tasks when none does. */
  function FirstFailure(tasks: seq<DownloadTask>, failed: set<string>): (k: nat)
    ensures k <= |tasks|
    ensures forall j :: 0 <= j < k ==> tasks[j].dest !in failed
    ensures k < |tasks| ==> tasks[k].dest in failed
    decreases |tasks|
  {
    if tasks == [] then 0
    else if tasks[0].dest in failed then 0
    else 1 + FirstFailure(tasks[1..], failed)
  }

  /** The first loop of `download_assets`: the missing objects in index
      order, labelled by the last component of their names. */
  method CollectAssetDownloads(c: Config, objects: seq<AssetObject>, present: set<string>)
    returns (downloads: seq<DownloadTask>)
    ensures downloads == LegacyAssetTasks(c, objects, present)
  {
    downloads := [];
    var i := 0;
    while i < |objects|
      invariant 0 <= i <= |objects|
      invariant downloads == LegacyAssetTasks(c, objects[..i], present)
    {
      LegacyAssetTasksSnoc(c, objects, i, present);
      var obj := objects[i];
      if obj.hash.Some? && obj.hash.value != [] {
        var h := obj.hash.value;
        var hashPrefix := Take(h, 2);
        var assetPath := PathJoin(PathJoin(PathJoin(AssetsDir(c), "objects"), hashPrefix), h);
        if assetPath !in present {
          downloads := downloads + [DownloadTask(ResourcesHost + hashPrefix + "/" + h, assetPath, LastPart(obj.name, '/'))];
        } else {
          assert downloads + [] == downloads;
        }
      } else {
        assert downloads + [] == downloads;
      }
      i := i + 1;
    }
    assert objects[..|objects|] == objects;
  }

  /** The second loop of `download_assets`: each download in turn between
      a status line and a progress step, until one raises, which ends the
      loop right after its status line. */
  method FetchAssets(downloads: seq<DownloadTask>, failed: set<string>)
    returns (events: seq<UiEvent>, outcome: Result<(), LaunchError>)
    requires downloads != []
    ensures var k := FirstFailure(downloads, failed);
      && events == [StartDeterminate(|downloads|)] + LegacyAssetEvents(k, |downloads|) +
                   (if k < |downloads| then [Status(AssetStatusText(k + 1, |downloads|))] else [])
      && outcome == (if k < |downloads| then Err(DownloadFailed(downloads[k].fileName)) else Ok(()))
  {
    var total := |downloads|;
    events := [StartDeterminate(total)];
    var j := 0;
    while j < total
      invariant 0 <= j <= total
      invariant forall m :: 0 <= m < j ==> downloads[m].dest !in failed
      invariant events == [StartDeterminate(total)] + LegacyAssetEvents(j, total)
    {
      events := events + [Status(AssetStatusText(j + 1, total))];
      if downloads[j].dest in failed {
        assert FirstFailure(downloads, failed) == j;
        return events, Err(DownloadFailed(downloads[j].fileName));
      }
      events := events + [Step];
      j := j + 1;
    }
    assert FirstFailure(downloads, failed) == total;
    assert events == events + [];
    outcome := Ok(());
  }

  /** `download_assets`: the index must be readable (`index` is None when it
      is not); nothing at all, not even the progress bar, happens when every
      object is present. `failed` holds the destinations whose download
      raises. */
  method DownloadAssets(c: Config, index: Option<seq<AssetObject>>, present: set<string>, failed: set<string>)
    returns (downloads: seq<DownloadTask>, events: seq<UiEvent>, outcome: Result<(), LaunchError>)
    ensures index.None? ==> downloads == [] && events == [] && outcome == Err(AssetIndexUnreadable)
    ensures index.Some? ==> downloads == LegacyAssetTasks(c, index.value, present)
    ensures index.Some? ==>
      var k := FirstFailure(downloads, failed);
      && events == (if downloads == [] then []
                    else [StartDeterminate(|downloads|)] + LegacyAssetEvents(k, |downloads|) +
                         (if k < |downloads| then [Status(AssetStatusText(k + 1, |downloads|))] else []))
      && outcome == (if k < |downloads| then Err(DownloadFailed(downloads[k].fileName)) else Ok(()))
  {
    if index.None? {
      return [], [], Err(AssetIndexUnreadable);
    }
    downloads := CollectAssetDownloads(c, index.value, present);
    if downloads == [] {
      return downloads, [], Ok(());
    }
    events, outcome := FetchAssets(downloads, failed);
  }

  // ---------------------------------------------------------------------
  // The whole plan.
  // ---------------------------------------------------------------------

  /** `<assets>/indexes/<id>.json`. */
  function AssetIndexPath(c: Config, merged: Descriptor): string {
    PathJoin(PathJoin(AssetsDir(c), "indexes"), AssetIndexId(merged) + ".json")
  }

  /** `assetIndex.url` is truthy. */
  predicate HasIndexUrl(merged: Descriptor) {
    merged.assetIndex.Some? && merged.assetIndex.value.url.Some? && merged.assetIndex.value.url.value != []
  }

  /** The asset index step: an index with a URL that is not on disk is
      downloaded first (`fetched` says whether that download succeeds; a
      failure raises), and its objects are read when the file then exists.
      `objects` is the content of the index file. */
  function IndexObjects(c: Config, merged: Descriptor, objects: seq<AssetObject>, present: set<string>, fetched: bool)
    : (r: Result<Option<seq<AssetObject>>, LaunchError>)
    ensures r.Err? <==> HasIndexUrl(merged) && AssetIndexPath(c, merged) !in present && !fetched
    ensures r.Err? ==> r.error == AssetIndexFetchFailed(AssetIndexId(merged))
    ensures r.Ok? ==> (r.value.Some? <==> AssetIndexPath(c, merged) in present || HasIndexUrl(merged))
    ensures r.Ok? && r.value.Some? ==> r.value.value == objects
  {
    var path := AssetIndexPath(c, merged);
    if HasIndexUrl(merged) && path !in present && !fetched then Err(AssetIndexFetchFailed(AssetIndexId(merged)))
    else if path in present || HasIndexUrl(merged) then Ok(Some(objects))
    else Ok(None)
  }

  /** Jars, then libraries and natives, then the asset index, then asset
      objects. A library error comes before an index download failure. */
  function PlannedTasks(c: Config, version: string, child: Descriptor, parent: Descriptor,
                        objects: seq<AssetObject>, indexFetched: bool, present: set<string>)
    : Result<seq<DownloadTask>, LaunchError>
  {
    match LibrariesTasks(c, LibrariesOf(Merge(parent, child)), present)
    case Err(e) => Err(e)
    case Ok(libs) =>
      match IndexObjects(c, Merge(parent, child), objects, present, indexFetched)
      case Err(e) => Err(e)
      case Ok(index) =>
        Ok(JarTasks(c, version, child, parent, present) + libs + (if index.Some? then AssetTasks(c, index.value, present) else []))
  }

  /** The jar section of the planner. */
  method PlanJars(c: Config, version: string, child: Descriptor, parent: Descriptor, present: set<string>)
    returns (tasks: seq<DownloadTask>)
    ensures tasks == JarTasks(c, version, child, parent, present)
  {
    tasks := [];
    var mainJar := VersionJarPath(c, version);
    if mainJar !in present {
      var url := ClientUrl(child);
      if url.Some? && url.value != [] {
        tasks := tasks + [DownloadTask(url.value, mainJar, version + ".jar")];
      }
    }
    var parentJar := ParentJar(c, child, Merge(parent, child));
    if parentJar.Some? && parentJar.value !in present {
      var url := ClientUrl(parent);
      if url.Some? && url.value != [] {
        tasks := tasks + [DownloadTask(url.value, parentJar.value, child.inheritsFrom.value + ".jar")];
      }
    }
  }

  /** The planning section of the launch thread. */
  method PlanDownloads(c: Config, version: string, child: Descriptor, parent: Descriptor,
                       objects: seq<AssetObject>, indexFetched: bool, present: set<string>)
    returns (r: Result<seq<DownloadTask>, LaunchError>)
    ensures r == PlannedTasks(c, version, child, parent, objects, indexFetched, present)
  {
    var tasks := PlanJars(c, version, child, parent, present);
    var merged := Merge(parent, child);
    var libs := PlanLibraries(c, LibrariesOf(merged), present);
    if libs.Err? {
      return Err(libs.error);
    }
    tasks := tasks + libs.value;
    var indexPath := AssetIndexPath(c, merged);
    var indexExists := indexPath in present;
    if HasIndexUrl(merged) && !indexExists {
      if !indexFetched {
        return Err(AssetIndexFetchFailed(AssetIndexId(merged)));
      }
      indexExists := true;
    }
    if indexExists {
      var assets := PlanAssets(c, objects, present);
      tasks := tasks + assets;
    } else {
      assert tasks + [] == tasks;
    }
    r := Ok(tasks);
  }

  // ---------------------------------------------------------------------
  // Properties of the plan.
  // ---------------------------------------------------------------------

  /** Every destination a task names is missing from disk. */
  predicate AllMissing(tasks: seq<DownloadTask>, present: set<string>) {
    forall t :: t in tasks ==> t.dest !in present
  }

  lemma {:induction false} LibrariesTasksMissing(c: Config, libs: seq<Library>, present: set<string>)
    requires LibrariesTasks(c, libs, present).Ok?
    ensures AllMissing(LibrariesTasks(c, libs, present).value, present)
    decreases |libs|
  {
    if libs != [] {
      LibrariesTasksMissing(c, libs[..|libs| - 1], present);
    }
  }

  lemma {:induction false} AssetTasksMissing(c: Config, objects: seq<AssetObject>, present: set<string>)
    ensures AllMissing(AssetTasks(c, objects, present), present)
    decreases |objects|
  {
    if objects != [] {
      AssetTasksMissing(c, objects[..|objects| - 1], present);
    }
  }

  /** No download is planned for a destination that is already on disk:
      jars, libraries, natives and assets alike. */
  lemma {:induction false} PlanNeverRedownloads(c: Config, version: string, child: Descriptor, parent: Descriptor,
                             objects: seq<AssetObject>, indexFetched: bool, present: set<string>)
    requires PlannedTasks(c, version, child, parent, objects, indexFetched, present).Ok?
    ensures AllMissing(PlannedTasks(c, version, child, parent, objects, indexFetched, present).value, present)
  {
    var merged := Merge(parent, child);
    var libs := LibrariesTasks(c, LibrariesOf(merged), present).value;
    var jars := JarTasks(c, version, child, parent, present);
    var index := IndexObjects(c, merged, objects, present, indexFetched).value;
    var assets := if index.Some? then AssetTasks(c, objects, present) else [];
    assert PlannedTasks(c, version, child, parent, objects, indexFetched, present).value == jars + libs + assets;
    assert AllMissing(jars, present);
    assert AllMissing(libs, present) by {
      LibrariesTasksMissing(c, LibrariesOf(merged), present);
    }
    assert AllMissing(assets, present) by {
      AssetTasksMissing(c, objects, present);
    }
    AllMissingConcat(jars, libs, present);
    AllMissingConcat(jars + libs, assets, present);
  }

  lemma {:induction false} AllMissingConcat(a: seq<DownloadTask>, b: seq<DownloadTask>, present: set<string>)
    requires AllMissing(a, present) && AllMissing(b, present)
    ensures AllMissing(a + b, present)
  {
  }

  /** A destination under the libraries, assets or versions root. */
  predicate UnderManagedRoot(c: Config, dest: string) {
    LibrariesDir(c) + "/" <= dest || AssetsDir(c) + "/" <= dest || VersionsDir(c) + "/" <= dest
  }

  predicate AllUnderManagedRoots(c: Config, tasks: seq<DownloadTask>) {
    forall t :: t in tasks ==> UnderManagedRoot(c, t.dest)
  }

  /** The library's jar path and every classifier path are relative. */
  predicate RelativeLibraryPaths(lib: Library) {
    && (PlannerLibPath(lib).Some? ==> Relative(PlannerLibPath(lib).value))
    && (ClassifiersOf(lib).Some? ==>
          forall k :: k in ClassifiersOf(lib).value && ClassifiersOf(lib).value[k].path.Some? ==>
            Relative(ClassifiersOf(lib).value[k].path.value))
  }

  /** The hash of every hashed object does not start with '/'. */
  predicate RelativeHashes(objects: seq<AssetObject>) {
    forall i :: 0 <= i < |objects| && HasHash(objects[i]) ==> Relative(objects[i].hash.value)
  }

  lemma {:induction false} LibraryTasksUnderRoot(c: Config, lib: Library, present: set<string>)
    requires RelativeLibraryPaths(lib)
    requires LibraryTasks(c, lib, present).Ok?
    ensures AllUnderManagedRoots(c, LibraryTasks(c, lib, present).value)
  {
    ManagedRootsEndInS(c);
    var p := PlannerLibPath(lib);
    if p.Some? {
      PathJoinRelative(LibrariesDir(c), p.value);
    }
    if ClassifiersOf(lib).Some? {
      var key := NativeKey(lib, CurrentOs(c.system));
      var classifiers := ClassifiersOf(lib).value;
      if key in classifiers && classifiers[key].path.Some? {
        PathJoinRelative(LibrariesDir(c), classifiers[key].path.value);
      }
    }
  }

  lemma {:induction false} LibrariesTasksUnderRoot(c: Config, libs: seq<Library>, present: set<string>)
    requires forall i :: 0 <= i < |libs| ==> RelativeLibraryPaths(libs[i])
    requires LibrariesTasks(c, libs, present).Ok?
    ensures AllUnderManagedRoots(c, LibrariesTasks(c, libs, present).value)
    decreases |libs|
  {
    if libs != [] {
      var n := |libs|;
      assert forall i :: 0 <= i < n - 1 ==> libs[..n - 1][i] == libs[i];
      LibrariesTasksUnderRoot(c, libs[..n - 1], present);
      LibraryTasksUnderRoot(c, libs[n - 1], present);
    }
  }

  lemma {:induction false} AssetTasksUnderRoot(c: Config, objects: seq<AssetObject>, present: set<string>)
    requires RelativeHashes(objects)
    ensures AllUnderManagedRoots(c, AssetTasks(c, objects, present))
    decreases |objects|
  {
    if objects != [] {
      var n := |objects|;
      assert RelativeHashes(objects[..n - 1]) by {
        assert forall i :: 0 <= i < n - 1 ==> objects[..n - 1][i] == objects[i];
      }
      AssetTasksUnderRoot(c, objects[..n - 1], present);
      var obj := objects[n - 1];
      if HasHash(obj) {
        var h := obj.hash.value;
        var a := AssetsDir(c);
        ManagedRootsEndInS(c);
        PathJoinRelative(a, "objects");
        var o := PathJoin(a, "objects");
        assert o[|o| - 1] == 's';
        var t := Take(h, 2);
        assert Relative(t) && t != [];
        PathJoinRelative(o, t);
        var ot := PathJoin(o, t);
        PrefixOfPrefix(a + "/", a + "/" + "objects", "/" + t);
        assert a + "/" <= ot;
        PrefixOfPrefix(a + "/", ot, h);
        PrefixOfPrefix(a + "/", ot, "/" + h);
        assert a + "/" <= AssetObjectPath(c, h);
      }
    }
  }

  lemma {:induction false} JarTasksUnderRoot(c: Config, version: string, child: Descriptor, parent: Descriptor, present: set<string>)
    requires Relative(version)
    requires child.inheritsFrom.Some? ==> Relative(child.inheritsFrom.value)
    ensures AllUnderManagedRoots(c, JarTasks(c, version, child, parent, present))
  {
    VersionJarUnderRoot(c, version);
    if child.inheritsFrom.Some? {
      VersionJarUnderRoot(c, child.inheritsFrom.value);
    }
  }

  lemma {:induction false} VersionJarUnderRoot(c: Config, v: string)
    requires Relative(v)
    ensures VersionsDir(c) + "/" <= VersionJarPath(c, v)
  {
    var d := VersionsDir(c);
    ManagedRootsEndInS(c);
    PathJoinRelative(d, v);
    var dv := PathJoin(d, v);
    var jar := v + ".jar";
    assert Relative(jar);
    if dv[|dv| - 1] == '/' {
      assert PathJoin(dv, jar) == dv + jar;
    } else {
      PathJoinRelative(dv, jar);
    }
    PrefixOfPrefix(d + "/", dv, jar);
    PrefixOfPrefix(d + "/", dv, "/" + jar);
  }

  /** With relative library paths, hashes and version ids, every planned
      download lands under the libraries, assets or versions root. */
  lemma {:induction false} PlannedDestinationsUnderRoots(c: Config, version: string, child: Descriptor, parent: Descriptor,
                             objects: seq<AssetObject>, indexFetched: bool, present: set<string>)
    requires Relative(version)
    requires child.inheritsFrom.Some? ==> Relative(child.inheritsFrom.value)
    requires forall i :: 0 <= i < |LibrariesOf(Merge(parent, child))| ==> RelativeLibraryPaths(LibrariesOf(Merge(parent, child))[i])
    requires RelativeHashes(objects)
    requires PlannedTasks(c, version, child, parent, objects, indexFetched, present).Ok?
    ensures AllUnderManagedRoots(c, PlannedTasks(c, version, child, parent, objects, indexFetched, present).value)
  {
    var merged := Merge(parent, child);
    var libs := LibrariesTasks(c, LibrariesOf(merged), present).value;
    var jars := JarTasks(c, version, child, parent, present);
    var index := IndexObjects(c, merged, objects, present, indexFetched).value;
    var assets := if index.Some? then AssetTasks(c, objects, present) else [];
    assert PlannedTasks(c, version, child, parent, objects, indexFetched, present).value == jars + libs + assets;
    JarTasksUnderRoot(c, version, child, parent, present);
    LibrariesTasksUnderRoot(c, LibrariesOf(merged), present);
    AssetTasksUnderRoot(c, objects, present);
  }

  /** `os.path.join` drops the libraries root in front of an absolute
      artifact path: the jar is planned at that path itself, which is under
      no managed root when it has no 's' (each root ends in 's'). */
  lemma {:induction false} AbsoluteLibraryPathEscapesRoot(c: Config, lib: Library, p: string, present: set<string>)
    requires p != [] && p[0] == '/' && 's' !in p
    requires ArtifactPath(lib) == Some(p)
    requires p !in present
    ensures JarTask(c, lib, present) == [DownloadTask(LibraryUrlAsWritten(lib, p), p, LastPart(p, '/'))]
    ensures !UnderManagedRoot(c, p)
  {
    ManagedRootsEndInS(c);
    PrefixKeepsLast(LibrariesDir(c), p);
    PrefixKeepsLast(AssetsDir(c), p);
    PrefixKeepsLast(VersionsDir(c), p);
  }

  lemma {:induction false} PrefixKeepsLast(d: string, p: string)
    requires d != []
    ensures d + "/" <= p ==> d[|d| - 1] in p
  {
    if d + "/" <= p {
      assert p[|d| - 1] == d[|d| - 1];
    }
  }

  /** The artifact path "/tmp/evil.jar" is downloaded to "/tmp/evil.jar". */
  lemma EvilJarPlannedOutsideRoots(c: Config, lib: Library)
    requires ArtifactPath(lib) == Some("/tmp/evil.jar")
    ensures JarTask(c, lib, {}) == [DownloadTask(LibraryUrlAsWritten(lib, "/tmp/evil.jar"), "/tmp/evil.jar", LastPart("/tmp/evil.jar", '/'))]
    ensures !UnderManagedRoot(c, "/tmp/evil.jar")
  {
    AbsoluteLibraryPathEscapesRoot(c, lib, "/tmp/evil.jar", {});
  }

  /** `t` is the task the planner makes for a hashed, missing object. */
  predicate PlansAsset(c: Config, obj: AssetObject, present: set<string>, t: DownloadTask) {
    && HasHash(obj)
    && AssetObjectPath(c, obj.hash.value) !in present
    && t == DownloadTask(AssetUrl(obj.hash.value), AssetObjectPath(c, obj.hash.value), Take(obj.hash.value, 10))
  }

  lemma {:induction false} AssetTaskExactly(c: Config, obj: AssetObject, present: set<string>, t: DownloadTask)
    ensures t in AssetTask(c, obj, present) <==> PlansAsset(c, obj, present, t)
  {
  }

  /** Every planned asset task comes from a hashed object whose path is
      missing, with the content-addressed URL and path and the `h[:10]`
      label. */
  lemma {:induction false} AssetTasksSound(c: Config, objects: seq<AssetObject>, present: set<string>, t: DownloadTask)
    requires t in AssetTasks(c, objects, present)
    ensures exists i :: 0 <= i < |objects| && PlansAsset(c, objects[i], present, t)
    decreases |objects|
  {
    var n := |objects|;
    var init := objects[..n - 1];
    if t in AssetTasks(c, init, present) {
      AssetTasksSound(c, init, present, t);
      var i :| 0 <= i < |init| && PlansAsset(c, init[i], present, t);
      assert objects[i] == init[i];
    } else {
      AssetTaskExactly(c, objects[n - 1], present, t);
    }
  }

  /** Every hashed object whose path is missing gets its task. */
  lemma {:induction false} AssetTasksComplete(c: Config, objects: seq<AssetObject>, present: set<string>, i: nat, t: DownloadTask)
    requires i < |objects| && PlansAsset(c, objects[i], present, t)
    ensures t in AssetTasks(c, objects, present)
  {
    AssetTaskExactly(c, objects[i], present, t);
    AssetTasksSnoc(c, objects, i, present);
    AssetTasksPrefix(c, objects, i + 1, present);
    InPrefix(t, AssetTasks(c, objects[..i + 1], present), AssetTasks(c, objects, present));
  }

  /** The tasks of a prefix of the objects start the tasks of all of them. */
  lemma {:induction false} AssetTasksPrefix(c: Config, objects: seq<AssetObject>, k: nat, present: set<string>)
    requires k <= |objects|
    ensures AssetTasks(c, objects[..k], present) <= AssetTasks(c, objects, present)
    decreases |objects| - k
  {
    if k < |objects| {
      var a := AssetTasks(c, objects[..k], present);
      var b := AssetTasks(c, objects[..k + 1], present);
      AssetTasksSnoc(c, objects, k, present);
      assert a <= b;
      AssetTasksPrefix(c, objects, k + 1, present);
    } else {
      assert objects[..k] == objects;
    }
  }

  lemma {:induction false} InPrefix<T>(x: T, a: seq<T>, b: seq<T>)
    requires x in a && a <= b
    ensures x in b
  {
    var j :| 0 <= j < |a| && a[j] == x;
    assert b[j] == x;
  }

  /** For a hash whose first two characters are not '/', the object lives at
      `<assets>/objects/<h[:2]>/<h>` and is fetched from
      `<resources host><h[:2]>/<h>`. */
  lemma {:induction false} AssetPathShape(c: Config, h: string)
    requires |h| >= 2 && h[0] != '/' && h[1] != '/'
    ensures AssetObjectPath(c, h) == AssetsDir(c) + "/objects" + "/" + h[..2] + "/" + h
    ensures AssetUrl(h) == "https://resources.download.minecraft.net/" + h[..2] + "/" + h
  {
    var a := AssetsDir(c);
    assert a != [] && a[|a| - 1] == 's' by {
      PathJoinShape(c.gameRoot, "assets");
    }
    var o := PathJoin(a, "objects");
    assert o == a + "/" + "objects" by {
      PathJoinShape(a, "objects");
    }
    var t := Take(h, 2);
    assert t == h[..2];
    var p := PathJoin(o, t);
    assert p == o + "/" + t by {
      PathJoinShape(o, t);
    }
    assert p[|p| - 1] == h[1];
    assert PathJoin(p, h) == p + "/" + h by {
      PathJoinShape(p, h);
    }
    assert a + "/" + "objects" == a + "/objects";
  }

  /** The `(url, destination)` pairs of a task list. */
  function Targets(tasks: seq<DownloadTask>): seq<(string, string)>
    decreases |tasks|
  {
    if tasks == [] then [] else Targets(tasks[..|tasks| - 1]) + [(tasks[|tasks| - 1].url, tasks[|tasks| - 1].dest)]
  }

  lemma {:induction false} TargetsAppend(a: seq<DownloadTask>, b: seq<DownloadTask>)
    ensures Targets(a + b) == Targets(a) + Targets(b)
    decreases |b|
  {
    if b == [] {
      assert a + b == a;
    } else {
      var n := |b|;
      assert (a + b)[..|a + b| - 1] == a + b[..n - 1];
      TargetsAppend(a, b[..n - 1]);
    }
  }

  /** The sequential `download_assets` and the parallel planner fetch the
      same objects from the same URLs to the same paths, in the same order;
      only the labels differ. */
  lemma {:induction false} AssetPlannersAgree(c: Config, objects: seq<AssetObject>, present: set<string>)
    ensures Targets(AssetTasks(c, objects, present)) == Targets(LegacyAssetTasks(c, objects, present))
    decreases |objects|
  {
    if objects != [] {
      var n := |objects|;
      var init := objects[..n - 1];
      AssetPlannersAgree(c, init, present);
      TargetsAppend(AssetTasks(c, init, present), AssetTask(c, objects[n - 1], present));
      TargetsAppend(LegacyAssetTasks(c, init, present), LegacyAssetTask(c, objects[n - 1], present));
      var t := AssetTask(c, objects[n - 1], present);
      var u := LegacyAssetTask(c, objects[n - 1], present);
      if t != [] {
        assert t[..0] == [] && u[..0] == [];
        assert Targets(t) == [(t[0].url, t[0].dest)] == Targets(u);
      }
    }
  }

  /** A library declared by a name of fewer than three colon-separated parts
      and no downloads or natives gets no task at all. */
  lemma {:induction false} ShortNameNoTask(c: Config, lib: Library, present: set<string>)
    requires lib.downloads.None? && lib.natives.None?
    requires |Split(LibraryName(lib), ':')| < 3
    ensures LibraryTasks(c, lib, present) == Ok([])
  {
    assert PlannerLibPath(lib).None?;
    assert JarTask(c, lib, present) == [];
    assert NativeTask(c, lib, present) == Ok([]);
    assert JarTask(c, lib, present) + [] == [];
  }

  /** A library with natives but no classifiers record ends the plan: the
      planner's `classifiers.get` on None. */
  lemma {:induction false} NativesWithoutClassifiersFail(c: Config, libs: seq<Library>, k: nat, present: set<string>)
    requires k < |libs| && Allowed(libs[k].rules, c.system, map[])
    requires HasNatives(libs[k]) && ClassifiersOf(libs[k]).None?
    requires LibrariesTasks(c, libs[..k], present).Ok?
    ensures LibrariesTasks(c, libs, present) == Err(ClassifiersMissing(LibraryName(libs[k])))
  {
    LibrariesTasksSnoc(c, libs, k, present, LibrariesTasks(c, libs[..k], present).value);
    LibrariesErrorPersists(c, libs, k + 1, present);
  }
}

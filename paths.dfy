/** The launcher's ambient environment made explicit: the managed roots, the
    platform answers and the account and settings values a launch reads. */
module Paths {
  import opened Wrappers
  import opened Text

  /** `posixpath.join(a, b)`: an absolute `b` replaces `a`; otherwise one
      '/' separates them unless `a` is empty or already ends with one. */
  function PathJoin(a: string, b: string): string {
    if b != [] && b[0] == '/' then b
    else if a == [] || a[|a| - 1] == '/' then a + b
    else a + "/" + b
  }

  /** The joined path always ends with `b`; a relative `b` after a directory
      not ending in '/' is separated from it by exactly one '/'. */
  lemma {:induction false} PathJoinShape(a: string, b: string)
    ensures var p := PathJoin(a, b); |p| >= |b| && p[|p| - |b|..] == b
    ensures b != [] && b[0] != '/' && a != [] && a[|a| - 1] != '/' ==> PathJoin(a, b) == a + "/" + b
  {
    var p := PathJoin(a, b);
    assert p[|p| - |b|..] == b;
  }

  /** A path that does not start with '/'. */
  predicate Relative(p: string) {
    p == [] || p[0] != '/'
  }

  /** A relative `b` after a directory not ending in '/' lies under it. */
  lemma {:induction false} PathJoinRelative(a: string, b: string)
    requires a != [] && a[|a| - 1] != '/' && Relative(b)
    ensures PathJoin(a, b) == a + "/" + b
    ensures a + "/" <= PathJoin(a, b)
  {
    assert a + "/" <= a + "/" + b;
  }

  /** Everything a launch reads from its surroundings. `gameRoot` is the
      global GAME_DIR, `system` the answer of `platform.system()`, `osName`
      the value of `os.name`, `gameDir` the modpack directory the game runs
      in, `offlineUuid` the UUID that `offline_uuid_for(username)` derives. */
  datatype Config = Config(
    gameRoot: string,
    system: string,
    osName: string,
    username: string,
    accountUuid: Option<string>,
    offlineUuid: string,
    ram: string,
    javaExec: string,
    gameDir: string,
    showTerminal: bool)

  function VersionsDir(c: Config): string { PathJoin(c.gameRoot, "versions") }
  function LibrariesDir(c: Config): string { PathJoin(c.gameRoot, "libraries") }
  function AssetsDir(c: Config): string { PathJoin(c.gameRoot, "assets") }
  function NativesDir(c: Config, version: string): string { PathJoin(PathJoin(c.gameRoot, "natives"), version) }

  /** The managed roots end in their own name, never in '/'. */
  lemma {:induction false} ManagedRootsEndInS(c: Config)
    ensures LibrariesDir(c) != [] && LibrariesDir(c)[|LibrariesDir(c)| - 1] == 's'
    ensures AssetsDir(c) != [] && AssetsDir(c)[|AssetsDir(c)| - 1] == 's'
    ensures VersionsDir(c) != [] && VersionsDir(c)[|VersionsDir(c)| - 1] == 's'
  {
    PathJoinShape(c.gameRoot, "libraries");
    PathJoinShape(c.gameRoot, "assets");
    PathJoinShape(c.gameRoot, "versions");
  }

  /** The classpath separator: ';' when `os.name` is "nt", ':' otherwise. */
  function ClasspathSeparator(c: Config): (sep: char)
    ensures sep == ';' <==> c.osName == "nt"
    ensures sep == ';' || sep == ':'
  {
    if c.osName == "nt" then ';' else ':'
  }

  /** `account.get("uuid") or offline_uuid_for(username)`. */
  function EffectiveUuid(c: Config): (uuid: string)
    ensures c.accountUuid.Some? && c.accountUuid.value != [] ==> uuid == c.accountUuid.value
    ensures c.accountUuid.None? || c.accountUuid.value == [] ==> uuid == c.offlineUuid
  {
    if c.accountUuid.Some? && c.accountUuid.value != [] then c.accountUuid.value else c.offlineUuid
  }

  predicate IsDarwin(c: Config) { Lower(c.system) == "darwin" }
  predicate IsWindows(c: Config) { Lower(c.system) == "windows" }
}

/** The classpath builder: the main jar, the parent jar and the library jars
    that are on disk, collected into a set (libraries deduplicated by name)
    and joined with the platform separator. */
module Classpath {
  import opened Wrappers
  import opened Text
  import opened Rules
  import opened Paths
  import opened Manifest
  import opened Planner

  /** The jar a library puts on the classpath: its artifact path; else a
      `downloads.path` when it has no classifiers or natives; else, with no
      artifact, classifiers or natives, its Maven path. */
  function ClasspathLibPath(c: Config, lib: Library): Option<string> {
    if ArtifactPath(lib).Some? then Some(PathJoin(LibrariesDir(c), ArtifactPath(lib).value))
    else if lib.downloads.Some? && lib.downloads.value.path.Some? && lib.downloads.value.path.value != [] &&
            !HasClassifiers(lib) && !HasNatives(lib)
    then Some(PathJoin(LibrariesDir(c), lib.downloads.value.path.value))
    else if !HasArtifact(lib) && !HasClassifiers(lib) && !HasNatives(lib) && MavenPath(LibraryName(lib)).Some?
    then Some(PathJoin(LibrariesDir(c), MavenPath(LibraryName(lib)).value))
    else None
  }

  /** The names of a list of libraries (`processed_libs` after the list). */
  function Names(libs: seq<Library>): set<string>
    decreases |libs|
  {
    if libs == [] then {} else Names(libs[..|libs| - 1]) + {LibraryName(libs[|libs| - 1])}
  }

  /** The library jars on the classpath. A library whose name was already
      seen contributes nothing, even when the earlier one was disallowed. */
  function LibraryEntries(c: Config, libs: seq<Library>, present: set<string>): set<string>
    decreases |libs|
  {
    if libs == [] then {}
    else
      var init := libs[..|libs| - 1];
      var lib := libs[|libs| - 1];
      var earlier := LibraryEntries(c, init, present);
      if LibraryName(lib) in Names(init) || !Allowed(lib.rules, c.system, map[]) then earlier
      else
        var p := ClasspathLibPath(c, lib);
        if p.Some? && p.value in present then earlier + {p.value} else earlier
  }

  /** The present main jar, the present parent jar, the present library jars. */
  function ClasspathEntries(c: Config, version: string, child: Descriptor, parent: Descriptor, present: set<string>): set<string> {
    var main := VersionJarPath(c, version);
    var pj := ParentJar(c, child, Merge(parent, child));
    (if main in present then {main} else {}) +
    (if pj.Some? && pj.value in present then {pj.value} else {}) +
    LibraryEntries(c, LibrariesOf(Merge(parent, child)), present)
  }

  lemma {:induction false} LibraryEntriesSnoc(c: Config, libs: seq<Library>, i: nat, present: set<string>)
    requires i < |libs|
    ensures Names(libs[..i + 1]) == Names(libs[..i]) + {LibraryName(libs[i])}
    ensures LibraryEntries(c, libs[..i + 1], present) ==
      if LibraryName(libs[i]) in Names(libs[..i]) || !Allowed(libs[i].rules, c.system, map[]) then LibraryEntries(c, libs[..i], present)
      else if ClasspathLibPath(c, libs[i]).Some? && ClasspathLibPath(c, libs[i]).value in present
      then LibraryEntries(c, libs[..i], present) + {ClasspathLibPath(c, libs[i]).value}
      else LibraryEntries(c, libs[..i], present)
  {
    assert libs[..i + 1][..i] == libs[..i];
    assert libs[..i + 1][i] == libs[i];
  }

  /** The library loop of the builder: the name is recorded as processed
      before the rule check. */
  method CollectLibraries(c: Config, libs: seq<Library>, present: set<string>) returns (classpathSet: set<string>)
    ensures classpathSet == LibraryEntries(c, libs, present)
  {
    classpathSet := {};
    var processedLibs: set<string> := {};
    var i := 0;
    while i < |libs|
      invariant 0 <= i <= |libs|
      invariant processedLibs == Names(libs[..i])
      invariant classpathSet == LibraryEntries(c, libs[..i], present)
    {
      var lib := libs[i];
      LibraryEntriesSnoc(c, libs, i, present);
      i := i + 1;
      var libName := LibraryName(lib);
      if libName in processedLibs {
        processedLibs := processedLibs + {libName};
        continue;
      }
      processedLibs := processedLibs + {libName};
      var allowed := CheckRules(lib.rules, c.system, map[]);
      if !allowed {
        continue;
      }
      var libPath := ClasspathLibPath(c, lib);
      if libPath.Some? && libPath.value in present {
        classpathSet := classpathSet + {libPath.value};
      }
    }
    assert libs[..|libs|] == libs;
  }

  /** A string with no repeated element. */
  predicate Distinct(xs: seq<string>) {
    forall i, j :: 0 <= i < j < |xs| ==> xs[i] != xs[j]
  }

  /** The set part of the builder. */
  method CollectEntries(c: Config, version: string, child: Descriptor, parent: Descriptor, present: set<string>)
    returns (classpathSet: set<string>)
    ensures classpathSet == ClasspathEntries(c, version, child, parent, present)
  {
    var merged := Merge(parent, child);
    classpathSet := {};
    var mainJar := VersionJarPath(c, version);
    if mainJar in present {
      classpathSet := classpathSet + {mainJar};
    }
    var parentJar := ParentJar(c, child, merged);
    if parentJar.Some? && parentJar.value in present {
      classpathSet := classpathSet + {parentJar.value};
    }
    var libEntries := CollectLibraries(c, LibrariesOf(merged), present);
    classpathSet := classpathSet + libEntries;
  }

  /** Some iteration order of a set: each element exactly once. */
  method IterationOrder(entries: set<string>) returns (order: seq<string>)
    ensures Distinct(order) && |order| == |entries| && forall x :: x in order <==> x in entries
  {
    order := [];
    var remaining := entries;
    while remaining != {}
      invariant remaining <= entries
      invariant Distinct(order)
      invariant forall x :: x in order <==> x in entries && x !in remaining
      invariant |order| + |remaining| == |entries|
      decreases |remaining|
    {
      var x :| x in remaining;
      order := order + [x];
      remaining := remaining - {x};
    }
  }

  /** Splitting a separator-free classpath at its separator gives the
      entries back. */
  lemma {:induction false} ClasspathSplits(order: seq<string>, sep: char)
    requires order != [] && forall i :: 0 <= i < |order| ==> sep !in order[i]
    ensures Split(Join(order, [sep]), sep) == order
  {
    SplitJoin(order, sep);
  }

  /** The builder: the set, the order in which the set happens to be
      iterated, and `sep.join` of it. */
  method BuildClasspath(c: Config, version: string, child: Descriptor, parent: Descriptor, present: set<string>)
    returns (entries: set<string>, order: seq<string>, classpath: string)
    ensures entries == ClasspathEntries(c, version, child, parent, present)
    ensures Distinct(order) && |order| == |entries| && forall x :: x in order <==> x in entries
    ensures classpath == Join(order, [ClasspathSeparator(c)])
    ensures entries == {} ==> classpath == ""
    ensures entries != {} && (forall x :: x in entries ==> ClasspathSeparator(c) !in x) ==>
              Split(classpath, ClasspathSeparator(c)) == order
  {
    entries := CollectEntries(c, version, child, parent, present);
    order := IterationOrder(entries);
    var sep := ClasspathSeparator(c);
    classpath := Join(order, [sep]);
    if entries != {} && (forall x :: x in entries ==> sep !in x) {
      ClasspathSplits(order, sep);
    }
  }

  // ---------------------------------------------------------------------
  // Properties of the classpath.
  // ---------------------------------------------------------------------

  /** `libs[i]` is the first library of its name. */
  predicate FirstOfName(libs: seq<Library>, i: int) {
    0 <= i < |libs| && forall j :: 0 <= j < i ==> LibraryName(libs[j]) != LibraryName(libs[i])
  }

  /** `p` comes from the first library of its name, allowed and present. */
  predicate Contributes(c: Config, libs: seq<Library>, present: set<string>, i: int, p: string) {
    && FirstOfName(libs, i)
    && Allowed(libs[i].rules, c.system, map[])
    && ClasspathLibPath(c, libs[i]) == Some(p)
    && p in present
  }

  lemma {:induction false} NamesExactly(libs: seq<Library>, n: string)
    ensures n in Names(libs) <==> exists j :: 0 <= j < |libs| && LibraryName(libs[j]) == n
    decreases |libs|
  {
    if libs != [] {
      var init := libs[..|libs| - 1];
      NamesExactly(init, n);
      if j :| 0 <= j < |init| && LibraryName(init[j]) == n {
        assert libs[j] == init[j];
      }
      if j :| 0 <= j < |libs| && LibraryName(libs[j]) == n {
        if j < |init| {
          assert init[j] == libs[j];
        }
      }
    }
  }

  /** A first-of-name, allowed, present library jar is on the classpath
      whatever follows it, and nothing else is. */
  lemma {:induction false} LibraryEntriesSound(c: Config, libs: seq<Library>, present: set<string>, p: string)
    requires p in LibraryEntries(c, libs, present)
    ensures exists i :: Contributes(c, libs, present, i, p)
    decreases |libs|
  {
    var n := |libs|;
    var init := libs[..n - 1];
    var last := libs[n - 1];
    if p in LibraryEntries(c, init, present) {
      LibraryEntriesSound(c, init, present, p);
      var i :| Contributes(c, init, present, i, p);
      assert init[i] == libs[i];
      assert forall j :: 0 <= j < i ==> init[j] == libs[j];
      assert Contributes(c, libs, present, i, p);
    } else {
      NamesExactly(init, LibraryName(last));
      assert forall j :: 0 <= j < n - 1 ==> init[j] == libs[j];
      assert Contributes(c, libs, present, n - 1, p);
    }
  }

  lemma {:induction false} LibraryEntriesComplete(c: Config, libs: seq<Library>, present: set<string>, i: int, p: string)
    requires Contributes(c, libs, present, i, p)
    ensures p in LibraryEntries(c, libs, present)
    decreases |libs|
  {
    var n := |libs|;
    var init := libs[..n - 1];
    if i < n - 1 {
      assert init[i] == libs[i];
      assert forall j :: 0 <= j < i ==> init[j] == libs[j];
      assert Contributes(c, init, present, i, p);
      LibraryEntriesComplete(c, init, present, i, p);
    } else {
      NamesExactly(init, LibraryName(libs[i]));
    }
  }

  /** A disallowed first occurrence hides every later library of that name:
      of two same-named libraries, the first disallowed, neither is on the
      classpath. */
  lemma {:induction false} DisallowedFirstHidesLater(c: Config, a: Library, b: Library, present: set<string>)
    requires LibraryName(a) == LibraryName(b)
    requires !Allowed(a.rules, c.system, map[])
    ensures LibraryEntries(c, [a, b], present) == {}
  {
    assert [a, b][..1] == [a];
    assert [a][..0] == [];
    assert LibraryEntries(c, [a], present) == {};
    assert Names([a]) == {LibraryName(a)};
  }

  /** Everything on the classpath is on disk. */
  lemma {:induction false} LibraryEntriesPresent(c: Config, libs: seq<Library>, present: set<string>)
    ensures LibraryEntries(c, libs, present) <= present
    decreases |libs|
  {
    if libs != [] {
      LibraryEntriesPresent(c, libs[..|libs| - 1], present);
    }
  }

  lemma {:induction false} ClasspathEntriesPresent(c: Config, version: string, child: Descriptor, parent: Descriptor, present: set<string>)
    ensures ClasspathEntries(c, version, child, parent, present) <= present
  {
    LibraryEntriesPresent(c, LibrariesOf(Merge(parent, child)), present);
  }

  /** For a library without a `downloads.path`, the builder looks for the jar
      exactly where the planner put it. */
  lemma {:induction false} PlannerAndBuilderAgree(c: Config, lib: Library)
    requires lib.downloads.None? || lib.downloads.value.path.None?
    ensures ClasspathLibPath(c, lib) ==
      if PlannerLibPath(lib).Some? then Some(PathJoin(LibrariesDir(c), PlannerLibPath(lib).value)) else None
  {
  }
}

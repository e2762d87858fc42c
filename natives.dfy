/** Which native archives `extract_natives` opens and which of their entries
    it extracts; the unzipping itself is not modelled. */
module Natives {
  import opened Wrappers
  import opened Text
  import opened Rules
  import opened Paths
  import opened Manifest
  import opened Planner

  /** The classifier records of a library, `{}` when absent. */
  function ClassifierRecords(lib: Library): map<string, Artifact> {
    if ClassifiersOf(lib).Some? then ClassifiersOf(lib).value else map[]
  }

  /** The native jar of a library: none when its rules disallow it, when it
      has neither natives nor classifiers, or when no truthy record has the
      OS key; an error when the selected record has no `path`. */
  function ExtractionJar(c: Config, lib: Library): Result<Option<string>, LaunchError> {
    var classifiers := ClassifierRecords(lib);
    if !Allowed(lib.rules, c.system, map[]) then Ok(None)
    else if !HasNatives(lib) && |classifiers| == 0 then Ok(None)
    else
      var key := NativeKey(lib, CurrentOs(c.system));
      if key !in classifiers || !classifiers[key].Truthy() then Ok(None)
      else if classifiers[key].path.None? then Err(MissingKey(LibraryName(lib), "path"))
      else Ok(Some(PathJoin(LibrariesDir(c), classifiers[key].path.value)))
  }

  /** `lib.get("extract", {}).get("exclude", [])`. */
  function Excludes(lib: Library): seq<string> {
    if lib.extract.Some? && lib.extract.value.exclude.Some? then lib.extract.value.exclude.value else []
  }

  /** `any(member.startswith(ex) for ex in excludes)`. */
  predicate Excluded(member: string, excludes: seq<string>) {
    exists i :: 0 <= i < |excludes| && excludes[i] <= member
  }

  /** The archive entries that are extracted, in archive order. */
  function SelectMembers(members: seq<string>, excludes: seq<string>): seq<string>
    decreases |members|
  {
    if members == [] then []
    else
      var m := members[|members| - 1];
      SelectMembers(members[..|members| - 1], excludes) + (if Excluded(m, excludes) then [] else [m])
  }

  /** The `any(...)` test, stopping at the first matching prefix. */
  method MatchesExclude(member: string, excludes: seq<string>) returns (excluded: bool)
    ensures excluded == Excluded(member, excludes)
  {
    excluded := false;
    var k := 0;
    while k < |excludes|
      invariant 0 <= k <= |excludes|
      invariant forall i :: 0 <= i < k ==> !(excludes[i] <= member)
    {
      if excludes[k] <= member {
        excluded := true;
        return;
      }
      k := k + 1;
    }
  }

  /** The loop over `zf.namelist()`. */
  method SelectEntries(members: seq<string>, excludes: seq<string>) returns (selected: seq<string>)
    ensures selected == SelectMembers(members, excludes)
  {
    selected := [];
    var i := 0;
    while i < |members|
      invariant 0 <= i <= |members|
      invariant selected == SelectMembers(members[..i], excludes)
    {
      assert members[..i + 1][..i] == members[..i];
      var excluded := MatchesExclude(members[i], excludes);
      if !excluded {
        selected := selected + [members[i]];
      } else {
        assert selected + [] == selected;
      }
      i := i + 1;
    }
    assert members[..|members|] == members;
  }

  /** An entry is extracted exactly when it is in the archive and starts with
      none of the exclude prefixes. */
  lemma {:induction false} SelectedExactly(members: seq<string>, excludes: seq<string>, m: string)
    ensures m in SelectMembers(members, excludes) <==> m in members && !Excluded(m, excludes)
    decreases |members|
  {
    if members != [] {
      var init := members[..|members| - 1];
      SelectedExactly(init, excludes, m);
      assert members == init + [members[|members| - 1]];
    }
  }

  /** One native archive to unpack and the entries taken from it. */
  datatype Extraction = Extraction(jar: string, entries: seq<string>)

  /** What one library contributes. `archives` lists the entries of each
      readable archive; a present jar that cannot be read is skipped, and so
      is a jar that is not on disk. */
  function LibraryExtraction(c: Config, lib: Library, present: set<string>, archives: map<string, seq<string>>)
    : Result<seq<Extraction>, LaunchError>
  {
    match ExtractionJar(c, lib)
    case Err(e) => Err(e)
    case Ok(jar) =>
      if jar.None? || jar.value !in present || jar.value !in archives then Ok([])
      else Ok([Extraction(jar.value, SelectMembers(archives[jar.value], Excludes(lib)))])
  }

  function ExtractionPlan(c: Config, libs: seq<Library>, present: set<string>, archives: map<string, seq<string>>)
    : Result<seq<Extraction>, LaunchError>
    decreases |libs|
  {
    if libs == [] then Ok([])
    else
      match ExtractionPlan(c, libs[..|libs| - 1], present, archives)
      case Err(e) => Err(e)
      case Ok(earlier) =>
        match LibraryExtraction(c, libs[|libs| - 1], present, archives)
        case Err(e) => Err(e)
        case Ok(more) => Ok(earlier + more)
  }

  lemma {:induction false} ExtractionPlanSnoc(c: Config, libs: seq<Library>, i: nat, present: set<string>, archives: map<string, seq<string>>,
                           earlier: seq<Extraction>)
    requires i < |libs| && ExtractionPlan(c, libs[..i], present, archives) == Ok(earlier)
    ensures ExtractionPlan(c, libs[..i + 1], present, archives) ==
      match LibraryExtraction(c, libs[i], present, archives)
      case Err(e) => Err(e)
      case Ok(more) => Ok(earlier + more)
  {
    assert libs[..i + 1][..i] == libs[..i];
    assert libs[..i + 1][i] == libs[i];
  }

  lemma {:induction false} ExtractionErrorPersists(c: Config, libs: seq<Library>, k: nat, present: set<string>,
                                                   archives: map<string, seq<string>>)
    requires k <= |libs|
    requires ExtractionPlan(c, libs[..k], present, archives).Err?
    ensures ExtractionPlan(c, libs, present, archives) == ExtractionPlan(c, libs[..k], present, archives)
    decreases |libs| - k
  {
    if k < |libs| {
      assert libs[..k + 1][..k] == libs[..k];
      ExtractionErrorPersists(c, libs[..k + 1] + libs[k + 1..], k + 1, present, archives);
      assert libs[..k + 1] + libs[k + 1..] == libs;
    } else {
      assert libs[..k] == libs;
    }
  }

  /** `extract_natives`: the natives directory and the archives unpacked
      into it. */
  method ExtractNatives(c: Config, version: string, libs: seq<Library>, present: set<string>,
                        archives: map<string, seq<string>>)
    returns (nativesDir: string, r: Result<seq<Extraction>, LaunchError>)
    ensures nativesDir == NativesDir(c, version)
    ensures r == ExtractionPlan(c, libs, present, archives)
  {
    nativesDir := PathJoin(PathJoin(c.gameRoot, "natives"), version);
    var done: seq<Extraction> := [];
    var i := 0;
    while i < |libs|
      invariant 0 <= i <= |libs|
      invariant ExtractionPlan(c, libs[..i], present, archives) == Ok(done)
    {
      var lib := libs[i];
      ExtractionPlanSnoc(c, libs, i, present, archives, done);
      i := i + 1;
      var jar := ExtractionJar(c, lib);
      if jar.Err? {
        ExtractionErrorPersists(c, libs, i, present, archives);
        return nativesDir, Err(jar.error);
      }
      if jar.value.Some? && jar.value.value in present && jar.value.value in archives {
        var selected := SelectEntries(archives[jar.value.value], Excludes(lib));
        done := done + [Extraction(jar.value.value, selected)];
      } else {
        assert done + [] == done;
      }
    }
    assert libs[..|libs|] == libs;
    r := Ok(done);
  }

  /** The extractor opens the very jar the planner downloads for a library's
      natives. */
  lemma {:induction false} ExtractorFindsPlannedNative(c: Config, lib: Library, present: set<string>, t: DownloadTask)
    requires Allowed(lib.rules, c.system, map[])
    requires NativeTask(c, lib, present) == Ok([t])
    ensures ExtractionJar(c, lib) == Ok(Some(t.dest))
  {
  }

  /** Where the planner fails on natives without a classifiers record, the
      extractor (defaulting to `{}`) skips the library. */
  lemma {:induction false} ExtractorSkipsNativesWithoutClassifiers(c: Config, lib: Library)
    requires HasNatives(lib) && ClassifiersOf(lib).None?
    ensures ExtractionJar(c, lib) == Ok(None)
  {
  }
}

/** Version descriptors: the parsed JSON of `<versions>/<id>/<id>.json`, the
    merge of a child descriptor over its `inheritsFrom` parent, the loader
    flavour read off the merged main class, and the decision whether a
    launch can find its descriptors at all. */
module Manifest {
  import opened Wrappers
  import opened Text
  import opened Rules

  /** A download record (`downloads.artifact` or one classifier entry). The
      dict is truthy when it holds any of its four keys. */
  datatype Artifact = Artifact(path: Option<string>, url: Option<string>, sha1: Option<string>, size: Option<int>) {
    predicate Truthy() {
      path.Some? || url.Some? || sha1.Some? || size.Some?
    }
  }

  datatype LibraryDownloads = LibraryDownloads(
    artifact: Option<Artifact>,
    classifiers: Option<map<string, Artifact>>,
    path: Option<string>)

  datatype ExtractRules = ExtractRules(exclude: Option<seq<string>>)

  /** One entry of `libraries`. */
  datatype Library = Library(
    name: Option<string>,
    rules: Option<seq<Rule>>,
    downloads: Option<LibraryDownloads>,
    natives: Option<map<string, string>>,
    url: Option<string>,
    extract: Option<ExtractRules>)

  /** The `value` of a conditional argument: a string, a list of strings, or
      absent / of another type (which contributes nothing). */
  datatype ArgValue = StringValue(text: string) | ListValue(items: seq<string>) | NoValue

  /** One entry of `arguments.jvm` or `arguments.game`: a bare string or a
      dict with optional `rules` and a `value`. */
  datatype ArgEntry = Plain(text: string) | Conditional(rules: Option<seq<Rule>>, value: ArgValue)

  datatype Arguments = Arguments(jvm: Option<seq<ArgEntry>>, game: Option<seq<ArgEntry>>)

  datatype AssetIndexRef = AssetIndexRef(id: Option<string>, url: Option<string>)
  datatype ClientDownload = ClientDownload(url: Option<string>)
  datatype VersionDownloads = VersionDownloads(client: Option<ClientDownload>)

  /** A version descriptor; every key may be absent. */
  datatype Descriptor = Descriptor(
    id: Option<string>,
    inheritsFrom: Option<string>,
    mainClass: Option<string>,
    versionType: Option<string>,
    assetIndex: Option<AssetIndexRef>,
    libraries: Option<seq<Library>>,
    minecraftArguments: Option<string>,
    arguments: Option<Arguments>,
    downloads: Option<VersionDownloads>)

  /** `{}`: the parent data when there is no parent descriptor. */
  const EmptyDescriptor := Descriptor(None, None, None, None, None, None, None, None, None)

  /** `d.get("libraries", [])`. */
  function LibrariesOf(d: Descriptor): seq<Library> {
    d.libraries.GetOr([])
  }

  /** `d.get("downloads", {}).get("client", {}).get("url")`. */
  function ClientUrl(d: Descriptor): Option<string> {
    if d.downloads.Some? && d.downloads.value.client.Some? then d.downloads.value.client.value.url else None
  }

  /** `dict.update`: a key the child has wins. */
  function Override<T>(child: Option<T>, parent: Option<T>): Option<T> {
    if child.Some? then child else parent
  }

  /** `parent.copy()`, then `update(child)`, then libraries concatenated
      parent-first and `mainClass` taken from the child, else the parent. */
  function Merge(parent: Descriptor, child: Descriptor): (m: Descriptor)
    ensures child.id.Some? ==> m.id == child.id
    ensures child.inheritsFrom.Some? ==> m.inheritsFrom == child.inheritsFrom
    ensures child.versionType.Some? ==> m.versionType == child.versionType
    ensures child.assetIndex.Some? ==> m.assetIndex == child.assetIndex
    ensures child.minecraftArguments.Some? ==> m.minecraftArguments == child.minecraftArguments
    ensures child.arguments.Some? ==> m.arguments == child.arguments
    ensures child.downloads.Some? ==> m.downloads == child.downloads
    ensures child.id.None? ==> m.id == parent.id
    ensures child.inheritsFrom.None? ==> m.inheritsFrom == parent.inheritsFrom
    ensures child.versionType.None? ==> m.versionType == parent.versionType
    ensures child.assetIndex.None? ==> m.assetIndex == parent.assetIndex
    ensures child.minecraftArguments.None? ==> m.minecraftArguments == parent.minecraftArguments
    ensures child.arguments.None? ==> m.arguments == parent.arguments
    ensures child.downloads.None? ==> m.downloads == parent.downloads
    ensures m.libraries == Some(LibrariesOf(parent) + LibrariesOf(child))
    ensures m.mainClass == if child.mainClass.Some? then child.mainClass else parent.mainClass
  {
    Descriptor(
      Override(child.id, parent.id),
      Override(child.inheritsFrom, parent.inheritsFrom),
      Override(child.mainClass, parent.mainClass),
      Override(child.versionType, parent.versionType),
      Override(child.assetIndex, parent.assetIndex),
      Some(LibrariesOf(parent) + LibrariesOf(child)),
      Override(child.minecraftArguments, parent.minecraftArguments),
      Override(child.arguments, parent.arguments),
      Override(child.downloads, parent.downloads))
  }

  /** The effective library list is every parent library, in order, then
      every child library, in order. */
  lemma {:induction false} MergedLibraryOrder(parent: Descriptor, child: Descriptor)
    ensures var libs := LibrariesOf(Merge(parent, child));
      && |libs| == |LibrariesOf(parent)| + |LibrariesOf(child)|
      && (forall i :: 0 <= i < |LibrariesOf(parent)| ==> libs[i] == LibrariesOf(parent)[i])
      && (forall j :: 0 <= j < |LibrariesOf(child)| ==> libs[|LibrariesOf(parent)| + j] == LibrariesOf(child)[j])
  {
  }

  /** Merging over the empty parent changes nothing but making the library
      list explicit. */
  lemma {:induction false} MergeOverEmptyParent(child: Descriptor)
    ensures Merge(EmptyDescriptor, child) == child.(libraries := Some(LibrariesOf(child)))
  {
    assert [] + LibrariesOf(child) == LibrariesOf(child);
  }

  /** The worked example: child `{mainClass: "A", libraries: [x]}` over
      parent `{mainClass: "B", libraries: [y]}`. */
  lemma {:induction false} MergeExample(x: Library, y: Library)
    ensures var m := Merge(EmptyDescriptor.(mainClass := Some("B"), libraries := Some([y])),
                           EmptyDescriptor.(mainClass := Some("A"), libraries := Some([x])));
      m.mainClass == Some("A") && m.libraries == Some([y, x])
  {
    assert [y] + [x] == [y, x];
  }

  // ---------------------------------------------------------------------
  // Loader flavour.
  // ---------------------------------------------------------------------

  const ForgeBootstrapClass := "cpw.mods.bootstraplauncher.BootstrapLauncher"
  const FabricKnotClass := "net.fabricmc.loader.impl.launch.knot.KnotClient"

  datatype Flavour = ModernForge | ModernFabric | OtherFlavour

  /** The closed flavour tag of a merged descriptor: an exact match on the
      main class; an absent main class is "other". */
  function FlavourOf(merged: Descriptor): (f: Flavour)
    ensures f == ModernForge <==> merged.mainClass == Some(ForgeBootstrapClass)
    ensures f == ModernFabric <==> merged.mainClass == Some(FabricKnotClass)
  {
    match merged.mainClass
    case Some(mc) =>
      if mc == ForgeBootstrapClass then ModernForge
      else if mc == FabricKnotClass then ModernFabric
      else OtherFlavour
    case None => OtherFlavour
  }

  // ---------------------------------------------------------------------
  // Errors a launch attempt can end with.
  // ---------------------------------------------------------------------

  datatype LaunchError =
    | VanillaFetchFailed(version: string)       // FileNotFoundError after a failed manifest fetch
    | MissingInstallation(version: string)      // FileNotFoundError: loader descriptor not installed
    | ParentFetchFailed(parent: string)         // FileNotFoundError for the parent descriptor
    | ClassifiersMissing(library: string)       // AttributeError: natives without classifiers
    | MissingKey(library: string, key: string)  // KeyError on a classifier record
    | RulesOnPlainArgument(argument: string)    // TypeError: a bare string indexed by "rules"
    | NoMainClass                               // "mainClass não encontrado no JSON"
    | UnsupportedManifest                       // neither argument dialect
    | AssetIndexFetchFailed(id: string)         // the asset index download raised
    | AssetIndexUnreadable                      // "Erro ao ler asset_index"
    | DownloadFailed(fileName: string)          // a sequential asset download raised

  // ---------------------------------------------------------------------
  // Finding the descriptors.
  // ---------------------------------------------------------------------

  /** A version id without a loader marker, which the launcher may fetch
      from the upstream manifest. */
  predicate IsVanillaId(version: string) {
    var low := Lower(version);
    !Contains(low, "forge") && !Contains(low, "fabric") && !Contains(low, "optifine")
  }

  /** Whether the child descriptor can be read: it is on disk, or it is a
      vanilla id and fetching it succeeded. `fetched` is the outcome of
      `_ensure_vanilla_json_exists`. */
  function ResolveChild(version: string, onDisk: bool, fetched: bool): (r: Result<(), LaunchError>)
    ensures r.Ok? <==> onDisk || (IsVanillaId(version) && fetched)
    ensures r == Err(MissingInstallation(version)) <==> !onDisk && !IsVanillaId(version)
    ensures r == Err(VanillaFetchFailed(version)) <==> !onDisk && IsVanillaId(version) && !fetched
  {
    if onDisk then Ok(())
    else if IsVanillaId(version) then (if fetched then Ok(()) else Err(VanillaFetchFailed(version)))
    else Err(MissingInstallation(version))
  }

  /** The parent named by a truthy `inheritsFrom` is always fetched as a
      vanilla version when it is not on disk. */
  function ResolveParent(inheritsFrom: Option<string>, onDisk: bool, fetched: bool): (r: Result<(), LaunchError>)
    ensures r.Err? <==> inheritsFrom.Some? && inheritsFrom.value != [] && !onDisk && !fetched
    ensures r.Err? ==> r.error == ParentFetchFailed(inheritsFrom.value)
  {
    if inheritsFrom.Some? && inheritsFrom.value != [] && !onDisk && !fetched then Err(ParentFetchFailed(inheritsFrom.value))
    else Ok(())
  }

  /** A loader-branded id is never fetched: a missing Forge, Fabric or
      OptiFine descriptor always ends the attempt, whatever the network does. */
  lemma {:induction false} LoaderIdNeedsInstallation(version: string, fetched: bool)
    requires Contains(Lower(version), "forge") || Contains(Lower(version), "fabric") || Contains(Lower(version), "optifine")
    ensures ResolveChild(version, false, fetched) == Err(MissingInstallation(version))
  {
  }
}

/** Add-on data shared by the versions store, the permissions card and the
    add-on utilities: the files of a version, keyed by platform. */
module AddonTypes {
  import opened Wrappers

  /** The platform that every file applies to (`OS_ALL` in `core/constants`). */
  const OS_ALL: string := "all"

  datatype PlatformFile = PlatformFile(url: string, hash: string, permissions: seq<string>)

  /** One key of a `platformFiles` object; a `null` file is `None`. */
  datatype PlatformFileEntry = PlatformFileEntry(platform: string, file: Option<PlatformFile>)

  /** A `platformFiles` object, its keys in enumeration order. */
  type PlatformFiles = seq<PlatformFileEntry>

  /** Entry `i` is the first one keyed by `platform`. */
  predicate FirstEntryFor(files: PlatformFiles, platform: string, i: int) {
    0 <= i < |files| && files[i].platform == platform
    && forall j :: 0 <= j < i ==> files[j].platform != platform
  }

  /** `platformFiles[platform]`, with a missing key and a `null` file both `None`. */
  function LookupPlatformFile(files: PlatformFiles, platform: string): (r: Option<PlatformFile>)
    ensures (forall i :: 0 <= i < |files| ==> files[i].platform != platform) ==> r.None?
    ensures forall i :: FirstEntryFor(files, platform, i) ==> r == files[i].file
  {
    if files == [] then None
    else if files[0].platform == platform then files[0].file
    else
      var r := LookupPlatformFile(files[1..], platform);
      assert forall i :: FirstEntryFor(files, platform, i) ==> FirstEntryFor(files[1..], platform, i - 1);
      r
  }
}

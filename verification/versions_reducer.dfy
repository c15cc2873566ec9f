/** The versions store of `src/amo/reducers/versions.js`: versions keyed by
    id (`byId`), and per add-on slug the ids of the loaded page and a loading
    flag (`bySlug`), with its action creators and selectors.

    `createPlatformFiles` (from `core/reducers/addons`) is not part of this
    model: an external version carries the platform files that helper
    derives from it. */
module VersionsReducer {
  import opened Wrappers
  import opened AddonTypes

  type VersionId = int

  datatype License = License(name: string, url: string)

  /** The API's compatibility object, passed through unchanged. */
  datatype Compatibility = Compatibility(value: string)

  /** A version as the API returns it; the license is `null` for a version
      published without one. */
  datatype ExternalVersion = ExternalVersion(
    id: VersionId,
    compatibility: Option<Compatibility>,
    license: Option<License>,
    releaseNotes: Option<string>,
    version: string,
    platformFiles: PlatformFiles)

  /** A version as the store keeps it. */
  datatype AddonVersion = AddonVersion(
    compatibility: Option<Compatibility>,
    platformFiles: PlatformFiles,
    id: VersionId,
    license: License,
    releaseNotes: Option<string>,
    version: string)

  /** The `TypeError` the reducer throws when it reads a property of `null`
      or `undefined`. */
  datatype ReduceError = TypeError

  /** `createInternalVersion`: reading `version.license.name` throws when the
      license is `null`. */
  function CreateInternalVersion(v: ExternalVersion): (r: Result<AddonVersion, ReduceError>)
    ensures r.Err? <==> v.license.None?
    ensures r.Ok? ==> && r.value.id == v.id && r.value.version == v.version && Some(r.value.license) == v.license
                      && r.value.releaseNotes == v.releaseNotes && r.value.compatibility == v.compatibility
                      && r.value.platformFiles == v.platformFiles
  {
    match v.license
    case None => Err(TypeError)
    case Some(license) =>
      Ok(AddonVersion(v.compatibility, v.platformFiles, v.id, License(license.name, license.url), v.releaseNotes, v.version))
  }

  /** What the store knows about one add-on slug; `versionIds` is `null`
      while a fetch is in flight. */
  datatype SlugInfo = SlugInfo(versionIds: Option<seq<VersionId>>, loading: bool)

  datatype VersionsState = VersionsState(byId: map<VersionId, AddonVersion>, bySlug: map<string, SlugInfo>)

  const InitialState: VersionsState := VersionsState(map[], map[])

  /** A page number: the string of a query parameter, or the number literal
      `1` that `getCurrentPage` falls back to. */
  datatype Page = PageText(text: string) | PageNumber(n: int)

  // ---------------------------------------------------------------------
  // Actions
  // ---------------------------------------------------------------------

  datatype ExternalAddon = ExternalAddon(currentVersion: Option<ExternalVersion>)

  /** An entry of a collection: the add-on sits under `addon`. */
  datatype CollectionAddon = CollectionAddon(addon: ExternalAddon)

  /** A search API response (`{ results }`). */
  datatype SearchResponse = SearchResponse(results: seq<ExternalAddon>)

  /** A collection's add-ons response, whose `results` may be missing. */
  datatype CollectionResponse = CollectionResponse(results: Option<seq<CollectionAddon>>)

  datatype Action =
    | FetchVersions(errorHandlerId: string, page: Page, slug: string)
    | LoadVersions(slug: string, versions: seq<ExternalVersion>)
    | LoadAddonsByAuthors(addons: seq<ExternalAddon>)
    | LoadCollectionAddons(entries: seq<CollectionAddon>)
    | LoadCurrentCollection(entries: seq<CollectionAddon>)
    | LoadCurrentCollectionPage(entries: seq<CollectionAddon>)
    | LoadHomeAddons(collections: seq<Option<CollectionResponse>>, featuredExtensions: Option<SearchResponse>,
                     featuredThemes: Option<SearchResponse>, popularExtensions: Option<SearchResponse>)
    | LandingLoaded(featured: Option<SearchResponse>, highlyRated: Option<SearchResponse>,
                    trending: Option<SearchResponse>)
    | OtherAction(actionType: string)

  datatype InvariantError = ErrorHandlerIdRequired | SlugRequired | VersionsRequired | IdRequired

  /** `fetchVersions({errorHandlerId, page, slug})`; `page` defaults to "1". */
  function FetchVersionsAction(errorHandlerId: string, page: Option<Page>, slug: string): (r: Result<Action, InvariantError>)
    ensures r == Err(ErrorHandlerIdRequired) <==> errorHandlerId == ""
    ensures r == Err(SlugRequired) <==> errorHandlerId != "" && slug == ""
    ensures r.Ok? ==> r.value == FetchVersions(errorHandlerId, page.GetOr(PageText("1")), slug)
  {
    if errorHandlerId == "" then Err(ErrorHandlerIdRequired)
    else if slug == "" then Err(SlugRequired)
    else Ok(FetchVersions(errorHandlerId, page.GetOr(PageText("1")), slug))
  }

  /** `loadVersions({slug, versions})` */
  function LoadVersionsAction(slug: string, versions: Option<seq<ExternalVersion>>): (r: Result<Action, InvariantError>)
    ensures r == Err(SlugRequired) <==> slug == ""
    ensures r == Err(VersionsRequired) <==> slug != "" && versions.None?
    ensures r.Ok? ==> r.value == LoadVersions(slug, versions.value)
  {
    if slug == "" then Err(SlugRequired)
    else if versions.None? then Err(VersionsRequired)
    else Ok(LoadVersions(slug, versions.value))
  }

  // ---------------------------------------------------------------------
  // Collecting versions
  // ---------------------------------------------------------------------

  function VersionIds(versions: seq<ExternalVersion>): (ids: seq<VersionId>)
    ensures |ids| == |versions| && forall i :: 0 <= i < |versions| ==> ids[i] == versions[i].id
  {
    seq(|versions|, i requires 0 <= i < |versions| => versions[i].id)
  }

  /** No later version in the list has the same id as version `i`. */
  predicate IsLastWithItsId(versions: seq<ExternalVersion>, i: int) {
    0 <= i < |versions| && forall j :: i < j < |versions| ==> versions[j].id != versions[i].id
  }

  /** The ids of a list of versions. */
  function IdsOf(versions: seq<ExternalVersion>): (ids: set<VersionId>)
    ensures forall i :: 0 <= i < |versions| ==> versions[i].id in ids
    ensures forall id :: id in ids ==> exists i :: 0 <= i < |versions| && versions[i].id == id
  {
    if versions == [] then {}
    else
      var rest := IdsOf(versions[1..]);
      assert forall i :: 1 <= i < |versions| ==> versions[1..][i - 1] == versions[i];
      {versions[0].id} + rest
  }

  /** Some version of the list has a `null` license. */
  predicate SomeLicenseMissing(versions: seq<ExternalVersion>) {
    exists i :: 0 <= i < |versions| && versions[i].license.None?
  }

  /** The `newVersions` object built by the reducer's loops: later versions
      overwrite earlier ones with the same id, and a version without a
      license throws. */
  function Collect(versions: seq<ExternalVersion>): (r: Result<map<VersionId, AddonVersion>, ReduceError>)
    ensures r.Err? <==> SomeLicenseMissing(versions)
    ensures r.Ok? ==> r.value.Keys == IdsOf(versions)
    ensures r.Ok? ==> forall i :: IsLastWithItsId(versions, i) ==> Ok(r.value[versions[i].id]) == CreateInternalVersion(versions[i])
  {
    CollectLoopCollects(versions);
    CollectLoop(versions)
  }

  /** The loops themselves, one version at a time. */
  function CollectLoop(versions: seq<ExternalVersion>): Result<map<VersionId, AddonVersion>, ReduceError> {
    if versions == [] then Ok(map[])
    else
      match CreateInternalVersion(versions[0])
      case Err(e) => Err(e)
      case Ok(first) =>
        match CollectLoop(versions[1..])
        case Err(e) => Err(e)
        case Ok(later) => Ok(map[versions[0].id := first] + later)
  }

  lemma {:induction false} CollectLoopCollects(versions: seq<ExternalVersion>)
    ensures var r := CollectLoop(versions);
            && (r.Err? <==> SomeLicenseMissing(versions))
            && (r.Ok? ==> r.value.Keys == IdsOf(versions))
            && (r.Ok? ==> forall i :: IsLastWithItsId(versions, i) ==> Ok(r.value[versions[i].id]) == CreateInternalVersion(versions[i]))
    decreases |versions|
  {
    if versions != [] {
      CollectLoopCollects(versions[1..]);
      assert forall i :: 1 <= i < |versions| ==> versions[1..][i - 1] == versions[i];
      match CreateInternalVersion(versions[0])
      case Err(_) =>
      case Ok(first) =>
        match CollectLoop(versions[1..])
        case Err(_) =>
        case Ok(later) =>
          var m := map[versions[0].id := first] + later;
          forall i | IsLastWithItsId(versions, i)
            ensures Ok(m[versions[i].id]) == CreateInternalVersion(versions[i])
          {
            if i == 0 {
              assert versions[0].id !in later;
            } else {
              assert IsLastWithItsId(versions[1..], i - 1);
            }
          }
    }
  }

  /** `before` spread with the versions collected from `versions`: their ids
      are added, other ids keep their version, and a repeated id keeps its
      last version. */
  ghost predicate Stores(before: map<VersionId, AddonVersion>, after: map<VersionId, AddonVersion>, versions: seq<ExternalVersion>) {
    && (forall id :: id in after <==> id in before || id in IdsOf(versions))
    && (forall id :: id in before && id !in IdsOf(versions) ==> after[id] == before[id])
    && (forall i :: IsLastWithItsId(versions, i) ==> Ok(after[versions[i].id]) == CreateInternalVersion(versions[i]))
  }

  /** The current versions of the add-ons that have one, in order. */
  function CurrentVersions(addons: seq<ExternalAddon>): (vs: seq<ExternalVersion>)
    ensures forall v :: v in vs <==> exists i :: 0 <= i < |addons| && addons[i].currentVersion == Some(v)
  {
    CurrentVersionsLoopMembers(addons);
    CurrentVersionsLoop(addons)
  }

  /** The loop itself, one add-on at a time. */
  function CurrentVersionsLoop(addons: seq<ExternalAddon>): seq<ExternalVersion> {
    if addons == [] then []
    else
      var rest := CurrentVersionsLoop(addons[1..]);
      match addons[0].currentVersion
      case Some(v) => [v] + rest
      case None => rest
  }

  lemma {:induction false} CurrentVersionsLoopMembers(addons: seq<ExternalAddon>)
    ensures forall v :: v in CurrentVersionsLoop(addons) <==> exists i :: 0 <= i < |addons| && addons[i].currentVersion == Some(v)
    decreases |addons|
  {
    if addons != [] {
      CurrentVersionsLoopMembers(addons[1..]);
      assert forall i :: 1 <= i < |addons| ==> addons[i] == addons[1..][i - 1];
    }
  }

  /** The list keeps the add-ons' order: a list of add-ons gives the
      versions of its parts one after the other. */
  lemma CurrentVersionsKeepOrder(a: seq<ExternalAddon>, b: seq<ExternalAddon>)
    ensures CurrentVersions(a + b) == CurrentVersions(a) + CurrentVersions(b)
  {
    CurrentVersionsLoopKeepsOrder(a, b);
  }

  lemma {:induction false} CurrentVersionsLoopKeepsOrder(a: seq<ExternalAddon>, b: seq<ExternalAddon>)
    ensures CurrentVersionsLoop(a + b) == CurrentVersionsLoop(a) + CurrentVersionsLoop(b)
    decreases |a|
  {
    if a == [] {
      assert a + b == b;
      assert [] + CurrentVersionsLoop(b) == CurrentVersionsLoop(b);
    } else {
      var ab := a + b;
      assert ab[0] == a[0];
      assert ab[1..] == a[1..] + b;
      CurrentVersionsLoopKeepsOrder(a[1..], b);
      var rest := CurrentVersionsLoop(a[1..]);
      var rb := CurrentVersionsLoop(b);
      assert CurrentVersionsLoop(ab[1..]) == rest + rb;
      if a[0].currentVersion.Some? {
        var v := a[0].currentVersion.value;
        assert [v] + (rest + rb) == [v] + rest + rb;
      }
    }
  }

  /** A single add-on gives its current version, if it has one. */
  lemma CurrentVersionsOfOne(a: ExternalAddon)
    ensures CurrentVersions([a]) == if a.currentVersion.Some? then [a.currentVersion.value] else []
  {
    assert [a][0] == a && [a][1..] == [];
    assert CurrentVersionsLoop([]) == [];
    if a.currentVersion.Some? {
      assert [a.currentVersion.value] + [] == [a.currentVersion.value];
    }
  }

  function Unwrap(entries: seq<CollectionAddon>): (addons: seq<ExternalAddon>)
    ensures |addons| == |entries| && forall i :: 0 <= i < |entries| ==> addons[i] == entries[i].addon
  {
    seq(|entries|, i requires 0 <= i < |entries| => entries[i].addon)
  }

  /** A present response lists an add-on whose current version is `v`. */
  predicate OnShelf(shelf: Option<SearchResponse>, v: ExternalVersion) {
    shelf.Some? && exists i :: 0 <= i < |shelf.value.results| && shelf.value.results[i].currentVersion == Some(v)
  }

  /** The current versions of the add-ons of every present response, shelf
      after shelf. */
  function ShelfVersions(shelves: seq<Option<SearchResponse>>): (r: seq<ExternalVersion>)
    ensures forall v :: v in r <==> exists k :: 0 <= k < |shelves| && OnShelf(shelves[k], v)
  {
    ShelfVersionsLoopMembers(shelves);
    ShelfVersionsLoop(shelves)
  }

  /** The versions of one shelf: none for an absent response. */
  function ShelfOf(shelf: Option<SearchResponse>): seq<ExternalVersion> {
    match shelf case Some(r) => CurrentVersionsLoop(r.results) case None => []
  }

  /** The loop itself, one shelf at a time. */
  function ShelfVersionsLoop(shelves: seq<Option<SearchResponse>>): seq<ExternalVersion> {
    if shelves == [] then [] else ShelfOf(shelves[0]) + ShelfVersionsLoop(shelves[1..])
  }

  lemma {:induction false} ShelfVersionsLoopMembers(shelves: seq<Option<SearchResponse>>)
    ensures forall v :: v in ShelfVersionsLoop(shelves) <==> exists k :: 0 <= k < |shelves| && OnShelf(shelves[k], v)
    decreases |shelves|
  {
    if shelves != [] {
      ShelfVersionsLoopMembers(shelves[1..]);
      if shelves[0].Some? {
        CurrentVersionsLoopMembers(shelves[0].value.results);
      }
      assert forall k :: 1 <= k < |shelves| ==> shelves[k] == shelves[1..][k - 1];
    }
  }

  /** Shelves are read in order: a list of shelves gives the versions of its
      parts one after the other. */
  lemma ShelfVersionsKeepOrder(a: seq<Option<SearchResponse>>, b: seq<Option<SearchResponse>>)
    ensures ShelfVersions(a + b) == ShelfVersions(a) + ShelfVersions(b)
  {
    ShelfVersionsLoopKeepsOrder(a, b);
  }

  lemma {:induction false} ShelfVersionsLoopKeepsOrder(a: seq<Option<SearchResponse>>, b: seq<Option<SearchResponse>>)
    ensures ShelfVersionsLoop(a + b) == ShelfVersionsLoop(a) + ShelfVersionsLoop(b)
    decreases |a|
  {
    if a == [] {
      assert a + b == b;
      assert [] + ShelfVersionsLoop(b) == ShelfVersionsLoop(b);
    } else {
      var ab := a + b;
      assert ab[0] == a[0];
      assert ab[1..] == a[1..] + b;
      ShelfVersionsLoopKeepsOrder(a[1..], b);
      var head := ShelfOf(a[0]);
      assert head + (ShelfVersionsLoop(a[1..]) + ShelfVersionsLoop(b))
             == (head + ShelfVersionsLoop(a[1..])) + ShelfVersionsLoop(b);
    }
  }

  /** A single shelf gives its add-ons' current versions in order, and an
      absent one gives none. */
  lemma ShelfVersionsOfOne(shelf: Option<SearchResponse>)
    ensures ShelfVersions([shelf]) == if shelf.Some? then CurrentVersions(shelf.value.results) else []
  {
    assert [shelf][0] == shelf && [shelf][1..] == [];
    assert ShelfVersionsLoop([]) == [];
    assert ShelfOf(shelf) + [] == ShelfOf(shelf);
  }

  /** Some present collection with results has an entry whose add-on has no
      current version. */
  predicate SomeEntryLacksVersion(collections: seq<Option<CollectionResponse>>) {
    exists i, j :: 0 <= i < |collections| && collections[i].Some? && collections[i].value.results.Some?
                   && 0 <= j < |collections[i].value.results.value|
                   && collections[i].value.results.value[j].addon.currentVersion.None?
  }

  /** Some present collection with results has an entry whose add-on's
      current version is `v`. */
  predicate InCollections(collections: seq<Option<CollectionResponse>>, v: ExternalVersion) {
    exists i, j :: 0 <= i < |collections| && collections[i].Some? && collections[i].value.results.Some?
                   && 0 <= j < |collections[i].value.results.value|
                   && collections[i].value.results.value[j].addon.currentVersion == Some(v)
  }

  /** The entries of one collection response, `[]` when it or its results
      are missing. */
  function EntriesOf(collection: Option<CollectionResponse>): seq<CollectionAddon> {
    match collection
    case Some(CollectionResponse(Some(entries))) => entries
    case _ => []
  }

  /** The current versions of the entries of every collection with results;
      `None` when an entry has no current version (the reducer then throws a
      TypeError reading a property of `undefined`). */
  function HomeCollectionVersions(collections: seq<Option<CollectionResponse>>): (r: Option<seq<ExternalVersion>>)
    ensures r.None? <==> SomeEntryLacksVersion(collections)
    ensures r.Some? ==> forall v :: v in r.value <==> InCollections(collections, v)
  {
    if collections == [] then Some([])
    else
      var rest := HomeCollectionVersions(collections[1..]);
      assert forall i :: 1 <= i < |collections| ==> collections[i] == collections[1..][i - 1];
      var entries := EntriesOf(collections[0]);
      if forall j :: 0 <= j < |entries| ==> entries[j].addon.currentVersion.Some? then
        var here := seq(|entries|, j requires 0 <= j < |entries| => entries[j].addon.currentVersion.value);
        assert forall v :: v in here <==> exists j :: 0 <= j < |entries| && entries[j].addon.currentVersion == Some(v) by {
          forall v | v in here ensures exists j :: 0 <= j < |entries| && entries[j].addon.currentVersion == Some(v) {
            var j :| 0 <= j < |here| && here[j] == v;
            assert entries[j].addon.currentVersion == Some(v);
          }
          forall v, j | 0 <= j < |entries| && entries[j].addon.currentVersion == Some(v) ensures v in here {
            assert here[j] == v;
          }
        }
        if rest.Some? then Some(here + rest.value) else None
      else
        None
  }

  // ---------------------------------------------------------------------
  // Reducer
  // ---------------------------------------------------------------------

  predicate IsAddonAction(action: Action) {
    action.LoadAddonsByAuthors? || action.LoadCollectionAddons? || action.LoadCurrentCollection?
    || action.LoadCurrentCollectionPage? || action.LoadHomeAddons? || action.LandingLoaded?
  }

  /** Some add-on the action carries has current version `v`. */
  predicate Brings(action: Action, v: ExternalVersion) {
    match action
    case LoadAddonsByAuthors(addons) =>
      exists i :: 0 <= i < |addons| && addons[i].currentVersion == Some(v)
    case LoadCollectionAddons(entries) =>
      exists i :: 0 <= i < |entries| && entries[i].addon.currentVersion == Some(v)
    case LoadCurrentCollection(entries) =>
      exists i :: 0 <= i < |entries| && entries[i].addon.currentVersion == Some(v)
    case LoadCurrentCollectionPage(entries) =>
      exists i :: 0 <= i < |entries| && entries[i].addon.currentVersion == Some(v)
    case LoadHomeAddons(collections, featuredExtensions, featuredThemes, popularExtensions) =>
      OnShelf(featuredExtensions, v) || OnShelf(featuredThemes, v) || OnShelf(popularExtensions, v)
      || InCollections(collections, v)
    case LandingLoaded(featured, highlyRated, trending) =>
      OnShelf(featured, v) || OnShelf(highlyRated, v) || OnShelf(trending, v)
    case _ => false
  }

  /** The current versions the add-on loops visit, in loop order; `None`
      when a home collection entry has no current version. */
  function ActionVersions(action: Action): (r: Option<seq<ExternalVersion>>)
    requires IsAddonAction(action)
    ensures r.None? <==> action.LoadHomeAddons? && SomeEntryLacksVersion(action.collections)
    ensures r.Some? ==> forall v :: v in r.value <==> Brings(action, v)
  {
    match action
    case LoadAddonsByAuthors(addons) => Some(CurrentVersions(addons))
    case LoadCollectionAddons(entries) => Some(CurrentVersions(Unwrap(entries)))
    case LoadCurrentCollection(entries) => Some(CurrentVersions(Unwrap(entries)))
    case LoadCurrentCollectionPage(entries) => Some(CurrentVersions(Unwrap(entries)))
    case LoadHomeAddons(collections, featuredExtensions, featuredThemes, popularExtensions) =>
      var shelves := [featuredExtensions, featuredThemes, popularExtensions];
      var fromShelves := ShelfVersions(shelves);
      assert forall v :: v in fromShelves <==> OnShelf(featuredExtensions, v) || OnShelf(featuredThemes, v) || OnShelf(popularExtensions, v) by {
        forall v ensures v in fromShelves <==> OnShelf(featuredExtensions, v) || OnShelf(featuredThemes, v) || OnShelf(popularExtensions, v) {
          if OnShelf(featuredExtensions, v) { assert OnShelf(shelves[0], v); }
          if OnShelf(featuredThemes, v) { assert OnShelf(shelves[1], v); }
          if OnShelf(popularExtensions, v) { assert OnShelf(shelves[2], v); }
        }
      }
      (match HomeCollectionVersions(collections)
       case Some(fromCollections) => Some(fromShelves + fromCollections)
       case None => None)
    case LandingLoaded(featured, highlyRated, trending) =>
      var shelves := [featured, highlyRated, trending];
      assert forall v :: v in ShelfVersions(shelves) <==> OnShelf(featured, v) || OnShelf(highlyRated, v) || OnShelf(trending, v) by {
        forall v ensures v in ShelfVersions(shelves) <==> OnShelf(featured, v) || OnShelf(highlyRated, v) || OnShelf(trending, v) {
          if OnShelf(featured, v) { assert OnShelf(shelves[0], v); }
          if OnShelf(highlyRated, v) { assert OnShelf(shelves[1], v); }
          if OnShelf(trending, v) { assert OnShelf(shelves[2], v); }
        }
      }
      Some(ShelfVersions(shelves))
  }

  function Reduce(state: VersionsState, action: Action): (r: Result<VersionsState, ReduceError>)
    // FETCH_VERSIONS: the slug is loading, with no ids; nothing else changes
    ensures action.FetchVersions? ==>
              r == Ok(VersionsState(state.byId, state.bySlug[action.slug := SlugInfo(None, true)]))
    // LOAD_VERSIONS: the slug holds the ids in order; byId gains the versions and keeps the rest
    ensures action.LoadVersions? ==>
              && (r.Err? <==> SomeLicenseMissing(action.versions))
              && (r.Ok? ==> r.value.bySlug == state.bySlug[action.slug := SlugInfo(Some(VersionIds(action.versions)), false)]
                            && Stores(state.byId, r.value.byId, action.versions))
    // add-on-bearing actions only add to byId
    ensures IsAddonAction(action) ==>
              && (r.Err? <==> ActionVersions(action).None? || SomeLicenseMissing(ActionVersions(action).value))
              && (r.Ok? ==> r.value.bySlug == state.bySlug && Stores(state.byId, r.value.byId, ActionVersions(action).value))
    ensures action.OtherAction? ==> r == Ok(state)
  {
    match action
    case FetchVersions(_, _, slug) =>
      Ok(state.(bySlug := state.bySlug[slug := SlugInfo(None, true)]))
    case LoadVersions(slug, versions) =>
      (match Collect(versions)
       case Ok(collected) =>
         Ok(VersionsState(state.byId + collected, state.bySlug[slug := SlugInfo(Some(VersionIds(versions)), false)]))
       case Err(e) => Err(e))
    case OtherAction(_) =>
      Ok(state)
    case _ =>
      match ActionVersions(action)
      case Some(vs) =>
        (match Collect(vs)
         case Ok(collected) => Ok(state.(byId := state.byId + collected))
         case Err(e) => Err(e))
      case None => Err(TypeError)
  }

  // ---------------------------------------------------------------------
  // Selectors
  // ---------------------------------------------------------------------

  /** `getVersionsBySlug({slug, state})`: an empty slug fails the
      `invariant`; `null` for an unknown slug or while the ids are `null`;
      otherwise the stored version of each id in order (`None` for an id
      missing from `byId`). */
  function GetVersionsBySlug(state: VersionsState, slug: string): (r: Result<Option<seq<Option<AddonVersion>>>, InvariantError>)
    ensures r.Err? <==> slug == ""
    ensures r.Err? ==> r.error == SlugRequired
    ensures r.Ok? ==> (r.value.None? <==> slug !in state.bySlug || state.bySlug[slug].versionIds.None?)
    ensures r.Ok? && r.value.Some? ==>
              var ids := state.bySlug[slug].versionIds.value;
              |r.value.value| == |ids| && forall i :: 0 <= i < |ids| ==> r.value.value[i] == Lookup(state, ids[i])
  {
    if slug == "" then Err(SlugRequired)
    else if slug in state.bySlug && state.bySlug[slug].versionIds.Some? then
      var ids := state.bySlug[slug].versionIds.value;
      Ok(Some(seq(|ids|, i requires 0 <= i < |ids| => if ids[i] in state.byId then Some(state.byId[ids[i]]) else None)))
    else Ok(None)
  }

  /** `state.byId[id]`, `undefined` as `None`. */
  function Lookup(state: VersionsState, id: VersionId): Option<AddonVersion> {
    if id in state.byId then Some(state.byId[id]) else None
  }

  /** `getLoadingBySlug({slug, state})`: an empty slug fails the
      `invariant`; false for an unknown slug. */
  function GetLoadingBySlug(state: VersionsState, slug: string): (r: Result<bool, InvariantError>)
    ensures r.Err? <==> slug == ""
    ensures r.Err? ==> r.error == SlugRequired
    ensures r.Ok? ==> (r.value <==> slug in state.bySlug && state.bySlug[slug].loading)
  {
    if slug == "" then Err(SlugRequired)
    else Ok(slug in state.bySlug && state.bySlug[slug].loading)
  }

  /** `getVersionById({id, state})`: null for an unknown id. The id 0 is
      falsy and fails the `invariant`. */
  function GetVersionById(state: VersionsState, id: VersionId): (r: Result<Option<AddonVersion>, InvariantError>)
    ensures r.Err? <==> id == 0
    ensures r.Err? ==> r.error == IdRequired
    ensures r.Ok? ==> (r.value.None? <==> id !in state.byId)
    ensures r.Ok? && r.value.Some? ==> r.value.value == state.byId[id]
  {
    if id == 0 then Err(IdRequired) else Ok(Lookup(state, id))
  }

  // ---------------------------------------------------------------------
  // Properties
  // ---------------------------------------------------------------------

  /** Every id listed for a slug has a stored version. */
  predicate Consistent(state: VersionsState) {
    forall slug :: slug in state.bySlug && state.bySlug[slug].versionIds.Some? ==>
      forall i :: 0 <= i < |state.bySlug[slug].versionIds.value| ==>
        state.bySlug[slug].versionIds.value[i] in state.byId
  }

  lemma InitialStateIsConsistent()
    ensures Consistent(InitialState)
    ensures GetLoadingBySlug(InitialState, "some-slug") == Ok(false)
    ensures GetVersionsBySlug(InitialState, "some-slug") == Ok(None)
  {
  }

  /** Every action keeps the store consistent, so `getVersionsBySlug` never
      returns a hole. */
  lemma ReducePreservesConsistency(state: VersionsState, action: Action)
    requires Consistent(state)
    requires Reduce(state, action).Ok?
    ensures Consistent(Reduce(state, action).value)
  {
    var s' := Reduce(state, action).value;
    if action.LoadVersions? {
      forall slug | slug in s'.bySlug && s'.bySlug[slug].versionIds.Some?
        ensures forall i :: 0 <= i < |s'.bySlug[slug].versionIds.value| ==> s'.bySlug[slug].versionIds.value[i] in s'.byId
      {
        if slug == action.slug {
          var ids := VersionIds(action.versions);
          assert s'.bySlug[slug].versionIds.value == ids;
          forall i | 0 <= i < |ids| ensures ids[i] in s'.byId {
            assert ids[i] in IdsOf(action.versions);
          }
        }
      }
    }
  }

  /** Loading licensed versions and reading them back by slug gives the
      converted versions in the order they were loaded (ids distinct). */
  lemma LoadThenGetRoundTrip(state: VersionsState, slug: string, versions: seq<ExternalVersion>)
    requires slug != ""
    requires forall i :: 0 <= i < |versions| ==> versions[i].license.Some?
    requires forall i, j :: 0 <= i < j < |versions| ==> versions[i].id != versions[j].id
    ensures Reduce(state, LoadVersions(slug, versions)).Ok?
    ensures var s' := Reduce(state, LoadVersions(slug, versions)).value;
            && GetVersionsBySlug(s', slug)
               == Ok(Some(seq(|versions|, i requires 0 <= i < |versions| => Some(CreateInternalVersion(versions[i]).value))))
            && GetLoadingBySlug(s', slug) == Ok(false)
  {
    assert !SomeLicenseMissing(versions);
    var loaded := Collect(versions).value;
    var s' := VersionsState(state.byId + loaded, state.bySlug[slug := SlugInfo(Some(VersionIds(versions)), false)]);
    assert Reduce(state, LoadVersions(slug, versions)) == Ok(s');
    LoadedIdsLookUp(s', versions, loaded);
    var got := GetVersionsBySlug(s', slug).value.value;
    var want := seq(|versions|, i requires 0 <= i < |versions| => Some(CreateInternalVersion(versions[i]).value));
    assert |got| == |want|;
    forall i | 0 <= i < |versions| ensures got[i] == want[i] {
      assert got[i] == Lookup(s', versions[i].id);
    }
    assert got == want;
  }

  /** Distinct loaded ids, each stored by the load, look up to their
      versions. */
  lemma LoadedIdsLookUp(s': VersionsState, versions: seq<ExternalVersion>, loaded: map<VersionId, AddonVersion>)
    requires forall i, j :: 0 <= i < j < |versions| ==> versions[i].id != versions[j].id
    requires loaded.Keys == IdsOf(versions)
    requires forall i :: IsLastWithItsId(versions, i) ==> Ok(loaded[versions[i].id]) == CreateInternalVersion(versions[i])
    requires forall id :: id in loaded ==> id in s'.byId && s'.byId[id] == loaded[id]
    ensures forall i :: 0 <= i < |versions| ==>
              Lookup(s', versions[i].id).Some? && Ok(Lookup(s', versions[i].id).value) == CreateInternalVersion(versions[i])
  {
    forall i | 0 <= i < |versions|
      ensures Lookup(s', versions[i].id).Some? && Ok(Lookup(s', versions[i].id).value) == CreateInternalVersion(versions[i])
    {
      assert IsLastWithItsId(versions, i);
      assert versions[i].id in loaded;
    }
  }

  /** A version without a license makes the load throw. */
  lemma UnlicensedVersionFailsTheLoad(state: VersionsState, slug: string, v: ExternalVersion)
    requires v.license.None?
    ensures Reduce(state, LoadVersions(slug, [v])) == Err(TypeError)
  {
    assert [v][0].license.None?;
  }

  /** A fetch marks the slug loading and hides its versions until they load. */
  lemma FetchHidesVersions(state: VersionsState, errorHandlerId: string, page: Page, slug: string)
    requires slug != ""
    ensures var s' := Reduce(state, FetchVersions(errorHandlerId, page, slug)).value;
            GetVersionsBySlug(s', slug) == Ok(None) && GetLoadingBySlug(s', slug) == Ok(true)
  {
  }

  /** When two add-ons by the authors carry versions with the same id, the
      later add-on's version is the one stored. */
  lemma LaterAddonWins(state: VersionsState, addons: seq<ExternalAddon>, i: nat)
    requires i < |addons| && addons[i].currentVersion.Some?
    requires forall k :: 0 <= k < |addons| && addons[k].currentVersion.Some? ==> addons[k].currentVersion.value.license.Some?
    requires forall k :: i < k < |addons| && addons[k].currentVersion.Some? ==>
                          addons[k].currentVersion.value.id != addons[i].currentVersion.value.id
    ensures Reduce(state, LoadAddonsByAuthors(addons)).Ok?
    ensures var v := addons[i].currentVersion.value;
            Ok(Reduce(state, LoadAddonsByAuthors(addons)).value.byId[v.id]) == CreateInternalVersion(v)
  {
    var vs := CurrentVersions(addons);
    assert !SomeLicenseMissing(vs) by {
      forall j | 0 <= j < |vs| ensures vs[j].license.Some? {
        assert vs[j] in vs;
      }
    }
    var k := LastCurrentVersion(addons, i);
    assert IsLastWithItsId(vs, k);
  }

  /** The position in the list of current versions of the version of
      add-on `i`, which no later add-on repeats. */
  lemma LastCurrentVersion(addons: seq<ExternalAddon>, i: nat) returns (k: nat)
    requires i < |addons| && addons[i].currentVersion.Some?
    requires forall k :: i < k < |addons| && addons[k].currentVersion.Some? ==>
                          addons[k].currentVersion.value.id != addons[i].currentVersion.value.id
    ensures var vs := CurrentVersions(addons);
            k < |vs| && vs[k] == addons[i].currentVersion.value && IsLastWithItsId(vs, k)
  {
    var v := addons[i].currentVersion.value;
    var vs := CurrentVersions(addons);
    var before, after := addons[..i], addons[i + 1..];
    assert addons == before + [addons[i]] + after;
    CurrentVersionsKeepOrder(before + [addons[i]], after);
    CurrentVersionsKeepOrder(before, [addons[i]]);
    CurrentVersionsOfOne(addons[i]);
    k := |CurrentVersions(before)|;
    var rest := CurrentVersions(after);
    assert vs == CurrentVersions(before) + [v] + rest;
    assert vs[k] == v;
    forall j | k < j < |vs| ensures vs[j].id != v.id {
      var w := vs[j];
      assert w == rest[j - k - 1];
      assert w in rest;
      var m :| 0 <= m < |after| && after[m].currentVersion == Some(w);
      assert addons[i + 1 + m] == after[m];
    }
  }

  /** Landing shelves skip add-ons without a current version. */
  lemma ShelfAddonWithoutCurrentVersionIsSkipped(state: VersionsState)
    ensures Reduce(state, LandingLoaded(Some(SearchResponse([ExternalAddon(None)])), None, None)) == Ok(state)
  {
    assert CurrentVersions([ExternalAddon(None)]) == [];
    assert ShelfVersions([None]) == [];
    assert ShelfVersions([None, None]) == [];
    assert ShelfVersions([Some(SearchResponse([ExternalAddon(None)])), None, None]) == [];
    assert Collect([]) == Ok(map[]);
    assert state.byId + map[] == state.byId;
  }

  /** The home page's collection entries are read unconditionally: one
      without a current version makes the reducer fail. */
  lemma HomeCollectionEntryWithoutCurrentVersionFails(state: VersionsState)
    ensures Reduce(state, LoadHomeAddons([Some(CollectionResponse(Some([CollectionAddon(ExternalAddon(None))])))],
                                         None, None, None)) == Err(TypeError)
  {
    var collections := [Some(CollectionResponse(Some([CollectionAddon(ExternalAddon(None))])))];
    assert collections[0].value.results.value[0].addon.currentVersion.None?;
    assert SomeEntryLacksVersion(collections);
  }

  /** The selectors' `invariant`s reject an empty slug and the id 0. */
  lemma SelectorsRejectMissingKeys(state: VersionsState)
    ensures GetVersionsBySlug(state, "") == Err(SlugRequired)
    ensures GetLoadingBySlug(state, "") == Err(SlugRequired)
    ensures GetVersionById(state, 0) == Err(IdRequired)
  {
  }
}

# addons-frontend core, modelled in Dafny

This project models part of the add-on marketplace front end (addons-frontend):

- **The A/B experiment machinery.** It covers:
  - the weighted variant allocator `getVariant`;
  - the feature-flag lookup;
  - the wrap-time checks of `withExperiment`;
  - the cookie reconciliation the wrapper performs when it is constructed;
  - the props it injects into the wrapped component;
  - the experiments reducer;
  - the two experiment configurations.
- **The versions store.** It covers the action creators, the reducer (including the add-on-bearing actions that feed it current versions) and its selectors.
- **The version history page (`AddonVersions`).** It covers which fetches the page dispatches, its error-handler id, its URLs, and what it renders.
- **The permissions card.** It covers how a version's permissions are classified, summarised, collapsed, ordered and filtered into the list shown on an add-on page.
  The test the last loop applies before showing a permission is a parameter, the gate, given as the set of names it lets through. The code's truthiness test and the corrected display-string test are two such sets.
- **The add-on utilities.** These are the install error messages, the file hash of an install URL, `removeUndefinedProps` and the schema.org JSON-LD of an add-on.
- **Small pieces:**
  - the category results link;
  - the "Download Firefox" button;
  - the confirm button's state machine;
  - the UI kit's `Button`.

Each source file is one Dafny module, with three shared modules:
- `Wrappers` holds `Option`, which stands for `null` or `undefined`, and `Result`, which stands for a value or a thrown error.
- `Text` holds string prefixes, JavaScript truthiness of strings and the code-unit order of `Array.prototype.sort`.
- `AddonTypes` holds a version's platform files.

Operations are pure functions.
- Thrown errors and failed `invariant`s are error values.
- Cookie writes, analytics events and dispatched actions are returned values.
- Cookies, configuration flags and random draws are inputs.

Facts about the code that shape the model:
- **No exclusion step and no pending variant.** `src/amo/withExperiment.js` never calls `shouldExcludeUser` and has no slot that hands a server-drawn variant to the client. Its constructor reads the cookie and the stored server cookies, not the experiments reducer.
- **The experiments reducer is a map.** `src/amo/reducers/experiments.js` keeps a map from experiment id to variant.
- **`variants` is only checked for presence.** An empty array is truthy and passes `invariant(defaultVariants)`.
- **A draw of 0 throws.** `Math.random` returns values in [0, 1). A draw of 0 lies in no interval (running total, running total + percentage], so it throws "Unable to allocate".

## Model

| member | source | states |
|---|---|---|
| WithExperiment.Allocate | src/amo/withExperiment.js:98-110 | The allocation loop answers the first variant whose interval (running total, running total + percentage] holds the draw, and none when no interval holds it |
| WithExperiment.GetVariant | src/amo/withExperiment.js:86-111 | Fails with "sum must be 1" exactly when the percentages do not sum to 1. Fails with "unable to allocate" exactly when they do but no interval holds the draw. Otherwise returns the first variant whose interval holds the draw |
| WithExperiment.PartialSumMonotone | src/amo/withExperiment.js:99-106 | With non-negative percentages the running total never decreases |
| WithExperiment.SomeIntervalCovers | src/amo/withExperiment.js:101-107 | A draw above a running total and at most the full sum falls in some later interval |
| WithExperiment.WellFormedVariantsAlwaysAllocate | src/amo/withExperiment.js:93-110 | Non-negative percentages summing to 1 allocate every draw in (0, 1] to one of the listed variants, so the throw at line 110 is unreachable for such draws |
| WithExperiment.FirstRunningTotalReachingDraw | src/amo/withExperiment.js:101-105 | The chosen variant is the first whose running total reaches the draw |
| WithExperiment.NonPositiveDrawIsUnallocated | src/amo/withExperiment.js:87-110 | A draw of 0 or less, which `Math.random` can return, makes a well-formed allocator throw "Unable to allocate" |
| WithExperiment.AllocationExamples | src/amo/withExperiment.js:86-111 | With 0.1/0.2/0.7 weights, draws land on the expected variants. Two variants of 1/3 each (summing to 2/3) or of 2/3 each (summing to 4/3) are rejected |
| WithExperiment.EnabledOnlyWhenExactlyTrue | src/amo/withExperiment.js:113-121 | An experiment is enabled exactly when its configured flag is the boolean `true`; a missing flag disables it |
| WithExperiment.SearchIdPattern | src/amo/withExperiment.js:61 | The search answers whether the unanchored `\d{8}_.+` matches at or after the start position |
| WithExperiment.Wrap | src/amo/withExperiment.js:145-161 | The id must be present and match the pattern, and the variants must be present, checked in that order. An absent cookie config becomes 30 days, path "/", secure |
| WithExperiment.WrapExamples | src/amo/withExperiment.js:156-161 | A malformed id and a missing variant list are rejected; an empty variant list is accepted |
| WithExperiment.StoredCookiesIncludeExperiment | src/amo/withExperiment.js:250-261 | True exactly when some stored cookie carries the experiment cookie's name and lists the id |
| WithExperiment.Construct | src/amo/withExperiment.js:174-236 | Draws exactly when the experiment is enabled and listed in neither the cookie nor the stored cookies. Drops disabled entries and adds the drawn variant, changing nothing else. Sends the enrollment event exactly when the drawn variant is not `notInExperiment`. Writes the cookie exactly when something was dropped or drawn. Fails only with the allocator's error |
| WithExperiment.Render | src/amo/withExperiment.js:263-281 | `variant` is the cookie's entry when the experiment is enabled and listed, else null. `isUserInExperiment` holds exactly when the variant is present and not `notInExperiment` |
| WithExperiment.ReconcileIsIdempotent | src/amo/withExperiment.js:196-235 | Constructing again on the cookie the first construction left behind draws nothing, sends nothing and writes nothing, whatever the new draw |
| WithExperiment.RegisteredUserCausesNoWrite | src/amo/withExperiment.js:207-235 | A cookie that already lists this experiment and only enabled ones causes no write and no event |
| WithExperiment.RenderAfterEnrollment | src/amo/withExperiment.js:211-213 | After an enrollment the next render exposes the drawn variant, and reports the user in the experiment exactly when an event was sent |
| WithExperiment.DisabledExperimentIsInert | src/amo/withExperiment.js:187-209 | A disabled experiment never draws, never sends an event, never keeps its id in the cookie, and renders with no variant |
| WithExperiment.CleanupExample | src/amo/withExperiment.js:198-205 | With experiment A disabled and B enabled and registered, the cookie is rewritten with B's entry only |
| ExperimentsReducer.InitialState | src/amo/reducers/experiments.js:9 | The initial state is empty |
| ExperimentsReducer.StoreExperimentVariant | src/amo/reducers/experiments.js:21-29 | The action has the store type and carries the id and variant given |
| ExperimentsReducer.Reduce | src/amo/reducers/experiments.js:33-47 | A store action maps its id to its variant and keeps every other entry. Any other action leaves the state unchanged |
| ExperimentsReducer.StoreTwiceKeepsLast | src/amo/reducers/experiments.js:38-42 | Storing twice under one id equals storing only the second variant |
| ExperimentsReducer.StoresUnderDistinctIdsCommute | src/amo/reducers/experiments.js:38-42 | Stores under different ids commute |
| InstallWarningExperiment.ShouldExcludeUser | src/amo/experiments/20210622_install_warning_experiment.js:15-18 | Excludes exactly the users whose user agent is Firefox |
| InstallWarningExperiment.ConfigIsWellFormed | src/amo/experiments/20210622_install_warning_experiment.js:8-13 | The id passes the wrap checks and the percentages sum to 1. The two variants are distinct and neither is `notInExperiment` |
| InstallWarningExperiment.EveryDrawIsAllocated | src/amo/experiments/20210622_install_warning_experiment.js:8-13 | Every draw in (0, 1] allocates one of the two variants, the current one exactly for draws up to 0.5 |
| DownloadFunnelExperiment.ShouldExcludeUser | src/amo/experiments/20210531_download_funnel_experiment.js:15-18 | Excludes exactly the users whose user agent is Firefox; takes the state itself |
| DownloadFunnelExperiment.ConfigIsWellFormed | src/amo/experiments/20210531_download_funnel_experiment.js:8-21 | The exported object wraps the configuration, whose id passes the wrap checks and whose two distinct variants sum to 1 |
| DownloadFunnelExperiment.EveryDrawIsAllocated | src/amo/experiments/20210531_download_funnel_experiment.js:8-13 | Every draw in (0, 1] allocates one of the two variants, the current one exactly for draws up to 0.5 |
| AddonTypes.LookupPlatformFile | src/amo/components/PermissionsCard/index.js:223 | `platformFiles[platform]` is the first entry with that key; a missing key gives none |
| VersionsReducer.CreateInternalVersion | src/amo/reducers/versions.js:35-46 | Throws a TypeError exactly when the API version has no license (`version.license.name` on null). Otherwise the stored version keeps its id, version string, license, release notes, compatibility and platform files |
| VersionsReducer.FetchVersionsAction | src/amo/reducers/versions.js:73-85 | Requires an error handler id, then a slug; the page defaults to "1" |
| VersionsReducer.LoadVersionsAction | src/amo/reducers/versions.js:97-108 | Requires a slug, then versions |
| VersionsReducer.VersionIds | src/amo/reducers/versions.js:231 | The ids, one per version, in order |
| VersionsReducer.Collect | src/amo/reducers/versions.js:217-220 | Throws exactly when some version has no license. Otherwise the collected map has exactly the versions' ids, and a repeated id keeps its last version |
| VersionsReducer.CurrentVersions | src/amo/reducers/versions.js:244-259 | Holds exactly the current versions of the add-ons that have one |
| VersionsReducer.CurrentVersionsKeepOrder | src/amo/reducers/versions.js:244-259 | The loop reads the add-ons in order: the versions of a concatenation are the versions of each part, one after the other |
| VersionsReducer.CurrentVersionsOfOne | src/amo/reducers/versions.js:255-258 | One add-on gives its current version if it has one, and nothing otherwise |
| VersionsReducer.ShelfVersions | src/amo/reducers/versions.js:279-291 | Holds exactly the current versions of the add-ons of the present responses |
| VersionsReducer.ShelfVersionsKeepOrder | src/amo/reducers/versions.js:279-291 | Shelves are read in order: the versions of a concatenation are those of each part, one after the other |
| VersionsReducer.ShelfVersionsOfOne | src/amo/reducers/versions.js:284-290 | One shelf gives its add-ons' current versions in order, and an absent response gives none |
| VersionsReducer.Unwrap | src/amo/reducers/versions.js:245-254 | A collection entry's add-on is under `addon` |
| VersionsReducer.HomeCollectionVersions | src/amo/reducers/versions.js:294-301 | Fails exactly when a collection with results holds an entry without a current version. Otherwise holds exactly the current versions of the entries of the collections with results |
| VersionsReducer.ActionVersions | src/amo/reducers/versions.js:238-334 | The versions an add-on-bearing action brings, per action kind: the add-ons' or entries' current versions, the home shelves' and collections', or the landing shelves'. Fails exactly for home add-ons with a collection entry lacking a current version |
| VersionsReducer.Reduce | src/amo/reducers/versions.js:195-339 | Fetch marks the slug loading with no ids. Load lists the ids in order and adds the versions to byId, keeping other ids and the last version of a repeated id; it throws exactly when a version has no license. Add-on actions leave bySlug alone and store the versions they bring the same way; they throw exactly when a version has no license or a home collection entry has no current version. Other actions change nothing |
| VersionsReducer.GetVersionsBySlug | src/amo/reducers/versions.js:115-130 | Throws "slug is required" exactly for an empty slug. Null exactly for an unknown slug or null ids; otherwise each id's stored version, in order |
| VersionsReducer.GetLoadingBySlug | src/amo/reducers/versions.js:132-138 | Throws "slug is required" exactly for an empty slug. True exactly when the slug is known and loading |
| VersionsReducer.GetVersionById | src/amo/reducers/versions.js:182-191 | Throws "id is required" exactly for the id 0. Null exactly for an unknown id, otherwise the stored version |
| VersionsReducer.InitialStateIsConsistent | src/amo/reducers/versions.js:57-60 | The initial state lists no ids without versions; an unknown slug is neither loading nor loaded |
| VersionsReducer.ReducePreservesConsistency | src/amo/reducers/versions.js:195-339 | Every successful action keeps each listed id backed by a stored version |
| VersionsReducer.LoadThenGetRoundTrip | src/amo/reducers/versions.js:214-236 | Loading licensed versions with distinct ids succeeds, and reading them back by slug gives the converted versions in order, not loading |
| VersionsReducer.UnlicensedVersionFailsTheLoad | src/amo/reducers/versions.js:214-220 | A version without a license makes the load throw a TypeError |
| VersionsReducer.FetchHidesVersions | src/amo/reducers/versions.js:200-212 | After a fetch the slug reads as loading with no versions |
| VersionsReducer.ShelfAddonWithoutCurrentVersionIsSkipped | src/amo/reducers/versions.js:312-334 | A landing shelf add-on without a current version leaves the store unchanged |
| VersionsReducer.HomeCollectionEntryWithoutCurrentVersionFails | src/amo/reducers/versions.js:294-299 | A home collection entry without a current version makes the reducer throw a TypeError |
| VersionsReducer.LaterAddonWins | src/amo/reducers/versions.js:244-265 | When no later add-on repeats its version id, an add-on's current version is the one stored under that id |
| VersionsReducer.LastCurrentVersion | src/amo/reducers/versions.js:244-259 | An add-on's current version sits in the list of current versions with no later entry sharing its id |
| VersionsReducer.SelectorsRejectMissingKeys | src/amo/reducers/versions.js:115-191 | The selectors throw for an empty slug and for the id 0 |
| AddonVersionsPage.MergeProps | src/amo/pages/AddonVersions/index.js:86-99 | New props override; an optional prop they lack keeps its current value |
| AddonVersionsPage.GetCurrentPage | src/amo/pages/AddonVersions/index.js:144-146 | The page text when non-empty, otherwise the number 1 |
| AddonVersionsPage.ExtractId | src/amo/pages/AddonVersions/index.js:357-364 | The id is the slug, "-", then the page text or nothing |
| AddonVersionsPage.ExtractIdSeparatesPages | src/amo/pages/AddonVersions/index.js:357-364 | For one slug, equal ids mean equal pages |
| AddonVersionsPage.ExtractIdIsAmbiguousAcrossSlugs | src/amo/pages/AddonVersions/index.js:363 | Slug "a-b" on page 1 and slug "a" on page "b-" share an id |
| AddonVersionsPage.LoadLocation | src/amo/pages/AddonVersions/index.js:112-119 | A changed location is the one loaded |
| AddonVersionsPage.LoadDataIfNeeded | src/amo/pages/AddonVersions/index.js:85-130 | No dispatch while an error is captured. Fetches the add-on exactly when it is absent and not loading. Fetches versions exactly when they are not loading and absent or the location changed, for the loaded location's page, unless the action creator throws. At most two dispatches, add-on first. Throws exactly when versions are due without an error handler id or slug, naming the missing one, and the add-on fetch dispatched before the throw stays dispatched |
| AddonVersionsPage.ThrowKeepsTheAddonFetch | src/amo/pages/AddonVersions/index.js:106-128 | With no add-on and no slug, the add-on fetch is dispatched before the versions fetch throws |
| AddonVersionsPage.LoadedPageStaysQuiet | src/amo/pages/AddonVersions/index.js:106-129 | With the add-on and versions present and the same location, nothing is dispatched |
| AddonVersionsPage.NavigationFetchesTheNewPage | src/amo/pages/AddonVersions/index.js:112-129 | A new location fetches exactly that page's versions, even when versions are present |
| AddonVersionsPage.AddonURL | src/amo/pages/AddonVersions/index.js:132-138 | "/addon/" + slug + "/", and an error without an add-on |
| AddonVersionsPage.Url | src/amo/pages/AddonVersions/index.js:140-142 | The add-on URL followed by "reviews/" |
| AddonVersionsPage.AddonURLDeterminesSlug | src/amo/pages/AddonVersions/index.js:137 | Equal add-on URLs mean equal slugs |
| AddonVersionsPage.Render | src/amo/pages/AddonVersions/index.js:162-334 | NotFound exactly for a captured 401, 403 or 404. Otherwise the captured error, if any, is shown above the list. A paginator exactly when the add-on is present, count and page size are non-zero, and the count exceeds the page size. The versions in order, or 4 placeholders when absent. The list is shown exactly when it is non-empty |
| AddonVersionsPage.RenderExamples | src/amo/pages/AddonVersions/index.js:172-183 | A 500 error with empty versions shows the error and hides the list; a 401 gives NotFound; missing versions show placeholders |
| PermissionsCard.WordRun | src/amo/components/PermissionsCard/index.js:89 | The longest prefix of `\w` characters |
| PermissionsCard.RegularPermissionIsDotSeparatedWords | src/amo/components/PermissionsCard/index.js:89 | The regular-permission regex matches exactly the non-empty dot-separated runs of word characters |
| PermissionsCard.DotSeparatedWordsAfterFirstDot | src/amo/components/PermissionsCard/index.js:89 | After a leading word and a dot, the rest must again be dot-separated words |
| PermissionsCard.ClassifyPermission | src/amo/components/PermissionsCard/index.js:88-95 | A permission is regular exactly when it is dot-separated words; otherwise it is a host permission |
| PermissionsCard.Partition | src/amo/components/PermissionsCard/index.js:98-105 | Splits the permissions, as a multiset, into regular and host permissions |
| PermissionsCard.PartitionKeepsOrder | src/amo/components/PermissionsCard/index.js:98-105 | Each part keeps input order: partitioning a concatenation concatenates the parts |
| PermissionsCard.PartitionOfOne | src/amo/components/PermissionsCard/index.js:100-104 | A single permission lands in the part its kind names |
| PermissionsCard.SchemeRun | src/amo/components/PermissionsCard/index.js:119 | The longest prefix of `[a-z*]` characters |
| PermissionsCard.FirstSlash | src/amo/components/PermissionsCard/index.js:119 | The first "/" at or after a position |
| PermissionsCard.ParseHostPatternIsTheMatch | src/amo/components/PermissionsCard/index.js:119 | The parser returns a host exactly when `^[a-z*]+:\/\/([^/]+)\/` matches with that capture |
| PermissionsCard.ClassifyHost | src/amo/components/PermissionsCard/index.js:111-131 | "<all_urls>" stops the loop. "moz-extension:" and non-matching strings are ignored. A "*" host grants all URLs, "*.d" is a wildcard for d, and any other host is a site |
| PermissionsCard.SummarizeHosts | src/amo/components/PermissionsCard/index.js:108-131 | All URLs exactly when some host grants them; otherwise exactly the wildcard domains and sites found |
| PermissionsCard.SummarizeHostsKeepsOrder | src/amo/components/PermissionsCard/index.js:108-131 | Before any "<all_urls>", the wildcard domains and sites of a concatenation are those of each part, one after the other |
| PermissionsCard.SummarizeOneMoreHost | src/amo/components/PermissionsCard/index.js:111-131 | One host pattern adds what it classifies as to the summary of the rest; "<all_urls>" discards the rest |
| PermissionsCard.Collapse | src/amo/components/PermissionsCard/index.js:150-177 | Fewer than 5 hosts are all shown; otherwise the first 3 and one item counting the rest |
| PermissionsCard.RepresentedOfHostItems | src/amo/components/PermissionsCard/index.js:151-160 | A list of host items accounts for one host each |
| PermissionsCard.CollapseAccountsForEveryHost | src/amo/components/PermissionsCard/index.js:150-177 | The shown items and the "more" count together account for every host |
| PermissionsCard.HostItems | src/amo/components/PermissionsCard/index.js:137-181 | The host part of the list holds host items only, never a permission item |
| PermissionsCard.HostItemsAccountForHosts | src/amo/components/PermissionsCard/index.js:137-181 | All URLs gives the single all-URLs item. Otherwise no all-URLs item appears and the items account for every wildcard domain and site |
| PermissionsCard.HostItemsAreRankOrdered | src/amo/components/PermissionsCard/index.js:150-181 | Wildcard items come before site items |
| PermissionsCard.RepresentedAppend | src/amo/components/PermissionsCard/index.js:179-180 | Host counts add up across the wildcard and site lists |
| PermissionsCard.Insert | src/amo/components/PermissionsCard/index.js:199 | Inserting into a sorted list keeps it sorted and adds the element |
| PermissionsCard.SortStrings | src/amo/components/PermissionsCard/index.js:198-199 | The sort is a sorted permutation |
| PermissionsCard.SortedPermutationsAreEqual | src/amo/components/PermissionsCard/index.js:199 | A sorted permutation is unique, so the sort's result does not depend on how it sorts |
| PermissionsCard.KeepKnown | src/amo/components/PermissionsCard/index.js:199-215 | Drops `nativeMessaging` and permissions failing the gate; keeps every other occurrence |
| PermissionsCard.KeepKnownKeepsOrder | src/amo/components/PermissionsCard/index.js:199-215 | The kept permissions stay sorted |
| PermissionsCard.KeepKnownKeepsLowerBound | src/amo/components/PermissionsCard/index.js:199-215 | A lower bound of the sorted list is a lower bound of what is kept |
| PermissionsCard.PermissionItems | src/amo/components/PermissionsCard/index.js:206-213 | One item per kept permission, in order |
| PermissionsCard.NativeItems | src/amo/components/PermissionsCard/index.js:183-194 | One `nativeMessaging` item exactly when it is requested |
| PermissionsCard.FormatLayout | src/amo/components/PermissionsCard/index.js:98-216 | Wildcards come before sites, then native messaging, then the rest. Native messaging appears once exactly when requested. All URLs appears exactly when some host grants it, and then no host items appear. The rest is sorted and holds each regular permission that passes the gate, other than native messaging, as often as requested, and nothing else |
| PermissionsCard.FormatIsRankOrdered | src/amo/components/PermissionsCard/index.js:137-215 | Wildcards, then sites, then native messaging, then the rest |
| PermissionsCard.FormatCountsNativeMessaging | src/amo/components/PermissionsCard/index.js:183-203 | Native messaging appears once exactly when requested |
| PermissionsCard.FormatKeepsAllUrlsAlone | src/amo/components/PermissionsCard/index.js:111-145 | All URLs appears exactly when some host grants it, and then no host items appear |
| PermissionsCard.FormatPlacesRest | src/amo/components/PermissionsCard/index.js:196-216 | The rest passed the gate, were requested, and are sorted |
| PermissionsCard.FormatShowsTheGatedPermissions | src/amo/components/PermissionsCard/index.js:98-216 | The rest of the list is sorted, and counts each name as often as it was requested when it is regular, passes the gate and is not native messaging, and zero times otherwise |
| PermissionsCard.KeptCounts | src/amo/components/PermissionsCard/index.js:98-215 | What the last loop keeps of the sorted regular part counts each regular gated name as often as requested |
| PermissionsCard.LayoutOtherNames | src/amo/components/PermissionsCard/index.js:183-215 | The names after native messaging in the assembled list are exactly the kept names |
| PermissionsCard.OtherNamesOfConcat | src/amo/components/PermissionsCard/index.js:183-215 | The names of the rest of a concatenation are those of each part |
| PermissionsCard.OtherNamesOfNone | src/amo/components/PermissionsCard/index.js:137-194 | A list without such items has none of their names |
| PermissionsCard.OtherNamesOfPermissionItems | src/amo/components/PermissionsCard/index.js:206-213 | The items built from names other than native messaging give those names back |
| PermissionsCard.ShownNamesPass | src/amo/components/PermissionsCard/index.js:183-215 | Every permission item shown is native messaging or passed the gate |
| PermissionsCard.LayoutShownNames | src/amo/components/PermissionsCard/index.js:183-215 | Host items, the native-messaging item and gated names leave only native messaging or gated names among the permission items |
| PermissionsCard.NativeMessagingIsKeptIffPresent | src/amo/components/PermissionsCard/index.js:185 | `nativeMessaging` is among the regular permissions exactly when it was requested |
| PermissionsCard.RegularIsKeptIffPresent | src/amo/components/PermissionsCard/index.js:98-105 | A regular permission is among the regular part exactly when it was requested |
| PermissionsCard.NamesComeFromThePermissions | src/amo/components/PermissionsCard/index.js:198-215 | Every shown name was requested |
| PermissionsCard.LayoutIsRankOrdered | src/amo/components/PermissionsCard/index.js:137-215 | Host items, then native messaging, then the rest |
| PermissionsCard.LayoutCountsNativeMessaging | src/amo/components/PermissionsCard/index.js:183-203 | Native messaging is counted once, by its own item |
| PermissionsCard.LayoutPlacesRest | src/amo/components/PermissionsCard/index.js:196-216 | The permissions after native messaging passed the gate, were requested and appear in sorted order |
| PermissionsCard.LayoutHostsFirst | src/amo/components/PermissionsCard/index.js:137-215 | Only the host part can hold host or all-URLs items, so an all-URLs host part leaves no host item in the list |
| PermissionsCard.NativeMessagingIsRegular | src/amo/components/PermissionsCard/index.js:184 | `nativeMessaging` is a regular permission |
| PermissionsCard.HostGrantsAreHosts | src/amo/components/PermissionsCard/index.js:102-131 | A permission granting all URLs lands among the hosts |
| PermissionsCard.GrantsAllUrlsIsNotRegular | src/amo/components/PermissionsCard/index.js:89-92 | A permission granting all URLs is never regular |
| PermissionsCard.FormatPermissionStrings | src/amo/components/PermissionsCard/index.js:98-216 | The list shown with the corrected gate: every permission item shown has a display string |
| PermissionsCard.FormatPermissionStringsAsWritten | src/amo/components/PermissionsCard/index.js:205 | The list shown with the gate as written: every permission item shown has a truthy `permissionStrings` entry, own or inherited |
| PermissionsCard.FormatOfOneRegularPermission | src/amo/components/PermissionsCard/index.js:196-215 | One regular permission is shown exactly when it passes the gate |
| PermissionsCard.NamesWithoutStringPassTheGateAsWritten | src/amo/components/PermissionsCard/index.js:205 | A regular name with a truthy entry but no display string is shown as written and hidden once corrected |
| PermissionsCard.ToStringPassesTheGateAsWritten | src/amo/components/PermissionsCard/index.js:205 | "toString" is shown as written and hidden once corrected |
| PermissionsCard.ToStringIsInheritedOnly | src/amo/components/PermissionsCard/index.js:205 | "toString" is word-shaped and inherited, with no display string |
| PermissionsCard.AllUrlsHidesEarlierHosts | src/amo/components/PermissionsCard/index.js:111-145 | A wildcard before "<all_urls>" is not listed |
| PermissionsCard.SortExample | src/amo/components/PermissionsCard/index.js:199 | Capitals sort before lower case |
| PermissionsCard.GetPermissions | src/amo/components/PermissionsCard/index.js:219-232 | The platform's file's permissions, else the `all` file's, else none |
| PermissionsCard.ContentWith | src/amo/components/PermissionsCard/index.js:234-243 | For a given gate: loading exactly without an add-on, a list exactly when the formatted list is non-empty, and nothing otherwise |
| PermissionsCard.Content | src/amo/components/PermissionsCard/index.js:234-243 | As written: loading exactly without an add-on. A list exactly when the list formatted with the truthiness test is non-empty, and nothing otherwise |
| PermissionsCard.ContentCorrected | src/amo/components/PermissionsCard/index.js:234-243 | Corrected: the same, with the list formatted with the display-string test |
| PermissionsCard.NoFileMeansNoList | src/amo/components/PermissionsCard/index.js:223-243 | When every platform entry's file is null, the card shows no list, as written and corrected |
| PermissionsCard.ToStringShowsInTheCardAsWritten | src/amo/components/PermissionsCard/index.js:205-243 | A file asking only for "toString" shows it in the card as written, and no list once corrected |
| PermissionsCard.NoFileFound | src/amo/components/PermissionsCard/index.js:223-229 | When every platform entry's file is null, every lookup finds none |
| AddonUtils.GetErrorMessage | src/core/utils/addons.js:18-42 | Fails without i18n. Each known install or download error gets its own message. A fatal, absent or unknown error gets the generic one |
| AddonUtils.SpecificMessageIdentifiesTheError | src/core/utils/addons.js:27-37 | Two errors with the same specific message are the same error |
| AddonUtils.UrlKey | src/core/utils/addons.js:53 | The longest prefix of the install URL without "?" |
| AddonUtils.UrlKeyWithoutQuery | src/core/utils/addons.js:53 | The key is the whole URL exactly when it has no "?" |
| AddonUtils.UrlKeyIgnoresTheQuery | src/core/utils/addons.js:53 | Appending a query string keeps the key |
| AddonUtils.FirstMatchingHash | src/core/utils/addons.js:59-67 | The hash of the first present file whose url starts with the key; none exactly when no file matches |
| AddonUtils.GetFileHash | src/core/utils/addons.js:44-74 | Undefined without a version; otherwise the first matching file's hash, undefined exactly when none matches |
| AddonUtils.HashLoopAsWritten | src/core/utils/addons.js:59-67 | Throws exactly when an absent file comes before any match; otherwise agrees with the corrected search |
| AddonUtils.GetFileHashAsWritten | src/core/utils/addons.js:44-74 | The as-written loop on the version's files |
| AddonUtils.AsWrittenAgreesWithoutAbsentFiles | src/core/utils/addons.js:59-67 | Without absent files the as-written and corrected hashes agree |
| AddonUtils.AbsentFileThrowsAsWritten | src/core/utils/addons.js:62-65 | A null Android file before a matching one throws as written; once corrected the hash is found |
| AddonUtils.RemoveUndefinedProps | src/core/utils/addons.js:76-84 | Keeps exactly the keys whose values are defined, with their values |
| AddonUtils.RemoveUndefinedPropsIsIdempotent | src/core/utils/addons.js:76-84 | Removing twice is removing once; an object is unchanged exactly when it has no undefined values |
| AddonUtils.GetAddonJsonLinkedData | src/core/utils/addons.js:86-122 | `aggregateRating` appears exactly when ratings exist, count > 0 and average ≥ threshold (default 3.3). `version` appears exactly with a current version. The offer is free, in USD. Image present exactly when defined. No undefined values |
| AddonUtils.RatingThresholdIsMonotone | src/core/utils/addons.js:88-96 | A lower threshold keeps any rating a higher one shows, and an absent threshold is 3.3 |
| AddonUtils.RatingExamples | src/core/utils/addons.js:96 | A 3.2 average is hidden by default, and zero ratings are hidden even at threshold 0 |
| Categories.CategoryResultsPathname | src/amo/utils/categories.js:13-18 | Starts and ends with "/" and holds the visible type and slug between slashes |
| Categories.ParseCategoryResultsPathname | src/amo/utils/categories.js:17 | A parsed pathname rebuilds exactly the path |
| Categories.IndexOfSlash | src/amo/utils/categories.js:17 | The first "/" at or after a position |
| Categories.PathnameRoundTrip | src/amo/utils/categories.js:13-18 | The pathname gives back its visible type (without "/") and slug |
| Categories.CategoryResultsLinkTo | src/amo/utils/categories.js:26-34 | The link's pathname is the category pathname and its query the category query |
| Categories.LinksShareTheQuery | src/amo/utils/categories.js:20-34 | All category links have the same query and differ exactly when their pathnames do |
| GetFirefoxButton.ButtonClasses | src/amo/components/GetFirefoxButton/index.js:167 | "GetFirefoxButton-button", then the class name when truthy |
| GetFirefoxButton.Render | src/amo/components/GetFirefoxButton/index.js:66-179 | Nothing exactly for NONE or a Firefox browser. Throws for a missing add-on with ADDON and for an unknown type. ADDON is puffy with "rta:" content for a guid; HEADER is micro with "header-download-button". The text differs from "Download Firefox" exactly for ADDON with return-to-AMO |
| GetFirefoxButton.HeaderIgnoresTheAddon | src/amo/components/GetFirefoxButton/index.js:129-141 | In the header only the click label depends on the add-on |
| GetFirefoxButton.AddonButtonTextFollowsRTAMO | src/amo/components/GetFirefoxButton/index.js:83-119 | The theme or extension text exactly with return-to-AMO, else "Download Firefox" |
| ConfirmButton.Apply | src/ui/components/ConfirmButton/index.js:51-62 | Effects without a state update leave the state alone |
| ConfirmButton.OnConfirm | src/ui/components/ConfirmButton/index.js:51-54 | Hides the confirmation and calls the callback once |
| ConfirmButton.ToggleConfirmation | src/ui/components/ConfirmButton/index.js:56-62 | Prevents the default and flips the state, without calling the callback |
| ConfirmButton.ToggleTwiceRestores | src/ui/components/ConfirmButton/index.js:33-62 | Toggling twice restores the state; confirming returns to the initial state |
| ConfirmButton.OrDefault | src/ui/components/ConfirmButton/index.js:103-113 | A truthy text, else the fallback |
| ConfirmButton.Classes | src/ui/components/ConfirmButton/index.js:87-89 | "ConfirmButton", the class name when truthy, and the show-confirmation class exactly when shown |
| ConfirmButton.Render | src/ui/components/ConfirmButton/index.js:64-132 | Throws for missing children, id or callback, in that order. Confirm and cancel buttons exactly when confirming, otherwise the default button. Types default to neutral, alert and cancel; texts to "Confirm" and "Cancel". The message appears exactly when truthy |
| ConfirmButton.ClickThrough | src/ui/components/ConfirmButton/index.js:51-131 | The default button opens the confirmation. Cancel closes it without the callback; confirm closes it after one call |
| ConfirmButton.ButtonsOfRender | src/ui/components/ConfirmButton/index.js:91-131 | One button, or two when confirming. The last always toggles the confirmation, and a button calls `onConfirm` exactly when confirming, the first of the two |
| ConfirmButton.ButtonPropsAsWritten | src/ui/components/ConfirmButton/index.js:97-101 | The button gets no `type`, since the type travels as `buttonType` |
| ConfirmButton.ButtonPropsFor | src/ui/components/ConfirmButton/index.js:97-101 | The button gets the type under the key `Button` reads |
| ConfirmButton.EveryButtonThrowsAsWritten | src/ui/components/ConfirmButton/index.js:97-129 | Every button a valid confirm button renders throws as written |
| ConfirmButton.ButtonsRenderWithTheirTypes | src/ui/components/ConfirmButton/index.js:43-131 | With the type passed, default or valid types render each button as a `<button>` carrying its class |
| Button.SetClassNameAsWritten | src/ui/components/Button/index.js:50-56 | "Button", the type class, ..., and always the class "width" |
| Button.PrefixedIsNotAFlag | src/ui/components/Button/index.js:52 | Type and width classes never equal "disabled" or "width" |
| Button.SetClassName | src/ui/components/Button/index.js:50-56 | "Button", the type class, the class name, "disabled" when asked, and the width class exactly when a width is given; no "width" class |
| Button.Render | src/ui/components/Button/index.js:34-81 | As written: throws exactly for a missing or unknown type. A link exactly when `href` or `to` is truthy. `href` wins and turns off the client-app and language prefixes. A disabled link only prevents the default. The classes are those of `setClassName` as written, with "disabled" only on links |
| Button.RenderCorrected | src/ui/components/Button/index.js:34-81 | The same element with the corrected class list |
| Button.RenderedWidthClass | src/ui/components/Button/index.js:50-56 | Every element rendered as written carries "width"; the corrected one does not, and carries the caller's width class when a width is given |
| Button.DisabledClassOnlyOnLinks | src/ui/components/Button/index.js:68-80 | "disabled" is a class exactly of disabled links, as written and corrected |
| Button.WidthClassAsWritten | src/ui/components/Button/index.js:53 | As written every button has the class "width"; corrected, none without a width |

## Left out

- **Not modelled at all:**
  - React rendering, JSX trees, CSS and translation: texts are the untranslated message ids, and rendered output is a datatype of the decisions the component makes.
  - Cookie, network and logging I/O, `tracking.sendEvent`, `dispatch`, `JSON.stringify` and `JSON.parse`: writes, events and dispatches are returned values, and cookies are already parsed.
  - `mapStateToProps` of every component. The one of `AddonVersions` supplies `reviews` and `reviewCount`, which the page never reads; the model takes `versions` and `versionCount` as inputs. `getVersionInfo` is left out because it depends on `findFileForPlatform`, which is not part of this model.
- **Helpers given as inputs or parameters:** `isFirefox`, `getPromotedCategory`, `encode`, `visibleAddonType`, `convertFiltersToQueryParams`, `makeQueryStringWithUTM`, `createPlatformFiles`, `userAgentOSToPlatform` and `getPreviewImage` are not part of this model. Each is an input, or a parameter, or the value it computes.
- **Arithmetic:** floating point is exact `real` arithmetic, so percentages, draws and the 3.3 threshold are exact. `Math.random` is an input draw.
- **Per-member limits:**
  - WithExperiment.Construct: the constructor's `dispatch` argument and the cookie's `JSON.stringify` are not modelled. The written value is the map itself.
  - WithExperiment.Render: props passed to the wrapper are spread after the injected ones and can override them; this is not modelled.
  - InstallWarningExperiment.ShouldExcludeUser: `isFirefox` is a function parameter, so the contract can only say that its answer is the exclusion.
  - DownloadFunnelExperiment.ShouldExcludeUser: as above.
  - PermissionsCard.GetPermissions: the lower-casing of the OS name and the `"undefined"` key reached for an unmapped OS are not modelled. The OS key is an input, and an unmapped key looks up nothing.
  - PermissionsCard.SortStrings: orders by Dafny character code, which agrees with JavaScript's UTF-16 code-unit order on the ASCII word characters regular permissions consist of.
  - PermissionsCard.FormatLayout: the texts of the items and the formatter calls are not modelled. Items carry the permission name, the host, or the "more" count.
  - AddonVersionsPage.Render: the add-on header, ratings and icon are not modelled.
  - AddonUtils.GetErrorMessage: the string values of the error constants live in `core/constants`, which is not part of this model. The codes are a datatype.
  - AddonUtils.GetAddonJsonLinkedData: the key order of the emitted object is not modelled (a map).
  - GetFirefoxButton.Render: the download URL is represented by its `utm_content` value; the base URL and the query-string encoding are not modelled.
  - Categories.CategoryResultsPathname: takes the visible add-on type, not the add-on type.
  - Button.Render: the caller's other props, such as `onClick` and children, pass through unmodelled, apart from `disabled`.
  - VersionsReducer.GetVersionsBySlug: `invariant(state)` is not modelled, because the state is a value that is always present. The same holds for GetLoadingBySlug and GetVersionById.
  - VersionsReducer.CreateInternalVersion: only a null license is modelled as throwing. A license object missing `name` or `url` is not modelled: both are strings here, where the code would copy `undefined`.
  - AddonVersionsPage.Render: the text of the rendered error is not modelled, only whether `renderErrorIfPresent` shows one.

## Findings

| source | as written | input that shows it | evidently intended | confidence | as-written member | corrected member |
|---|---|---|---|---|---|---|
| src/amo/components/PermissionsCard/index.js:205 | Shows a permission whenever `permissionStrings[permission]` is truthy. That includes the formatter keys (`wildcard`, `oneSite`, `tooManyWildcards`, `tooManySites`) and names inherited from `Object.prototype` | a version requesting the permission "toString" | show only permissions that have a display string | not executed; needs a manifest listing such a name | PermissionsCard.FormatPermissionStringsAsWritten, PermissionsCard.Content, PermissionsCard.NamesWithoutStringPassTheGateAsWritten, PermissionsCard.ToStringShowsInTheCardAsWritten | PermissionsCard.FormatPermissionStrings, PermissionsCard.ContentCorrected |
| src/core/utils/addons.js:63 | Logs `file.url` before the `file &&` guard on line 64, so a null or undefined platform file reached before a match throws a TypeError | `platformFiles` = {android: null, all: {url: "https://a.org/x.xpi"}} with installURL "https://a.org/x.xpi?src=search" | skip absent files, as the guard on line 64 intends | not executed; depends on platform files with empty keys, which `createPlatformFiles` (not part of this model) would produce | AddonUtils.GetFileHashAsWritten, AddonUtils.AbsentFileThrowsAsWritten | AddonUtils.GetFileHash |
| src/ui/components/Button/index.js:53 | `{ width: \`Button--width-${width}\` }` makes classnames add the class "width", whose condition is a non-empty string, to every button | any button, e.g. type "neutral" with no width | add "Button--width-<width>" only when a width is given | not executed; high | Button.SetClassNameAsWritten, Button.Render, Button.RenderedWidthClass | Button.SetClassName, Button.RenderCorrected |
| src/ui/components/ConfirmButton/index.js:97-98 | Passes each button's type as `buttonType`, but `ui/components/Button` reads `type` (src/ui/components/Button/index.js:40, 46-48), so the button throws "not a valid button type" | any confirm button with children, id and callback | pass the type under the key `Button` reads | not executed; the Button source may lag behind its callers | ConfirmButton.ButtonPropsAsWritten, ConfirmButton.EveryButtonThrowsAsWritten | ConfirmButton.ButtonPropsFor, ConfirmButton.ButtonsRenderWithTheirTypes |

/** The loading and rendering decisions of the version history page,
    `src/amo/pages/AddonVersions/index.js`: which fetches the page
    dispatches for given props, the page number it asks for, its error
    handler id, its URLs, and which of NotFound, the paginator and the
    placeholder list it renders. Markup, i18n and the add-on header are
    not modelled. */
module AddonVersionsPage {
  import opened Wrappers
  import opened Text
  import opened VersionsReducer

  /** A router location. `key` stands for the object's identity: the page
      compares locations with `!==`, so two locations differ exactly when
      their keys do. `page` is `query.page`, absent when not in the URL. */
  datatype Location = Location(key: nat, page: Option<string>)

  datatype CapturedError = CapturedError(responseStatusCode: Option<int>)

  /** The page's error handler; it has an error exactly when one was
      captured. */
  datatype ErrorHandler = ErrorHandler(id: string, capturedError: Option<CapturedError>)
  {
    predicate HasError() { capturedError.Some? }
  }

  datatype PageAddon = PageAddon(slug: string, name: string)

  /** The props the page reads. The optional props `versions` and
      `versionCount` are `None` when the key is absent. */
  datatype Props = Props(
    addon: Option<PageAddon>,
    addonIsLoading: bool,
    areVersionsLoading: bool,
    versions: Option<seq<AddonVersion>>,
    errorHandler: ErrorHandler,
    location: Location,
    slug: string,
    pageSize: Option<int>,
    versionCount: Option<int>)

  /** `{...this.props, ...nextProps}`: every required prop comes from the
      next props; an optional prop absent from them keeps its current
      value. */
  function MergeProps(current: Props, next: Option<Props>): (m: Props)
    ensures next.None? ==> m == current
    ensures next.Some? ==> m.addon == next.value.addon && m.errorHandler == next.value.errorHandler
                           && m.slug == next.value.slug && m.areVersionsLoading == next.value.areVersionsLoading
                           && m.addonIsLoading == next.value.addonIsLoading
    ensures next.Some? && next.value.versions.Some? ==> m.versions == next.value.versions
    ensures next.Some? && next.value.versions.None? ==> m.versions == current.versions
  {
    match next
    case None => current
    case Some(n) =>
      n.(versions := if n.versions.Some? then n.versions else current.versions,
         versionCount := if n.versionCount.Some? then n.versionCount else current.versionCount)
  }

  /** `query.page || 1`: the page text when it is a non-empty string, else
      the number 1. */
  function GetCurrentPage(location: Location): (p: Page)
    ensures p.PageText? <==> location.page.Some? && location.page.value != ""
    ensures p.PageText? ==> p.text == location.page.value
    ensures p.PageNumber? ==> p.n == 1
  {
    if location.page.Some? && Truthy(location.page.value) then PageText(location.page.value) else PageNumber(1)
  }

  /** The id the page's error handler is registered under:
      `${slug}-${query.page || ''}`. */
  function ExtractId(slug: string, location: Location): (id: string)
    ensures |id| > |slug| && id[..|slug|] == slug && id[|slug|] == '-'
    ensures GetCurrentPage(location).PageText? ==> id[|slug| + 1..] == location.page.value
    ensures GetCurrentPage(location).PageNumber? ==> id == slug + "-"
  {
    var page := if location.page.Some? && Truthy(location.page.value) then location.page.value else "";
    slug + "-" + page
  }

  /** Two locations of the same add-on get the same error handler id only
      when they ask for the same page. */
  lemma ExtractIdSeparatesPages(slug: string, a: Location, b: Location)
    requires ExtractId(slug, a) == ExtractId(slug, b)
    ensures GetCurrentPage(a) == GetCurrentPage(b)
  {
    var ia, ib := ExtractId(slug, a), ExtractId(slug, b);
    if GetCurrentPage(a).PageText? && GetCurrentPage(b).PageText? {
      assert ia[|slug| + 1..] == ib[|slug| + 1..];
    }
  }

  /** Across add-ons the id is ambiguous: a slug containing "-" and a page
      can produce the id of another slug's first page. */
  lemma ExtractIdIsAmbiguousAcrossSlugs()
    ensures ExtractId("a-b", Location(0, None)) == ExtractId("a", Location(1, Some("b-")))
  {
    assert ExtractId("a-b", Location(0, None)) == "a-b-";
    assert ExtractId("a", Location(1, Some("b-"))) == "a-b-";
  }

  // ---------------------------------------------------------------------
  // Loading
  // ---------------------------------------------------------------------

  datatype Dispatch =
    | FetchAddon(slug: string, errorHandlerId: string)
    | DispatchVersions(action: Action)

  /** The location changed when new props bring a location that is not the
      current one. */
  predicate LocationChanged(current: Props, next: Option<Props>) {
    next.Some? && next.value.location.key != current.location.key
  }

  /** The location the page loads: the new one when new props arrive. */
  function LoadLocation(current: Props, next: Option<Props>): (l: Location)
    ensures LocationChanged(current, next) ==> l == next.value.location
  {
    if next.Some? then next.value.location else current.location
  }

  predicate ShouldFetchAddon(p: Props) {
    !p.errorHandler.HasError() && p.addon.None? && !p.addonIsLoading
  }

  predicate ShouldFetchVersions(current: Props, next: Option<Props>) {
    var p := MergeProps(current, next);
    !p.errorHandler.HasError() && !p.areVersionsLoading && (p.versions.None? || LocationChanged(current, next))
  }

  /** What a call of `loadDataIfNeeded` leaves behind: the fetches it
      dispatched, in order, and the invariant error `fetchVersions` threw,
      if any. A throw comes after the add-on fetch, which stays dispatched. */
  datatype LoadOutcome = LoadOutcome(dispatched: seq<Dispatch>, thrown: Option<InvariantError>)

  /** `loadDataIfNeeded(nextProps?)` */
  function LoadDataIfNeeded(current: Props, next: Option<Props>): (r: LoadOutcome)
    ensures MergeProps(current, next).errorHandler.HasError() ==> r == LoadOutcome([], None)
    ensures |r.dispatched| > 0 && r.dispatched[0].FetchAddon? <==> ShouldFetchAddon(MergeProps(current, next))
    ensures |r.dispatched| > 0 && r.dispatched[|r.dispatched| - 1].DispatchVersions?
            <==> ShouldFetchVersions(current, next) && r.thrown.None?
    ensures |r.dispatched| <= 2 && forall i :: 0 < i < |r.dispatched| ==> r.dispatched[i].DispatchVersions?
    ensures |r.dispatched| > 0 && r.dispatched[0].FetchAddon? ==>
              r.dispatched[0] == FetchAddon(MergeProps(current, next).slug, MergeProps(current, next).errorHandler.id)
    ensures forall i :: 0 <= i < |r.dispatched| && r.dispatched[i].DispatchVersions? ==>
              r.dispatched[i].action == FetchVersions(MergeProps(current, next).errorHandler.id,
                                                      GetCurrentPage(LoadLocation(current, next)),
                                                      MergeProps(current, next).slug)
    ensures r.thrown.Some? <==> ShouldFetchVersions(current, next)
                                && (MergeProps(current, next).errorHandler.id == "" || MergeProps(current, next).slug == "")
    ensures r.thrown.Some? ==>
              r.thrown.value == if MergeProps(current, next).errorHandler.id == "" then ErrorHandlerIdRequired else SlugRequired
  {
    var p := MergeProps(current, next);
    if p.errorHandler.HasError() then LoadOutcome([], None)
    else
      var addonFetch := if p.addon.None? && !p.addonIsLoading then [FetchAddon(p.slug, p.errorHandler.id)] else [];
      if ShouldFetchVersions(current, next) then
        match FetchVersionsAction(p.errorHandler.id, Some(GetCurrentPage(LoadLocation(current, next))), p.slug)
        case Ok(action) => LoadOutcome(addonFetch + [DispatchVersions(action)], None)
        case Err(e) => LoadOutcome(addonFetch, Some(e))
      else LoadOutcome(addonFetch, None)
  }

  /** A versions fetch that throws for want of a slug still leaves the
      add-on fetch dispatched before it. */
  lemma ThrowKeepsTheAddonFetch(current: Props)
    requires current.addon.None? && !current.addonIsLoading && !current.areVersionsLoading
    requires current.versions.None? && current.errorHandler == ErrorHandler("handler", None) && current.slug == ""
    ensures LoadDataIfNeeded(current, None) == LoadOutcome([FetchAddon("", "handler")], Some(SlugRequired))
  {
  }

  /** Once the add-on and its versions are in the props, new props that keep
      the same location trigger no fetch. */
  lemma LoadedPageStaysQuiet(current: Props, next: Props)
    requires next.addon.Some? && next.versions.Some? && next.location.key == current.location.key
    ensures LoadDataIfNeeded(current, Some(next)) == LoadOutcome([], None)
  {
  }

  /** Following a link to another page of a loaded history fetches that
      page, even though versions are already present. */
  lemma NavigationFetchesTheNewPage(current: Props, next: Props)
    requires next.addon.Some? && !next.areVersionsLoading && !next.errorHandler.HasError()
    requires next.errorHandler.id != "" && next.slug != ""
    requires next.location.key != current.location.key
    ensures LoadDataIfNeeded(current, Some(next))
            == LoadOutcome([DispatchVersions(FetchVersions(next.errorHandler.id, GetCurrentPage(next.location), next.slug))], None)
  {
    var p := MergeProps(current, Some(next));
    assert LoadLocation(current, Some(next)) == next.location;
    assert ShouldFetchVersions(current, Some(next));
    assert FetchVersionsAction(p.errorHandler.id, Some(GetCurrentPage(next.location)), p.slug)
           == Ok(FetchVersions(next.errorHandler.id, GetCurrentPage(next.location), next.slug));
    assert p.addon.Some? && !p.errorHandler.HasError();
    var r := LoadDataIfNeeded(current, Some(next));
    assert r.thrown.None? && |r.dispatched| == 1;
    assert r.dispatched[0] == DispatchVersions(FetchVersions(next.errorHandler.id, GetCurrentPage(next.location), next.slug));
    assert r.dispatched == [r.dispatched[0]];
  }

  // ---------------------------------------------------------------------
  // URLs
  // ---------------------------------------------------------------------

  datatype UrlError = FalseyAddon

  /** `addonURL()`: "/addon/<slug>/", which needs an add-on. */
  function AddonURL(addon: Option<PageAddon>): (r: Result<string, UrlError>)
    ensures r.Err? <==> addon.None?
    ensures r.Ok? ==> |r.value| == |addon.value.slug| + 8
                      && StartsWith(r.value, "/addon/") && r.value[|r.value| - 1] == '/'
                      && r.value[7..|r.value| - 1] == addon.value.slug
  {
    match addon
    case None => Err(FalseyAddon)
    case Some(a) => Ok("/addon/" + a.slug + "/")
  }

  /** `url()`: the add-on URL followed by "reviews/". */
  function Url(addon: Option<PageAddon>): (r: Result<string, UrlError>)
    ensures r.Err? <==> addon.None?
    ensures r.Ok? ==> StartsWith(r.value, AddonURL(addon).value)
                      && r.value[|AddonURL(addon).value|..] == "reviews/"
  {
    var base :- AddonURL(addon);
    Ok(base + "reviews/")
  }

  /** The add-on's slug can be read back from its URL. */
  lemma AddonURLDeterminesSlug(a: PageAddon, b: PageAddon)
    requires AddonURL(Some(a)) == AddonURL(Some(b))
    ensures a.slug == b.slug
  {
  }

  // ---------------------------------------------------------------------
  // Rendering
  // ---------------------------------------------------------------------

  datatype Paginator = Paginator(count: int, currentPage: Page, pathname: string, perPage: int)

  datatype View =
    | NotFoundView
    | HistoryView(errorShown: bool, paginator: Option<Paginator>, items: seq<Option<AddonVersion>>, listShown: bool)

  /** The status codes an add-on lookup turns into a 404 page. */
  predicate IsNotFoundStatus(e: ErrorHandler) {
    e.HasError() && e.capturedError.value.responseStatusCode.Some?
    && e.capturedError.value.responseStatusCode.value in {401, 403, 404}
  }

  /** JavaScript truthiness of an optional number. */
  predicate TruthyNumber(n: Option<int>) { n.Some? && n.value != 0 }

  function Render(p: Props): (v: View)
    ensures v.NotFoundView? <==> IsNotFoundStatus(p.errorHandler)
    ensures v.HistoryView? ==> (v.errorShown <==> p.errorHandler.HasError())
    ensures v.HistoryView? ==>
              (v.paginator.Some? <==> p.addon.Some? && TruthyNumber(p.versionCount) && TruthyNumber(p.pageSize)
                                      && p.versionCount.value > p.pageSize.value)
    ensures v.HistoryView? && v.paginator.Some? ==>
              v.paginator.value == Paginator(p.versionCount.value, GetCurrentPage(p.location),
                                             Url(p.addon).value, p.pageSize.value)
    ensures v.HistoryView? && p.versions.Some? ==>
              |v.items| == |p.versions.value| && forall i :: 0 <= i < |v.items| ==> v.items[i] == Some(p.versions.value[i])
    ensures v.HistoryView? && p.versions.None? ==> |v.items| == 4 && forall i :: 0 <= i < 4 ==> v.items[i].None?
    ensures v.HistoryView? ==> (v.listShown <==> |v.items| > 0)
  {
    if IsNotFoundStatus(p.errorHandler) then NotFoundView
    else
      var items := if p.versions.Some? then seq(|p.versions.value|, i requires 0 <= i < |p.versions.value| => Some(p.versions.value[i]))
                   else [None, None, None, None];
      var paginator :=
        if p.addon.Some? && TruthyNumber(p.versionCount) && TruthyNumber(p.pageSize) && p.versionCount.value > p.pageSize.value
        then Some(Paginator(p.versionCount.value, GetCurrentPage(p.location), Url(p.addon).value, p.pageSize.value))
        else None;
      HistoryView(p.errorHandler.HasError(), paginator, items, |items| > 0)
  }

  /** Other captured errors leave the history in place; an empty version
      list (truthy in JavaScript) hides it instead of showing placeholders. */
  lemma RenderExamples(p: Props)
    requires p.errorHandler.capturedError == Some(CapturedError(Some(500)))
    requires p.versions == Some([])
    ensures Render(p).HistoryView? && Render(p).errorShown && !Render(p).listShown
    ensures Render(p.(errorHandler := ErrorHandler(p.errorHandler.id, Some(CapturedError(Some(401)))))) == NotFoundView
    ensures Render(p.(errorHandler := ErrorHandler(p.errorHandler.id, None), versions := None)).listShown
  {
    assert 500 !in {401, 403, 404};
  }
}

/** Links to the search results of one add-on category
    (`amo/utils/categories`). */
module Categories {
  import opened Wrappers
  import opened Text

  /** The sort orders of `amo/constants` used here; their string values and
      `convertFiltersToQueryParams` are not part of this model, so a query
      is the filters object it is built from. */
  datatype SortKey = SortRecommended | SortPopular

  datatype Query = Query(sort: seq<SortKey>)

  datatype LinkTo = LinkTo(pathname: string, query: Query)

  /** `/${visibleAddonType(addonType)}/${slug}/`. `visibleAddonType` is not
      part of this model: `visibleType` is its result for the add-on type. */
  function CategoryResultsPathname(visibleType: string, slug: string): (r: string)
    ensures StartsWith(r, "/") && r[|r| - 1] == '/'
    ensures |r| == |visibleType| + |slug| + 3
    ensures r[1..|visibleType| + 1] == visibleType && r[|visibleType| + 1] == '/'
    ensures r[|visibleType| + 2..|r| - 1] == slug
  {
    "/" + visibleType + "/" + slug + "/"
  }

  /** The inverse of `CategoryResultsPathname` for a visible type without
      '/': the type runs up to the second '/', the slug fills the rest. */
  function ParseCategoryResultsPathname(path: string): (r: Option<(string, string)>)
    ensures r.Some? ==> CategoryResultsPathname(r.value.0, r.value.1) == path && '/' !in r.value.0
  {
    if |path| < 3 || path[0] != '/' || path[|path| - 1] != '/' then None
    else
      var inner := path[1..];
      match IndexOfSlash(inner, 0)
      case None => None
      case Some(i) =>
        if i + 1 > |inner| - 1 then None
        else
          var visibleType := inner[..i];
          var slug := inner[i + 1..|inner| - 1];
          assert '/' !in visibleType by {
            assert forall k :: 0 <= k < i ==> visibleType[k] == inner[k];
          }
          assert path == "/" + visibleType + "/" + slug + "/" by {
            assert inner == visibleType + "/" + slug + "/";
            assert path == [path[0]] + inner;
          }
          Some((visibleType, slug))
  }

  /** The index of the first '/' at or after `from`. */
  function IndexOfSlash(s: string, from: nat): (r: Option<nat>)
    requires from <= |s|
    ensures r.Some? ==> from <= r.value < |s| && s[r.value] == '/'
                        && forall k :: from <= k < r.value ==> s[k] != '/'
    ensures r.None? ==> forall k :: from <= k < |s| ==> s[k] != '/'
    decreases |s| - from
  {
    if from == |s| then None
    else if s[from] == '/' then Some(from)
    else IndexOfSlash(s, from + 1)
  }

  /** The pathname gives back the visible type and slug it was built from,
      so different categories (of types without '/') get different links. */
  lemma PathnameRoundTrip(visibleType: string, slug: string)
    requires '/' !in visibleType
    ensures ParseCategoryResultsPathname(CategoryResultsPathname(visibleType, slug)) == Some((visibleType, slug))
  {
    var path := CategoryResultsPathname(visibleType, slug);
    var inner := path[1..];
    assert inner == visibleType + "/" + slug + "/";
    assert forall k :: 0 <= k < |visibleType| ==> inner[k] == visibleType[k];
    assert IndexOfSlash(inner, 0) == Some(|visibleType|);
    assert inner[..|visibleType|] == visibleType;
    assert inner[|visibleType| + 1..|inner| - 1] == slug;
  }

  /** The search filters of a category page: recommended add-ons first,
      then the most popular. */
  function CategoryResultsQuery(): Query {
    Query([SortRecommended, SortPopular])
  }

  /** The `LinkTo` target of a category. */
  function CategoryResultsLinkTo(visibleType: string, slug: string): (r: LinkTo)
    ensures r.pathname == CategoryResultsPathname(visibleType, slug)
    ensures r.query == CategoryResultsQuery()
  {
    LinkTo(CategoryResultsPathname(visibleType, slug), CategoryResultsQuery())
  }

  /** Links of two categories differ only in their pathname. */
  lemma LinksShareTheQuery(type1: string, slug1: string, type2: string, slug2: string)
    ensures CategoryResultsLinkTo(type1, slug1).query == CategoryResultsLinkTo(type2, slug2).query
    ensures CategoryResultsLinkTo(type1, slug1) == CategoryResultsLinkTo(type2, slug2)
            <==> CategoryResultsPathname(type1, slug1) == CategoryResultsPathname(type2, slug2)
  {
  }
}

/** Helpers over add-on data (`core/utils/addons`): the message shown for an
    install error, the hash of the file an install URL points at, and the
    schema.org description of an add-on page. */
module AddonUtils {
  import opened Wrappers
  import opened Text
  import opened AddonTypes

  // ---------------------------------------------------------------------
  // getErrorMessage
  // ---------------------------------------------------------------------

  /** The error codes of `core/constants` the function switches on; their
      string values live in `core/constants`, which is not part of this
      model, and `OtherError` is any other code. */
  datatype InstallError =
    | InstallFailed
    | DownloadFailed
    | FatalInstallError
    | FatalUninstallError
    | FatalError
    | OtherError(code: string)

  /** `invariant(i18n, ...)` failing. */
  datatype MessageError = I18nRequired

  const GENERIC_MESSAGE: string := "An unexpected error occurred."

  /** The (untranslated) message for an install or download error; an absent
      error and every unknown code get the generic message. */
  function GetErrorMessage(hasI18n: bool, error: Option<InstallError>): (r: Result<string, MessageError>)
    ensures r.Err? <==> !hasI18n
    ensures r.Ok? && error == Some(InstallFailed) ==> r.value == "Installation failed. Please try again."
    ensures r.Ok? && error == Some(DownloadFailed) ==> r.value == "Download failed. Please check your connection."
    ensures r.Ok? && error == Some(FatalInstallError) ==> r.value == "An unexpected error occurred during installation."
    ensures r.Ok? && error == Some(FatalUninstallError) ==> r.value == "An unexpected error occurred during uninstallation."
    ensures r.Ok? ==> (r.value == GENERIC_MESSAGE <==> error.None? || error.value.FatalError? || error.value.OtherError?)
  {
    if !hasI18n then Err(I18nRequired)
    else
      match error
      case Some(InstallFailed) => Ok("Installation failed. Please try again.")
      case Some(DownloadFailed) => Ok("Download failed. Please check your connection.")
      case Some(FatalInstallError) => Ok("An unexpected error occurred during installation.")
      case Some(FatalUninstallError) => Ok("An unexpected error occurred during uninstallation.")
      case _ => Ok(GENERIC_MESSAGE)
  }

  /** A specific message names its error: two errors that get the same
      message other than the generic one are the same error. */
  lemma SpecificMessageIdentifiesTheError(e1: InstallError, e2: InstallError)
    requires GetErrorMessage(true, Some(e1)) == GetErrorMessage(true, Some(e2))
    requires GetErrorMessage(true, Some(e1)).value != GENERIC_MESSAGE
    ensures e1 == e2
  {
    // the four specific messages have four different lengths
    assert |GetErrorMessage(true, Some(e1)).value| == |GetErrorMessage(true, Some(e2)).value|;
  }

  // ---------------------------------------------------------------------
  // getFileHash
  // ---------------------------------------------------------------------

  /** `installURL.split('?')[0]`: everything before the first '?'. */
  function UrlKey(installURL: string): (r: string)
    ensures StartsWith(installURL, r)
    ensures '?' !in r
    ensures |r| < |installURL| ==> installURL[|r|] == '?'
  {
    if installURL == [] || installURL[0] == '?' then ""
    else
      var rest := UrlKey(installURL[1..]);
      assert installURL[..1 + |rest|] == [installURL[0]] + installURL[1..][..|rest|];
      [installURL[0]] + rest
  }

  /** The key is the whole URL exactly when it has no query part. */
  lemma UrlKeyWithoutQuery(installURL: string)
    ensures UrlKey(installURL) == installURL <==> '?' !in installURL
  {
    var k := UrlKey(installURL);
    if '?' !in installURL {
      assert k == installURL[..|k|];
    }
  }

  /** Appending a query string does not change the key. */
  lemma {:induction false} UrlKeyIgnoresTheQuery(base: string, query: string)
    requires '?' !in base
    ensures UrlKey(base + ['?'] + query) == base
  {
    if base != [] {
      assert base[0] in base;
      assert (base + ['?'] + query)[1..] == base[1..] + ['?'] + query;
      assert forall c :: c in base[1..] ==> c in base;
      UrlKeyIgnoresTheQuery(base[1..], query);
      assert base == [base[0]] + base[1..];
    } else {
      assert (base + ['?'] + query)[0] == '?';
    }
  }

  /** A platform file that is present and whose url starts with `urlKey`. */
  predicate FileMatches(entry: PlatformFileEntry, urlKey: string) {
    entry.file.Some? && StartsWith(entry.file.value.url, urlKey)
  }

  /** Entry `i` is the first one matching `urlKey`. */
  predicate FirstMatch(files: PlatformFiles, urlKey: string, i: int) {
    0 <= i < |files| && FileMatches(files[i], urlKey)
    && forall j :: 0 <= j < i ==> !FileMatches(files[j], urlKey)
  }

  /** The hash of the first present platform file whose url starts with
      `urlKey`, skipping absent files. */
  function FirstMatchingHash(files: PlatformFiles, urlKey: string): (r: Option<string>)
    ensures r.None? <==> forall i :: 0 <= i < |files| ==> !FileMatches(files[i], urlKey)
    ensures forall i :: FirstMatch(files, urlKey, i) ==> r == Some(files[i].file.value.hash)
  {
    if files == [] then None
    else if FileMatches(files[0], urlKey) then Some(files[0].file.value.hash)
    else
      var r := FirstMatchingHash(files[1..], urlKey);
      assert forall i :: FirstMatch(files, urlKey, i) ==> FirstMatch(files[1..], urlKey, i - 1);
      assert forall i :: 1 <= i < |files| ==> files[i] == files[1..][i - 1];
      r
  }

  /** `getFileHash` with the `file &&` guard applied to every access: the
      hash of the first file whose url starts with the install URL's key,
      `None` (undefined) without a version or a match. */
  function GetFileHash(installURL: string, version: Option<PlatformFiles>): (r: Option<string>)
    ensures version.None? ==> r.None?
    ensures version.Some? ==>
      (r.None? <==> forall i :: 0 <= i < |version.value| ==> !FileMatches(version.value[i], UrlKey(installURL)))
    ensures version.Some? ==>
      forall i :: FirstMatch(version.value, UrlKey(installURL), i) ==> r == Some(version.value[i].file.value.hash)
  {
    match version
    case None => None
    case Some(files) => FirstMatchingHash(files, UrlKey(installURL))
  }

  /** Reading a property of `null` or `undefined`. */
  datatype ScriptError = TypeError

  /** The loop as the source writes it: the debug line before the guard
      reads `file.url`, so an absent file reached before a match throws. */
  function HashLoopAsWritten(files: PlatformFiles, urlKey: string): (r: Result<Option<string>, ScriptError>)
    ensures r.Err? <==> exists i :: AbsentBeforeMatch(files, urlKey, i)
    ensures r.Ok? ==> r.value == FirstMatchingHash(files, urlKey)
  {
    if files == [] then Ok(None)
    else if files[0].file.None? then
      assert AbsentBeforeMatch(files, urlKey, 0);
      Err(TypeError)
    else if FileMatches(files[0], urlKey) then
      assert forall i :: AbsentBeforeMatch(files, urlKey, i) ==> i == 0;
      Ok(Some(files[0].file.value.hash))
    else
      var r := HashLoopAsWritten(files[1..], urlKey);
      assert forall i :: AbsentBeforeMatch(files[1..], urlKey, i) ==> AbsentBeforeMatch(files, urlKey, i + 1);
      assert forall i :: AbsentBeforeMatch(files, urlKey, i) ==> AbsentBeforeMatch(files[1..], urlKey, i - 1);
      r
  }

  /** Entry `i` is absent and no entry before it matches `urlKey`. */
  predicate AbsentBeforeMatch(files: PlatformFiles, urlKey: string, i: int) {
    0 <= i < |files| && files[i].file.None?
    && forall j :: 0 <= j < i ==> !FileMatches(files[j], urlKey)
  }

  /** `getFileHash` as written, including its `console.log(file.url)`. */
  function GetFileHashAsWritten(installURL: string, version: Option<PlatformFiles>): (r: Result<Option<string>, ScriptError>)
    ensures version.None? ==> r == Ok(None)
    ensures version.Some? ==> r == HashLoopAsWritten(version.value, UrlKey(installURL))
  {
    match version
    case None => Ok(None)
    case Some(files) => HashLoopAsWritten(files, UrlKey(installURL))
  }

  /** Without absent files the debug line is harmless: as written and
      corrected agree. */
  lemma AsWrittenAgreesWithoutAbsentFiles(installURL: string, version: Option<PlatformFiles>)
    requires version.Some? ==> forall i :: 0 <= i < |version.value| ==> version.value[i].file.Some?
    ensures GetFileHashAsWritten(installURL, version) == Ok(GetFileHash(installURL, version))
  {
  }

  /** An absent file in front of the matching one: as written the call
      throws, corrected it finds the hash. */
  lemma AbsentFileThrowsAsWritten()
    ensures GetFileHashAsWritten("https://a.org/x.xpi?src=search",
              Some([PlatformFileEntry("android", None),
                    PlatformFileEntry(OS_ALL, Some(PlatformFile("https://a.org/x.xpi", "sha256:1", [])))]))
            == Err(TypeError)
    ensures GetFileHash("https://a.org/x.xpi?src=search",
              Some([PlatformFileEntry("android", None),
                    PlatformFileEntry(OS_ALL, Some(PlatformFile("https://a.org/x.xpi", "sha256:1", [])))]))
            == Some("sha256:1")
  {
    var base := "https://a.org/x.xpi";
    assert '?' !in base;
    UrlKeyIgnoresTheQuery(base, "src=search");
    assert base + ['?'] + "src=search" == "https://a.org/x.xpi?src=search";
    var files := [PlatformFileEntry("android", None),
                  PlatformFileEntry(OS_ALL, Some(PlatformFile(base, "sha256:1", [])))];
    assert FirstMatch(files, base, 1);
  }

  // ---------------------------------------------------------------------
  // removeUndefinedProps
  // ---------------------------------------------------------------------

  /** A JavaScript value as far as JSON-LD output needs one. */
  datatype Value =
    | Undefined
    | Null
    | Bool(b: bool)
    | Number(n: real)
    | Str(s: string)
    | Object(fields: map<string, Value>)

  type JsObject = map<string, Value>

  predicate NoUndefinedProps(o: JsObject) {
    forall k :: k in o ==> o[k] != Undefined
  }

  /** A copy of `o` without the keys whose value is `undefined`. */
  function RemoveUndefinedProps(o: JsObject): (r: JsObject)
    ensures NoUndefinedProps(r)
    ensures forall k :: k in r <==> k in o && o[k] != Undefined
    ensures forall k :: k in r ==> r[k] == o[k]
  {
    map k | k in o && o[k] != Undefined :: o[k]
  }

  /** Removing twice is removing once, and an object without undefined
      values comes back unchanged. */
  lemma RemoveUndefinedPropsIsIdempotent(o: JsObject)
    ensures RemoveUndefinedProps(RemoveUndefinedProps(o)) == RemoveUndefinedProps(o)
    ensures RemoveUndefinedProps(o) == o <==> NoUndefinedProps(o)
  {
    var r := RemoveUndefinedProps(o);
    if r == o {
      assert NoUndefinedProps(o);
    }
  }

  // ---------------------------------------------------------------------
  // getAddonJsonLinkedData
  // ---------------------------------------------------------------------

  datatype Ratings = Ratings(count: int, average: real)

  /** The add-on fields the JSON-LD reads; a `null` summary, version or
      ratings is `None`. */
  datatype LdAddon = LdAddon(
    name: string,
    url: string,
    summary: Option<string>,
    currentVersion: Option<string>,
    ratings: Option<Ratings>)

  const DEFAULT_RATING_THRESHOLD: real := 3.3

  /** Whether the add-on's ratings are published: present, at least one,
      and averaging at least the threshold. */
  predicate ShowsRating(addon: LdAddon, ratingThreshold: Option<real>) {
    addon.ratings.Some? && addon.ratings.value.count > 0
    && addon.ratings.value.average >= ratingThreshold.GetOr(DEFAULT_RATING_THRESHOLD)
  }

  function OptionalString(s: Option<string>): Value {
    match s
    case Some(v) => Str(v)
    case None => Null
  }

  const OFFER: Value := Object(map[
    "@type" := Str("Offer"),
    "availability" := Str("http://schema.org/InStock"),
    "price" := Number(0.0),
    "priceCurrency" := Str("USD")])

  /** The schema.org `WebApplication` object of an add-on page; `image` is
      what `getPreviewImage` returns for the add-on, which is not part of
      this model. */
  function GetAddonJsonLinkedData(addon: LdAddon, image: Value, ratingThreshold: Option<real>): (r: JsObject)
    ensures NoUndefinedProps(r)
    ensures "aggregateRating" in r <==> ShowsRating(addon, ratingThreshold)
    ensures "aggregateRating" in r ==>
      r["aggregateRating"].Object?
      && "ratingCount" in r["aggregateRating"].fields && "ratingValue" in r["aggregateRating"].fields
      && r["aggregateRating"].fields["ratingCount"] == Number(addon.ratings.value.count as real)
      && r["aggregateRating"].fields["ratingValue"] == Number(addon.ratings.value.average)
    ensures "version" in r <==> addon.currentVersion.Some?
    ensures "version" in r ==> r["version"] == Str(addon.currentVersion.value)
    ensures "offers" in r && r["offers"].Object?
    ensures "price" in r["offers"].fields && r["offers"].fields["price"] == Number(0.0)
    ensures "priceCurrency" in r["offers"].fields && r["offers"].fields["priceCurrency"] == Str("USD")
    ensures "image" in r <==> image != Undefined
    ensures "name" in r && "url" in r && "description" in r
    ensures r["name"] == Str(addon.name) && r["url"] == Str(addon.url)
    ensures r["description"] == OptionalString(addon.summary)
  {
    var aggregateRating :=
      if ShowsRating(addon, ratingThreshold) then
        Object(map[
          "@type" := Str("AggregateRating"),
          "ratingCount" := Number(addon.ratings.value.count as real),
          "ratingValue" := Number(addon.ratings.value.average)])
      else Undefined;
    var version := if addon.currentVersion.Some? then Str(addon.currentVersion.value) else Undefined;
    var o := map[
      "@context" := Str("http://schema.org"),
      "@type" := Str("WebApplication"),
      "name" := Str(addon.name),
      "url" := Str(addon.url),
      "image" := image,
      "applicationCategory" := Str("http://schema.org/OtherApplication"),
      "operatingSystem" := Str("Firefox"),
      "description" := OptionalString(addon.summary),
      "offers" := OFFER,
      "version" := version,
      "aggregateRating" := aggregateRating];
    assert o["aggregateRating"] == aggregateRating && o["version"] == version;
    assert o["offers"] == OFFER && o["image"] == image;
    assert o["name"] == Str(addon.name) && o["url"] == Str(addon.url);
    assert o["description"] == OptionalString(addon.summary);
    RemoveUndefinedProps(o)
  }

  /** A lower threshold never hides a rating that a higher one shows, and
      an absent threshold is 3.3. */
  lemma RatingThresholdIsMonotone(addon: LdAddon, low: real, high: real)
    requires low <= high
    ensures "aggregateRating" in GetAddonJsonLinkedData(addon, Undefined, Some(high))
            ==> "aggregateRating" in GetAddonJsonLinkedData(addon, Undefined, Some(low))
    ensures GetAddonJsonLinkedData(addon, Undefined, None)
            == GetAddonJsonLinkedData(addon, Undefined, Some(DEFAULT_RATING_THRESHOLD))
  {
  }

  /** A 3.2 average is not published under the default threshold, however
      many ratings there are, and no ratings at all never are. */
  lemma RatingExamples(addon: LdAddon)
    ensures addon.ratings == Some(Ratings(1000, 3.2)) ==> "aggregateRating" !in GetAddonJsonLinkedData(addon, Null, None)
    ensures addon.ratings == Some(Ratings(0, 5.0)) ==> "aggregateRating" !in GetAddonJsonLinkedData(addon, Null, Some(0.0))
  {
  }
}

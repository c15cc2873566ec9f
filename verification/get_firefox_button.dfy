/** The "Download Firefox" call to action shown to visitors who do not use
    Firefox (`amo/components/GetFirefoxButton`). */
module GetFirefoxButton {
  import opened Wrappers
  import opened Text

  /** The `buttonType` prop; `OtherButtonType` is any value outside the three
      declared ones. */
  datatype ButtonType =
    | TypeAddon
    | TypeHeader
    | TypeNone
    | OtherButtonType(name: string)

  /** Whether the add-on is a static theme (`ADDON_TYPE_STATIC_THEME`) or any
      other type. */
  datatype AddonKind = StaticTheme | OtherAddonType

  datatype FxAddon = FxAddon(guid: string, kind: AddonKind)

  /** The site being browsed (`clientApp`). */
  datatype ClientApp = ClientFirefox | OtherClientApp(name: string)

  /** The result of `getPromotedCategory`, which is not part of this model. */
  datatype PromotedCategory = Recommended | OtherPromotedCategory(name: string) | NotPromoted

  /** The `utm_content` query parameter of the download link: `Rta(guid)`
      stands for "rta:" followed by the base64url encoding of `guid`
      (`encode` is not part of this model). */
  datatype UtmContent = Rta(guid: string) | NoContent | HeaderDownloadButton

  datatype TrackingEvent = TrackingEvent(action: string, category: string, eventLabel: string)

  const CLICK_ACTION: string := "download-firefox-click"
  const CLICK_CATEGORY: string := "AMO Download Firefox"

  /** Everything the component renders around its `Button`. */
  datatype FxView = FxView(
    inHeaderCallout: bool,
    calloutTop: bool,
    calloutLeft: bool,
    calloutText: string,
    buttonText: string,
    buttonClasses: seq<string>,
    micro: bool,
    puffy: bool,
    utmContent: UtmContent,
    clickEvent: TrackingEvent)

  datatype FxError =
    | AddonRequired
    | InvalidButtonType(name: string)

  /** Return-to-AMO: a Firefox download that installs the add-on afterwards. */
  predicate SupportsRTAMO(promoted: PromotedCategory, clientApp: ClientApp) {
    promoted == Recommended && clientApp == ClientFirefox
  }

  const DOWNLOAD_FIREFOX: string := "Download Firefox"

  /** The click event; its label is the add-on's guid or "". */
  function ClickEvent(addon: Option<FxAddon>): TrackingEvent {
    TrackingEvent(CLICK_ACTION, CLICK_CATEGORY, if addon.Some? then addon.value.guid else "")
  }

  /** `makeClassName('GetFirefoxButton-button', className)`. */
  function ButtonClasses(className: Option<string>): (r: seq<string>)
    ensures |r| >= 1 && r[0] == "GetFirefoxButton-button"
    ensures |r| == 2 <==> className.Some? && Truthy(className.value)
    ensures |r| <= 2 && (|r| == 2 ==> r[1] == className.value)
  {
    if className.Some? && Truthy(className.value) then ["GetFirefoxButton-button", className.value]
    else ["GetFirefoxButton-button"]
  }

  /** The rendered button: `None` when nothing is shown, an error when the
      props are invalid. `isFirefoxBrowser` is what `isFirefox` says of the
      user agent and `promoted` what `getPromotedCategory` says of the
      add-on, both outside this model. */
  function Render(addon: Option<FxAddon>, buttonType: ButtonType, className: Option<string>,
                  clientApp: ClientApp, isFirefoxBrowser: bool, promoted: PromotedCategory): (r: Result<Option<FxView>, FxError>)
    ensures r == Ok(None) <==> buttonType == TypeNone || isFirefoxBrowser
    ensures r.Err? <==> !isFirefoxBrowser && (buttonType.OtherButtonType? || (buttonType == TypeAddon && addon.None?))
    ensures r.Ok? && r.value.Some? ==>
      var v := r.value.value;
      && (buttonType == TypeAddon ==> v.puffy && !v.micro && v.calloutTop && !v.calloutLeft && !v.inHeaderCallout)
      && (buttonType == TypeHeader ==> v.micro && !v.puffy && v.calloutLeft && !v.calloutTop && v.inHeaderCallout)
      && (v.buttonText != DOWNLOAD_FIREFOX <==> buttonType == TypeAddon && SupportsRTAMO(promoted, clientApp))
      && v.buttonClasses == ButtonClasses(className)
      && v.clickEvent == ClickEvent(addon)
    ensures r.Ok? && r.value.Some? && buttonType == TypeAddon ==>
      r.value.value.utmContent == (if Truthy(addon.value.guid) then Rta(addon.value.guid) else NoContent)
    ensures r.Ok? && r.value.Some? && buttonType == TypeHeader ==>
      r.value.value.utmContent == HeaderDownloadButton
  {
    if buttonType == TypeNone || isFirefoxBrowser then Ok(None)
    else
      match buttonType
      case TypeAddon =>
        if addon.None? then Err(AddonRequired)
        else
          var a := addon.value;
          var downloadTextForRTAMO :=
            if a.kind == StaticTheme then "Download Firefox and get the theme"
            else "Download Firefox and get the extension";
          var calloutText :=
            if a.kind == StaticTheme then "You'll need Firefox to use this theme"
            else "You'll need Firefox to use this extension";
          Ok(Some(FxView(
            inHeaderCallout := false,
            calloutTop := true,
            calloutLeft := false,
            calloutText := calloutText,
            buttonText := if SupportsRTAMO(promoted, clientApp) then downloadTextForRTAMO else DOWNLOAD_FIREFOX,
            buttonClasses := ButtonClasses(className),
            micro := false,
            puffy := true,
            utmContent := if Truthy(a.guid) then Rta(a.guid) else NoContent,
            clickEvent := ClickEvent(addon))))
      case TypeHeader =>
        Ok(Some(FxView(
          inHeaderCallout := true,
          calloutTop := false,
          calloutLeft := true,
          calloutText :=
            if clientApp == ClientFirefox then "You'll need Firefox to use these extensions and themes"
            else "You'll need Firefox to use these extensions",
          buttonText := DOWNLOAD_FIREFOX,
          buttonClasses := ButtonClasses(className),
          micro := true,
          puffy := false,
          utmContent := HeaderDownloadButton,
          clickEvent := ClickEvent(addon))))
      case OtherButtonType(name) => Err(InvalidButtonType(name))
  }

  /** In the header the add-on and its promotion matter only to the click
      label: two renders with the same client app and class name show the
      same callout, text and link. */
  lemma HeaderIgnoresTheAddon(addon1: Option<FxAddon>, addon2: Option<FxAddon>, className: Option<string>,
                              clientApp: ClientApp, promoted1: PromotedCategory, promoted2: PromotedCategory)
    ensures
      var r1 := Render(addon1, TypeHeader, className, clientApp, false, promoted1);
      var r2 := Render(addon2, TypeHeader, className, clientApp, false, promoted2);
      r1.Ok? && r1.value.Some? && r2.Ok? && r2.value.Some?
      && r1.value.value.(clickEvent := r2.value.value.clickEvent) == r2.value.value
  {
  }

  /** The add-on button names the add-on's type exactly when return-to-AMO
      is supported: a theme gets the theme text and anything else the
      extension text. */
  lemma AddonButtonTextFollowsRTAMO(a: FxAddon, className: Option<string>, clientApp: ClientApp, promoted: PromotedCategory)
    ensures
      var r := Render(Some(a), TypeAddon, className, clientApp, false, promoted);
      r.Ok? && r.value.Some?
      && r.value.value.buttonText ==
         (if !SupportsRTAMO(promoted, clientApp) then DOWNLOAD_FIREFOX
          else if a.kind == StaticTheme then "Download Firefox and get the theme"
          else "Download Firefox and get the extension")
  {
  }
}

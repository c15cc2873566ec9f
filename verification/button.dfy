/** The shared button of the UI kit (`ui/components/Button`): a `<button>`,
    or a `Link` when it is given a destination, styled by its type. */
module Button {
  import opened Wrappers
  import opened Text

  /** The accepted values of the `type` prop. */
  const BUTTON_TYPES: seq<string> :=
    ["neutral", "light", "action", "cancel", "confirm", "alert", "report", "none"]

  /** `!type || !BUTTON_TYPES.includes(type)` is false. */
  predicate IsValidType(typeName: Option<string>) {
    typeName.Some? && Truthy(typeName.value) && typeName.value in BUTTON_TYPES
  }

  /** The props the component reads; `typeName` is the `type` prop, and
      `disabled` and the caller's `onClick` travel in the remaining props. */
  datatype ButtonProps = ButtonProps(
    className: Option<string>,
    href: Option<string>,
    to: Option<string>,
    typeName: Option<string>,
    width: Option<string>,
    disabled: bool)

  /** The click handler of the rendered element: the caller's (possibly
      absent) `onClick`, or the replacement that only calls
      `preventDefault` (and logs). */
  datatype ClickHandler = CallerOnClick | PreventDefaultOnly

  datatype Element =
    | LinkElement(href: Option<string>, to: Option<string>,
                  prependClientApp: Option<bool>, prependLang: Option<bool>,
                  classes: seq<string>, onClick: ClickHandler, disabled: bool)
    | ButtonElement(classes: seq<string>, onClick: ClickHandler, disabled: bool)

  /** The error thrown for a missing or unknown `type`. */
  datatype ButtonError = InvalidButtonType(typeName: Option<string>)

  function TruthyOption(s: Option<string>): bool {
    s.Some? && Truthy(s.value)
  }

  /** `setClassName` as written: `{ width: ... }` makes classnames add the
      key "width", whose value is a non-empty template string, to every
      button. */
  function SetClassNameAsWritten(typeName: string, className: Option<string>, disabled: bool): (r: seq<string>)
    ensures |r| >= 3 && r[0] == "Button" && r[1] == "Button--" + typeName && r[|r| - 1] == "width"
    ensures "disabled" in r <==> disabled || className == Some("disabled")
  {
    PrefixedIsNotAFlag("Button--", typeName);
    ["Button", "Button--" + typeName]
    + (if TruthyOption(className) then [className.value] else [])
    + (if disabled then ["disabled"] else [])
    + ["width"]
  }

  /** A class starting with "B" is neither of the flag names. */
  lemma PrefixedIsNotAFlag(prefix: string, s: string)
    requires prefix != [] && prefix[0] == 'B'
    ensures prefix + s != "disabled" && prefix + s != "width"
  {
    assert (prefix + s)[0] == 'B';
  }

  /** `setClassName` with the width class keyed by its own name, added only
      when a width is given. */
  function SetClassName(typeName: string, className: Option<string>, disabled: bool, width: Option<string>): (r: seq<string>)
    ensures |r| >= 2 && r[0] == "Button" && r[1] == "Button--" + typeName
    ensures TruthyOption(width) ==> r[|r| - 1] == "Button--width-" + width.value
    ensures "disabled" in r <==> disabled || className == Some("disabled")
    ensures "width" in r <==> className == Some("width")
    ensures |r| == 2 + (if TruthyOption(className) then 1 else 0) + (if disabled then 1 else 0)
                     + (if TruthyOption(width) then 1 else 0)
  {
    var r := ["Button", "Button--" + typeName]
      + (if TruthyOption(className) then [className.value] else [])
      + (if disabled then ["disabled"] else [])
      + (if TruthyOption(width) then ["Button--width-" + width.value] else []);
    PrefixedIsNotAFlag("Button--", typeName);
    if TruthyOption(width) then
      PrefixedIsNotAFlag("Button--width-", width.value);
      r
    else
      r
  }

  /** The element for a valid type, given the classes of the link and of
      the `<button>` form: a `Link` when `href` or `to` is set (with
      `href` taking precedence), a `<button>` otherwise. */
  function Shape(p: ButtonProps, linkClasses: seq<string>, buttonClasses: seq<string>): Element {
    if TruthyOption(p.href) || TruthyOption(p.to) then
      var onClick := if p.disabled then PreventDefaultOnly else CallerOnClick;
      if TruthyOption(p.href) then
        LinkElement(p.href, None, Some(false), Some(false), linkClasses, onClick, p.disabled)
      else
        LinkElement(None, p.to, None, None, linkClasses, onClick, p.disabled)
    else
      ButtonElement(buttonClasses, CallerOnClick, p.disabled)
  }

  /** `render()` as written: the rendered element, or the error for an
      invalid type, with the class list of `setClassName` as written. */
  function Render(p: ButtonProps): (r: Result<Element, ButtonError>)
    ensures r.Err? <==> !IsValidType(p.typeName)
    ensures r.Err? ==> r.error == InvalidButtonType(p.typeName)
    ensures r.Ok? ==> (r.value.LinkElement? <==> TruthyOption(p.href) || TruthyOption(p.to))
    ensures r.Ok? ==> r.value.disabled == p.disabled
    ensures r.Ok? && r.value.LinkElement? && TruthyOption(p.href) ==>
      r.value.href == p.href && r.value.to.None?
      && r.value.prependClientApp == Some(false) && r.value.prependLang == Some(false)
    ensures r.Ok? && r.value.LinkElement? && !TruthyOption(p.href) ==>
      r.value.to == p.to && r.value.href.None? && r.value.prependClientApp.None? && r.value.prependLang.None?
    ensures r.Ok? ==> (r.value.onClick == PreventDefaultOnly <==> r.value.LinkElement? && p.disabled)
    ensures r.Ok? && r.value.LinkElement? ==> r.value.classes == SetClassNameAsWritten(p.typeName.value, p.className, p.disabled)
    ensures r.Ok? && r.value.ButtonElement? ==> r.value.classes == SetClassNameAsWritten(p.typeName.value, p.className, false)
  {
    if !IsValidType(p.typeName) then Err(InvalidButtonType(p.typeName))
    else
      var typeName := p.typeName.value;
      Ok(Shape(p, SetClassNameAsWritten(typeName, p.className, p.disabled),
                  SetClassNameAsWritten(typeName, p.className, false)))
  }

  /** `render()` with the corrected `setClassName`: the same element, whose
      width class is present only when a width is given. */
  function RenderCorrected(p: ButtonProps): (r: Result<Element, ButtonError>)
    ensures r.Err? <==> !IsValidType(p.typeName)
    ensures r.Err? ==> r.error == InvalidButtonType(p.typeName)
    ensures r.Ok? ==> (r.value.LinkElement? <==> TruthyOption(p.href) || TruthyOption(p.to))
    ensures r.Ok? ==> r.value.disabled == p.disabled
    ensures r.Ok? && r.value.LinkElement? && TruthyOption(p.href) ==>
      r.value.href == p.href && r.value.to.None?
      && r.value.prependClientApp == Some(false) && r.value.prependLang == Some(false)
    ensures r.Ok? && r.value.LinkElement? && !TruthyOption(p.href) ==>
      r.value.to == p.to && r.value.href.None? && r.value.prependClientApp.None? && r.value.prependLang.None?
    ensures r.Ok? ==> (r.value.onClick == PreventDefaultOnly <==> r.value.LinkElement? && p.disabled)
    ensures r.Ok? && r.value.LinkElement? ==> r.value.classes == SetClassName(p.typeName.value, p.className, p.disabled, p.width)
    ensures r.Ok? && r.value.ButtonElement? ==> r.value.classes == SetClassName(p.typeName.value, p.className, false, p.width)
  {
    if !IsValidType(p.typeName) then Err(InvalidButtonType(p.typeName))
    else
      var typeName := p.typeName.value;
      Ok(Shape(p, SetClassName(typeName, p.className, p.disabled, p.width),
                  SetClassName(typeName, p.className, false, p.width)))
  }

  /** The as-written and corrected renderings agree on everything except
      the class list: the same element kind, destination and click
      handler, and an error for the same types. */
  lemma RenderDiffersOnlyInClasses(p: ButtonProps)
    ensures Render(p).Err? <==> RenderCorrected(p).Err?
    ensures Render(p).Ok? ==>
      Render(p).value.(classes := RenderCorrected(p).value.classes) == RenderCorrected(p).value
  {
  }

  /** Every element rendered as written carries the stray class "width",
      whatever width was asked for; the corrected element carries the
      caller's width class exactly when a width is given. */
  lemma RenderedWidthClass(p: ButtonProps)
    requires IsValidType(p.typeName) && p.className != Some("width")
    ensures "width" in Render(p).value.classes
    ensures "width" !in RenderCorrected(p).value.classes
    ensures TruthyOption(p.width) ==> "Button--width-" + p.width.value in RenderCorrected(p).value.classes
  {
    var c := Render(p).value.classes;
    assert c[|c| - 1] in c;
    var d := RenderCorrected(p).value.classes;
    if TruthyOption(p.width) {
      assert d[|d| - 1] in d;
    }
  }

  /** Every rendered element carries "Button" and its type class, and a
      "disabled" class (unless the caller passes that name itself) exactly
      when it is a disabled link: a disabled `<button>` relies on its
      attribute instead. */
  lemma DisabledClassOnlyOnLinks(p: ButtonProps)
    requires IsValidType(p.typeName) && p.className != Some("disabled")
    ensures
      var r := Render(p);
      r.Ok? && "Button" in r.value.classes && "Button--" + p.typeName.value in r.value.classes
      && ("disabled" in r.value.classes <==> r.value.LinkElement? && p.disabled)
    ensures
      var r := RenderCorrected(p);
      r.Ok? && "Button" in r.value.classes && "Button--" + p.typeName.value in r.value.classes
      && ("disabled" in r.value.classes <==> r.value.LinkElement? && p.disabled)
  {
    var r := Render(p);
    assert r.value.classes[0] == "Button" && r.value.classes[1] == "Button--" + p.typeName.value;
    var c := RenderCorrected(p);
    assert c.value.classes[0] == "Button" && c.value.classes[1] == "Button--" + p.typeName.value;
  }

  /** The width class as written is present on every button, and it is not
      the width the caller asked for; the corrected list has it exactly when
      a width is given. */
  lemma WidthClassAsWritten(typeName: string, className: Option<string>, disabled: bool)
    ensures "width" in SetClassNameAsWritten(typeName, className, disabled)
    ensures className != Some("width") ==> "width" !in SetClassName(typeName, className, disabled, None)
    ensures SetClassNameAsWritten("neutral", None, false) == ["Button", "Button--neutral", "width"]
    ensures SetClassName("neutral", None, false, None) == ["Button", "Button--neutral"]
  {
    var r := SetClassNameAsWritten(typeName, className, disabled);
    assert r[|r| - 1] in r;
    assert "Button--" + "neutral" == "Button--neutral";
    assert SetClassNameAsWritten("neutral", None, false) == ["Button", "Button--neutral"] + [] + [] + ["width"];
  }
}

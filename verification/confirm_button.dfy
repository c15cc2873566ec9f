/** A button that asks for confirmation before acting
    (`ui/components/ConfirmButton`): the first click reveals confirm and
    cancel buttons, confirm runs the action, cancel hides them again. */
module ConfirmButton {
  import opened Wrappers
  import opened Text
  import Button

  /** The component's UI state, kept per `id` by `withUIState`. */
  datatype UIState = UIState(showConfirmation: bool)

  const INITIAL_UI_STATE: UIState := UIState(false)

  /** What a handler does besides updating the UI state. */
  datatype Effect = PreventDefault | SetUIState(showConfirmation: bool) | CallOnConfirm

  /** The UI state after `setUIState` is applied for each effect in turn. */
  function Apply(state: UIState, effects: seq<Effect>): (r: UIState)
    ensures (forall i :: 0 <= i < |effects| ==> !effects[i].SetUIState?) ==> r == state
    decreases |effects|
  {
    if effects == [] then state
    else
      var next := if effects[0].SetUIState? then UIState(effects[0].showConfirmation) else state;
      Apply(next, effects[1..])
  }

  /** `onConfirm`: hide the confirmation, then call the `onConfirm` prop. */
  function OnConfirm(state: UIState): (r: (UIState, seq<Effect>))
    ensures !r.0.showConfirmation
    ensures multiset(r.1)[CallOnConfirm] == 1
    ensures r.0 == Apply(state, r.1)
  {
    var effects := [SetUIState(false), CallOnConfirm];
    (Apply(state, effects), effects)
  }

  /** `toggleConfirmation`: prevent the default action and flip the state. */
  function ToggleConfirmation(state: UIState): (r: (UIState, seq<Effect>))
    ensures r.0.showConfirmation == !state.showConfirmation
    ensures CallOnConfirm !in r.1 && PreventDefault in r.1
    ensures r.0 == Apply(state, r.1)
  {
    var effects := [PreventDefault, SetUIState(!state.showConfirmation)];
    (Apply(state, effects), effects)
  }

  /** Toggling twice gives the state back; confirming from any state leaves
      the confirmation hidden, as if the component had just been mounted. */
  lemma ToggleTwiceRestores(state: UIState)
    ensures ToggleConfirmation(ToggleConfirmation(state).0).0 == state
    ensures OnConfirm(state).0 == INITIAL_UI_STATE
  {
  }

  /** Which handler a rendered button has. */
  datatype Handler = HandleConfirm | HandleToggle

  datatype ButtonSpec = ButtonSpec(buttonType: string, className: string, text: string, onClick: Handler, puffy: bool)

  datatype View =
    | DefaultView(classes: seq<string>, button: ButtonSpec)
    | ConfirmationView(classes: seq<string>, message: Option<string>, confirm: ButtonSpec, cancel: ButtonSpec)

  /** The props; an optional prop left out is `None`, and `null` texts are
      `None` as well. */
  datatype Props = Props(
    buttonType: Option<string>,
    cancelButtonText: Option<string>,
    cancelButtonType: Option<string>,
    children: string,
    className: Option<string>,
    confirmButtonText: Option<string>,
    confirmButtonType: Option<string>,
    id: string,
    message: Option<string>,
    hasOnConfirm: bool,
    puffyButtons: bool)

  /** The `invariant` checks of `render`, in their order. */
  datatype RenderError = ChildrenRequired | IdRequired | OnConfirmRequired

  /** `x || fallback` on an optional string. */
  function OrDefault(s: Option<string>, fallback: string): (r: string)
    ensures s.Some? && Truthy(s.value) ==> r == s.value
    ensures !(s.Some? && Truthy(s.value)) ==> r == fallback
  {
    if s.Some? && Truthy(s.value) then s.value else fallback
  }

  /** `makeClassName('ConfirmButton', className, {...})`. */
  function Classes(className: Option<string>, showConfirmation: bool): (r: seq<string>)
    ensures |r| >= 1 && r[0] == "ConfirmButton"
    ensures "ConfirmButton--show-confirmation" in r <==> showConfirmation || className == Some("ConfirmButton--show-confirmation")
    ensures |r| == 1 + (if className.Some? && Truthy(className.value) then 1 else 0) + (if showConfirmation then 1 else 0)
    ensures className.Some? && Truthy(className.value) ==> r[1] == className.value
  {
    ["ConfirmButton"]
    + (if className.Some? && Truthy(className.value) then [className.value] else [])
    + (if showConfirmation then ["ConfirmButton--show-confirmation"] else [])
  }

  /** The rendered buttons for a UI state. */
  function Render(p: Props, state: UIState): (r: Result<View, RenderError>)
    ensures r.Err? <==> !Truthy(p.children) || !Truthy(p.id) || !p.hasOnConfirm
    ensures r.Err? ==> r.error == (if !Truthy(p.children) then ChildrenRequired
                                   else if !Truthy(p.id) then IdRequired else OnConfirmRequired)
    ensures r.Ok? ==> (r.value.ConfirmationView? <==> state.showConfirmation)
    ensures r.Ok? ==> r.value.classes == Classes(p.className, state.showConfirmation)
    ensures r.Ok? && r.value.DefaultView? ==>
      r.value.button == ButtonSpec(p.buttonType.GetOr("neutral"), "ConfirmButton-default-button", p.children, HandleToggle, false)
    ensures r.Ok? && r.value.ConfirmationView? ==>
      && r.value.confirm.onClick == HandleConfirm && r.value.cancel.onClick == HandleToggle
      && r.value.confirm.buttonType == p.confirmButtonType.GetOr("alert")
      && r.value.cancel.buttonType == p.cancelButtonType.GetOr("cancel")
      && r.value.confirm.text == OrDefault(p.confirmButtonText, "Confirm")
      && r.value.cancel.text == OrDefault(p.cancelButtonText, "Cancel")
      && r.value.confirm.puffy == p.puffyButtons && r.value.cancel.puffy == p.puffyButtons
      && (r.value.message.Some? <==> p.message.Some? && Truthy(p.message.value))
  {
    if !Truthy(p.children) then Err(ChildrenRequired)
    else if !Truthy(p.id) then Err(IdRequired)
    else if !p.hasOnConfirm then Err(OnConfirmRequired)
    else
      var classes := Classes(p.className, state.showConfirmation);
      if state.showConfirmation then
        Ok(ConfirmationView(
          classes,
          if p.message.Some? && Truthy(p.message.value) then p.message else None,
          ButtonSpec(p.confirmButtonType.GetOr("alert"), "ConfirmButton-confirm-button",
                     OrDefault(p.confirmButtonText, "Confirm"), HandleConfirm, p.puffyButtons),
          ButtonSpec(p.cancelButtonType.GetOr("cancel"), "ConfirmButton-cancel-button",
                     OrDefault(p.cancelButtonText, "Cancel"), HandleToggle, p.puffyButtons)))
      else
        Ok(DefaultView(classes, ButtonSpec(p.buttonType.GetOr("neutral"), "ConfirmButton-default-button",
                                           p.children, HandleToggle, false)))
  }

  /** Running a button's click handler. */
  function Click(h: Handler, state: UIState): (r: (UIState, seq<Effect>))
    ensures r == (if h == HandleConfirm then OnConfirm(state) else ToggleConfirmation(state))
  {
    match h
    case HandleConfirm => OnConfirm(state)
    case HandleToggle => ToggleConfirmation(state)
  }

  /** From a freshly mounted component: clicking the default button shows the
      confirmation; then cancel brings the default view back without calling
      `onConfirm`, and confirm brings it back after calling `onConfirm` once. */
  lemma ClickThrough(p: Props)
    requires Truthy(p.children) && Truthy(p.id) && p.hasOnConfirm
    ensures
      var v0 := Render(p, INITIAL_UI_STATE).value;
      v0.DefaultView?
      && var (s1, _) := Click(v0.button.onClick, INITIAL_UI_STATE);
         var v1 := Render(p, s1).value;
         v1.ConfirmationView?
         && Click(v1.cancel.onClick, s1).0 == INITIAL_UI_STATE
         && CallOnConfirm !in Click(v1.cancel.onClick, s1).1
         && Click(v1.confirm.onClick, s1).0 == INITIAL_UI_STATE
         && multiset(Click(v1.confirm.onClick, s1).1)[CallOnConfirm] == 1
  {
  }

  /** The buttons a view renders, in order. */
  function Buttons(v: View): seq<ButtonSpec> {
    match v
    case DefaultView(_, b) => [b]
    case ConfirmationView(_, _, c, k) => [c, k]
  }

  /** Whatever the state, the last button rendered toggles the
      confirmation, and a button calls `onConfirm` exactly when the
      confirmation is shown, and then it is the first of two. */
  lemma ButtonsOfRender(p: Props, state: UIState)
    requires Truthy(p.children) && Truthy(p.id) && p.hasOnConfirm
    ensures var bs := Buttons(Render(p, state).value);
            && |bs| == (if state.showConfirmation then 2 else 1)
            && bs[|bs| - 1].onClick == HandleToggle
            && ((exists i :: 0 <= i < |bs| && bs[i].onClick == HandleConfirm) <==> state.showConfirmation)
            && (state.showConfirmation ==> bs[0].onClick == HandleConfirm)
  {
    var bs := Buttons(Render(p, state).value);
    if state.showConfirmation {
      assert bs[0].onClick == HandleConfirm;
    } else {
      assert bs == [bs[0]] && bs[0].onClick == HandleToggle;
    }
  }

  /** The props each button is rendered with as written: the type is passed
      as `buttonType`, a key `ui/components/Button` does not read, so it
      sees no `type` at all. */
  function ButtonPropsAsWritten(spec: ButtonSpec): (r: Button.ButtonProps)
    ensures r.typeName.None? && r.className == Some(spec.className)
    ensures r.href.None? && r.to.None? && !r.disabled
  {
    Button.ButtonProps(Some(spec.className), None, None, None, None, false)
  }

  /** The props each button is rendered with once the type is passed under
      the key `Button` reads. */
  function ButtonPropsFor(spec: ButtonSpec): (r: Button.ButtonProps)
    ensures r.typeName == Some(spec.buttonType) && r.className == Some(spec.className)
    ensures r.href.None? && r.to.None? && !r.disabled
  {
    Button.ButtonProps(Some(spec.className), None, None, Some(spec.buttonType), None, false)
  }

  /** As written, every button a valid ConfirmButton renders throws. */
  lemma EveryButtonThrowsAsWritten(p: Props, state: UIState)
    requires Render(p, state).Ok?
    ensures forall b :: b in Buttons(Render(p, state).value) ==> Button.Render(ButtonPropsAsWritten(b)).Err?
  {
  }

  /** A button type prop that is left out or is one of `Button`'s types. */
  predicate ValidOrAbsent(t: Option<string>) {
    t.None? || Button.IsValidType(t)
  }

  /** With the type passed through, the default types (and any valid ones)
      render each button as a plain `<button>` with its own classes. */
  lemma ButtonsRenderWithTheirTypes(p: Props, state: UIState)
    requires Render(p, state).Ok?
    requires ValidOrAbsent(p.buttonType) && ValidOrAbsent(p.confirmButtonType) && ValidOrAbsent(p.cancelButtonType)
    ensures forall b :: b in Buttons(Render(p, state).value) ==>
      var r := Button.Render(ButtonPropsFor(b));
      r.Ok? && r.value.ButtonElement? && b.className in r.value.classes
  {
    assert "neutral" in Button.BUTTON_TYPES && "alert" in Button.BUTTON_TYPES && "cancel" in Button.BUTTON_TYPES;
    forall b | b in Buttons(Render(p, state).value)
      ensures Button.Render(ButtonPropsFor(b)).Ok? && Button.Render(ButtonPropsFor(b)).value.ButtonElement?
              && b.className in Button.Render(ButtonPropsFor(b)).value.classes
    {
      var classes := Button.Render(ButtonPropsFor(b)).value.classes;
      assert classes[2] == b.className;
    }
  }
}

/**
 * The two stateful page helpers of `utils/dom.js`: the loading state of a
 * button, which saves the button's label once and restores it afterwards, and
 * the show-password toggle.
 */
module Dom {

  /** What the loading helper reads and writes on a button; `saved` is `dataset.label`, "" when unset. */
  datatype ButtonState = ButtonState(text: string, saved: string, disabled: bool, busy: bool)

  /** The label entering the loading state keeps: the saved one, else the current text. */
  function SavedLabel(s: ButtonState): string {
    if s.saved != [] then s.saved else s.text
  }

  /** `setButtonLoading(btn, true, textWhenLoading)`: the text changes only to a non-empty loading text. */
  function Loading(s: ButtonState, textWhenLoading: string): ButtonState {
    ButtonState(if textWhenLoading != [] then textWhenLoading else s.text, SavedLabel(s), true, true)
  }

  /** `setButtonLoading(btn, false)`: the saved label comes back, if there is one. */
  function Idle(s: ButtonState): ButtonState {
    ButtonState(SavedLabel(s), s.saved, false, false)
  }

  /** Loading disables the button and marks it busy; leaving it enables it again and clears the mark. */
  lemma LoadingFlags(s: ButtonState, textWhenLoading: string)
    ensures Loading(s, textWhenLoading).disabled && Loading(s, textWhenLoading).busy
    ensures !Idle(s).disabled && !Idle(s).busy
    ensures textWhenLoading == [] ==> Loading(s, textWhenLoading).text == s.text
  {
  }

  /**
   * On a button with a text and no label saved, or with its own text saved,
   * entering and leaving the loading state gives the button's text back and
   * saves it.
   */
  lemma LoadingRoundTrip(s: ButtonState, textWhenLoading: string)
    requires s.text != [] && (s.saved == [] || s.saved == s.text)
    ensures Idle(Loading(s, textWhenLoading)).text == s.text
    ensures Idle(Loading(s, textWhenLoading)).saved == s.text
  {
  }

  /** A button with no text saves nothing, so the loading text stays after loading ends. */
  lemma EmptyTextKeepsLoadingText(s: ButtonState, textWhenLoading: string)
    requires s.text == [] && s.saved == []
    ensures Idle(Loading(s, textWhenLoading)).text == textWhenLoading
  {
  }

  /** Once a label is saved, loading again keeps it: the label is saved on the first loading only. */
  lemma LabelSavedOnce(s: ButtonState, first: string, second: string)
    requires s.saved != [] || s.text != []
    ensures Loading(Loading(s, first), second).saved == Loading(s, first).saved
    ensures Idle(Loading(Loading(s, first), second)).text == SavedLabel(s)
  {
  }

  /** Leaving the loading state twice is the same as leaving it once. */
  lemma IdleIdempotent(s: ButtonState)
    ensures Idle(Idle(s)) == Idle(s)
  {
  }

  class Button {
    var text: string
    var saved: string
    var disabled: bool
    var busy: bool

    function State(): ButtonState
      reads this
    {
      ButtonState(text, saved, disabled, busy)
    }

    constructor (caption: string)
      ensures State() == ButtonState(caption, [], false, false)
    {
      text, saved, disabled, busy := caption, [], false, false;
    }
  }

  /** `setButtonLoading(btn, loading, textWhenLoading)`; a missing button is left alone. */
  method SetButtonLoading(btn: Button?, loading: bool, textWhenLoading: string)
    modifies btn
    ensures btn != null ==>
      btn.State() == if loading then Loading(old(btn.State()), textWhenLoading) else Idle(old(btn.State()))
  {
    if btn == null {
      return;
    }
    if loading {
      if btn.saved == [] {
        btn.saved := btn.text;
      }
      if textWhenLoading != [] {
        btn.text := textWhenLoading;
      }
      btn.disabled := true;
      btn.busy := true;
    } else {
      btn.text := if btn.saved != [] then btn.saved else btn.text;
      btn.disabled := false;
      btn.busy := false;
    }
  }

  /** The type of the password input. */
  datatype InputType = PasswordInput | TextInput | OtherInput

  /** The input's type and the toggle button's text. */
  datatype ToggleState = ToggleState(inputType: InputType, caption: string)

  const HideCaption := "Hide"
  const ShowCaption := "Show"

  /** A click on the show-password button. */
  function Toggled(s: ToggleState): ToggleState {
    if s.inputType == PasswordInput then ToggleState(TextInput, HideCaption) else ToggleState(PasswordInput, ShowCaption)
  }

  /** The button offers the opposite of what the input shows: "Hide" for visible text, "Show" for a masked password. */
  predicate Consistent(s: ToggleState) {
    || (s.inputType == TextInput && s.caption == HideCaption)
    || (s.inputType == PasswordInput && s.caption == ShowCaption)
  }

  /** A click leaves the toggle consistent, unmasks a masked password and masks anything else. */
  lemma ToggledConsistent(s: ToggleState)
    ensures Consistent(Toggled(s))
    ensures Toggled(s).inputType == TextInput <==> s.inputType == PasswordInput
  {
  }

  /** On a consistent toggle, two clicks restore the original state. */
  lemma ToggleInvolution(s: ToggleState)
    requires Consistent(s)
    ensures Toggled(Toggled(s)) == s
  {
  }

  class PasswordToggle {
    var inputType: InputType
    var caption: string

    function State(): ToggleState
      reads this
    {
      ToggleState(inputType, caption)
    }

    constructor (t: InputType, c: string)
      ensures State() == ToggleState(t, c)
    {
      inputType, caption := t, c;
    }

    /** The click listener `setupShowPassword` binds. */
    method Click()
      modifies this
      ensures State() == Toggled(old(State()))
    {
      var isPassword := inputType == PasswordInput;
      inputType := if isPassword then TextInput else PasswordInput;
      caption := if isPassword then HideCaption else ShowCaption;
    }
  }
}

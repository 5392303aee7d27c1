/** The modal dialog of internal/screen_modal.go and ui/screen_modal.go: a
  * title, a text and one or two buttons shown as a yes/no confirm field,
  * whose answer is mapped back to the label of the button chosen. The
  * confirm field itself belongs to the form library; here it is the labels
  * it shows and the answer it gives back. */
module Modals {
  import opened Bytes
  import C = ClientModel
  import U = UiModel
  import H = ScreenHistory

  datatype ModalScreen = ModalScreen(kind: C.ModalType, title: string, content: string, buttons: seq<string>)

  /** The confirm field: its two labels and the answer it starts on. */
  datatype Confirm = Confirm(affirmative: string, negative: string, initial: bool)

  /** What the modal sends its parent. */
  datatype ModalMsg = Cancelled | ButtonClicked(title: string, button: string, kind: C.ModalType)

  datatype ModalKey = Esc | OtherKey

  /** NewModalScreen: a modal without buttons gets a single "OK". */
  function NewModalScreen(kind: C.ModalType, title: string, content: string, buttons: seq<string>): (s: ModalScreen)
    ensures |s.buttons| >= 1
    ensures buttons == [] ==> s.buttons == ["OK"]
    ensures buttons != [] ==> s.buttons == buttons
    ensures s.kind == kind && s.title == title && s.content == content
  {
    ModalScreen(kind, title, content, if |buttons| == 0 then ["OK"] else buttons)
  }

  /** initForm: one button is the affirmative with an empty negative; with
    * two or more, the second is the affirmative and the first the negative,
    * and the field starts on the affirmative. */
  function InitForm(buttons: seq<string>): (f: Confirm)
    requires |buttons| >= 1
    ensures f.affirmative in buttons
    ensures |buttons| >= 2 <==> f.initial
    ensures |buttons| == 1 ==> f.negative == ""
    ensures |buttons| >= 2 ==> f.negative == buttons[0] && f.affirmative == buttons[1]
  {
    if |buttons| == 1 then Confirm(buttons[0], "", false) else Confirm(buttons[1], buttons[0], true)
  }

  /** handleFormComplete as written: a yes answer names the last button, a
    * no answer the first when there are two or more, and "" otherwise. */
  function ClickedAsWritten(buttons: seq<string>, confirmed: bool): (b: string)
    requires |buttons| >= 1
    ensures confirmed ==> b == buttons[|buttons| - 1]
    ensures !confirmed ==> b == if |buttons| > 1 then buttons[0] else ""
  {
    if confirmed then buttons[|buttons| - 1]
    else if |buttons| > 1 then buttons[0]
    else ""
  }

  /** The label of the answer the confirm field showed. */
  function Clicked(buttons: seq<string>, confirmed: bool): (b: string)
    requires |buttons| >= 1
    ensures b == "" || b in buttons
    ensures b == if confirmed then InitForm(buttons).affirmative else InitForm(buttons).negative
  {
    var f := InitForm(buttons);
    if confirmed then f.affirmative else f.negative
  }

  /** For the one- and two-button modals the client builds, the button
    * handleFormComplete reports is the label the user chose. */
  lemma ClickedAsWrittenForTwo(buttons: seq<string>, confirmed: bool)
    requires 1 <= |buttons| <= 2
    ensures ClickedAsWritten(buttons, confirmed) == Clicked(buttons, confirmed)
  {
  }

  /** With three buttons, confirming the affirmative shown (the second
    * button) is reported as the third. */
  lemma ClickedAsWrittenForThree()
    ensures Clicked(["No", "Yes", "Maybe"], true) == "Yes"
    ensures ClickedAsWritten(["No", "Yes", "Maybe"], true) == "Maybe"
  {
  }

  /** handleKeys and Update: esc cancels; any other key goes to the form,
    * and once the form completes with an answer the button handleFormComplete
    * picks is sent together with the modal's title and type. A yes names the
    * last button, a no the first (or "" for a lone button); for one or two
    * buttons this is the label the confirm field showed. */
  function HandleKey(s: ModalScreen, key: ModalKey, completed: Option<bool>): (msg: Option<ModalMsg>)
    requires |s.buttons| >= 1
    ensures key == Esc ==> msg == Some(Cancelled)
    ensures key != Esc && completed == None ==> msg == None
    ensures key != Esc && completed.Some? ==> msg.Some? && msg.value.ButtonClicked?
    ensures msg.Some? && msg.value.ButtonClicked? ==>
              msg.value.title == s.title && msg.value.kind == s.kind
              && (msg.value.button == "" || msg.value.button in s.buttons)
    ensures key != Esc && completed == Some(true) ==> msg.value.button == s.buttons[|s.buttons| - 1]
    ensures key != Esc && completed == Some(false) ==>
              msg.value.button == if |s.buttons| > 1 then s.buttons[0] else ""
    ensures key != Esc && completed.Some? && |s.buttons| <= 2 ==>
              msg.value.button == Clicked(s.buttons, completed.value)
  {
    match key
    case Esc => Some(Cancelled)
    case OtherKey =>
      if completed.Some? then Some(ButtonClicked(s.title, ClickedAsWritten(s.buttons, completed.value), s.kind)) else None
  }

  /** A form submitted on its starting answer: a modal with two or more
    * buttons reports its last button, which for two buttons is the
    * affirmative the field showed, while a one-button modal, whose field
    * starts on no, reports the empty label. */
  lemma EnterPicksDefault(s: ModalScreen)
    requires |s.buttons| >= 1
    ensures var f := InitForm(s.buttons);
            |s.buttons| >= 2 ==> HandleKey(s, OtherKey, Some(f.initial)) == Some(ButtonClicked(s.title, s.buttons[|s.buttons| - 1], s.kind))
    ensures var f := InitForm(s.buttons);
            |s.buttons| == 2 ==> HandleKey(s, OtherKey, Some(f.initial)) == Some(ButtonClicked(s.title, f.affirmative, s.kind))
    ensures var f := InitForm(s.buttons);
            |s.buttons| == 1 ==> HandleKey(s, OtherKey, Some(f.initial)) == Some(ButtonClicked(s.title, "", s.kind))
  {
  }

  /** The ui package's ModalScreen.Update: ModalCancelledMsg pops the
    * model's screen and ModalButtonClickedMsg is handed to the model. */
  method UiModalUpdate(m: U.Model, msg: ModalMsg) returns (cmd: C.Cmd)
    modifies m`screenHistory, m`clientDisconnecting, m`compose
    ensures msg == Cancelled ==> m.screenHistory == H.Popped(old(m.screenHistory), U.Home) && cmd == C.NoCmd
    ensures msg == Cancelled ==> m.clientDisconnecting == old(m.clientDisconnecting) && m.compose == old(m.compose)
  {
    match msg {
      case Cancelled =>
        m.HandleModalCancelled();
        cmd := C.NoCmd;
      case ButtonClicked(title, button, _) =>
        cmd := m.HandleModalButtonClicked(title, button);
    }
  }
}

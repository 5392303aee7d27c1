/** The server screen of internal/screen_server.go: the chat transcript and
  * input, the user list with its selection, and which of the two has the
  * keyboard. The viewports and the text-input widget belong to the UI
  * library; the chat input is its current text. */
module ServerScreen {
  import opened Bytes
  import Transactions

  type User = Transactions.User

  /** The keys handleKeys tells apart. Runes is typed text and Backspace the
    * backspace key, neither matched by a case of its switch; OtherKey is any
    * other key the switch does not match. */
  datatype ServerKey = Esc | Tab | CtrlN | CtrlB | CtrlF | CtrlA | CtrlT | Up | Down
                     | PgUp | PgDown | HomeKey | EndKey | Enter | Runes(text: string) | Backspace | OtherKey

  /** The messages the screen sends its parent. */
  datatype ServerAction = NoAction | DisconnectRequested | OpenNews | OpenMessageBoard | OpenFiles
                        | OpenAccounts | OpenTasks | ComposeMessage(target: seq<byte>) | SendChat(text: string)

  /** The selection after the user list changes: pulled down to the last
    * entry, then up to 0. */
  function ClampSelection(i: int, n: nat): (r: int)
    ensures 0 <= r
    ensures n > 0 ==> r < n
    ensures 0 <= i < n ==> r == i
    ensures n > 0 && i >= n ==> r == n - 1
    ensures i < 0 || n == 0 ==> r == 0
  {
    var j := if i >= n then n - 1 else i;
    if j < 0 then 0 else j
  }

  /** wrapChatMessage's width: the chat pane is the window less 32 columns
    * but at least 10, less one column of padding, so the floor of 5 the
    * source also applies is never reached. */
  function WrapWidth(width: int): (w: int)
    ensures w >= 9
    ensures width >= 42 ==> w == width - 33
    ensures width < 42 ==> w == 9
  {
    var chatWidth := if width - 30 - 2 < 10 then 10 else width - 30 - 2;
    var wrapWidth := chatWidth - 1;
    if wrapWidth < 5 then 5 else wrapWidth
  }

  class Server {
    var chatMessages: seq<string>
    var chatInput: string
    var chatWasAtBottom: bool
    var focusOnUserList: bool
    var selectedUserIdx: int
    var serverName: string
    var userList: seq<User>
    var width: int

    /** The selection is an index of the user list, or 0 when it is empty. */
    ghost predicate Valid()
      reads this`selectedUserIdx, this`userList
    {
      0 <= selectedUserIdx && (|userList| > 0 ==> selectedUserIdx < |userList|)
    }

    /** NewServerScreen: chat focused, no users, no messages. */
    constructor (width: int)
      ensures Valid() && !focusOnUserList && selectedUserIdx == 0
      ensures chatMessages == [] && userList == [] && chatInput == "" && this.width == width
    {
      chatMessages := [];
      chatInput := "";
      chatWasAtBottom := false;
      focusOnUserList := false;
      selectedUserIdx := 0;
      serverName := "";
      userList := [];
      this.width := width;
    }

    method SetServerName(name: string)
      modifies this`serverName
      ensures serverName == name
    {
      serverName := name;
    }

    /** SetUserList: the new list, with the selection clamped into it. */
    method SetUserList(users: seq<User>)
      modifies this`userList, this`selectedUserIdx
      ensures userList == users && selectedUserIdx == ClampSelection(old(selectedUserIdx), |users|)
      ensures Valid()
    {
      userList := users;
      if selectedUserIdx >= |userList| {
        selectedUserIdx := |userList| - 1;
      }
      if selectedUserIdx < 0 {
        selectedUserIdx := 0;
      }
    }

    /** AddChatMessage: one message at the end; whether the view was at the
      * bottom is read from the viewport before the append. */
    method AddChatMessage(msg: string, atBottom: bool)
      modifies this`chatMessages, this`chatWasAtBottom
      ensures chatMessages == old(chatMessages) + [msg] && chatWasAtBottom == atBottom
    {
      chatWasAtBottom := atBottom;
      chatMessages := chatMessages + [msg];
    }

    method FocusChatInput()
      modifies this`focusOnUserList
      ensures !focusOnUserList
    {
      focusOnUserList := false;
    }

    method ToggleFocus()
      modifies this`focusOnUserList
      ensures focusOnUserList == !old(focusOnUserList)
    {
      focusOnUserList := !focusOnUserList;
    }

    /** Up with the list focused: one entry up, stopping at the first. */
    method SelectUp()
      requires Valid()
      modifies this`selectedUserIdx
      ensures Valid()
      ensures selectedUserIdx == if focusOnUserList && old(selectedUserIdx) > 0
                                 then old(selectedUserIdx) - 1 else old(selectedUserIdx)
    {
      if focusOnUserList && selectedUserIdx > 0 {
        selectedUserIdx := selectedUserIdx - 1;
      }
    }

    /** Down with the list focused: one entry down, stopping at the last. */
    method SelectDown()
      requires Valid()
      modifies this`selectedUserIdx
      ensures Valid()
      ensures selectedUserIdx == if focusOnUserList && old(selectedUserIdx) < |userList| - 1
                                 then old(selectedUserIdx) + 1 else old(selectedUserIdx)
    {
      if focusOnUserList && selectedUserIdx < |userList| - 1 {
        selectedUserIdx := selectedUserIdx + 1;
      }
    }

    /** Enter: on the list, a compose request for the selected user when the
      * selection is an index of the list; in the chat, the typed text is sent
      * and the input cleared, unless it is empty. */
    method EnterKey() returns (action: ServerAction)
      modifies this`chatInput
      ensures focusOnUserList && 0 <= selectedUserIdx < |userList| ==>
                action == ComposeMessage(userList[selectedUserIdx].id) && chatInput == old(chatInput)
      ensures focusOnUserList && !(0 <= selectedUserIdx < |userList|) ==>
                action == NoAction && chatInput == old(chatInput)
      ensures !focusOnUserList && old(chatInput) != "" ==> action == SendChat(old(chatInput)) && chatInput == ""
      ensures !focusOnUserList && old(chatInput) == "" ==> action == NoAction && chatInput == ""
    {
      if focusOnUserList {
        if 0 <= selectedUserIdx < |userList| {
          return ComposeMessage(userList[selectedUserIdx].id);
        }
      } else if chatInput != "" {
        var text := chatInput;
        chatInput := "";
        return SendChat(text);
      }
      return NoAction;
    }

    /** handleKeys: the screen-level keys. Every key no case matches goes to
      * the chat input while it has the keyboard: typed text is added at the
      * end and backspace removes the last character. Scrolling the chat view
      * is the viewport's own work and changes none of these fields. */
    method HandleKey(key: ServerKey) returns (action: ServerAction)
      requires Valid()
      modifies this`focusOnUserList, this`selectedUserIdx, this`chatInput
      ensures Valid() && userList == old(userList)
      ensures key == Tab <==> focusOnUserList != old(focusOnUserList)
      ensures key != Up && key != Down ==> selectedUserIdx == old(selectedUserIdx)
      ensures key == Up ==>
                selectedUserIdx == if focusOnUserList && old(selectedUserIdx) > 0
                                   then old(selectedUserIdx) - 1 else old(selectedUserIdx)
      ensures key == Down ==>
                selectedUserIdx == if focusOnUserList && old(selectedUserIdx) < |userList| - 1
                                   then old(selectedUserIdx) + 1 else old(selectedUserIdx)
      ensures key == Enter && !focusOnUserList ==>
                chatInput == "" && action == if old(chatInput) != "" then SendChat(old(chatInput)) else NoAction
      ensures key == Enter && focusOnUserList && 0 <= selectedUserIdx < |userList| ==>
                action == ComposeMessage(userList[selectedUserIdx].id) && chatInput == old(chatInput)
      ensures key == Enter && focusOnUserList && !(0 <= selectedUserIdx < |userList|) ==>
                action == NoAction && chatInput == old(chatInput)
      ensures key.Runes? ==>
                chatInput == if focusOnUserList then old(chatInput) else old(chatInput) + key.text
      ensures key.Backspace? ==>
                chatInput == if !focusOnUserList && |old(chatInput)| > 0
                             then old(chatInput)[..|old(chatInput)| - 1] else old(chatInput)
      ensures !key.Enter? && !key.Runes? && !key.Backspace? ==> chatInput == old(chatInput)
      ensures key == Esc ==> action == DisconnectRequested
      ensures key == CtrlN ==> action == OpenNews
      ensures key == CtrlB ==> action == OpenMessageBoard
      ensures key == CtrlF ==> action == OpenFiles
      ensures key == CtrlA ==> action == OpenAccounts
      ensures key == CtrlT ==> action == OpenTasks
      ensures key in {Up, Down, Tab, OtherKey, PgUp, PgDown, HomeKey, EndKey, Backspace} || key.Runes? ==>
                action == NoAction
    {
      action := NoAction;
      match key {
        case Esc => action := DisconnectRequested;
        case Tab => ToggleFocus();
        case CtrlN => action := OpenNews;
        case CtrlB => action := OpenMessageBoard;
        case CtrlF => action := OpenFiles;
        case CtrlA => action := OpenAccounts;
        case CtrlT => action := OpenTasks;
        case Up => SelectUp();
        case Down => SelectDown();
        case Enter => action := EnterKey();
        case Runes(text) =>
          if !focusOnUserList {
            chatInput := chatInput + text;
          }
        case Backspace =>
          if !focusOnUserList && |chatInput| > 0 {
            chatInput := chatInput[..|chatInput| - 1];
          }
        case _ =>
      }
    }
  }
}

/** The navigation state of the internal package's Model (internal/model.go)
  * and the message handlers of internal/handlers_msg.go that change it: the
  * screen history, the stack of incoming private messages and the modal
  * that shows the newest of them, the saved bookmarks, and the maps from a
  * pending transfer's transaction ID to its task. Screens' own contents,
  * sounds and the network client are not part of this model. */
module ClientModel {
  import opened Bytes
  import opened Text
  import H = ScreenHistory
  import T = Tasks

  /** The internal package's Screen enumeration, in declaration order. */
  datatype Screen = Home | JoinServer | Bookmarks | Tracker | Settings | ServerUI | News
                  | NewsArticlePost | NewsBundleForm | NewsCategoryForm | LegacyNewsPost
                  | MessageBoard | Files | Logs | Modal | Tasks | Accounts | ComposeMessage
                  | FilePicker | Loading

  datatype ModalType = Generic | PrivateMessage | Agreement | Disconnect | Error

  /** What a modal shows; the modal screen's own behaviour is in module Modals. */
  datatype ModalInfo = ModalInfo(kind: ModalType, title: string, content: string, buttons: seq<string>)

  /** An incoming private message; userID is the sender's 2-byte ID. */
  datatype PrivateMsg = PrivateMsg(from: string, userID: seq<byte>, text: string, time: string)

  /** The compose screen opened by Reply: recipient ID, name and quoted text. */
  datatype ComposeTarget = ComposeTarget(userID: seq<byte>, name: string, quote: string)

  datatype Bookmark = Bookmark(name: string, addr: string, login: string, password: string, tls: bool)

  /** Commands a handler hands back to the runtime instead of running them. */
  datatype Cmd = NoCmd | SendAgreed | CloseConnection | QueueError(text: string)

  const PmTitlePrefix: string := "Private Message from "

  /** The PM modal's title: the sender, plus " (1 of n)" when n messages
    * are waiting and n > 1. */
  function PmTitle(pms: seq<PrivateMsg>): (title: string)
    requires |pms| > 0
    ensures HasPrefix(title, PmTitlePrefix + pms[|pms| - 1].from)
    ensures |pms| > 1 ==> HasSuffix(title, " (1 of " + NatToString(|pms|) + ")")
    ensures |pms| == 1 ==> |title| == |PmTitlePrefix + pms[0].from|
  {
    var base := PmTitlePrefix + pms[|pms| - 1].from;
    if |pms| > 1 then base + " (1 of " + NatToString(|pms|) + ")" else base
  }

  /** The modal updatePrivateMessageModal builds: the newest message, with
    * Close and Reply buttons. */
  function PmModal(pms: seq<PrivateMsg>): (m: ModalInfo)
    requires |pms| > 0
    ensures m.kind == PrivateMessage && m.buttons == ["Close", "Reply"]
    ensures HasPrefix(m.content, pms[|pms| - 1].text)
    ensures HasPrefix(m.title, PmTitlePrefix + pms[|pms| - 1].from)
  {
    var top := pms[|pms| - 1];
    ModalInfo(PrivateMessage, PmTitle(pms), top.text + "\n\nAt " + top.time, ["Close", "Reply"])
  }

  /** The bookmark list with the first entry matching name and addr
    * removed. */
  function WithoutFirstMatch(bms: seq<Bookmark>, name: string, addr: string): (r: seq<Bookmark>)
  {
    if bms == [] then []
    else if bms[0].name == name && bms[0].addr == addr then bms[1..]
    else [bms[0]] + WithoutFirstMatch(bms[1..], name, addr)
  }

  /** Passing an entry that does not match keeps it in front. */
  lemma WithoutFirstMatchStep(bms: seq<Bookmark>, i: nat, name: string, addr: string)
    requires i < |bms| && !(bms[i].name == name && bms[i].addr == addr)
    ensures bms[..i] + WithoutFirstMatch(bms[i..], name, addr) == bms[..i + 1] + WithoutFirstMatch(bms[i + 1..], name, addr)
  {
    assert bms[i..][1..] == bms[i + 1..];
    assert bms[..i + 1] == bms[..i] + [bms[i]];
  }

  predicate Matches(b: Bookmark, name: string, addr: string)
  {
    b.name == name && b.addr == addr
  }

  /** With no matching entry, nothing is removed. */
  lemma {:induction false} WithoutNoMatch(bms: seq<Bookmark>, name: string, addr: string)
    requires forall i :: 0 <= i < |bms| ==> !Matches(bms[i], name, addr)
    ensures WithoutFirstMatch(bms, name, addr) == bms
  {
    if bms != [] {
      assert !Matches(bms[0], name, addr);
      WithoutNoMatch(bms[1..], name, addr);
    }
  }

  /** When i is the first matching index, exactly the entry at i is removed
    * and the others keep their order. */
  lemma {:induction false} WithoutFirstMatchAt(bms: seq<Bookmark>, name: string, addr: string, i: nat)
    requires i < |bms| && Matches(bms[i], name, addr)
    requires forall j :: 0 <= j < i ==> !Matches(bms[j], name, addr)
    ensures WithoutFirstMatch(bms, name, addr) == bms[..i] + bms[i + 1..]
    decreases i
  {
    if i > 0 {
      assert !Matches(bms[0], name, addr);
      var tail := bms[1..];
      assert forall j :: 0 <= j < i - 1 ==> tail[j] == bms[j + 1];
      WithoutFirstMatchAt(tail, name, addr, i - 1);
      assert tail[..i - 1] + tail[i..] == bms[1..i] + bms[i + 1..];
      assert [bms[0]] + bms[1..i] == bms[..i];
    }
  }

  /** At most one bookmark goes, and only when one matches. */
  lemma {:induction false} WithoutFirstMatchLength(bms: seq<Bookmark>, name: string, addr: string)
    ensures |WithoutFirstMatch(bms, name, addr)| ==
              if exists i :: 0 <= i < |bms| && Matches(bms[i], name, addr) then |bms| - 1 else |bms|
  {
    if bms != [] {
      WithoutFirstMatchLength(bms[1..], name, addr);
      if !Matches(bms[0], name, addr) {
        if exists i :: 0 <= i < |bms| && Matches(bms[i], name, addr) {
          var i :| 0 <= i < |bms| && Matches(bms[i], name, addr);
          assert Matches(bms[1..][i - 1], name, addr);
        } else {
          assert !exists i :: 0 <= i < |bms[1..]| && Matches(bms[1..][i], name, addr) by {
            forall i | 0 <= i < |bms[1..]| ensures !Matches(bms[1..][i], name, addr) {
              assert bms[1..][i] == bms[i + 1];
            }
          }
        }
      }
    }
  }

  class Model {
    var screenHistory: seq<Screen>
    var privateMessages: seq<PrivateMsg>
    var modal: Option<ModalInfo>
    var compose: Option<ComposeTarget>
    var clientDisconnecting: bool
    var serverName: string
    /** The address and display name of the connection being attempted. */
    var pendingServerAddr: string
    var pendingServerName: string
    var bookmarks: seq<Bookmark>
    var pendingDownloads: map<seq<byte>, string>
    var pendingUploads: map<seq<byte>, string>
    /** The IDs of the tasks that have a progress bar in the task widget. */
    var taskProgress: set<string>
    const taskManager: T.TaskManager

    /** NewModel: history [Home], no messages, no pending transfers. */
    constructor (bookmarks: seq<Bookmark>)
      ensures screenHistory == [Home] && privateMessages == [] && modal == None && compose == None
      ensures !clientDisconnecting && this.bookmarks == bookmarks
      ensures pendingDownloads == map[] && pendingUploads == map[] && taskProgress == {}
      ensures fresh(taskManager) && taskManager.Valid() && taskManager.tasks == map[]
    {
      screenHistory := [Home];
      privateMessages := [];
      modal := None;
      compose := None;
      clientDisconnecting := false;
      serverName := "";
      pendingServerAddr := "";
      pendingServerName := "";
      this.bookmarks := bookmarks;
      pendingDownloads := map[];
      pendingUploads := map[];
      taskProgress := {};
      taskManager := new T.TaskManager();
    }

    // -------------------------------------------------------------------
    // The screen history

    function CurrentScreen(): Screen
      reads this`screenHistory
    {
      H.Current(screenHistory, Home)
    }

    function PreviousScreen(): Screen
      reads this`screenHistory
    {
      H.Previous(screenHistory, Home)
    }

    method PushScreen(s: Screen)
      modifies this`screenHistory
      ensures screenHistory == H.Pushed(old(screenHistory), s)
      ensures CurrentScreen() == s
    {
      screenHistory := screenHistory + [s];
    }

    method PopScreen() returns (now: Screen)
      modifies this`screenHistory
      ensures screenHistory == H.Popped(old(screenHistory), Home)
      ensures now == CurrentScreen() == H.Previous(old(screenHistory), Home)
    {
      if |screenHistory| <= 1 {
        screenHistory := [Home];
        return Home;
      }
      screenHistory := screenHistory[..|screenHistory| - 1];
      now := screenHistory[|screenHistory| - 1];
    }

    method ReplaceScreen(s: Screen)
      modifies this`screenHistory
      ensures screenHistory == H.Replaced(old(screenHistory), s)
    {
      if |screenHistory| == 0 {
        screenHistory := [s];
      } else {
        screenHistory := screenHistory[|screenHistory| - 1 := s];
      }
    }

    method NavigateTo(s: Screen)
      modifies this`screenHistory
      ensures screenHistory == [s]
    {
      screenHistory := [s];
    }

    /** Pops a Loading screen on top, as the error, agreement and connection
      * handlers do before showing their result. */
    method PopLoading()
      modifies this`screenHistory
      ensures screenHistory == if H.Current(old(screenHistory), Home) == Loading
                               then H.Popped(old(screenHistory), Home) else old(screenHistory)
    {
      if CurrentScreen() == Loading {
        var _ := PopScreen();
      }
    }

    // -------------------------------------------------------------------
    // Private messages and modals

    predicate IsShowingPrivateMessageModal()
      reads this`screenHistory, this`modal
    {
      CurrentScreen() == Modal && modal.Some? && modal.value.kind == PrivateMessage
    }

    method UpdatePrivateMessageModal()
      modifies this`modal
      ensures privateMessages == [] ==> modal == old(modal)
      ensures privateMessages != [] ==> modal == Some(PmModal(privateMessages))
    {
      if |privateMessages| == 0 {
        return;
      }
      modal := Some(PmModal(privateMessages));
    }

    /** Shows a modal of the given kind on top of the history. */
    method ShowModal(m: ModalInfo)
      modifies this`modal, this`screenHistory
      ensures modal == Some(m) && screenHistory == old(screenHistory) + [Modal]
    {
      modal := Some(m);
      PushScreen(Modal);
    }

    /** handleServerMsgMsg: the message joins the stack and the modal shows
      * it. The check for a PM modal on top comes after the modal has been
      * rebuilt as a PM modal, so a new Modal entry is pushed exactly when the
      * current screen is not a modal of any kind. */
    method HandleServerMsg(pm: PrivateMsg)
      modifies this`privateMessages, this`modal, this`screenHistory
      ensures privateMessages == old(privateMessages) + [pm]
      ensures modal == Some(PmModal(privateMessages))
      ensures screenHistory == if H.Current(old(screenHistory), Home) == Modal then old(screenHistory)
                               else old(screenHistory) + [Modal]
      ensures IsShowingPrivateMessageModal()
    {
      privateMessages := privateMessages + [pm];
      UpdatePrivateMessageModal();
      if !IsShowingPrivateMessageModal() {
        PushScreen(Modal);
      }
    }

    /** handleModalCancelledMsg: on a PM modal, drops the newest message and
      * stays on the modal while others remain; otherwise pops the screen. */
    method HandleModalCancelled()
      modifies this`privateMessages, this`modal, this`screenHistory
      ensures old(IsShowingPrivateMessageModal()) && |old(privateMessages)| > 0 ==>
                privateMessages == old(privateMessages)[..|old(privateMessages)| - 1]
      ensures !(old(IsShowingPrivateMessageModal()) && |old(privateMessages)| > 0) ==>
                privateMessages == old(privateMessages)
      ensures screenHistory == if privateMessages != [] && old(IsShowingPrivateMessageModal())
                               then old(screenHistory) else H.Popped(old(screenHistory), Home)
      ensures modal == if privateMessages != [] && old(IsShowingPrivateMessageModal())
                       then Some(PmModal(privateMessages)) else old(modal)
    {
      if IsShowingPrivateMessageModal() && |privateMessages| > 0 {
        privateMessages := privateMessages[..|privateMessages| - 1];
        if |privateMessages| > 0 {
          UpdatePrivateMessageModal();
          return;
        }
      }
      var _ := PopScreen();
    }

    /** handleModalButtonClickedMsg on an agreement modal: Agree sends the
      * agreement; anything else disconnects and goes home. */
    method AgreementButton(button: string) returns (cmd: Cmd)
      modifies this`clientDisconnecting, this`screenHistory
      ensures button == "Agree" ==> cmd == SendAgreed && screenHistory == old(screenHistory)
                                    && clientDisconnecting == old(clientDisconnecting)
      ensures button != "Agree" ==> cmd == CloseConnection && screenHistory == [Home] && clientDisconnecting
    {
      if button == "Agree" {
        return SendAgreed;
      }
      clientDisconnecting := true;
      NavigateTo(Home);
      return CloseConnection;
    }

    /** The disconnect confirmation: Exit disconnects and goes home, any
      * other button pops. */
    method DisconnectButton(button: string) returns (cmd: Cmd)
      modifies this`clientDisconnecting, this`screenHistory
      ensures button == "Exit" ==> cmd == CloseConnection && screenHistory == [Home] && clientDisconnecting
      ensures button != "Exit" ==> cmd == NoCmd && screenHistory == H.Popped(old(screenHistory), Home)
                                   && clientDisconnecting == old(clientDisconnecting)
    {
      if button == "Exit" {
        clientDisconnecting := true;
        NavigateTo(Home);
        return CloseConnection;
      }
      var _ := PopScreen();
      return NoCmd;
    }

    /** A PM modal's button: the newest message is taken off the stack; Reply
      * opens the compose screen for it in place of the modal, and Close shows
      * the next message or pops once none remain. */
    method PrivateMessageButton(button: string)
      modifies this`privateMessages, this`modal, this`screenHistory, this`compose
      ensures var n := |old(privateMessages)|;
              privateMessages == if n > 0 then old(privateMessages)[..n - 1] else old(privateMessages)
      ensures var n := |old(privateMessages)|;
              n > 0 && button == "Reply" ==>
                compose == Some(ComposeTarget(old(privateMessages)[n - 1].userID, old(privateMessages)[n - 1].from,
                                              old(privateMessages)[n - 1].text))
                && screenHistory == H.Replaced(old(screenHistory), ComposeMessage) && modal == old(modal)
      ensures !(|old(privateMessages)| > 0 && button == "Reply") ==>
                compose == old(compose) &&
                if privateMessages != [] then screenHistory == old(screenHistory) && modal == Some(PmModal(privateMessages))
                else screenHistory == H.Popped(old(screenHistory), Home) && modal == old(modal)
    {
      if |privateMessages| > 0 {
        var current := privateMessages[|privateMessages| - 1];
        privateMessages := privateMessages[..|privateMessages| - 1];
        if button == "Reply" {
          compose := Some(ComposeTarget(current.userID, current.from, current.text));
          ReplaceScreen(ComposeMessage);
          return;
        }
      }
      if |privateMessages| > 0 {
        UpdatePrivateMessageModal();
        return;
      }
      var _ := PopScreen();
    }

    /** handleModalButtonClickedMsg: dispatch on the modal type the message
      * carries; generic and error modals just pop. */
    method HandleModalButtonClicked(kind: ModalType, button: string) returns (cmd: Cmd)
      modifies this`clientDisconnecting, this`screenHistory, this`privateMessages, this`modal, this`compose
      ensures kind == Agreement && button == "Agree" ==> cmd == SendAgreed && screenHistory == old(screenHistory)
      ensures (kind == Agreement && button != "Agree") || (kind == Disconnect && button == "Exit") ==>
                cmd == CloseConnection && screenHistory == [Home] && clientDisconnecting
      ensures (kind == Disconnect && button != "Exit") || kind == Generic || kind == Error ==>
                cmd == NoCmd && screenHistory == H.Popped(old(screenHistory), Home)
      ensures kind != PrivateMessage ==> privateMessages == old(privateMessages) && modal == old(modal)
      ensures kind == PrivateMessage ==> cmd == NoCmd && clientDisconnecting == old(clientDisconnecting)
      ensures kind == PrivateMessage && |old(privateMessages)| > 0 ==>
                privateMessages == old(privateMessages)[..|old(privateMessages)| - 1]
    {
      match kind {
        case Agreement =>
          cmd := AgreementButton(button);
        case Disconnect =>
          cmd := DisconnectButton(button);
        case PrivateMessage =>
          PrivateMessageButton(button);
          cmd := NoCmd;
        case _ =>
          var _ := PopScreen();
          cmd := NoCmd;
      }
    }

    /** A disconnectMsg: back to [Home]; the "Server connection closed."
      * error is queued only when the client did not start the disconnect,
      * and the flag is cleared. */
    method HandleDisconnect() returns (cmd: Cmd)
      modifies this`screenHistory, this`clientDisconnecting
      ensures screenHistory == [Home] && !clientDisconnecting
      ensures cmd == if old(clientDisconnecting) then NoCmd else QueueError("Server connection closed.")
    {
      NavigateTo(Home);
      cmd := NoCmd;
      if !clientDisconnecting {
        cmd := QueueError("Server connection closed.");
      }
      clientDisconnecting := false;
    }

    // -------------------------------------------------------------------
    // Connection handlers

    /** handleErrorMsg: an error modal replaces a Loading screen on top. */
    method HandleError(text: string)
      modifies this`screenHistory, this`modal
      ensures modal == Some(ModalInfo(Error, "Error", text, ["Close"]))
      ensures var h := old(screenHistory);
              screenHistory == (if H.Current(h, Home) == Loading then H.Popped(h, Home) else h) + [Modal]
    {
      PopLoading();
      ShowModal(ModalInfo(Error, "Error", text, ["Close"]));
    }

    /** handleAgreementMsg: the agreement modal with Disagree and Agree. */
    method HandleAgreement(text: string)
      modifies this`screenHistory, this`modal
      ensures modal == Some(ModalInfo(Agreement, "Server Agreement", text, ["Disagree", "Agree"]))
      ensures var h := old(screenHistory);
              screenHistory == (if H.Current(h, Home) == Loading then H.Popped(h, Home) else h) + [Modal]
    {
      PopLoading();
      ShowModal(ModalInfo(Agreement, "Server Agreement", text, ["Disagree", "Agree"]));
    }

    /** handleServerConnectedMsg: the server screen becomes the whole history. */
    method HandleServerConnected(name: string)
      modifies this`screenHistory, this`serverName
      ensures serverName == name && screenHistory == [ServerUI]
    {
      PopLoading();
      serverName := name;
      NavigateTo(ServerUI);
    }

    /** handleServerConnectionAttemptMsg: a failure replaces the Loading
      * screen with an error modal; success changes nothing. */
    method HandleConnectionAttempt(err: Option<string>)
      modifies this`screenHistory, this`modal
      ensures err == None ==> screenHistory == old(screenHistory) && modal == old(modal)
      ensures err.Some? ==> modal == Some(ModalInfo(Error, "Connection Error", err.value, ["OK"]))
      ensures var h := old(screenHistory);
              err.Some? ==> screenHistory == (if H.Current(h, Home) == Loading then H.Popped(h, Home) else h) + [Modal]
    {
      if err.Some? {
        PopLoading();
        ShowModal(ModalInfo(Error, "Connection Error", err.value, ["OK"]));
      }
    }

    /** handleLoadingCancelledMsgHandler. */
    method HandleLoadingCancelled()
      modifies this`screenHistory
      ensures screenHistory == H.Popped(old(screenHistory), Home)
    {
      var _ := PopScreen();
    }

    /** The files and news result handlers: the screen is pushed unless it is
      * already current, so closing it returns where the user came from. */
    method ShowResults(s: Screen)
      modifies this`screenHistory
      ensures CurrentScreen() == s
      ensures screenHistory == if H.Current(old(screenHistory), Home) == s then old(screenHistory)
                               else old(screenHistory) + [s]
    {
      if CurrentScreen() != s {
        PushScreen(s);
      }
    }

    /** After a private message is sent or its compose screen cancelled: the
      * modal for the next waiting message replaces the compose screen, or
      * the compose screen is popped. */
    method HandleComposeDone()
      modifies this`screenHistory, this`modal
      ensures privateMessages != [] ==> modal == Some(PmModal(privateMessages))
                                        && screenHistory == H.Replaced(old(screenHistory), Modal)
      ensures privateMessages == [] ==> modal == old(modal) && screenHistory == H.Popped(old(screenHistory), Home)
    {
      if |privateMessages| > 0 {
        UpdatePrivateMessageModal();
        ReplaceScreen(Modal);
        return;
      }
      var _ := PopScreen();
    }

    // -------------------------------------------------------------------
    // The join-server form

    /** handleJoinServerConnectMsg: the address is remembered, and becomes
      * the display name unless one was already chosen; the loading screen
      * is pushed while the connection is attempted. */
    method HandleJoinServerConnect(addr: string)
      modifies this`pendingServerAddr, this`pendingServerName, this`screenHistory
      ensures pendingServerAddr == addr
      ensures pendingServerName == if old(pendingServerName) == "" then addr else old(pendingServerName)
      ensures screenHistory == H.Pushed(old(screenHistory), Loading) && CurrentScreen() == Loading
    {
      pendingServerAddr := addr;
      if pendingServerName == "" {
        pendingServerName := addr;
      }
      PushScreen(Loading);
    }

    /** handleJoinServerCancelledMsg: the history is reset to the page the
      * form was opened from. */
    method HandleJoinServerCancelled(backPage: Screen)
      modifies this`screenHistory
      ensures screenHistory == [backPage]
    {
      if backPage != Home {
        NavigateTo(backPage);
      } else {
        NavigateTo(Home);
      }
    }

    // -------------------------------------------------------------------
    // Bookmarks

    /** handleJoinServerBookmarkSavedMsg: the entry at index is overwritten
      * only when index is in range; the screen is popped either way. */
    method HandleBookmarkSaved(index: int, b: Bookmark)
      modifies this`bookmarks, this`screenHistory
      ensures bookmarks == if 0 <= index < |old(bookmarks)| then old(bookmarks)[index := b] else old(bookmarks)
      ensures screenHistory == H.Popped(old(screenHistory), Home)
    {
      if 0 <= index < |bookmarks| {
        bookmarks := bookmarks[index := b];
      }
      var _ := PopScreen();
    }

    /** handleBookmarkDeletedMsg: removes the first bookmark whose name and
      * address both match. */
    method HandleBookmarkDeleted(b: Bookmark)
      modifies this`bookmarks
      ensures bookmarks == WithoutFirstMatch(old(bookmarks), b.name, b.addr)
    {
      var bms := bookmarks;
      var i := 0;
      while i < |bms|
        invariant 0 <= i <= |bms| && bms == old(bookmarks) && bookmarks == bms
        invariant WithoutFirstMatch(bms, b.name, b.addr) == bms[..i] + WithoutFirstMatch(bms[i..], b.name, b.addr)
      {
        if bms[i].name == b.name && bms[i].addr == b.addr {
          assert WithoutFirstMatch(bms[i..], b.name, b.addr) == bms[i + 1..];
          bookmarks := bms[..i] + bms[i + 1..];
          return;
        }
        WithoutFirstMatchStep(bms, i, b.name, b.addr);
        i := i + 1;
      }
      assert bms[i..] == [] && bms[..i] == bms;
    }

    // -------------------------------------------------------------------
    // Transfers

    /** handleTaskStatusMsg: a known task takes the status and error; a
      * finished one also gets its end time and loses its progress bar. */
    method HandleTaskStatus(taskID: string, status: T.TaskStatus, err: Option<string>, now: int)
      requires taskManager.Valid()
      modifies taskManager.tasks.Values, this`taskProgress
      ensures taskID !in taskManager.tasks ==> taskProgress == old(taskProgress)
      ensures taskID in taskManager.tasks ==>
                var t := taskManager.tasks[taskID];
                t.status == status && t.error == err
                && (status == T.Completed || status == T.Failed ==>
                      t.endTime == now && taskProgress == old(taskProgress) - {taskID})
                && (status == T.Pending || status == T.Active ==>
                      t.endTime == old(t.endTime) && taskProgress == old(taskProgress))
      ensures forall t :: t in old(taskManager.tasks.Values) && (taskID !in taskManager.tasks || t != taskManager.tasks[taskID])
                ==> unchanged(t)
    {
      var task := taskManager.Get(taskID);
      if task.Some? {
        var t := task.value;
        t.status := status;
        t.error := err;
        if status == T.Completed || status == T.Failed {
          t.endTime := now;
          taskProgress := taskProgress - {taskID};
        }
      }
    }

    /** The task ID a transaction maps to, as Go's map index yields it: the
      * empty string for an absent key. */
    static function PendingTask(pending: map<seq<byte>, string>, txID: seq<byte>): string
    {
      if txID in pending then pending[txID] else ""
    }

    /** handleDownloadReplyMsg: the pending entry goes whether or not its task
      * exists; a known task gets the transfer size and becomes Active, and is
      * returned to be transferred. */
    method HandleDownloadReply(txID: seq<byte>, transferSize: nat) returns (start: Option<T.Task>)
      requires taskManager.Valid()
      modifies taskManager.tasks.Values, this`pendingDownloads
      ensures pendingDownloads == old(pendingDownloads) - {txID}
      ensures var id := PendingTask(old(pendingDownloads), txID);
              (id in taskManager.tasks <==> start.Some?)
              && (start.Some? ==> start.value == taskManager.tasks[id] && start.value.totalBytes == transferSize
                                  && start.value.status == T.Active)
      ensures forall t :: t in old(taskManager.tasks.Values) && (start == None || t != start.value) ==> unchanged(t)
    {
      var taskID := PendingTask(pendingDownloads, txID);
      pendingDownloads := pendingDownloads - {txID};
      start := taskManager.Get(taskID);
      if start.Some? {
        start.value.totalBytes := transferSize;
        start.value.status := T.Active;
      }
    }

    /** handleUploadReplyMsg: an unknown transaction changes nothing; a known
      * one loses its entry and its task, if any, becomes Active. */
    method HandleUploadReply(txID: seq<byte>) returns (start: Option<T.Task>)
      requires taskManager.Valid()
      modifies taskManager.tasks.Values, this`pendingUploads
      ensures txID !in old(pendingUploads) ==> start == None && pendingUploads == old(pendingUploads)
      ensures txID in old(pendingUploads) ==>
                pendingUploads == old(pendingUploads) - {txID}
                && (old(pendingUploads)[txID] in taskManager.tasks <==> start.Some?)
      ensures start.Some? ==> start.value == taskManager.tasks[old(pendingUploads)[txID]] && start.value.status == T.Active
      ensures forall t :: t in old(taskManager.tasks.Values) && (start == None || t != start.value) ==> unchanged(t)
    {
      if txID !in pendingUploads {
        return None;
      }
      var taskID := pendingUploads[txID];
      pendingUploads := pendingUploads - {txID};
      start := taskManager.Get(taskID);
      if start.Some? {
        start.value.status := T.Active;
      }
    }
  }
}

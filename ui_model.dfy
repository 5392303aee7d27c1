/** The older Model of ui/model.go: the same screen-history stack as the
  * internal package, but its modal buttons are told apart by the modal's
  * title, and a private-message reply goes to the sender remembered in the
  * Model rather than to a stack of messages. */
module UiModel {
  import opened Bytes
  import opened Text
  import H = ScreenHistory
  import C = ClientModel
  import T = Tasks

  /** The ui package's Screen enumeration: the internal one without Loading. */
  datatype Screen = Home | JoinServer | Bookmarks | Tracker | Settings | ServerUI | News
                  | NewsArticlePost | NewsBundleForm | NewsCategoryForm | LegacyNewsPost
                  | MessageBoard | Files | Logs | Modal | Tasks | Accounts | ComposeMessage
                  | FilePicker

  class Model {
    var screenHistory: seq<Screen>
    var clientDisconnecting: bool
    /** The sender of the last private message, kept for Reply. */
    var replyTarget: C.ComposeTarget
    var compose: Option<C.ComposeTarget>
    var pendingDownloads: map<seq<byte>, string>
    var pendingUploads: map<seq<byte>, string>
    /** The IDs of the tasks that have a progress bar in the task widget. */
    var taskProgress: set<string>
    const taskManager: T.TaskManager

    /** NewModel: the history starts as [Home], with no transfers. */
    constructor ()
      ensures screenHistory == [Home] && !clientDisconnecting && compose == None
      ensures pendingDownloads == map[] && pendingUploads == map[] && taskProgress == {}
      ensures fresh(taskManager) && taskManager.Valid() && taskManager.tasks == map[]
    {
      screenHistory := [Home];
      clientDisconnecting := false;
      replyTarget := C.ComposeTarget([], "", "");
      compose := None;
      pendingDownloads := map[];
      pendingUploads := map[];
      taskProgress := {};
      taskManager := new T.TaskManager();
    }

    function CurrentScreen(): Screen
      reads this`screenHistory
    {
      H.Current(screenHistory, Home)
    }

    function PreviousScreen(): Screen
      reads this`screenHistory
    {
      H.Previous(screenHistory, Home)
    }

    method PushScreen(s: Screen)
      modifies this`screenHistory
      ensures screenHistory == H.Pushed(old(screenHistory), s)
      ensures CurrentScreen() == s
    {
      screenHistory := screenHistory + [s];
    }

    method PopScreen() returns (now: Screen)
      modifies this`screenHistory
      ensures screenHistory == H.Popped(old(screenHistory), Home)
      ensures now == CurrentScreen() == H.Previous(old(screenHistory), Home)
    {
      if |screenHistory| <= 1 {
        screenHistory := [Home];
        return Home;
      }
      screenHistory := screenHistory[..|screenHistory| - 1];
      now := screenHistory[|screenHistory| - 1];
    }

    method ReplaceScreen(s: Screen)
      modifies this`screenHistory
      ensures screenHistory == H.Replaced(old(screenHistory), s)
      ensures |old(screenHistory)| > 0 ==> |screenHistory| == |old(screenHistory)|
    {
      if |screenHistory| == 0 {
        screenHistory := [s];
      } else {
        screenHistory := screenHistory[|screenHistory| - 1 := s];
      }
    }

    method NavigateTo(s: Screen)
      modifies this`screenHistory
      ensures screenHistory == [s]
    {
      screenHistory := [s];
    }

    /** handleModalCancelledMsg: always a pop. */
    method HandleModalCancelled()
      modifies this`screenHistory
      ensures screenHistory == H.Popped(old(screenHistory), Home)
    {
      var _ := PopScreen();
    }

    /** The client gives up the connection and goes home. */
    method LeaveServer()
      modifies this`screenHistory, this`clientDisconnecting
      ensures screenHistory == [Home] && clientDisconnecting
    {
      clientDisconnecting := true;
      NavigateTo(Home);
    }

    /** handleModalButtonClickedMsg, by the modal's title: Agree on the
      * agreement sends it and stays; any other agreement button and Exit on
      * the disconnect prompt leave the server; Reply on a private message
      * opens the compose screen in the modal's place; everything else pops. */
    method HandleModalButtonClicked(title: string, button: string) returns (cmd: C.Cmd)
      modifies this`screenHistory, this`clientDisconnecting, this`compose
      ensures title == "Server Agreement" && button == "Agree" ==>
                cmd == C.SendAgreed && screenHistory == old(screenHistory) && clientDisconnecting == old(clientDisconnecting)
      ensures (title == "Server Agreement" && button != "Agree") || (title == "Disconnect from the server?" && button == "Exit") ==>
                cmd == C.CloseConnection && screenHistory == [Home] && clientDisconnecting
      ensures title != "Server Agreement" && title != "Disconnect from the server?" &&
              HasPrefix(title, "Private Message from") && button == "Reply" ==>
                cmd == C.NoCmd && compose == Some(replyTarget) && screenHistory == H.Replaced(old(screenHistory), ComposeMessage)
      ensures (title == "Disconnect from the server?" && button != "Exit") ||
              (title != "Server Agreement" && title != "Disconnect from the server?" &&
               !(HasPrefix(title, "Private Message from") && button == "Reply")) ==>
                cmd == C.NoCmd && screenHistory == H.Popped(old(screenHistory), Home)
                && clientDisconnecting == old(clientDisconnecting)
      ensures (title == "Server Agreement" || title == "Disconnect from the server?" ||
               !HasPrefix(title, "Private Message from") || button != "Reply") ==> compose == old(compose)
    {
      cmd := C.NoCmd;
      if title == "Server Agreement" {
        if button == "Agree" {
          cmd := C.SendAgreed;
        } else {
          LeaveServer();
          cmd := C.CloseConnection;
        }
      } else if title == "Disconnect from the server?" {
        if button == "Exit" {
          LeaveServer();
          cmd := C.CloseConnection;
        } else {
          var _ := PopScreen();
        }
      } else if HasPrefix(title, "Private Message from") && button == "Reply" {
        compose := Some(replyTarget);
        ReplaceScreen(ComposeMessage);
      } else {
        var _ := PopScreen();
      }
    }

    /** A disconnectMsg: back to [Home]; the connection-closed error is
      * queued only when the client did not start the disconnect. */
    method HandleDisconnect() returns (cmd: C.Cmd)
      modifies this`screenHistory, this`clientDisconnecting
      ensures screenHistory == [Home] && !clientDisconnecting
      ensures cmd == if old(clientDisconnecting) then C.NoCmd else C.QueueError("Server connection closed.")
    {
      NavigateTo(Home);
      cmd := C.NoCmd;
      if !clientDisconnecting {
        cmd := C.QueueError("Server connection closed.");
      }
      clientDisconnecting := false;
    }

    /** Update on a taskStatusMsg: a known task takes the status and error;
      * a finished one also gets its end time and loses its progress bar. */
    method HandleTaskStatus(taskID: string, status: T.TaskStatus, err: Option<string>, now: int)
      requires taskManager.Valid()
      modifies taskManager.tasks.Values, this`taskProgress
      ensures taskID !in taskManager.tasks ==> taskProgress == old(taskProgress)
      ensures taskID in taskManager.tasks ==>
                var t := taskManager.tasks[taskID];
                t.status == status && t.error == err
                && (status == T.Completed || status == T.Failed ==>
                      t.endTime == now && taskProgress == old(taskProgress) - {taskID})
                && (status == T.Pending || status == T.Active ==>
                      t.endTime == old(t.endTime) && taskProgress == old(taskProgress))
      ensures forall t :: t in old(taskManager.tasks.Values) && (taskID !in taskManager.tasks || t != taskManager.tasks[taskID])
                ==> unchanged(t)
    {
      var task := taskManager.Get(taskID);
      if task.Some? {
        var t := task.value;
        t.status := status;
        t.error := err;
        if status == T.Completed || status == T.Failed {
          t.endTime := now;
          taskProgress := taskProgress - {taskID};
        }
      }
    }

    /** Update on a downloadReplyMsg: the pending entry goes whether or not
      * its task exists; a known task gets the transfer size, becomes Active
      * and is returned to be transferred. */
    method HandleDownloadReply(txID: seq<byte>, transferSize: nat) returns (start: Option<T.Task>)
      requires taskManager.Valid()
      modifies taskManager.tasks.Values, this`pendingDownloads
      ensures pendingDownloads == old(pendingDownloads) - {txID}
      ensures var id := C.Model.PendingTask(old(pendingDownloads), txID);
              (id in taskManager.tasks <==> start.Some?)
              && (start.Some? ==> start.value == taskManager.tasks[id] && start.value.totalBytes == transferSize
                                  && start.value.status == T.Active)
      ensures forall t :: t in old(taskManager.tasks.Values) && (start == None || t != start.value) ==> unchanged(t)
    {
      var taskID := C.Model.PendingTask(pendingDownloads, txID);
      pendingDownloads := pendingDownloads - {txID};
      start := taskManager.Get(taskID);
      if start.Some? {
        start.value.totalBytes := transferSize;
        start.value.status := T.Active;
      }
    }

    /** Update on an uploadReplyMsg: an unknown transaction changes nothing;
      * a known one loses its entry and its task, if any, becomes Active. */
    method HandleUploadReply(txID: seq<byte>) returns (start: Option<T.Task>)
      requires taskManager.Valid()
      modifies taskManager.tasks.Values, this`pendingUploads
      ensures txID !in old(pendingUploads) ==> start == None && pendingUploads == old(pendingUploads)
      ensures txID in old(pendingUploads) ==>
                pendingUploads == old(pendingUploads) - {txID}
                && (old(pendingUploads)[txID] in taskManager.tasks <==> start.Some?)
      ensures start.Some? ==> start.value == taskManager.tasks[old(pendingUploads)[txID]] && start.value.status == T.Active
      ensures forall t :: t in old(taskManager.tasks.Values) && (start == None || t != start.value) ==> unchanged(t)
    {
      if txID !in pendingUploads {
        return None;
      }
      var taskID := pendingUploads[txID];
      pendingUploads := pendingUploads - {txID};
      start := taskManager.Get(taskID);
      if start.Some? {
        start.value.status := T.Active;
      }
    }
  }
}

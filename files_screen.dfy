/** The file browser of ui/screen_files.go: the folder path it is showing,
  * the entries built from a file-list reply, its keys, and the queuing of
  * a download as a task with a pending transaction. The list widget's
  * selection and filter are inputs; the transactions sent are not part of
  * this model. */
module FilesScreen {
  import opened Bytes
  import opened FileItems
  import UiScreens
  import U = UiModel
  import H = ScreenHistory
  import T = Tasks

  /** One entry of a file-list reply: name, type and creator codes, and the
    * 4-byte big-endian size. */
  datatype FileInfo = FileInfo(name: string, fileType: string, creator: string, fileSize: seq<byte>)

  predicate WellFormed(files: seq<FileInfo>)
  {
    forall i :: 0 <= i < |files| ==> |files[i].fileSize| == 4
  }

  /** The "<- Back" entry, listed as a folder of size 0. */
  const BackEntry: FileItem := FileItem(UiScreens.BackItem, true, 0, "\0\0\0\0", "\0\0\0\0")

  /** The entry SetFiles makes for a listed file: a folder iff its type is
    * "fldr", its size in whole KB. */
  function ItemOf(f: FileInfo): (item: FileItem)
    requires |f.fileSize| == 4
    ensures item.name == f.name && item.fileType == f.fileType && item.creator == f.creator
    ensures item.isFolder <==> f.fileType == "fldr"
    ensures item.size * 1024 <= ReadBE32(f.fileSize) < (item.size + 1) * 1024
  {
    FileItem(f.name, f.fileType == "fldr", ReadBE32(f.fileSize) / 1024, f.fileType, f.creator)
  }

  /** The entries for the listed files, in order. */
  function ItemsOf(files: seq<FileInfo>): (items: seq<FileItem>)
    requires WellFormed(files)
    ensures |items| == |files| && forall i :: 0 <= i < |files| ==> items[i] == ItemOf(files[i])
  {
    if files == [] then [] else [ItemOf(files[0])] + ItemsOf(files[1..])
  }

  /** The list SetFiles shows: "<- Back" first when inside a folder. */
  function Listing(path: seq<string>, files: seq<FileInfo>): (items: seq<FileItem>)
    requires WellFormed(files)
  {
    (if |path| > 0 then [BackEntry] else []) + ItemsOf(files)
  }

  /** The listing holds one entry per file, after a "<- Back" entry exactly
    * when the path is not the root: past that entry it is ItemsOf(files),
    * whose entry i is ItemOf(files[i]). */
  lemma ListingShape(path: seq<string>, files: seq<FileInfo>)
    requires WellFormed(files)
    ensures |Listing(path, files)| == |files| + (if |path| > 0 then 1 else 0)
    ensures |path| > 0 ==> Listing(path, files)[0] == BackEntry && Listing(path, files)[1..] == ItemsOf(files)
    ensures |path| == 0 ==> Listing(path, files) == ItemsOf(files)
  {
    if |path| > 0 {
      assert ([BackEntry] + ItemsOf(files))[1..] == ItemsOf(files);
    }
  }

  /** What the screen sends to the model. */
  datatype FilesMsg = NoMsg | Cancelled | GetInfo(name: string, path: seq<string>) | Upload
                    | Navigate(path: seq<string>) | Download(name: string, path: seq<string>)

  datatype FilesKey = Esc | Tab | CtrlU | Enter | OtherKey

  class Files {
    const model: U.Model
    var filePath: seq<string>
    var items: seq<FileItem>

    /** NewFilesScreen: at the root, with an empty list. */
    constructor (m: U.Model)
      ensures model == m && filePath == [] && items == []
    {
      model := m;
      filePath := [];
      items := [];
    }

    /** SetFiles: the listing of the reply for the current path. */
    method SetFiles(files: seq<FileInfo>)
      requires WellFormed(files)
      modifies this`items
      ensures items == Listing(filePath, files)
    {
      var list := if |filePath| > 0 then [BackEntry] else [];
      var i := 0;
      while i < |files|
        invariant 0 <= i <= |files|
        invariant list == (if |filePath| > 0 then [BackEntry] else []) + ItemsOf(files[..i])
      {
        assert files[..i + 1] == files[..i] + [files[i]];
        ItemsOfAppend(files[..i], files[i]);
        list := list + [ItemOf(files[i])];
        i := i + 1;
      }
      assert files[..i] == files;
      items := list;
    }

    /** Enter on a selected entry: "<- Back" goes up a level and a folder is
      * entered, both asking for the new folder's listing; a file is asked to
      * be downloaded from the current folder. */
    method EnterItem(item: FileItem) returns (msg: FilesMsg)
      modifies this`filePath
      ensures item.name == UiScreens.BackItem ==> filePath == UiScreens.PathUp(old(filePath)) && msg == Navigate(filePath)
      ensures item.name != UiScreens.BackItem && item.isFolder ==>
                filePath == old(filePath) + [item.name] && msg == Navigate(filePath)
      ensures item.name != UiScreens.BackItem && !item.isFolder ==>
                filePath == old(filePath) && msg == Download(item.name, filePath)
    {
      if item.name == UiScreens.BackItem {
        if |filePath| > 0 {
          filePath := filePath[..|filePath| - 1];
        }
        return Navigate(filePath);
      }
      if item.isFolder {
        filePath := filePath + [item.name];
        return Navigate(filePath);
      }
      return Download(item.name, filePath);
    }

    /** handleKeys. While the list is filtering every key is the list's.
      * Otherwise esc leaves with the path reset, tab asks for the selected
      * entry's info (not for "<- Back"), ctrl+u asks to upload and enter
      * acts on the selected entry. */
    method HandleKey(key: FilesKey, filtering: bool, selected: Option<FileItem>) returns (msg: FilesMsg)
      modifies this`filePath
      ensures filtering ==> msg == NoMsg && filePath == old(filePath)
      ensures !filtering && key == Esc ==> msg == Cancelled && filePath == []
      ensures !filtering && key == Tab ==>
                (filePath == old(filePath) &&
                 msg == if selected.Some? && selected.value.name != UiScreens.BackItem
                        then GetInfo(selected.value.name, filePath) else NoMsg)
      ensures !filtering && key == CtrlU ==> msg == Upload && filePath == old(filePath)
      ensures !filtering && key == Enter && selected.None? ==> msg == NoMsg && filePath == old(filePath)
      ensures (!filtering && key == Enter && selected.Some? && selected.value.name != UiScreens.BackItem &&
               selected.value.isFolder) ==> filePath == old(filePath) + [selected.value.name] && msg == Navigate(filePath)
      ensures (!filtering && key == Enter && selected.Some? && selected.value.name != UiScreens.BackItem &&
               !selected.value.isFolder) ==> filePath == old(filePath) && msg == Download(selected.value.name, filePath)
      ensures !filtering && key == Enter && selected.Some? && selected.value.name == UiScreens.BackItem ==>
                filePath == UiScreens.PathUp(old(filePath)) && msg == Navigate(filePath)
      ensures !filtering && key == OtherKey ==> msg == NoMsg && filePath == old(filePath)
    {
      msg := NoMsg;
      if filtering {
        return;
      }
      match key {
        case Esc =>
          filePath := [];
          msg := Cancelled;
        case Tab =>
          if selected.Some? && selected.value.name != UiScreens.BackItem {
            msg := GetInfo(selected.value.name, filePath);
          }
        case CtrlU =>
          msg := Upload;
        case Enter =>
          if selected.Some? {
            msg := EnterItem(selected.value);
          }
        case OtherKey =>
      }
    }

    /** Update on FilesCancelledMsg: the model pops the files screen. */
    method HandleCancelled()
      modifies model`screenHistory
      ensures model.screenHistory == H.Popped(old(model.screenHistory), U.Home)
    {
      var _ := model.PopScreen();
    }

    /** InitiateDownload: a Pending task for the file is registered and the
      * download transaction's ID is mapped to the task's ID. The task ID,
      * the transaction ID and the clock reading are inputs. */
    method InitiateDownload(fileName: string, path: seq<string>, taskID: string, txID: seq<byte>, now: int)
      returns (task: T.Task)
      requires model.taskManager.Valid()
      modifies model.taskManager, model`pendingDownloads
      ensures fresh(task) && task.id == taskID && task.fileName == fileName && task.filePath == path
      ensures task.status == T.Pending && task.startTime == now
      ensures model.taskManager.Valid()
      ensures model.taskManager.tasks == old(model.taskManager.tasks)[taskID := task]
      ensures model.taskManager.order == old(model.taskManager.order) + [taskID]
      ensures model.pendingDownloads == old(model.pendingDownloads)[txID := taskID]
    {
      task := new T.Task(taskID, fileName, path, 0, now);
      model.taskManager.Add(task);
      model.pendingDownloads := model.pendingDownloads[txID := taskID];
    }
  }

  lemma ItemsOfAppend(files: seq<FileInfo>, f: FileInfo)
    requires WellFormed(files) && |f.fileSize| == 4
    ensures WellFormed(files + [f]) && ItemsOf(files + [f]) == ItemsOf(files) + [ItemOf(f)]
  {
  }
}

/** The key handlers of ui/screens.go that move a focus index, flip check
  * boxes and walk the file path, on the fields of the ui package's Model
  * that they touch. The account-editor handlers there repeat those of
  * internal/screen_accounts.go and reuse its definitions. */
module UiScreens {
  import opened Text
  import opened Access
  import Formatting
  import AccountEditor
  import FileItems

  /** The screens of ui/ui.go's Screen enumeration. */
  datatype Screen = Home | JoinServer | Bookmarks | Tracker | Settings | ServerUI | News | NewsPost
                  | MessageBoard | Files | Logs | Modal | Tasks | Accounts

  // ---------------------------------------------------------------------
  // Focus cycling

  /** The join form has five stops in both of its modes: server, login,
    * password, TLS and save, or name, server, login, password and TLS. */
  const JoinFocusCount: int := 5
  /** The settings form: username, icon, tracker, download folder, bell and
    * sounds. */
  const SettingsFocusCount: int := 6

  /** Go's `%`, whose remainder takes the sign of the dividend. */
  function Rem(a: int, n: int): (r: int)
    requires n > 0
    ensures a >= 0 ==> r == a % n
  {
    a - n * Formatting.Quot(a, n)
  }

  /** Tab: the next stop, wrapping from the last to the first. */
  function NextFocus(i: int, n: int): int
    requires n > 0
  {
    Rem(i + 1, n)
  }

  /** Shift+tab: the previous stop, wrapping from the first to the last. */
  function PrevFocus(i: int, n: int): int
    requires n > 0
  {
    if i - 1 < 0 then n - 1 else i - 1
  }

  /** Tab and shift+tab keep a focus in [0, n) there and undo each other. */
  lemma FocusCycles(i: int, n: int)
    requires n > 0 && 0 <= i < n
    ensures 0 <= NextFocus(i, n) < n && 0 <= PrevFocus(i, n) < n
    ensures PrevFocus(NextFocus(i, n), n) == i && NextFocus(PrevFocus(i, n), n) == i
    ensures NextFocus(i, n) == (if i == n - 1 then 0 else i + 1)
  {
    if i + 1 < n {
      Formatting.DivUnique(i + 1, n, 0, i + 1);
    } else {
      Formatting.DivUnique(i + 1, n, 1, 0);
    }
    if i == 0 {
      Formatting.DivUnique(n, n, 1, 0);
    } else {
      Formatting.DivUnique(i, n, 0, i);
    }
  }

  /** What space does on a form: flip one of its check boxes, or pass the
    * key on to the focused text input. */
  datatype SpaceTarget = UseTLSBox | SaveBookmarkBox | BellBox | SoundsBox | TextInput

  /** The join form: TLS is stop 4 when editing or creating a bookmark, and
    * stops 3 (TLS) and 4 (save) when connecting. */
  function JoinSpaceTarget(bookmarkMode: bool, focus: int): (t: SpaceTarget)
    ensures t in {UseTLSBox, SaveBookmarkBox, TextInput}
    ensures bookmarkMode ==> t != SaveBookmarkBox
  {
    if bookmarkMode then (if focus == 4 then UseTLSBox else TextInput)
    else if focus == 3 then UseTLSBox
    else if focus == 4 then SaveBookmarkBox
    else TextInput
  }

  /** The settings form: bell at stop 4, sounds at stop 5. */
  function SettingsSpaceTarget(focus: int): (t: SpaceTarget)
    ensures t in {BellBox, SoundsBox, TextInput}
  {
    if focus == 4 then BellBox else if focus == 5 then SoundsBox else TextInput
  }

  /** No check box of the join form has two stops. */
  lemma JoinBoxesHaveOneStop(bookmarkMode: bool, f: int, g: int)
    requires JoinSpaceTarget(bookmarkMode, f) == JoinSpaceTarget(bookmarkMode, g) != TextInput
    ensures f == g
  {
  }

  // ---------------------------------------------------------------------
  // File path

  /** The list entry that leads to the parent folder. */
  const BackItem: string := "<- Back"

  /** "<- Back": the last path element dropped, nothing on an empty path. */
  function PathUp(path: seq<string>): (r: seq<string>)
    ensures |path| > 0 ==> r + [path[|path| - 1]] == path
    ensures |path| == 0 ==> r == []
  {
    if |path| > 0 then path[..|path| - 1] else path
  }

  /** Going into a folder and back again returns to the same path. */
  lemma EnterThenBack(path: seq<string>, name: string)
    ensures PathUp(path + [name]) == path
  {
    assert (path + [name])[..|path|] == path;
  }

  /** What enter on a file entry leads to: a new listing of the given folder
    * path, or a download of the named file. */
  datatype FileAction = ListFolder(path: seq<string>) | DownloadFile(name: string)

  // ---------------------------------------------------------------------
  // Reply subject

  const RePrefix: string := "Re: "

  /** The subject of a reply: "Re: " put in front unless already there. */
  function ReplySubject(title: string): (r: string)
    ensures HasPrefix(r, RePrefix)
    ensures HasPrefix(title, RePrefix) ==> r == title
    ensures !HasPrefix(title, RePrefix) ==> r == RePrefix + title
  {
    if HasPrefix(title, RePrefix) then title else RePrefix + title
  }

  /** Replying to a reply does not stack prefixes. */
  lemma ReplySubjectIdempotent(title: string)
    ensures ReplySubject(ReplySubject(title)) == ReplySubject(title)
  {
  }

  // ---------------------------------------------------------------------
  // The Model's fields these handlers use

  class Model {
    var focusIndex: int
    var editingBookmark: bool
    var creatingBookmark: bool
    var useTLS: bool
    var saveBookmark: bool
    var enableBell: bool
    var enableSounds: bool
    var accountDetailFocused: bool
    var isNewAccount: bool
    var userAccess: seq<bv8>
    var editedAccessBits: seq<bv8>
    var focusedAccessBit: int
    var accountsViewportHeight: int
    var accountsYOffset: int
    var filePath: seq<string>
    var currentScreen: Screen
    var previousScreen: Screen

    /** handleJoinServerKeys, tab. */
    method JoinServerTab()
      modifies this`focusIndex
      ensures focusIndex == NextFocus(old(focusIndex), JoinFocusCount)
    {
      focusIndex := Rem(focusIndex + 1, JoinFocusCount);
    }

    /** handleJoinServerKeys, shift+tab. */
    method JoinServerShiftTab()
      modifies this`focusIndex
      ensures focusIndex == PrevFocus(old(focusIndex), JoinFocusCount)
    {
      focusIndex := focusIndex - 1;
      if focusIndex < 0 {
        focusIndex := JoinFocusCount - 1;
      }
    }

    /** handleJoinServerKeys, space: flips the box at the focus and reports
      * whether the key goes on to the text input instead. */
    method JoinServerSpace() returns (passOn: bool)
      modifies this`useTLS, this`saveBookmark
      ensures var t := JoinSpaceTarget(editingBookmark || creatingBookmark, focusIndex);
        && passOn == (t == TextInput)
        && useTLS == (if t == UseTLSBox then !old(useTLS) else old(useTLS))
        && saveBookmark == (if t == SaveBookmarkBox then !old(saveBookmark) else old(saveBookmark))
    {
      passOn := false;
      if editingBookmark || creatingBookmark {
        if focusIndex == 4 {
          useTLS := !useTLS;
          return;
        }
      } else {
        if focusIndex == 3 {
          useTLS := !useTLS;
          return;
        } else if focusIndex == 4 {
          saveBookmark := !saveBookmark;
          return;
        }
      }
      passOn := true;
    }

    /** handleSettingsKeys, tab. */
    method SettingsTab()
      modifies this`focusIndex
      ensures focusIndex == NextFocus(old(focusIndex), SettingsFocusCount)
    {
      focusIndex := Rem(focusIndex + 1, SettingsFocusCount);
    }

    /** handleSettingsKeys, shift+tab. */
    method SettingsShiftTab()
      modifies this`focusIndex
      ensures focusIndex == PrevFocus(old(focusIndex), SettingsFocusCount)
    {
      focusIndex := focusIndex - 1;
      if focusIndex < 0 {
        focusIndex := SettingsFocusCount - 1;
      }
    }

    /** handleSettingsKeys, space. */
    method SettingsSpace() returns (passOn: bool)
      modifies this`enableBell, this`enableSounds
      ensures var t := SettingsSpaceTarget(focusIndex);
        && passOn == (t == TextInput)
        && enableBell == (if t == BellBox then !old(enableBell) else old(enableBell))
        && enableSounds == (if t == SoundsBox then !old(enableSounds) else old(enableSounds))
    {
      if focusIndex == 4 {
        enableBell := !enableBell;
        return false;
      }
      if focusIndex == 5 {
        enableSounds := !enableSounds;
        return false;
      }
      return true;
    }

    predicate CanEditAccount()
      reads this
      requires IsBitmap(userAccess)
    {
      IsSet(userAccess, AccessModifyUser) || isNewAccount
    }

    /** handleAccountsKeys, up with the detail pane focused. */
    method AccountUp()
      requires IsBitmap(userAccess) && accountDetailFocused
      modifies this`focusedAccessBit, this`accountsYOffset
      ensures focusedAccessBit == if CanEditAccount() && old(focusedAccessBit) > 0 then old(focusedAccessBit) - 1 else old(focusedAccessBit)
      ensures accountsYOffset == if CanEditAccount() && old(focusedAccessBit) > 0
                                 then AccountEditor.ScrollTarget(focusedAccessBit, accountsViewportHeight, old(accountsYOffset))
                                 else old(accountsYOffset)
    {
      var canEdit := IsSet(userAccess, AccessModifyUser) || isNewAccount;
      if canEdit && focusedAccessBit > 0 {
        focusedAccessBit := focusedAccessBit - 1;
        ScrollToFocusedCheckbox();
      }
    }

    /** handleAccountsKeys, down with the detail pane focused. */
    method AccountDown()
      requires IsBitmap(userAccess) && accountDetailFocused
      modifies this`focusedAccessBit, this`accountsYOffset
      ensures focusedAccessBit == if CanEditAccount() && old(focusedAccessBit) < AccountEditor.FocusPass then old(focusedAccessBit) + 1 else old(focusedAccessBit)
      ensures accountsYOffset == if CanEditAccount() && old(focusedAccessBit) < AccountEditor.FocusPass
                                 then AccountEditor.ScrollTarget(focusedAccessBit, accountsViewportHeight, old(accountsYOffset))
                                 else old(accountsYOffset)
    {
      var canEdit := IsSet(userAccess, AccessModifyUser) || isNewAccount;
      if canEdit && focusedAccessBit < AccountEditor.FocusPass {
        focusedAccessBit := focusedAccessBit + 1;
        ScrollToFocusedCheckbox();
      }
    }

    /** handleAccountsKeys, pgup and pgdown: a page up or down when the
      * detail pane is focused. */
    method AccountPage(up: bool)
      modifies this`accountsYOffset
      ensures accountsYOffset == if !accountDetailFocused then old(accountsYOffset)
                                 else if up then old(accountsYOffset) - accountsViewportHeight
                                 else old(accountsYOffset) + accountsViewportHeight
    {
      if accountDetailFocused {
        if up {
          accountsYOffset := accountsYOffset - accountsViewportHeight;
        } else {
          accountsYOffset := accountsYOffset + accountsViewportHeight;
        }
      }
    }

    /** handleAccountsKeys, space: flips the focused checkbox's bit when the
      * account may be edited and the detail pane is focused. */
    method AccountSpace()
      requires IsBitmap(userAccess) && IsBitmap(editedAccessBits)
      modifies this`editedAccessBits
      ensures editedAccessBits == if CanEditAccount() && accountDetailFocused
                                  then AccountEditor.ToggleFocused(old(editedAccessBits), focusedAccessBit)
                                  else old(editedAccessBits)
    {
      var canEdit := IsSet(userAccess, AccessModifyUser) || isNewAccount;
      if canEdit && accountDetailFocused {
        var found := AccountEditor.FindCheckbox(Categories, focusedAccessBit);
        if found.Some? {
          var bit := found.value;
          AccountEditor.CheckboxAtTable(focusedAccessBit);
          if IsSet(editedAccessBits, bit) {
            editedAccessBits := Clear(editedAccessBits, bit);
          } else {
            editedAccessBits := Set(editedAccessBits, bit);
          }
        }
      }
    }

    /** scrollToFocusedCheckbox of the ui Model. */
    method ScrollToFocusedCheckbox()
      modifies this`accountsYOffset
      ensures accountsYOffset == AccountEditor.ScrollTarget(focusedAccessBit, accountsViewportHeight, old(accountsYOffset))
    {
      if focusedAccessBit < 41 {
        var line := AccountEditor.FindCheckboxLine(Categories, focusedAccessBit, AccountEditor.TopLines);
        if line.Some? {
          var targetYOffset := line.value - Formatting.Quot(accountsViewportHeight, 2);
          if targetYOffset < 0 {
            targetYOffset := 0;
          }
          accountsYOffset := targetYOffset;
        }
      } else {
        accountsYOffset := 0;
      }
    }

    /** handleFilesKeys, esc: back to the previous screen with the path
      * cleared. */
    method FilesEsc()
      modifies this`currentScreen, this`filePath
      ensures currentScreen == old(previousScreen) && filePath == []
    {
      currentScreen := previousScreen;
      filePath := [];
    }

    /** handleFilesKeys, enter on a list entry: "<- Back" goes up a level and
      * a folder is entered, both asking for the new folder's listing; any
      * other entry is a file to download, after going back to the previous
      * screen. */
    method FilesEnter(item: FileItems.FileItem) returns (action: FileAction)
      modifies this`filePath, this`currentScreen
      ensures item.name == BackItem ==> filePath == PathUp(old(filePath)) && action == ListFolder(filePath)
      ensures item.name != BackItem && item.isFolder ==> filePath == old(filePath) + [item.name] && action == ListFolder(filePath)
      ensures item.name != BackItem && !item.isFolder ==> filePath == old(filePath) && action == DownloadFile(item.name)
      ensures currentScreen == if item.name != BackItem && !item.isFolder then old(previousScreen) else old(currentScreen)
    {
      if item.name == BackItem {
        if |filePath| > 0 {
          filePath := filePath[..|filePath| - 1];
        }
        return ListFolder(filePath);
      }
      if item.isFolder {
        filePath := filePath + [item.name];
        return ListFolder(filePath);
      }
      currentScreen := previousScreen;
      return DownloadFile(item.name);
    }
  }
}

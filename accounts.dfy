/** The account editor of internal/screen_accounts.go: a list of accounts
  * and, once one is chosen or a new one is started, a detail pane with the
  * login, name and password fields and one checkbox per access privilege.
  * The key handler moves a focus index over the 37 checkboxes (0-36) and the
  * three text fields (41-43), flips access bits, edits text, and emits save,
  * delete and cancel requests; saving lays the account out as sub-fields. */
module AccountEditor {
  import opened Bytes
  import opened Access
  import Formatting
  import Transactions

  const FocusLogin: int := 41
  const FocusName: int := 42
  const FocusPass: int := 43

  /** An entry of the account list. */
  datatype AccountItem = AccountItem(login: string, name: string, access: seq<bv8>, hasPass: bool)

  /** The account the detail pane was opened on. */
  datatype Selected = Selected(login: string, name: string, originalAccess: seq<bv8>, hasPassword: bool)

  /** AccountsSaveMsg. */
  datatype SaveRequest = SaveRequest(login: string, name: string, password: string,
                                     passwordChanged: bool, accessBits: seq<bv8>, isNew: bool)

  /** The message a key press hands back to the program, if any. */
  datatype Emitted = NoMsg | Cancelled | Save(request: SaveRequest) | Delete(login: string)

  /** The names handleKeys tells apart in msg.String(): "tab", "esc", "up",
    * "down", "pgup", "pgdown", " " or "space", "enter", "ctrl+d", "n", and
    * every other name. */
  datatype KeyName = Tab | Esc | Up | Down | PageUp | PageDown | Space | Enter | CtrlD | LetterN | OtherName

  /** The parts of a key message the handler looks at: its name, and whether
    * the key is typed text, backspace or anything else. */
  datatype KeyType = RunesKey(runes: string) | BackspaceKey | OtherKey
  datatype KeyMsg = KeyMsg(name: KeyName, typ: KeyType)

  /** The editor's state, field by field. `selected` is selectedAccount (None
    * for nil); the viewport is reduced to its height and its offset. */
  datatype Editor = Editor(
    selected: Option<Selected>, detailFocused: bool, isNewAccount: bool,
    editedLogin: string, editedName: string, editedPassword: string,
    editedAccessBits: seq<bv8>, focusedAccessBit: int, passwordChanged: bool,
    userAccess: seq<bv8>, viewportHeight: int, yOffset: int)

  /** What every reachable state satisfies: both bitmaps are eight bytes and
    * the focus lies in [0, 43]. */
  predicate EditorValid(e: Editor)
  {
    && IsBitmap(e.editedAccessBits) && IsBitmap(e.userAccess)
    && 0 <= e.focusedAccessBit <= FocusPass
  }

  /** The edited strings hold bytes, as Go strings do. */
  predicate TextIsBytes(e: Editor)
  {
    ByteString(e.editedLogin) && ByteString(e.editedName) && ByteString(e.editedPassword)
  }

  /** Without a selected account or a new one, only the list is shown. */
  predicate ListOnly(e: Editor)
  {
    e.selected.None? && !e.isNewAccount
  }

  predicate CanEdit(e: Editor)
    requires IsBitmap(e.userAccess)
  {
    IsSet(e.userAccess, AccessModifyUser) || e.isNewAccount
  }

  // ---------------------------------------------------------------------
  // Focus to checkbox and to screen line

  /** The bit of checkbox f, counting through the categories in order. */
  function CheckboxAt(cats: seq<seq<nat>>, f: int): Option<nat>
  {
    if cats == [] || f < 0 then None
    else if f < |cats[0]| then Some(cats[0][f])
    else CheckboxAt(cats[1..], f - |cats[0]|)
  }

  /** Checkbox f is entry f of the flattened table, and there is none past
    * its end. */
  lemma {:induction false} CheckboxAtIsCheckbox(cats: seq<seq<nat>>, f: int)
    ensures CheckboxAt(cats, f) == if 0 <= f < |Checkboxes(cats)| then Some(Checkboxes(cats)[f]) else None
  {
    if cats != [] && f >= |cats[0]| {
      CheckboxAtIsCheckbox(cats[1..], f - |cats[0]|);
    }
  }

  /** Focus 0 to 36 names one of the table's bits, all below 41; focus 37 and
    * beyond names none. */
  lemma CheckboxAtTable(f: int)
    ensures CheckboxAt(Categories, f).Some? <==> 0 <= f < 37
    ensures CheckboxAt(Categories, f).Some? ==> CheckboxAt(Categories, f).value < 41
  {
    CheckboxAtIsCheckbox(Categories, f);
    TableShape();
  }

  /** The line of checkbox f when the categories start at line `start`: a
    * header line per category, a line per checkbox and a blank line after
    * each category. */
  function CheckboxLine(cats: seq<seq<nat>>, f: int, start: int): Option<int>
  {
    if cats == [] || f < 0 then None
    else if f < |cats[0]| then Some(start + 1 + f)
    else CheckboxLine(cats[1..], f - |cats[0]|, start + |cats[0]| + 2)
  }

  /** The checkbox lines follow screen order: a later checkbox sits lower. */
  lemma {:induction false} CheckboxLinesIncrease(cats: seq<seq<nat>>, f: int, g: int, start: int)
    requires 0 <= f < g && CheckboxLine(cats, g, start).Some?
    ensures CheckboxLine(cats, f, start).Some?
    ensures CheckboxLine(cats, f, start).value < CheckboxLine(cats, g, start).value
  {
    if cats != [] && g >= |cats[0]| {
      if f >= |cats[0]| {
        CheckboxLinesIncrease(cats[1..], f - |cats[0]|, g - |cats[0]|, start + |cats[0]| + 2);
      } else {
        CheckboxLineAfter(cats[1..], g - |cats[0]|, start + |cats[0]| + 2);
      }
    }
  }

  /** A line is found exactly for the focus values that name a checkbox. */
  lemma {:induction false} CheckboxLineFound(cats: seq<seq<nat>>, f: int, start: int)
    ensures CheckboxLine(cats, f, start).Some? <==> CheckboxAt(cats, f).Some?
  {
    if cats != [] && f >= |cats[0]| {
      CheckboxLineFound(cats[1..], f - |cats[0]|, start + |cats[0]| + 2);
    }
  }

  /** Every line found lies below the starting line. */
  lemma {:induction false} CheckboxLineAfter(cats: seq<seq<nat>>, f: int, start: int)
    requires CheckboxLine(cats, f, start).Some?
    ensures CheckboxLine(cats, f, start).value > start
  {
    if cats != [] && f >= |cats[0]| {
      CheckboxLineAfter(cats[1..], f - |cats[0]|, start + |cats[0]| + 2);
    }
  }

  /** Header and field lines above the checkboxes: 3 header lines and 5 for
    * the login, name and password fields. */
  const TopLines: int := 3 + 5

  /** The offset scrollToFocusedCheckbox asks for: the focused checkbox's
    * line less half the viewport height, not below 0; the top for the text
    * fields; no change for the focus values 37-40 that name no checkbox. */
  function ScrollTarget(focus: int, height: int, current: int): (r: int)
    ensures focus >= 41 ==> r == 0
    ensures CheckboxLine(Categories, focus, TopLines).None? && focus < 41 ==> r == current
  {
    if focus < 41 then
      match CheckboxLine(Categories, focus, TopLines)
      case None => current
      case Some(line) => if line - Formatting.Quot(height, 2) < 0 then 0 else line - Formatting.Quot(height, 2)
    else 0
  }

  /** The scroll offset is never negative after a checkbox is focused, and
    * follows the checkbox down the screen: a later checkbox never scrolls
    * less far. */
  lemma ScrollTargetMonotone(f: int, g: int, height: int, current: int)
    requires 0 <= f < g && CheckboxLine(Categories, g, TopLines).Some?
    ensures ScrollTarget(g, height, current) >= 0
    ensures ScrollTarget(f, height, current) <= ScrollTarget(g, height, current)
  {
    CheckboxLinesIncrease(Categories, f, g, TopLines);
    CheckboxLineAfter(Categories, g, TopLines);
    CheckboxLineFound(Categories, g, TopLines);
    CheckboxAtTable(g);
  }

  /** The first checkbox of each category sits two lines below the last one
    * of the previous category (blank line and header), the very first at
    * line 9. */
  lemma CheckboxLineExamples()
    ensures CheckboxLine(Categories, 0, TopLines) == Some(9)
    ensures CheckboxLine(Categories, 15, TopLines) == Some(24)
    ensures CheckboxLine(Categories, 16, TopLines) == Some(27)
    ensures CheckboxLine(Categories, 36, TopLines) == Some(55)
    ensures CheckboxLine(Categories, 37, TopLines) == None
  {
    assert Categories[1..][1..] == Categories[2..];
    assert Categories[2..][1..] == Categories[3..];
    assert Categories[3..][1..] == Categories[4..];
    assert Categories[4..][1..] == Categories[5..];
    assert Categories[5..][1..] == [];
    assert CheckboxLine(Categories[5..], 1, 53) == Some(55);
    assert CheckboxLine(Categories[5..], 2, 53) == None;
    assert CheckboxLine(Categories[4..], 3, 49) == Some(55);
    assert CheckboxLine(Categories[3..], 10, 40) == Some(55);
    assert CheckboxLine(Categories[2..], 17, 31) == Some(55);
    assert CheckboxLine(Categories[1..], 20, 26) == Some(55);
    assert CheckboxLine(Categories[4..], 4, 49) == None;
    assert CheckboxLine(Categories[3..], 11, 40) == None;
    assert CheckboxLine(Categories[2..], 18, 31) == None;
    assert CheckboxLine(Categories[1..], 21, 26) == None;
  }

  // ---------------------------------------------------------------------
  // The key handler as a function of the state

  function Scrolled(e: Editor): Editor
  {
    e.(yOffset := ScrollTarget(e.focusedAccessBit, e.viewportHeight, e.yOffset))
  }

  /** Space on a focus: the focused checkbox's bit flipped, nothing for a
    * focus that names no checkbox. */
  function ToggleFocused(bits: seq<bv8>, focus: int): (r: seq<bv8>)
    requires IsBitmap(bits)
    ensures IsBitmap(r)
  {
    match CheckboxAt(Categories, focus)
    case None => bits
    case Some(bit) => CheckboxAtTable(focus); Toggle(bits, bit)
  }

  /** Choosing an account from the list: its values become the working copy,
    * the password starts empty and unchanged, and the first checkbox is
    * focused in the detail pane. */
  function Select(e: Editor, item: AccountItem): Editor
  {
    e.(selected := Some(Selected(item.login, item.name, item.access, item.hasPass)),
       editedLogin := item.login, editedName := item.name, editedPassword := "",
       editedAccessBits := item.access, passwordChanged := false,
       focusedAccessBit := 0, detailFocused := true)
  }

  /** "n" with the create-account privilege: an empty new account, with the
    * login field focused in the detail pane. */
  function StartNew(e: Editor): Editor
  {
    e.(isNewAccount := true, editedLogin := "", editedName := "", editedPassword := "",
       editedAccessBits := EmptyBitmap, focusedAccessBit := FocusLogin, detailFocused := true)
  }

  function DropLast(s: string): string
  {
    if |s| > 0 then s[..|s| - 1] else s
  }

  /** Typing into the focused text field: runes are appended, backspace drops
    * the last byte, and only password edits mark the password as changed. */
  function EditText(e: Editor, typ: KeyType): (r: Editor)
    ensures r == e.(editedLogin := r.editedLogin, editedName := r.editedName,
                    editedPassword := r.editedPassword, passwordChanged := r.passwordChanged)
    ensures TextIsBytes(e) && (typ.RunesKey? ==> ByteString(typ.runes)) ==> TextIsBytes(r)
  {
    if e.focusedAccessBit == FocusLogin then
      match typ
      case RunesKey(r) => e.(editedLogin := e.editedLogin + r)
      case BackspaceKey => e.(editedLogin := DropLast(e.editedLogin))
      case OtherKey => e
    else if e.focusedAccessBit == FocusName then
      match typ
      case RunesKey(r) => e.(editedName := e.editedName + r)
      case BackspaceKey => e.(editedName := DropLast(e.editedName))
      case OtherKey => e
    else if e.focusedAccessBit == FocusPass then
      match typ
      case RunesKey(r) => e.(editedPassword := e.editedPassword + r, passwordChanged := true)
      case BackspaceKey =>
        if |e.editedPassword| > 0 then e.(editedPassword := DropLast(e.editedPassword), passwordChanged := true) else e
      case OtherKey => e
    else e
  }

  function SaveOf(e: Editor): SaveRequest
  {
    SaveRequest(e.editedLogin, e.editedName, e.editedPassword, e.passwordChanged, e.editedAccessBits, e.isNewAccount)
  }

  /** The list-only view: "n" starts a new account when allowed, enter opens
    * the highlighted account, esc asks to close the screen; every other key
    * goes to the list widget. */
  function ListViewKey(e: Editor, key: KeyMsg, highlighted: Option<AccountItem>): (r: (Editor, Emitted))
    requires IsBitmap(e.userAccess)
    ensures r.0.userAccess == e.userAccess && r.0.viewportHeight == e.viewportHeight
    ensures EditorValid(e) && (highlighted.Some? ==> IsBitmap(highlighted.value.access)) ==> EditorValid(r.0)
    ensures TextIsBytes(e) && InputsValid(key, highlighted) ==> TextIsBytes(r.0)
  {
    match key.name
    case LetterN => (if IsSet(e.userAccess, AccessCreateUser) then StartNew(e) else e, NoMsg)
    case Enter => (if highlighted.Some? then Select(e, highlighted.value) else e, NoMsg)
    case Esc => (e, Cancelled)
    case _ => (e, NoMsg)
  }

  /** The split view: tab switches panes, esc goes back to the list, up
    * and down move the focus in the detail pane, pgup and pgdown scroll it by
    * half a page, space flips the focused checkbox, enter opens the
    * highlighted account from the list pane or saves from the detail pane,
    * ctrl+d deletes an existing account, and any other key edits the focused
    * text field. Moving and editing need the right to modify accounts,
    * unless the account is new. */
  function SplitViewKey(e: Editor, key: KeyMsg, highlighted: Option<AccountItem>): (r: (Editor, Emitted))
    requires EditorValid(e) && !ListOnly(e)
    ensures r.0.userAccess == e.userAccess && r.0.viewportHeight == e.viewportHeight
    ensures (highlighted.Some? ==> IsBitmap(highlighted.value.access)) ==> EditorValid(r.0)
    ensures TextIsBytes(e) && InputsValid(key, highlighted) ==> TextIsBytes(r.0)
  {
    match key.name
    case Tab => (e.(detailFocused := !e.detailFocused), NoMsg)
    case Esc => (e.(selected := None, isNewAccount := false, detailFocused := false), NoMsg)
    case Up =>
      (if e.detailFocused && CanEdit(e) && e.focusedAccessBit > 0
       then Scrolled(e.(focusedAccessBit := e.focusedAccessBit - 1)) else e, NoMsg)
    case Down =>
      (if e.detailFocused && CanEdit(e) && e.focusedAccessBit < FocusPass
       then Scrolled(e.(focusedAccessBit := e.focusedAccessBit + 1)) else e, NoMsg)
    case PageUp =>
      (if e.detailFocused then e.(yOffset := e.yOffset - Formatting.Quot(e.viewportHeight, 2)) else e, NoMsg)
    case PageDown =>
      (if e.detailFocused then e.(yOffset := e.yOffset + Formatting.Quot(e.viewportHeight, 2)) else e, NoMsg)
    case Space =>
      (if CanEdit(e) && e.detailFocused
       then e.(editedAccessBits := ToggleFocused(e.editedAccessBits, e.focusedAccessBit)) else e, NoMsg)
    case Enter =>
      if !e.detailFocused && highlighted.Some? then (Select(e, highlighted.value), NoMsg)
      else if CanEdit(e) && e.detailFocused then (e, Save(SaveOf(e)))
      else (e, NoMsg)
    case CtrlD =>
      if !e.isNewAccount && IsSet(e.userAccess, AccessDeleteUser) && e.detailFocused
      then (e, Delete(e.selected.value.login)) else (e, NoMsg)
    case _ =>
      (if CanEdit(e) && e.detailFocused then EditText(e, key.typ) else e, NoMsg)
  }

  /** handleKeys: the new state and the message handed back. */
  function Next(e: Editor, key: KeyMsg, highlighted: Option<AccountItem>): (r: (Editor, Emitted))
    requires EditorValid(e)
    ensures r.0.userAccess == e.userAccess && r.0.viewportHeight == e.viewportHeight
    ensures (highlighted.Some? ==> IsBitmap(highlighted.value.access)) ==> EditorValid(r.0)
    ensures TextIsBytes(e) && InputsValid(key, highlighted) ==> TextIsBytes(r.0)
  {
    if ListOnly(e) then ListViewKey(e, key, highlighted) else SplitViewKey(e, key, highlighted)
  }

  /** What the list widget and the keyboard can hand in: an eight-byte
    * bitmap and byte strings. */
  predicate InputsValid(key: KeyMsg, highlighted: Option<AccountItem>)
  {
    && (key.typ.RunesKey? ==> ByteString(key.typ.runes))
    && (highlighted.Some? ==> IsBitmap(highlighted.value.access)
                              && ByteString(highlighted.value.login) && ByteString(highlighted.value.name))
  }

  /** Up and down in the detail pane move the focus by one within [0, 43]
    * and change nothing else but the scroll offset. */
  lemma FocusSteps(e: Editor, highlighted: Option<AccountItem>)
    requires EditorValid(e) && !ListOnly(e) && e.detailFocused && CanEdit(e)
    ensures var up := Next(e, KeyMsg(Up, OtherKey), highlighted).0;
      up.focusedAccessBit == (if e.focusedAccessBit > 0 then e.focusedAccessBit - 1 else 0)
      && up.(yOffset := e.yOffset, focusedAccessBit := e.focusedAccessBit) == e
    ensures var down := Next(e, KeyMsg(Down, OtherKey), highlighted).0;
      down.focusedAccessBit == (if e.focusedAccessBit < FocusPass then e.focusedAccessBit + 1 else FocusPass)
      && down.(yOffset := e.yOffset, focusedAccessBit := e.focusedAccessBit) == e
  {
  }

  /** Space flips exactly the bit of the focused checkbox, entry `focus` of
    * the table; every other bit keeps its value, and a focus past the
    * table's 37 checkboxes changes nothing. */
  lemma ToggleFocusedFlipsOne(bits: seq<bv8>, focus: int, j: nat)
    requires IsBitmap(bits) && j < BitCount
    ensures 0 <= focus < |Checkboxes(Categories)| ==>
      (IsSet(ToggleFocused(bits, focus), j) <==>
       if j == Checkboxes(Categories)[focus] then !IsSet(bits, j) else IsSet(bits, j))
    ensures !(0 <= focus < |Checkboxes(Categories)|) ==> ToggleFocused(bits, focus) == bits
  {
    CheckboxAtIsCheckbox(Categories, focus);
    CheckboxAtTable(focus);
    match CheckboxAt(Categories, focus)
    case None =>
    case Some(bit) => ToggleFlipsOnly(bits, bit, j);
  }

  /** Flipping the focused checkbox twice gives back the bitmap. */
  lemma ToggleFocusedTwice(bits: seq<bv8>, focus: int)
    requires IsBitmap(bits)
    ensures ToggleFocused(ToggleFocused(bits, focus), focus) == bits
  {
    match CheckboxAt(Categories, focus)
    case None =>
    case Some(bit) => CheckboxAtTable(focus); ToggleTwice(bits, bit);
  }

  /** Space in the focused detail pane of an editable account changes the
    * access bits only, by flipping the focused checkbox; elsewhere it
    * changes nothing. Pressing it twice restores the state. */
  lemma SpaceTogglesOnlyBits(e: Editor, highlighted: Option<AccountItem>)
    requires EditorValid(e) && !ListOnly(e)
    ensures var once := Next(e, KeyMsg(Space, OtherKey), highlighted);
      && once.1 == NoMsg
      && once.0 == (if e.detailFocused && CanEdit(e)
                    then e.(editedAccessBits := ToggleFocused(e.editedAccessBits, e.focusedAccessBit)) else e)
      && Next(once.0, KeyMsg(Space, OtherKey), highlighted).0 == e
  {
    ToggleFocusedTwice(e.editedAccessBits, e.focusedAccessBit);
  }

  /** Text keys edit only the focused field: runes are appended, backspace
    * removes the last byte of a non-empty field, and only the password field
    * marks the password changed. */
  lemma TextGoesToFocusedField(e: Editor, r: string)
    requires EditorValid(e) && !ListOnly(e) && e.detailFocused && CanEdit(e)
    ensures var after := Next(e, KeyMsg(OtherName, RunesKey(r)), None).0;
      after == (if e.focusedAccessBit == FocusLogin then e.(editedLogin := e.editedLogin + r)
                else if e.focusedAccessBit == FocusName then e.(editedName := e.editedName + r)
                else if e.focusedAccessBit == FocusPass then e.(editedPassword := e.editedPassword + r, passwordChanged := true)
                else e)
    ensures var after := Next(e, KeyMsg(OtherName, BackspaceKey), None).0;
      after.passwordChanged == (e.passwordChanged || (e.focusedAccessBit == FocusPass && |e.editedPassword| > 0))
      && |after.editedLogin| == |e.editedLogin| - (if e.focusedAccessBit == FocusLogin && |e.editedLogin| > 0 then 1 else 0)
      && after.editedLogin == e.editedLogin[..|after.editedLogin|]
  {
  }

  /** "n" in the list opens an empty new account exactly when the user may
    * create accounts. */
  lemma NewAccountNeedsCreateAccess(e: Editor)
    requires EditorValid(e) && ListOnly(e)
    ensures var after := Next(e, KeyMsg(LetterN, RunesKey("n")), None).0;
      && (after.isNewAccount <==> IsSet(e.userAccess, AccessCreateUser))
      && (after.isNewAccount ==> after.editedLogin == "" && after.editedName == "" && after.editedPassword == ""
                                 && after.editedAccessBits == EmptyBitmap && after.focusedAccessBit == FocusLogin
                                 && after.detailFocused)
      && (!after.isNewAccount ==> after == e)
  {
  }

  /** Esc in the detail view returns to the list; in the list it asks to
    * close the screen. A save is handed back only from the focused detail
    * pane of an editable account, carrying the working copy. */
  lemma EscAndEnter(e: Editor)
    requires EditorValid(e)
    ensures var (after, out) := Next(e, KeyMsg(Esc, OtherKey), None);
      if ListOnly(e) then after == e && out == Cancelled
      else ListOnly(after) && !after.detailFocused && out == NoMsg
    ensures var (after, out) := Next(e, KeyMsg(Enter, OtherKey), None);
      after == e && (out.Save? <==> !ListOnly(e) && CanEdit(e) && e.detailFocused)
      && (out.Save? ==> out.request.login == e.editedLogin && out.request.accessBits == e.editedAccessBits
                        && out.request.isNew == e.isNewAccount)
  {
  }

  // ---------------------------------------------------------------------
  // The screen

  class AccountsScreen {
    var selected: Option<Selected>
    var detailFocused: bool
    var isNewAccount: bool
    var editedLogin: string
    var editedName: string
    var editedPassword: string
    var editedAccessBits: seq<bv8>
    var focusedAccessBit: int
    var passwordChanged: bool
    var userAccess: seq<bv8>
    var viewportHeight: int
    var yOffset: int

    function State(): Editor
      reads this
    {
      Editor(selected, detailFocused, isNewAccount, editedLogin, editedName, editedPassword,
             editedAccessBits, focusedAccessBit, passwordChanged, userAccess, viewportHeight, yOffset)
    }

    predicate Valid()
      reads this
    {
      EditorValid(State())
    }

    /** NewAccountsScreen: the list only, nothing being edited, a zero
      * bitmap, and a viewport 12 lines shorter than the window. */
    constructor (access: seq<bv8>, windowHeight: int)
      requires IsBitmap(access)
      ensures Valid() && ListOnly(State())
      ensures State() == Editor(None, false, false, "", "", "", EmptyBitmap, 0, false, access, windowHeight - 12, 0)
    {
      selected, detailFocused, isNewAccount := None, false, false;
      editedLogin, editedName, editedPassword := "", "", "";
      editedAccessBits, focusedAccessBit, passwordChanged := EmptyBitmap, 0, false;
      userAccess, viewportHeight, yOffset := access, windowHeight - 12, 0;
    }

    /** SetSize, as far as the modelled viewport goes. */
    method SetSize(windowHeight: int)
      modifies this
      ensures State() == old(State()).(viewportHeight := windowHeight - 12)
    {
      viewportHeight := windowHeight - 12;
    }

    /** ResetEditState: back to the list after a save or a delete. */
    method ResetEditState()
      modifies this
      ensures State() == old(State()).(selected := None, isNewAccount := false, detailFocused := false)
    {
      selected, isNewAccount, detailFocused := None, false, false;
    }

    /** handleKeys. `highlighted` is the list widget's selected item. */
    method HandleKey(key: KeyMsg, highlighted: Option<AccountItem>) returns (out: Emitted)
      requires Valid() && InputsValid(key, highlighted)
      modifies this
      ensures Valid()
      ensures (State(), out) == Next(old(State()), key, highlighted)
    {
      if selected.None? && !isNewAccount {
        out := ListKey(key, highlighted);
      } else {
        out := SplitKey(key, highlighted);
      }
    }

    /** The list-only half of handleKeys. */
    method ListKey(key: KeyMsg, highlighted: Option<AccountItem>) returns (out: Emitted)
      requires IsBitmap(userAccess)
      modifies this
      ensures (State(), out) == ListViewKey(old(State()), key, highlighted)
    {
      out := NoMsg;
      match key.name
      case LetterN =>
        if IsSet(userAccess, AccessCreateUser) {
          StartNewAccount();
        }
      case Enter =>
        if highlighted.Some? {
          SelectItem(highlighted.value);
        }
      case Esc =>
        out := Cancelled;
      case _ =>
    }

    /** The split-view half of handleKeys. */
    method SplitKey(key: KeyMsg, highlighted: Option<AccountItem>) returns (out: Emitted)
      requires Valid() && !ListOnly(State())
      modifies this
      ensures (State(), out) == SplitViewKey(old(State()), key, highlighted)
    {
      var canEdit := IsSet(userAccess, AccessModifyUser) || isNewAccount;
      out := NoMsg;
      match key.name
      case Tab =>
        detailFocused := !detailFocused;
      case Esc =>
        ResetEditState();
      case Up =>
        if detailFocused && canEdit && focusedAccessBit > 0 {
          MoveFocus(-1);
        }
      case Down =>
        if detailFocused && canEdit && focusedAccessBit < FocusPass {
          MoveFocus(1);
        }
      case PageUp =>
        if detailFocused {
          yOffset := yOffset - Formatting.Quot(viewportHeight, 2);
        }
      case PageDown =>
        if detailFocused {
          yOffset := yOffset + Formatting.Quot(viewportHeight, 2);
        }
      case Space =>
        if canEdit && detailFocused {
          ToggleFocusedBit();
        }
      case Enter =>
        if !detailFocused && highlighted.Some? {
          SelectItem(highlighted.value);
        } else if canEdit && detailFocused {
          out := Save(SaveRequest(editedLogin, editedName, editedPassword, passwordChanged, editedAccessBits, isNewAccount));
        }
      case CtrlD =>
        if !isNewAccount && IsSet(userAccess, AccessDeleteUser) && detailFocused {
          out := Delete(selected.value.login);
        }
      case _ =>
        if canEdit && detailFocused {
          EditFocusedField(key.typ);
        }
    }

    /** The "n" branch of the list view. */
    method StartNewAccount()
      modifies this
      ensures State() == StartNew(old(State()))
    {
      isNewAccount, editedLogin, editedName, editedPassword := true, "", "", "";
      editedAccessBits, focusedAccessBit, detailFocused := EmptyBitmap, FocusLogin, true;
    }

    /** The up and down branches: move the focus and scroll to it. */
    method MoveFocus(delta: int)
      modifies this
      ensures State() == Scrolled(old(State()).(focusedAccessBit := old(focusedAccessBit) + delta))
    {
      focusedAccessBit := focusedAccessBit + delta;
      ScrollToFocusedCheckbox();
    }

    method SelectItem(item: AccountItem)
      modifies this
      ensures State() == Select(old(State()), item)
    {
      selected, editedLogin, editedName, editedPassword, editedAccessBits, passwordChanged, focusedAccessBit, detailFocused
        := Some(Selected(item.login, item.name, item.access, item.hasPass)), item.login, item.name, "", item.access, false, 0, true;
    }

    /** The text-input branch of handleKeys. */
    method EditFocusedField(typ: KeyType)
      modifies this
      ensures State() == EditText(old(State()), typ)
    {
      if focusedAccessBit == FocusLogin {
        if typ.RunesKey? {
          editedLogin := editedLogin + typ.runes;
        } else if typ.BackspaceKey? && |editedLogin| > 0 {
          editedLogin := editedLogin[..|editedLogin| - 1];
        }
      } else if focusedAccessBit == FocusName {
        if typ.RunesKey? {
          editedName := editedName + typ.runes;
        } else if typ.BackspaceKey? && |editedName| > 0 {
          editedName := editedName[..|editedName| - 1];
        }
      } else if focusedAccessBit == FocusPass {
        if typ.RunesKey? {
          editedPassword, passwordChanged := editedPassword + typ.runes, true;
        } else if typ.BackspaceKey? && |editedPassword| > 0 {
          editedPassword, passwordChanged := editedPassword[..|editedPassword| - 1], true;
        }
      }
    }

    /** The space branch of handleKeys: flip the focused checkbox's bit. */
    method ToggleFocusedBit()
      requires IsBitmap(editedAccessBits)
      modifies this
      ensures State() == old(State()).(editedAccessBits := ToggleFocused(old(editedAccessBits), focusedAccessBit))
    {
      var found := FindCheckbox(Categories, focusedAccessBit);
      if found.Some? {
        var bit := found.value;
        CheckboxAtTable(focusedAccessBit);
        if IsSet(editedAccessBits, bit) {
          editedAccessBits := Clear(editedAccessBits, bit);
        } else {
          editedAccessBits := Set(editedAccessBits, bit);
        }
      }
    }

    /** scrollToFocusedCheckbox: center the focused checkbox, not scrolling
      * above the top; the text fields scroll to the top. */
    method ScrollToFocusedCheckbox()
      modifies this
      ensures State() == Scrolled(old(State()))
    {
      if focusedAccessBit < 41 {
        var line := FindCheckboxLine(Categories, focusedAccessBit, TopLines);
        if line.Some? {
          var centerOffset := Formatting.Quot(viewportHeight, 2);
          var targetYOffset := line.value - centerOffset;
          if targetYOffset < 0 {
            targetYOffset := 0;
          }
          yOffset := targetYOffset;
        }
      } else {
        yOffset := 0;
      }
    }
  }

  /** The search of the space branch: walk the categories counting
    * checkboxes until the count reaches the focus. */
  method FindCheckbox(cats: seq<seq<nat>>, focus: int) returns (r: Option<nat>)
    ensures r == CheckboxAt(cats, focus)
  {
    if focus < 0 {
      return None;
    }
    var focusIndex := 0;
    var c := 0;
    while c < |cats|
      invariant 0 <= c <= |cats| && 0 <= focusIndex <= focus
      invariant CheckboxAt(cats, focus) == CheckboxAt(cats[c..], focus - focusIndex)
    {
      var bits := cats[c];
      assert cats[c..][1..] == cats[c + 1..];
      var b := 0;
      while b < |bits|
        invariant 0 <= b <= |bits| && focusIndex <= focus
        invariant CheckboxAt(cats, focus)
               == if focus - focusIndex < |bits| - b then Some(bits[b + focus - focusIndex])
                  else CheckboxAt(cats[c + 1..], focus - focusIndex - (|bits| - b))
      {
        if focusIndex == focus {
          return Some(bits[b]);
        }
        focusIndex := focusIndex + 1;
        b := b + 1;
      }
      c := c + 1;
    }
    return None;
  }

  /** The line count of scrollToFocusedCheckbox from line `start`: a header
    * line per category, a line per checkbox and a blank line after each
    * category. */
  method FindCheckboxLine(cats: seq<seq<nat>>, focus: int, start: int) returns (r: Option<int>)
    ensures r == CheckboxLine(cats, focus, start)
  {
    if focus < 0 {
      return None;
    }
    var linePos := start;
    var currentBit := 0;
    var c := 0;
    while c < |cats|
      invariant 0 <= c <= |cats| && 0 <= currentBit <= focus
      invariant CheckboxLine(cats, focus, start) == CheckboxLine(cats[c..], focus - currentBit, linePos)
    {
      linePos := linePos + 1;
      var bits := cats[c];
      assert cats[c..][1..] == cats[c + 1..];
      var b := 0;
      while b < |bits|
        invariant 0 <= b <= |bits| && currentBit <= focus
        invariant CheckboxLine(cats, focus, start)
               == if focus - currentBit < |bits| - b then Some(linePos + focus - currentBit)
                  else CheckboxLine(cats[c + 1..], focus - currentBit - (|bits| - b), linePos + (|bits| - b) + 1)
      {
        if currentBit == focus {
          return Some(linePos);
        }
        linePos := linePos + 1;
        currentBit := currentBit + 1;
        b := b + 1;
      }
      linePos := linePos + 1;
      c := c + 1;
    }
    return None;
  }

  // ---------------------------------------------------------------------
  // submitAccountChanges

  /** The sub-fields of a saved account: the login through the library's
    * EncodeString (`encode`), the name, the eight access bytes, and for the
    * password: the new one when changed to something, none when changed to
    * empty (which removes it), and a single zero byte to keep the old one. */
  function SaveSubFields(req: SaveRequest, encode: seq<byte> -> seq<byte>): (r: seq<Transactions.Field>)
    requires ByteString(req.login) && ByteString(req.name) && ByteString(req.password)
    ensures 3 <= |r| <= 4
  {
    [Transactions.Field(Transactions.FieldUserLogin, encode(StringBytes(req.login))),
     Transactions.Field(Transactions.FieldUserName, StringBytes(req.name)),
     Transactions.Field(Transactions.FieldUserAccess, BitmapBytes(req.accessBits))]
    + (if req.passwordChanged then
         (if |req.password| > 0 then [Transactions.Field(Transactions.FieldUserPassword, StringBytes(req.password))] else [])
       else [Transactions.Field(Transactions.FieldUserPassword, [0])])
  }

  /** The password rule: a password sub-field is sent unless the password was
    * changed to empty; it carries the new password when changed, and the
    * single byte 0 otherwise. */
  lemma PasswordSubField(req: SaveRequest, encode: seq<byte> -> seq<byte>)
    requires ByteString(req.login) && ByteString(req.name) && ByteString(req.password)
    ensures var subs := SaveSubFields(req, encode);
      && (|subs| == 4 <==> !req.passwordChanged || |req.password| > 0)
      && (|subs| == 4 ==> subs[3].fieldType == Transactions.FieldUserPassword
                          && subs[3].data == if req.passwordChanged then StringBytes(req.password) else [0])
  {
  }

  /** The serialised sub-fields one after another; `fieldBytes` is the
    * library's Field reader. */
  function Serialized(subs: seq<Transactions.Field>, fieldBytes: Transactions.Field -> seq<byte>): seq<byte>
  {
    if subs == [] then [] else Serialized(subs[..|subs| - 1], fieldBytes) + fieldBytes(subs[|subs| - 1])
  }

  /** The FieldData payload of submitAccountChanges: the sub-fields of the
    * saved account, packed. */
  method SaveData(req: SaveRequest, encode: seq<byte> -> seq<byte>, fieldBytes: Transactions.Field -> seq<byte>)
    returns (fieldData: seq<byte>)
    requires ByteString(req.login) && ByteString(req.name) && ByteString(req.password)
    ensures |fieldData| >= 2 && ReadBE16(fieldData[..2]) == |SaveSubFields(req, encode)|
    ensures fieldData[2..] == Serialized(SaveSubFields(req, encode), fieldBytes)
  {
    var subFields := SaveSubFields(req, encode);
    fieldData := PackSubFields(subFields, fieldBytes);
  }

  /** The serialising loop: the big-endian sub-field count, then each
    * sub-field's bytes in order. */
  method PackSubFields(subFields: seq<Transactions.Field>, fieldBytes: Transactions.Field -> seq<byte>)
    returns (fieldData: seq<byte>)
    requires |subFields| < TWO16
    ensures |fieldData| >= 2 && ReadBE16(fieldData[..2]) == |subFields|
    ensures fieldData[2..] == Serialized(subFields, fieldBytes)
  {
    fieldData := [];
    fieldData := fieldData + BE16(|subFields|);
    var i := 0;
    while i < |subFields|
      invariant 0 <= i <= |subFields|
      invariant |fieldData| >= 2 && fieldData[..2] == BE16(|subFields|)
      invariant fieldData[2..] == Serialized(subFields[..i], fieldBytes)
    {
      assert subFields[..i + 1][..i] == subFields[..i];
      fieldData := fieldData + fieldBytes(subFields[i]);
      i := i + 1;
    }
    assert subFields[..i] == subFields;
    BE16RoundTrip(|subFields|);
  }

  lemma ToTextOfBytes(s: string)
    requires ByteString(s)
    ensures Transactions.ToText(StringBytes(s)) == s
  {
    var t := Transactions.ToText(StringBytes(s));
    assert forall i :: 0 <= i < |s| ==> t[i] == s[i];
  }

  /** Saving and listing agree: when the library's scanner reads the
    * serialised sub-fields back, the account list reads the saved payload as
    * the edited name, the edited access bits, a password flag that is set
    * unless the password was cleared, and the login through EncodeString
    * twice. */
  lemma SavedAccountListsBack(req: SaveRequest, i: nat, data: seq<byte>, encode: seq<byte> -> seq<byte>,
                              fieldBytes: Transactions.Field -> seq<byte>, scan: seq<byte> -> seq<Transactions.Field>)
    requires ByteString(req.login) && ByteString(req.name) && ByteString(req.password) && IsBitmap(req.accessBits)
    requires |data| >= 2 && ReadBE16(data[..2]) == |SaveSubFields(req, encode)|
    requires data[2..] == Serialized(SaveSubFields(req, encode), fieldBytes)
    requires scan(data[2..]) == SaveSubFields(req, encode)
    ensures Transactions.AccountOf(i, data, scan, encode)
         == Transactions.Account(i, encode(encode(StringBytes(req.login))), req.name,
                                 BitmapBytes(req.accessBits), !req.passwordChanged || |req.password| > 0)
  {
    var subs := SaveSubFields(req, encode);
    var a0 := Transactions.Account(i, [], "", Zeros(8), false);
    assert subs[..|subs|] == subs;
    ToTextOfBytes(req.name);
    var a3 := a0.(login := encode(encode(StringBytes(req.login))), name := req.name, access := BitmapBytes(req.accessBits));
    assert subs[..3][..2][..1][..0] == [];
    assert Transactions.ApplySubFields(a0, subs[..3][..2][..1], encode) == a0.(login := encode(encode(StringBytes(req.login))));
    assert Transactions.ApplySubFields(a0, subs[..3][..2], encode) == a0.(login := encode(encode(StringBytes(req.login))), name := req.name);
    assert BitmapBytes(req.accessBits)[..8] == BitmapBytes(req.accessBits);
    assert Transactions.ApplySubFields(a0, subs[..3], encode) == a3;
    if |subs| == 4 {
      assert subs[..4][..3] == subs[..3];
    } else {
      assert subs == subs[..3];
    }
  }
}

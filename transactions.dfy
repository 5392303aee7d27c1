/** The control-channel reply handlers of internal/handlers_transaction.go
  * and ui/transaction_handlers.go: how each decides that a reply carries an
  * error, the user-list updates on join, rename and leave, the download and
  * upload replies, the account list, and the text clean-up applied to chat
  * and message text. A transaction is its ID, its 4-byte error code and its
  * fields in wire order; the hotline library's field scanner and record
  * decoders are parameters. */
module Transactions {
  import opened Bytes
  import opened Text

  // Field types of the Hotline protocol that these handlers read.
  const FieldError: nat := 100
  const FieldData: nat := 101
  const FieldUserName: nat := 102
  const FieldUserID: nat := 103
  const FieldUserIconID: nat := 104
  const FieldUserLogin: nat := 105
  const FieldUserPassword: nat := 106
  const FieldRefNum: nat := 107
  const FieldTransferSize: nat := 108
  const FieldUserAccess: nat := 110
  const FieldUserFlags: nat := 112
  const FieldFileSize: nat := 207

  datatype Field = Field(fieldType: nat, data: seq<byte>)

  datatype Transaction = Transaction(id: nat, errorCode: seq<byte>, fields: seq<Field>)

  const NoError: seq<byte> := [0, 0, 0, 0]
  const ErrorOne: seq<byte> := [0, 0, 0, 1]

  /** The first field of type ft in fs, if any. */
  function FirstOfType(fs: seq<Field>, ft: nat): (r: Option<Field>)
    ensures r.Some? ==> r.value in fs && r.value.fieldType == ft
    ensures r.None? <==> forall f :: f in fs ==> f.fieldType != ft
  {
    if fs == [] then None
    else if fs[0].fieldType == ft then Some(fs[0])
    else FirstOfType(fs[1..], ft)
  }

  /** Transaction.GetField: the first field of that type, or nil. */
  function GetField(t: Transaction, ft: nat): Option<Field>
  {
    FirstOfType(t.fields, ft)
  }

  predicate Has(t: Transaction, ft: nat)
  {
    GetField(t, ft).Some?
  }

  /** GetField(ft).Data, which dereferences the field and so needs it present. */
  function DataOf(t: Transaction, ft: nat): seq<byte>
    requires Has(t, ft)
  {
    GetField(t, ft).value.data
  }

  /** Go's string(b): one character per byte. */
  function ToText(b: seq<byte>): (s: string)
    ensures |s| == |b| && forall i :: 0 <= i < |b| ==> s[i] as int == b[i]
  {
    if b == [] then [] else [b[0] as char] + ToText(b[1..])
  }

  // ---------------------------------------------------------------------
  // Error codes

  /** Server error texts that are swallowed instead of shown. */
  const IgnoredErrorMessages: seq<string> := ["Uh, no."]

  /** What checkTransactionError shows: nothing for code 0, otherwise the
    * error field's text unless it is one of the ignored messages. */
  function ErrorShown(t: Transaction): Option<string>
    requires t.errorCode != NoError ==> Has(t, FieldError)
  {
    if t.errorCode == NoError then None
    else
      var text := ToText(DataOf(t, FieldError));
      if text in IgnoredErrorMessages then None else Some(text)
  }

  /** checkTransactionError (internal): reports an error exactly when the
    * code is not 00 00 00 00, and shows its text unless the text is ignored. */
  method CheckTransactionError(t: Transaction) returns (found: bool, shown: Option<string>)
    requires t.errorCode != NoError ==> Has(t, FieldError)
    ensures found <==> t.errorCode != NoError
    ensures shown == ErrorShown(t)
    ensures shown.Some? ==> found && shown.value !in IgnoredErrorMessages
  {
    if t.errorCode == NoError {
      return false, None;
    }
    var errorText := ToText(DataOf(t, FieldError));
    var i := 0;
    while i < |IgnoredErrorMessages|
      invariant 0 <= i <= |IgnoredErrorMessages|
      invariant forall k :: 0 <= k < i ==> IgnoredErrorMessages[k] != errorText
    {
      if errorText == IgnoredErrorMessages[i] {
        return true, None;
      }
      i := i + 1;
    }
    return true, Some(errorText);
  }

  /** A server answering "Uh, no." with a nonzero code stops the handler
    * without any message on screen. */
  lemma UhNoIsSilent(id: nat, code: seq<byte>)
    requires code != NoError
    ensures var t := Transaction(id, code, [Field(FieldError, [85, 104, 44, 32, 110, 111, 46])]);
      Has(t, FieldError) && ErrorShown(t) == None
  {
    var t := Transaction(id, code, [Field(FieldError, [85, 104, 44, 32, 110, 111, 46])]);
    assert GetField(t, FieldError) == Some(Field(FieldError, [85, 104, 44, 32, 110, 111, 46]));
    assert ToText([85, 104, 44, 32, 110, 111, 46]) == "Uh, no.";
  }

  /** The handlers of ui/transaction_handlers.go that check the code. */
  datatype UiHandler =
    | FileList | NewsCategories | ArticleList | ArticleData
    | Login | ListUsers | PostArticle | NewBundle | NewCategory

  /** The listing handlers only treat 00 00 00 01 as an error; login, the
    * account list and the news editing replies treat any nonzero code so. */
  function UiIsError(h: UiHandler, code: seq<byte>): bool
  {
    match h
    case FileList | NewsCategories | ArticleList | ArticleData => code == ErrorOne
    case _ => code != NoError
  }

  /** The text a ui handler shows for an error: the error field, behind a
    * label for the news editing replies. */
  function UiErrorText(h: UiHandler, t: Transaction): (r: Option<string>)
    requires t.errorCode != NoError ==> Has(t, FieldError)
    ensures r.Some? <==> UiIsError(h, t.errorCode)
    ensures r.Some? ==> HasSuffix(r.value, ToText(DataOf(t, FieldError)))
  {
    if !UiIsError(h, t.errorCode) then None
    else
      var text := ToText(DataOf(t, FieldError));
      Some(ErrorLabel(h) + text)
  }

  /** The label the news editing replies put before the error text. */
  function ErrorLabel(h: UiHandler): string
  {
    match h
    case PostArticle => "Failed to post article: "
    case NewBundle => "Failed to create bundle: "
    case NewCategory => "Failed to create category: "
    case _ => ""
  }

  /** The two ui rules agree on 00 00 00 00 and 00 00 00 01 and differ on every
    * other nonzero code, which the listing handlers take for success; the
    * internal check treats every nonzero code as an error, like the second rule. */
  lemma UiErrorRules(code: seq<byte>)
    ensures UiIsError(FileList, code) ==> UiIsError(Login, code)
    ensures code == NoError ==> !UiIsError(FileList, code) && !UiIsError(Login, code)
    ensures code == ErrorOne ==> UiIsError(FileList, code) && UiIsError(Login, code)
    ensures code != NoError && code != ErrorOne ==> !UiIsError(FileList, code) && UiIsError(Login, code)
  {
  }

  /** HandleNewNewsCat of ui/transaction_handlers.go as written: it first
    * sends "Failed to create category: errMsg" with the literal word errMsg,
    * then the real error when the code is nonzero. */
  function NewNewsCatAsWritten(t: Transaction): (shown: seq<string>)
    requires t.errorCode != NoError ==> Has(t, FieldError)
  {
    ["Failed to create category: errMsg"]
    + (if t.errorCode != NoError then ["Failed to create category: " + ToText(DataOf(t, FieldError))] else [])
  }

  /** As written, a category that was created is reported as a failure. */
  lemma NewNewsCatReportsSuccessAsFailure(t: Transaction)
    requires t.errorCode == NoError
    ensures NewNewsCatAsWritten(t) == ["Failed to create category: errMsg"]
  {
  }

  /** HandleNewNewsCat as its sibling handlers do it: one message, only for a
    * nonzero code. */
  function NewNewsCat(t: Transaction): (shown: seq<string>)
    requires t.errorCode != NoError ==> Has(t, FieldError)
  {
    var e := UiErrorText(NewCategory, t);
    if e.Some? then [e.value] else []
  }

  /** The corrected handler shows something exactly when the code is nonzero,
    * and then the error text behind the category label; as written it also
    * shows the bogus message first. */
  lemma NewNewsCatReportsOnlyFailures(t: Transaction)
    requires t.errorCode != NoError ==> Has(t, FieldError)
    ensures NewNewsCat(t) != [] <==> t.errorCode != NoError
    ensures t.errorCode != NoError ==>
      NewNewsCat(t) == ["Failed to create category: " + ToText(DataOf(t, FieldError))]
      && NewNewsCatAsWritten(t) == ["Failed to create category: errMsg"] + NewNewsCat(t)
  {
    if t.errorCode != NoError {
      var text := ToText(DataOf(t, FieldError));
      assert UiErrorText(NewCategory, t) == Some(ErrorLabel(NewCategory) + text);
    } else {
      assert UiErrorText(NewCategory, t) == None;
    }
  }

  // ---------------------------------------------------------------------
  // Text clean-up

  /** The text of a chat message: the data field with every CR removed. */
  function ChatText(t: Transaction): (s: string)
    requires Has(t, FieldData)
    ensures '\r' !in s && |s| <= |DataOf(t, FieldData)|
  {
    RemoveChar(ToText(DataOf(t, FieldData)), '\r')
  }

  /** Server-message, message-board, agreement and article text: CR becomes LF. */
  function BodyText(t: Transaction): (s: string)
    requires Has(t, FieldData)
    ensures '\r' !in s && |s| == |DataOf(t, FieldData)|
  {
    ReplaceChar(ToText(DataOf(t, FieldData)), '\r', '\n')
  }

  /** The sender of a server message: the first two bytes of the user-ID
    * field, or two zero bytes when it is shorter. */
  function SenderId(data: seq<byte>): (id: seq<byte>)
    ensures |id| == 2
    ensures |data| >= 2 ==> id == data[..2]
    ensures |data| < 2 ==> id == [0, 0]
  {
    if |data| >= 2 then data[..2] else [0, 0]
  }

  datatype ServerMessage = ServerMessage(from: string, userId: seq<byte>, text: string)

  /** HandleTranServerMsg: sender name and ID and the text with CR as LF. */
  function ServerMessageOf(t: Transaction): (m: ServerMessage)
    requires Has(t, FieldData) && Has(t, FieldUserName) && Has(t, FieldUserID)
    ensures |m.userId| == 2 && '\r' !in m.text && |m.text| == |DataOf(t, FieldData)|
  {
    ServerMessage(ToText(DataOf(t, FieldUserName)), SenderId(DataOf(t, FieldUserID)), BodyText(t))
  }

  // ---------------------------------------------------------------------
  // User list

  datatype User = User(id: seq<byte>, name: string, icon: seq<byte>, flags: seq<byte>)

  /** What the chat is told about users. */
  datatype Notice = Renamed(oldName: string, newName: string) | Joined(name: string) | Left(name: string)

  /** The user a change notification describes; [2]byte(data) needs at least
    * two bytes of ID. */
  function ChangedUser(t: Transaction): (u: User)
    requires Has(t, FieldUserID) && |DataOf(t, FieldUserID)| >= 2
    requires Has(t, FieldUserName) && Has(t, FieldUserIconID) && Has(t, FieldUserFlags)
    ensures |u.id| == 2
  {
    User(DataOf(t, FieldUserID)[..2], ToText(DataOf(t, FieldUserName)),
         DataOf(t, FieldUserIconID), DataOf(t, FieldUserFlags))
  }

  predicate Known(users: seq<User>, id: seq<byte>)
  {
    exists i :: 0 <= i < |users| && users[i].id == id
  }

  lemma KnownSnoc(users: seq<User>, u: User, id: seq<byte>)
    ensures Known(users + [u], id) <==> Known(users, id) || u.id == id
  {
    if Known(users + [u], id) {
      var i :| 0 <= i < |users + [u]| && (users + [u])[i].id == id;
      if i < |users| {
        assert users[i].id == id;
      }
    }
    if Known(users, id) {
      var i :| 0 <= i < |users| && users[i].id == id;
      assert (users + [u])[i].id == id;
    }
    if u.id == id {
      assert (users + [u])[|users|].id == id;
    }
  }

  /** users with every entry of nu's ID replaced by nu. */
  function Replaced(users: seq<User>, nu: User): (r: seq<User>)
    ensures |r| == |users|
    ensures forall i :: 0 <= i < |users| ==> r[i] == if users[i].id == nu.id then nu else users[i]
  {
    if users == [] then []
    else
      var last := users[|users| - 1];
      Replaced(users[..|users| - 1], nu) + [if last.id == nu.id then nu else last]
  }

  /** One rename notice per entry of nu's ID whose name differs. */
  function Renames(users: seq<User>, nu: User): seq<Notice>
  {
    if users == [] then []
    else
      var last := users[|users| - 1];
      Renames(users[..|users| - 1], nu)
      + (if last.id == nu.id && last.name != nu.name then [Renamed(last.name, nu.name)] else [])
  }

  /** The list after a change notification: replaced in place when known,
    * appended otherwise. */
  function WithUser(users: seq<User>, nu: User): seq<User>
  {
    if Known(users, nu.id) then Replaced(users, nu) else users + [nu]
  }

  /** HandleNotifyChangeUser: copies the list, replacing entries with the
    * user's ID (announcing renames), and appends the user when none matched
    * (announcing the join). */
  method ChangeUser(users: seq<User>, nu: User) returns (newUserList: seq<User>, notices: seq<Notice>)
    ensures newUserList == WithUser(users, nu)
    ensures notices == Renames(users, nu) + (if Known(users, nu.id) then [] else [Joined(nu.name)])
  {
    newUserList, notices := [], [];
    var updatedUser := false;
    var i := 0;
    while i < |users|
      invariant 0 <= i <= |users|
      invariant newUserList == Replaced(users[..i], nu)
      invariant notices == Renames(users[..i], nu)
      invariant updatedUser <==> Known(users[..i], nu.id)
    {
      var u := users[i];
      assert users[..i + 1] == users[..i] + [u];
      KnownSnoc(users[..i], u, nu.id);
      if nu.id == u.id {
        if u.name != nu.name {
          notices := notices + [Renamed(u.name, nu.name)];
        }
        u := nu;
        updatedUser := true;
      }
      newUserList := newUserList + [u];
      i := i + 1;
    }
    assert users[..i] == users;
    if !updatedUser {
      newUserList := newUserList + [nu];
      notices := notices + [Joined(nu.name)];
    }
  }

  /** A known user keeps its place: the length and every other entry are
    * unchanged and each entry with its ID becomes the new record; an unknown
    * user is appended at the end. */
  lemma ChangeUserPlacement(users: seq<User>, nu: User)
    ensures Known(users, nu.id) ==>
      |WithUser(users, nu)| == |users|
      && forall i :: 0 <= i < |users| ==>
           WithUser(users, nu)[i] == (if users[i].id == nu.id then nu else users[i])
    ensures !Known(users, nu.id) ==> WithUser(users, nu) == users + [nu]
    ensures nu in WithUser(users, nu)
  {
    if Known(users, nu.id) {
      var i :| 0 <= i < |users| && users[i].id == nu.id;
      assert WithUser(users, nu)[i] == nu;
    } else {
      assert (users + [nu])[|users|] == nu;
    }
  }

  /** users without the entries whose ID is id, in their order. */
  function Without(users: seq<User>, id: seq<byte>): (r: seq<User>)
    ensures |r| <= |users|
    ensures forall u :: u in r <==> u in users && u.id != id
  {
    if users == [] then []
    else
      var last := users[|users| - 1];
      Without(users[..|users| - 1], id) + (if last.id != id then [last] else [])
  }

  /** The name of the last entry with that ID, "" when there is none. */
  function LeavingName(users: seq<User>, id: seq<byte>): string
  {
    if users == [] then ""
    else if users[|users| - 1].id == id then users[|users| - 1].name
    else LeavingName(users[..|users| - 1], id)
  }

  /** HandleNotifyDeleteUser: copies every entry whose ID differs from the
    * field's bytes and remembers the name of the one that left; the chat is
    * told only when that name is not empty. */
  method DeleteUser(users: seq<User>, exitUser: seq<byte>) returns (newUserList: seq<User>, notices: seq<Notice>)
    ensures newUserList == Without(users, exitUser)
    ensures var name := LeavingName(users, exitUser); notices == if name != "" then [Left(name)] else []
  {
    newUserList := [];
    var leavingUsername := "";
    var i := 0;
    while i < |users|
      invariant 0 <= i <= |users|
      invariant newUserList == Without(users[..i], exitUser)
      invariant leavingUsername == LeavingName(users[..i], exitUser)
    {
      assert users[..i + 1][..i] == users[..i];
      if exitUser != users[i].id {
        newUserList := newUserList + [users[i]];
      } else {
        leavingUsername := users[i].name;
      }
      i := i + 1;
    }
    assert users[..i] == users;
    notices := if leavingUsername != "" then [Left(leavingUsername)] else [];
  }

  /** Removing keeps the order of the rest: it distributes over concatenation. */
  lemma {:induction false} WithoutConcat(xs: seq<User>, ys: seq<User>, id: seq<byte>)
    ensures Without(xs + ys, id) == Without(xs, id) + Without(ys, id)
    decreases |ys|
  {
    if ys != [] {
      var init := ys[..|ys| - 1];
      assert (xs + ys)[..|xs + ys| - 1] == xs + init;
      WithoutConcat(xs, init, id);
    } else {
      assert xs + ys == xs;
    }
  }

  /** A list without the ID is left as it is, and removing twice is removing once. */
  lemma {:induction false} WithoutAbsent(users: seq<User>, id: seq<byte>)
    requires forall u :: u in users ==> u.id != id
    ensures Without(users, id) == users
    decreases |users|
  {
    if users != [] {
      var init, last := users[..|users| - 1], users[|users| - 1];
      assert users == init + [last];
      assert forall u :: u in init ==> u in users;
      WithoutAbsent(init, id);
    }
  }

  lemma WithoutIdempotent(users: seq<User>, id: seq<byte>)
    ensures Without(Without(users, id), id) == Without(users, id)
  {
    WithoutAbsent(Without(users, id), id);
  }

  /** A change followed by the user's departure leaves what the departure
    * alone leaves. */
  lemma {:induction false} ChangeThenDelete(users: seq<User>, nu: User)
    ensures Without(WithUser(users, nu), nu.id) == Without(users, nu.id)
  {
    if Known(users, nu.id) {
      ReplacedThenWithout(users, nu);
    } else {
      WithoutConcat(users, [nu], nu.id);
      assert Without([nu], nu.id) == [];
    }
  }

  lemma {:induction false} ReplacedThenWithout(users: seq<User>, nu: User)
    ensures Without(Replaced(users, nu), nu.id) == Without(users, nu.id)
    decreases |users|
  {
    if users != [] {
      var init := users[..|users| - 1];
      var r := Replaced(users, nu);
      assert r[..|r| - 1] == Replaced(init, nu);
      ReplacedThenWithout(init, nu);
    }
  }

  // ---------------------------------------------------------------------
  // Transfer replies

  datatype DownloadReply = DownloadReply(txId: nat, refNum: seq<byte>, transferSize: nat, fileSize: nat)

  datatype ReplyOutcome = Silent | Reply(reply: DownloadReply) | Rejected(reason: string)

  /** A field that is present and holds at least four bytes. */
  predicate Long(t: Transaction, ft: nat)
  {
    Has(t, ft) && |DataOf(t, ft)| >= 4
  }

  /** HandleDownloadFile (internal): nothing after an error code; an error
    * when the reference number, transfer size or file size is missing or
    * shorter than four bytes; otherwise the reply with both sizes read big
    * endian from the first four bytes. */
  function DownloadReplyOf(t: Transaction): (o: ReplyOutcome)
    requires t.errorCode != NoError ==> Has(t, FieldError)
    ensures o.Silent? <==> t.errorCode != NoError
    ensures o.Rejected? <==> t.errorCode == NoError && !(Long(t, FieldRefNum) && Long(t, FieldTransferSize) && Long(t, FieldFileSize))
    ensures o.Reply? ==> o.reply.txId == t.id && |o.reply.refNum| == 4
                         && o.reply.transferSize < TWO32 && o.reply.fileSize < TWO32
  {
    if t.errorCode != NoError then Silent
    else if !(Long(t, FieldRefNum) && Long(t, FieldTransferSize) && Long(t, FieldFileSize)) then
      Rejected("missing required fields in download response")
    else
      Reply(DownloadReply(t.id, DataOf(t, FieldRefNum)[..4],
                          ReadBE32(DataOf(t, FieldTransferSize)[..4]), ReadBE32(DataOf(t, FieldFileSize)[..4])))
  }

  /** A reply whose three fields come first, with four bytes each, is
    * accepted, and its sizes are those bytes read big endian. */
  lemma DownloadReplyReads(id: nat, refNum: seq<byte>, ts: seq<byte>, fs: seq<byte>, rest: seq<Field>)
    requires |refNum| == 4 && |ts| == 4 && |fs| == 4
    ensures var t := Transaction(id, NoError, [Field(FieldRefNum, refNum), Field(FieldTransferSize, ts), Field(FieldFileSize, fs)] + rest);
      DownloadReplyOf(t) == Reply(DownloadReply(id, refNum, ReadBE32(ts), ReadBE32(fs)))
  {
    var t := Transaction(id, NoError, [Field(FieldRefNum, refNum), Field(FieldTransferSize, ts), Field(FieldFileSize, fs)] + rest);
    ThreeFields(t, refNum, ts, fs, rest);
    assert DataOf(t, FieldRefNum) == refNum && DataOf(t, FieldTransferSize) == ts && DataOf(t, FieldFileSize) == fs;
    assert Long(t, FieldRefNum) && Long(t, FieldTransferSize) && Long(t, FieldFileSize);
    assert refNum[..4] == refNum && ts[..4] == ts && fs[..4] == fs;
  }

  /** Sizes sent big endian are read back as themselves. */
  lemma DownloadReplyRoundTrip(id: nat, refNum: seq<byte>, transferSize: nat, fileSize: nat, rest: seq<Field>)
    requires |refNum| == 4 && transferSize < TWO32 && fileSize < TWO32
    ensures var t := Transaction(id, NoError, [Field(FieldRefNum, refNum), Field(FieldTransferSize, BE32(transferSize)),
                                               Field(FieldFileSize, BE32(fileSize))] + rest);
      DownloadReplyOf(t) == Reply(DownloadReply(id, refNum, transferSize, fileSize))
  {
    DownloadReplyReads(id, refNum, BE32(transferSize), BE32(fileSize), rest);
    BE32RoundTrip(transferSize);
    BE32RoundTrip(fileSize);
  }

  lemma ThreeFields(t: Transaction, refNum: seq<byte>, ts: seq<byte>, fs: seq<byte>, rest: seq<Field>)
    requires t.fields == [Field(FieldRefNum, refNum), Field(FieldTransferSize, ts), Field(FieldFileSize, fs)] + rest
    ensures GetField(t, FieldRefNum) == Some(Field(FieldRefNum, refNum))
    ensures GetField(t, FieldTransferSize) == Some(Field(FieldTransferSize, ts))
    ensures GetField(t, FieldFileSize) == Some(Field(FieldFileSize, fs))
  {
    var f0 := t.fields;
    var f1 := f0[1..];
    var f2 := f1[1..];
    assert f0[0] == Field(FieldRefNum, refNum);
    assert f1[0] == Field(FieldTransferSize, ts);
    assert f2[0] == Field(FieldFileSize, fs);
    assert FirstOfType(f1, FieldTransferSize) == Some(f1[0]);
    assert FirstOfType(f0, FieldTransferSize) == FirstOfType(f1, FieldTransferSize);
    assert FirstOfType(f2, FieldFileSize) == Some(f2[0]);
    assert FirstOfType(f1, FieldFileSize) == FirstOfType(f2, FieldFileSize);
    assert FirstOfType(f0, FieldFileSize) == FirstOfType(f1, FieldFileSize);
  }

  /** copy(refNumBytes[:], data) into a zeroed [4]byte. */
  function Copy4(data: seq<byte>): (r: seq<byte>)
    ensures |r| == 4
    ensures forall i :: 0 <= i < 4 ==> r[i] == if i < |data| then data[i] else 0
  {
    if |data| >= 4 then data[..4] else data + Zeros(4 - |data|)
  }

  /** HandleDownloadFile of ui/transaction_handlers.go checks nothing: the
    * fields must be there and the sizes at least four bytes long, or it
    * panics; the reference number is copied, zero-padded. */
  function UiDownloadReplyOf(t: Transaction): (r: DownloadReply)
    requires Has(t, FieldRefNum) && Long(t, FieldTransferSize) && Long(t, FieldFileSize)
    ensures r.txId == t.id && |r.refNum| == 4
  {
    DownloadReply(t.id, Copy4(DataOf(t, FieldRefNum)),
                  ReadBE32(DataOf(t, FieldTransferSize)[..4]), ReadBE32(DataOf(t, FieldFileSize)[..4]))
  }

  /** Whenever the internal handler accepts a reply, the ui copy yields the same one. */
  lemma DownloadRepliesAgree(t: Transaction)
    requires t.errorCode == NoError
    requires Long(t, FieldRefNum) && Long(t, FieldTransferSize) && Long(t, FieldFileSize)
    ensures DownloadReplyOf(t) == Reply(UiDownloadReplyOf(t))
  {
    var d := DataOf(t, FieldRefNum);
    assert Copy4(d) == d[..4];
  }

  /** The uploadReplyMsg a handler sends: the transaction ID and the
    * reference number the transfer connection must present. */
  datatype UploadReply = UploadReply(txId: nat, refNum: seq<byte>)

  /** HandleUploadFile (internal): a reply with a nonzero error code only
    * shows the error and sends nothing; otherwise the reference number is
    * copied into four zeroed bytes (the field must be there, as the source
    * dereferences it). */
  function UploadReplyOf(t: Transaction): (r: Option<UploadReply>)
    requires t.errorCode != NoError ==> Has(t, FieldError)
    requires t.errorCode == NoError ==> Has(t, FieldRefNum)
    ensures r.None? <==> t.errorCode != NoError
    ensures r.Some? ==> r.value.txId == t.id && |r.value.refNum| == 4
    ensures r.Some? && |DataOf(t, FieldRefNum)| >= 4 ==> r.value.refNum == DataOf(t, FieldRefNum)[..4]
    ensures r.Some? && |DataOf(t, FieldRefNum)| < 4 ==>
              r.value.refNum == DataOf(t, FieldRefNum) + Zeros(4 - |DataOf(t, FieldRefNum)|)
  {
    if t.errorCode != NoError then None
    else Some(UiUploadReplyOf(t))
  }

  /** HandleUploadFile of ui/transaction_handlers.go: no error check, the
    * reference number copied into four zeroed bytes. */
  function UiUploadReplyOf(t: Transaction): (r: UploadReply)
    requires Has(t, FieldRefNum)
    ensures r.txId == t.id && |r.refNum| == 4
    ensures forall i :: 0 <= i < 4 ==> r.refNum[i] == if i < |DataOf(t, FieldRefNum)| then DataOf(t, FieldRefNum)[i] else 0
  {
    UploadReply(t.id, Copy4(DataOf(t, FieldRefNum)))
  }

  /** A successful reply whose first field is a four-byte reference number
    * is passed on with exactly that reference number, by both handlers;
    * a failed one is passed on only by the ui handler. */
  lemma UploadReplyRoundTrip(id: nat, code: seq<byte>, refNum: seq<byte>, rest: seq<Field>)
    requires |refNum| == 4
    ensures var t := Transaction(id, code, [Field(FieldRefNum, refNum)] + rest);
      Has(t, FieldRefNum) && UiUploadReplyOf(t) == UploadReply(id, refNum)
      && (code == NoError ==> UploadReplyOf(t) == Some(UploadReply(id, refNum)))
  {
    var t := Transaction(id, code, [Field(FieldRefNum, refNum)] + rest);
    assert GetField(t, FieldRefNum) == Some(Field(FieldRefNum, refNum));
    assert refNum[..4] == refNum;
  }

  // ---------------------------------------------------------------------
  // Account list

  datatype Account = Account(index: nat, login: seq<byte>, name: string, access: seq<byte>, hasPass: bool)

  /** One sub-field applied to the account being read: the login goes
    * through the library's EncodeString (`encode`), the access bits are
    * taken only from a sub-field of at least 8 bytes, and the password only
    * says whether there is one. */
  function ApplySubField(a: Account, f: Field, encode: seq<byte> -> seq<byte>): (r: Account)
    ensures r.index == a.index
  {
    if f.fieldType == FieldUserLogin then a.(login := encode(f.data))
    else if f.fieldType == FieldUserName then a.(name := ToText(f.data))
    else if f.fieldType == FieldUserAccess then (if |f.data| >= 8 then a.(access := f.data[..8]) else a)
    else if f.fieldType == FieldUserPassword then a.(hasPass := |f.data| > 0)
    else a
  }

  /** The sub-fields applied in order. */
  function ApplySubFields(a: Account, subs: seq<Field>, encode: seq<byte> -> seq<byte>): (r: Account)
    ensures r.index == a.index
  {
    if subs == [] then a
    else ApplySubField(ApplySubFields(a, subs[..|subs| - 1], encode), subs[|subs| - 1], encode)
  }

  /** The account read from the FieldData field at position i: its first two
    * bytes count the sub-fields, and reading stops early when the scanner
    * (`scan`, the library's FieldScanner with Field.Write) runs out. */
  function AccountOf(i: nat, data: seq<byte>, scan: seq<byte> -> seq<Field>, encode: seq<byte> -> seq<byte>): (r: Account)
    requires |data| >= 2
    ensures r.index == i
  {
    var subs := scan(data[2..]);
    var n := ReadBE16(data[..2]);
    ApplySubFields(Account(i, [], "", Zeros(8), false), subs[..if n < |subs| then n else |subs|], encode)
  }

  predicate AccountFieldsReadable(fields: seq<Field>)
  {
    forall k :: 0 <= k < |fields| && fields[k].fieldType == FieldData ==> |fields[k].data| >= 2
  }

  /** One account per FieldData field, in field order. */
  function AccountsOf(fields: seq<Field>, scan: seq<byte> -> seq<Field>, encode: seq<byte> -> seq<byte>): seq<Account>
    requires AccountFieldsReadable(fields)
  {
    if fields == [] then []
    else
      var k := |fields| - 1;
      AccountsOf(fields[..k], scan, encode)
      + (if fields[k].fieldType == FieldData then [AccountOf(k, fields[k].data, scan, encode)] else [])
  }

  datatype AccountList = ListError(text: string) | Accounts(accounts: seq<Account>)

  /** HandleListUsers (ui): the error text for any nonzero code, otherwise an
    * account for each FieldData field, read sub-field by sub-field. */
  method HandleListUsers(t: Transaction, scan: seq<byte> -> seq<Field>, encode: seq<byte> -> seq<byte>)
    returns (r: AccountList)
    requires t.errorCode != NoError ==> Has(t, FieldError)
    requires AccountFieldsReadable(t.fields)
    ensures t.errorCode != NoError ==> r == ListError(ToText(DataOf(t, FieldError)))
    ensures t.errorCode == NoError ==> r == Accounts(AccountsOf(t.fields, scan, encode))
  {
    if t.errorCode != NoError {
      return ListError(ToText(DataOf(t, FieldError)));
    }
    var accounts: seq<Account> := [];
    var i := 0;
    while i < |t.fields|
      invariant 0 <= i <= |t.fields|
      invariant accounts == AccountsOf(t.fields[..i], scan, encode)
    {
      var field := t.fields[i];
      assert t.fields[..i + 1][..i] == t.fields[..i];
      if field.fieldType == FieldData {
        var acct := ReadAccount(i, field.data, scan, encode);
        accounts := accounts + [acct];
      }
      i := i + 1;
    }
    assert t.fields[..i] == t.fields;
    return Accounts(accounts);
  }

  /** The inner loop of HandleListUsers over one FieldData field. */
  method ReadAccount(i: nat, data: seq<byte>, scan: seq<byte> -> seq<Field>, encode: seq<byte> -> seq<byte>)
    returns (acct: Account)
    requires |data| >= 2
    ensures acct == AccountOf(i, data, scan, encode)
  {
    acct := Account(i, [], "", Zeros(8), false);
    var subs := scan(data[2..]);
    var fieldCount := ReadBE16(data[..2]);
    var j := 0;
    while j < fieldCount
      invariant 0 <= j <= fieldCount && j <= |subs|
      invariant acct == ApplySubFields(Account(i, [], "", Zeros(8), false), subs[..j], encode)
    {
      if j >= |subs| {
        break;
      }
      assert subs[..j + 1][..j] == subs[..j];
      acct := ApplySubField(acct, subs[j], encode);
      j := j + 1;
    }
  }

  /** Each account's index is the position of a FieldData field, and the
    * indices increase with the account's place in the list. */
  lemma {:induction false} AccountsIndexed(fields: seq<Field>, scan: seq<byte> -> seq<Field>, encode: seq<byte> -> seq<byte>)
    requires AccountFieldsReadable(fields)
    ensures forall a :: 0 <= a < |AccountsOf(fields, scan, encode)| ==>
      AccountsOf(fields, scan, encode)[a].index < |fields| && fields[AccountsOf(fields, scan, encode)[a].index].fieldType == FieldData
    ensures forall a, b :: 0 <= a < b < |AccountsOf(fields, scan, encode)| ==>
      AccountsOf(fields, scan, encode)[a].index < AccountsOf(fields, scan, encode)[b].index
    decreases |fields|
  {
    if fields != [] {
      var k := |fields| - 1;
      var init := fields[..k];
      AccountsIndexed(init, scan, encode);
      var before := AccountsOf(init, scan, encode);
      forall a | 0 <= a < |before|
        ensures before[a].index < k && fields[before[a].index].fieldType == FieldData
      {
        assert init[before[a].index] == fields[before[a].index];
      }
      var accts := AccountsOf(fields, scan, encode);
      if fields[k].fieldType == FieldData {
        assert accts == before + [AccountOf(k, fields[k].data, scan, encode)];
      } else {
        assert accts == before + [] == before;
      }
    }
  }

  predicate HasAccountFor(accts: seq<Account>, k: nat)
  {
    exists a :: 0 <= a < |accts| && accts[a].index == k
  }

  /** Every FieldData field has its account: no such field is skipped. */
  lemma {:induction false} AccountsComplete(fields: seq<Field>, scan: seq<byte> -> seq<Field>, encode: seq<byte> -> seq<byte>)
    requires AccountFieldsReadable(fields)
    ensures forall k :: 0 <= k < |fields| && fields[k].fieldType == FieldData ==> HasAccountFor(AccountsOf(fields, scan, encode), k)
    decreases |fields|
  {
    if fields != [] {
      var last := |fields| - 1;
      var init := fields[..last];
      AccountsComplete(init, scan, encode);
      var before := AccountsOf(init, scan, encode);
      var accts := AccountsOf(fields, scan, encode);
      assert accts[..|before|] == before by {
        if fields[last].fieldType == FieldData {
          assert accts == before + [AccountOf(last, fields[last].data, scan, encode)];
        } else {
          assert accts == before + [];
        }
      }
      forall k | 0 <= k < |fields| && fields[k].fieldType == FieldData
        ensures HasAccountFor(accts, k)
      {
        if k < last {
          assert init[k] == fields[k];
          var a :| 0 <= a < |before| && before[a].index == k;
          assert accts[a] == before[a];
        } else {
          assert accts == before + [AccountOf(last, fields[last].data, scan, encode)];
          assert accts[|before|].index == k;
        }
      }
    }
  }

  /** The access bits come from the last access sub-field of at least 8
    * bytes; shorter ones are ignored. */
  function LastLongAccess(subs: seq<Field>): Option<seq<byte>>
  {
    if subs == [] then None
    else
      var f := subs[|subs| - 1];
      if f.fieldType == FieldUserAccess && |f.data| >= 8 then Some(f.data[..8]) else LastLongAccess(subs[..|subs| - 1])
  }

  /** The last password sub-field, if any. */
  function LastPassword(subs: seq<Field>): Option<seq<byte>>
  {
    if subs == [] then None
    else
      var f := subs[|subs| - 1];
      if f.fieldType == FieldUserPassword then Some(f.data) else LastPassword(subs[..|subs| - 1])
  }

  lemma {:induction false} AccessAndPassword(a: Account, subs: seq<Field>, encode: seq<byte> -> seq<byte>)
    ensures var r := ApplySubFields(a, subs, encode);
      && r.access == (if LastLongAccess(subs).Some? then LastLongAccess(subs).value else a.access)
      && r.hasPass == (if LastPassword(subs).Some? then |LastPassword(subs).value| > 0 else a.hasPass)
    decreases |subs|
  {
    if subs != [] {
      AccessAndPassword(a, subs[..|subs| - 1], encode);
    }
  }
}

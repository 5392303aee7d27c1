/** The join-server form of internal/screen_join_server.go in its three
  * modes: connecting to a server, editing a saved bookmark and creating a
  * new one. The form widget is the form library's; here it is the values
  * bound to its inputs, and whether the form has completed. Also the
  * default port joinServer adds to an address without one. */
module JoinServer {
  import opened Bytes
  import opened Text
  import C = ClientModel

  /** The Hotline guest account's login. */
  const GuestAccount: string := "guest"

  const DefaultPort: string := ":5500"
  const DefaultTLSPort: string := ":5600"

  datatype Mode = ConnectMode | EditBookmarkMode | CreateBookmarkMode

  /** What the form sends its parent; the five connection fields travel as
    * a bookmark. */
  datatype JoinMsg =
    | Connect(entry: C.Bookmark, save: bool)
    | BookmarkSaved(entry: C.Bookmark, index: int)
    | BookmarkCreated(entry: C.Bookmark)
    | Cancelled(backPage: C.Screen)

  datatype JoinKey = Esc | OtherKey

  /** The login sent: the one typed, or the guest account when none was. */
  function LoginOrGuest(login: string): (r: string)
    ensures r != ""
    ensures login != "" ==> r == login
  {
    if login == "" then GuestAccount else login
  }

  /** joinServer's address: one without a ':' gets the default port, 5600
    * over TLS and 5500 otherwise; one with a ':' is used as given. */
  function WithDefaultPort(addr: string, useTLS: bool): (r: string)
    ensures ':' in r && HasPrefix(r, addr)
    ensures ':' in addr ==> r == addr
    ensures ':' !in addr ==> r[|addr|..] == if useTLS then DefaultTLSPort else DefaultPort
  {
    if ':' !in addr then
      var r := addr + (if useTLS then DefaultTLSPort else DefaultPort);
      assert r[|addr|] == ':';
      r
    else addr
  }

  /** Adding the default port twice adds it once. */
  lemma DefaultPortIdempotent(addr: string, useTLS: bool)
    ensures WithDefaultPort(WithDefaultPort(addr, useTLS), useTLS) == WithDefaultPort(addr, useTLS)
  {
  }

  class JoinServerScreen {
    var mode: Mode
    var editingBookmarkIndex: int
    var backPage: C.Screen
    // The values bound to the form's inputs.
    var name: string
    var server: string
    var login: string
    var password: string
    var useTLS: bool
    var saveBookmark: bool

    /** NewJoinServerScreen: an empty connect form that goes back home. */
    constructor ()
      ensures mode == ConnectMode && editingBookmarkIndex == -1 && backPage == C.Home
      ensures name == "" && server == "" && login == "" && password == "" && !useTLS && !saveBookmark
    {
      mode := ConnectMode;
      editingBookmarkIndex := -1;
      backPage := C.Home;
      name, server, login, password := "", "", "", "";
      useTLS, saveBookmark := false, false;
    }

    /** NewJoinServerScreenForConnect: a connect form filled in from a
      * tracker entry or a bookmark, going back to the given page. */
    constructor ForConnect(serverAddr: string, login: string, password: string, useTLS: bool, backPage: C.Screen)
      ensures mode == ConnectMode && editingBookmarkIndex == -1 && this.backPage == backPage
      ensures name == "" && server == serverAddr && this.login == login && this.password == password
      ensures this.useTLS == useTLS && !saveBookmark
    {
      mode := ConnectMode;
      editingBookmarkIndex := -1;
      this.backPage := backPage;
      name, server, this.login, this.password := "", serverAddr, login, password;
      this.useTLS, saveBookmark := useTLS, false;
    }

    /** NewJoinServerScreenForEdit: the bookmark's fields, remembering its
      * index, going back to the bookmark list. */
    constructor ForEdit(bm: C.Bookmark, index: int)
      ensures mode == EditBookmarkMode && editingBookmarkIndex == index && backPage == C.Bookmarks
      ensures name == bm.name && server == bm.addr && login == bm.login && password == bm.password
      ensures useTLS == bm.tls && !saveBookmark
    {
      mode := EditBookmarkMode;
      editingBookmarkIndex := index;
      backPage := C.Bookmarks;
      name, server, login, password := bm.name, bm.addr, bm.login, bm.password;
      useTLS, saveBookmark := bm.tls, false;
    }

    /** NewJoinServerScreenForCreate: an empty bookmark form. */
    constructor ForCreate()
      ensures mode == CreateBookmarkMode && editingBookmarkIndex == -1 && backPage == C.Bookmarks
      ensures name == "" && server == "" && login == "" && password == "" && !useTLS && !saveBookmark
    {
      mode := CreateBookmarkMode;
      editingBookmarkIndex := -1;
      backPage := C.Bookmarks;
      name, server, login, password := "", "", "", "";
      useTLS, saveBookmark := false, false;
    }

    /** handleSubmit: the message for the form's mode, carrying the fields
      * as entered except that an empty login becomes the guest account. */
    function Submit(): (msg: JoinMsg)
      reads this
      ensures !msg.Cancelled?
      ensures msg.Connect? <==> mode == ConnectMode
      ensures msg.BookmarkSaved? <==> mode == EditBookmarkMode
      ensures msg.BookmarkCreated? <==> mode == CreateBookmarkMode
      ensures msg.entry.name == name && msg.entry.addr == server && msg.entry.password == password
      ensures msg.entry.tls == useTLS
      ensures login != "" ==> msg.entry.login == login
      ensures login == "" ==> msg.entry.login == GuestAccount
      ensures msg.BookmarkSaved? ==> msg.index == editingBookmarkIndex
      ensures msg.Connect? ==> msg.save == saveBookmark
    {
      var entry := C.Bookmark(name, server, LoginOrGuest(login), password, useTLS);
      match mode
      case EditBookmarkMode => BookmarkSaved(entry, editingBookmarkIndex)
      case CreateBookmarkMode => BookmarkCreated(entry)
      case ConnectMode => Connect(entry, saveBookmark)
    }

    /** Update on a key: esc cancels back to the page the form came from;
      * any other key goes to the form, and once the form has completed it
      * is submitted. */
    function HandleKey(key: JoinKey, completed: bool): (msg: Option<JoinMsg>)
      reads this
      ensures key == Esc ==> msg == Some(Cancelled(backPage))
      ensures key != Esc && !completed ==> msg == None
      ensures key != Esc && completed ==> msg.Some? && !msg.value.Cancelled?
    {
      match key
      case Esc => Some(Cancelled(backPage))
      case OtherKey => if completed then Some(Submit()) else None
    }
  }

  /** A bookmark opened for editing and submitted untouched is saved back
    * as it was, at its own index, provided it has a login. */
  lemma EditUnchangedSavesSame(s: JoinServerScreen, bm: C.Bookmark, index: int)
    requires s.mode == EditBookmarkMode && s.editingBookmarkIndex == index
    requires s.name == bm.name && s.server == bm.addr && s.login == bm.login
    requires s.password == bm.password && s.useTLS == bm.tls
    requires bm.login != ""
    ensures s.Submit() == BookmarkSaved(bm, index)
  {
  }
}

/** The ui package's preferences: the Settings record with its icon-ID
  * encoding and bookmark list, of which ui/settings.go and
  * ui/screen_settings.go each declare a version, and the settings form of
  * ui/screen_settings.go, whose submit turns the typed icon ID back into a
  * number. */
module Prefs {
  import opened Bytes
  import opened Text
  import C = ClientModel

  class Settings {
    var username: string
    var iconID: int
    var bookmarks: seq<C.Bookmark>
    var tracker: string
    var enableBell: bool
    var enableSounds: bool
    var downloadDir: string

    /** IconBytes: the icon ID as Go's uint16, big-endian, in two bytes;
      * the same in both declarations. */
    function IconBytes(): (r: seq<byte>)
      reads this`iconID
      ensures |r| == 2 && ReadBE16(r) == U16(iconID)
      ensures 0 <= iconID < TWO16 ==> ReadBE16(r) == iconID
    {
      BE16RoundTrip(U16(iconID));
      BE16(U16(iconID))
    }

    /** AddBookmark as ui/screen_settings.go declares it: one bookmark with
      * all five fields, after the existing ones. */
    method AddBookmark(name: string, addr: string, login: string, pass: string, useTLS: bool)
      modifies this`bookmarks
      ensures bookmarks == old(bookmarks) + [C.Bookmark(name, addr, login, pass, useTLS)]
    {
      bookmarks := bookmarks + [C.Bookmark(name, addr, login, pass, useTLS)];
    }

    /** AddBookmark as ui/settings.go declares it: the name parameter is
      * ignored, so the bookmark is stored without a name. */
    method AddBookmarkAsWritten(name: string, addr: string, login: string, pass: string, useTLS: bool)
      modifies this`bookmarks
      ensures bookmarks == old(bookmarks) + [Unnamed(addr, login, pass, useTLS)]
      ensures name != "" ==> bookmarks[|bookmarks| - 1].name != name
    {
      bookmarks := bookmarks + [Unnamed(addr, login, pass, useTLS)];
    }
  }

  /** The bookmark ui/settings.go's AddBookmark stores. */
  function Unnamed(addr: string, login: string, pass: string, useTLS: bool): (b: C.Bookmark)
    ensures b.name == "" && b.addr == addr && b.login == login && b.password == pass && b.tls == useTLS
  {
    C.Bookmark("", addr, login, pass, useTLS)
  }

  /** A bookmark added to a list holding no bookmark of the same name and
    * address is the one that deleting by name and address removes. */
  lemma DeleteUndoesAdd(bms: seq<C.Bookmark>, b: C.Bookmark)
    requires forall i :: 0 <= i < |bms| ==> !C.Matches(bms[i], b.name, b.addr)
    ensures C.WithoutFirstMatch(bms + [b], b.name, b.addr) == bms
  {
    C.WithoutFirstMatchAt(bms + [b], b.name, b.addr, |bms|);
    assert (bms + [b])[..|bms|] == bms;
  }

  /** With the name dropped, deleting the bookmark by the name it was
    * created with finds nothing to delete. */
  lemma DeleteMissesUnnamed(bms: seq<C.Bookmark>, name: string, addr: string, login: string, pass: string, useTLS: bool)
    requires name != ""
    requires forall i :: 0 <= i < |bms| ==> !C.Matches(bms[i], name, addr)
    ensures C.WithoutFirstMatch(bms + [Unnamed(addr, login, pass, useTLS)], name, addr)
            == bms + [Unnamed(addr, login, pass, useTLS)]
  {
    C.WithoutNoMatch(bms + [Unnamed(addr, login, pass, useTLS)], name, addr);
  }

  /** The message the settings form sends when submitted. */
  datatype SettingsSaved = SettingsSaved(username: string, iconID: int, tracker: string,
                                         downloadDir: string, enableBell: bool, enableSounds: bool)

  /** The icon ID handleSubmit sends: the typed text as strconv.Atoi reads
    * it, or 0 when it is not a number. */
  function ParseIconID(text: string): (id: int)
    ensures ParseInt(text).Some? ==> id == ParseInt(text).value
    ensures ParseInt(text).None? ==> id == 0
    ensures MinInt64 <= id <= MaxInt64
  {
    match ParseInt(text)
    case Some(v) => v
    case None => 0
  }

  /** Text that is not an optionally signed decimal number gives icon 0. */
  lemma ParseIconIDExamples()
    ensures ParseIconID("") == 0 && ParseIconID("-") == 0 && ParseIconID("12a") == 0
    ensures ParseIconID("128") == 128 && ParseIconID("-7") == -7 && ParseIconID("+7") == 7
  {
    assert ParseInt("12a").None? by {
      assert !AllDigits("12a") by { assert "12a"[2] == 'a'; }
    }
    assert DigitsValue("128") == 128 by {
      assert "128"[..2] == "12" && "12"[..1] == "1";
    }
    assert "-7"[1..] == "7" && "+7"[1..] == "7";
  }

  /** Whatever icon ID the settings held, the form shows it in decimal and
    * a submit without editing sends it back unchanged. */
  lemma IconIDRoundTrip(iconID: int)
    requires MinInt64 <= iconID <= MaxInt64
    ensures ParseIconID(IntToString(iconID)) == iconID
  {
    ParseIntOfIntToString(iconID);
  }

  class SettingsScreen {
    // The values bound to the form's inputs; the icon ID is typed text.
    var username: string
    var iconID: string
    var tracker: string
    var downloadDir: string
    var enableBell: bool
    var enableSounds: bool

    /** NewSettingsScreen: the form filled in from the settings, the icon ID
      * in decimal. */
    constructor (prefs: Settings)
      ensures username == prefs.username && iconID == IntToString(prefs.iconID)
      ensures tracker == prefs.tracker && downloadDir == prefs.downloadDir
      ensures enableBell == prefs.enableBell && enableSounds == prefs.enableSounds
    {
      username := prefs.username;
      iconID := IntToString(prefs.iconID);
      tracker := prefs.tracker;
      downloadDir := prefs.downloadDir;
      enableBell := prefs.enableBell;
      enableSounds := prefs.enableSounds;
    }

    /** handleSubmit: every field copied as entered, the icon ID parsed. */
    function Submit(): (msg: SettingsSaved)
      reads this
      ensures msg.username == username && msg.tracker == tracker && msg.downloadDir == downloadDir
      ensures msg.enableBell == enableBell && msg.enableSounds == enableSounds
      ensures msg.iconID == ParseIconID(iconID)
    {
      SettingsSaved(username, ParseIconID(iconID), tracker, downloadDir, enableBell, enableSounds)
    }
  }
}

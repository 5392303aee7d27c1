/** The Hotline access-privilege bitmap the account editor works on: eight
  * bytes, bit i in byte i / 8 under the mask 1 << (7 - i % 8), and the
  * editor's table of checkboxes grouped by category. The bit numbers are
  * the Hotline protocol's access-privilege numbering. */
module Access {
  import opened Bytes

  const BitmapSize: nat := 8
  const BitCount: nat := 64

  predicate IsBitmap(bits: seq<bv8>)
  {
    |bits| == BitmapSize
  }

  /** The zero bitmap, AccessBitmap{}. */
  const EmptyBitmap: seq<bv8> := [0, 0, 0, 0, 0, 0, 0, 0]

  /** The bitmap's bytes, msg.AccessBits[:]. */
  function BitmapBytes(bits: seq<bv8>): (r: seq<byte>)
    ensures |r| == |bits| && forall i :: 0 <= i < |bits| ==> r[i] == bits[i] as int
  {
    seq(|bits|, i requires 0 <= i < |bits| => bits[i] as int)
  }

  /** The mask of bit k within its byte, 1 << (7 - k): the first bit is
    * the high one. */
  function Mask(k: nat): (m: bv8)
    requires k < 8
  {
    (0x80 as bv8) >> k
  }

  /** AccessBitmap.IsSet. */
  predicate IsSet(bits: seq<bv8>, i: nat)
    requires IsBitmap(bits) && i < BitCount
  {
    bits[i / 8] & Mask(i % 8) != 0
  }

  /** AccessBitmap.Set: or the mask into the bit's byte. */
  function Set(bits: seq<bv8>, i: nat): (r: seq<bv8>)
    requires IsBitmap(bits) && i < BitCount
    ensures IsBitmap(r)
  {
    bits[i / 8 := bits[i / 8] | Mask(i % 8)]
  }

  /** Go's `bits[i/8] &^= 1 << (7 - i%8)`: clear the mask in the bit's byte. */
  function Clear(bits: seq<bv8>, i: nat): (r: seq<bv8>)
    requires IsBitmap(bits) && i < BitCount
    ensures IsBitmap(r)
  {
    bits[i / 8 := bits[i / 8] & !Mask(i % 8)]
  }

  /** The editor's checkbox flip: clear a set bit, set a clear one. */
  function Toggle(bits: seq<bv8>, i: nat): (r: seq<bv8>)
    requires IsBitmap(bits) && i < BitCount
    ensures IsBitmap(r)
  {
    if IsSet(bits, i) then Clear(bits, i) else Set(bits, i)
  }

  /** Within one byte, setting or clearing mask k leaves every other mask
    * as it was and fixes mask k. */
  lemma MaskAlone(x: bv8, k: nat, j: nat)
    requires k < 8 && j < 8
    ensures (x | Mask(k)) & Mask(j) != 0 <==> (j == k || x & Mask(j) != 0)
    ensures (x & !Mask(k)) & Mask(j) != 0 <==> (j != k && x & Mask(j) != 0)
  {
  }

  /** Within one byte, clearing a set mask and setting it again, or setting
    * a clear mask and clearing it again, gives back the byte. */
  lemma MaskRestore(x: bv8, k: nat)
    requires k < 8
    ensures (x & !Mask(k)) & Mask(k) == 0 && (x | Mask(k)) & Mask(k) != 0
    ensures x & Mask(k) != 0 ==> (x & !Mask(k)) | Mask(k) == x
    ensures x & Mask(k) == 0 ==> (x | Mask(k)) & !Mask(k) == x
  {
  }

  /** Two bits in the same byte with the same mask are the same bit. */
  lemma SameMaskSameBit(i: nat, j: nat)
    requires i < BitCount && j < BitCount && i / 8 == j / 8 && i % 8 == j % 8
    ensures i == j
  {
  }

  /** Set makes bit i set and leaves every other bit alone. */
  lemma SetOnly(bits: seq<bv8>, i: nat, j: nat)
    requires IsBitmap(bits) && i < BitCount && j < BitCount
    ensures IsSet(Set(bits, i), j) <==> (j == i || IsSet(bits, j))
  {
    if j / 8 == i / 8 {
      MaskAlone(bits[i / 8], i % 8, j % 8);
      if j % 8 == i % 8 {
        SameMaskSameBit(i, j);
      }
    }
  }

  /** Clear makes bit i clear and leaves every other bit alone. */
  lemma ClearOnly(bits: seq<bv8>, i: nat, j: nat)
    requires IsBitmap(bits) && i < BitCount && j < BitCount
    ensures IsSet(Clear(bits, i), j) <==> (j != i && IsSet(bits, j))
  {
    if j / 8 == i / 8 {
      MaskAlone(bits[i / 8], i % 8, j % 8);
      if j % 8 == i % 8 {
        SameMaskSameBit(i, j);
      }
    }
  }

  /** Toggling flips exactly bit i: every other bit keeps its value. */
  lemma ToggleFlipsOnly(bits: seq<bv8>, i: nat, j: nat)
    requires IsBitmap(bits) && i < BitCount && j < BitCount
    ensures IsSet(Toggle(bits, i), j) <==> (if j == i then !IsSet(bits, i) else IsSet(bits, j))
  {
    if IsSet(bits, i) {
      ClearOnly(bits, i, j);
    } else {
      SetOnly(bits, i, j);
    }
  }

  /** Toggling the same bit twice gives back the bitmap byte for byte. */
  lemma ToggleTwice(bits: seq<bv8>, i: nat)
    requires IsBitmap(bits) && i < BitCount
    ensures Toggle(Toggle(bits, i), i) == bits
  {
    if IsSet(bits, i) {
      ClearThenSet(bits, i);
    } else {
      SetThenClear(bits, i);
    }
  }

  lemma ClearThenSet(bits: seq<bv8>, i: nat)
    requires IsBitmap(bits) && i < BitCount && IsSet(bits, i)
    ensures Toggle(Clear(bits, i), i) == bits
  {
    var n, x, m := i / 8, bits[i / 8], Mask(i % 8);
    MaskRestore(x, i % 8);
    assert !IsSet(Clear(bits, i), i);
    UpdateBack(bits, n, x & !m);
  }

  lemma SetThenClear(bits: seq<bv8>, i: nat)
    requires IsBitmap(bits) && i < BitCount && !IsSet(bits, i)
    ensures Toggle(Set(bits, i), i) == bits
  {
    var n, x, m := i / 8, bits[i / 8], Mask(i % 8);
    MaskRestore(x, i % 8);
    assert IsSet(Set(bits, i), i);
    UpdateBack(bits, n, x | m);
  }

  /** Writing an element and then writing the old value back restores the
    * sequence. */
  lemma UpdateBack<T>(s: seq<T>, n: nat, v: T)
    requires n < |s|
    ensures s[n := v][n := s[n]] == s
  {
  }

  // ---------------------------------------------------------------------
  // Access-privilege numbers

  const AccessDeleteFile: nat := 0
  const AccessUploadFile: nat := 1
  const AccessDownloadFile: nat := 2
  const AccessRenameFile: nat := 3
  const AccessMoveFile: nat := 4
  const AccessCreateFolder: nat := 5
  const AccessDeleteFolder: nat := 6
  const AccessRenameFolder: nat := 7
  const AccessMoveFolder: nat := 8
  const AccessReadChat: nat := 9
  const AccessSendChat: nat := 10
  const AccessOpenChat: nat := 11
  const AccessCreateUser: nat := 14
  const AccessDeleteUser: nat := 15
  const AccessOpenUser: nat := 16
  const AccessModifyUser: nat := 17
  const AccessNewsReadArt: nat := 20
  const AccessNewsPostArt: nat := 21
  const AccessDisconUser: nat := 22
  const AccessCannotBeDiscon: nat := 23
  const AccessGetClientInfo: nat := 24
  const AccessUploadAnywhere: nat := 25
  const AccessAnyName: nat := 26
  const AccessNoAgreement: nat := 27
  const AccessSetFileComment: nat := 28
  const AccessSetFolderComment: nat := 29
  const AccessViewDropBoxes: nat := 30
  const AccessMakeAlias: nat := 31
  const AccessBroadcast: nat := 32
  const AccessNewsDeleteArt: nat := 33
  const AccessNewsCreateCat: nat := 34
  const AccessNewsDeleteCat: nat := 35
  const AccessNewsCreateFldr: nat := 36
  const AccessNewsDeleteFldr: nat := 37
  const AccessUploadFolder: nat := 38
  const AccessDownloadFolder: nat := 39
  const AccessSendPrivMsg: nat := 40

  // ---------------------------------------------------------------------
  // The editor's checkbox table (accessBitsByCategory), bit numbers only

  const FileSystemBits: seq<nat> := [
    AccessDeleteFile, AccessUploadFile, AccessDownloadFile, AccessRenameFile,
    AccessMoveFile, AccessCreateFolder, AccessDeleteFolder, AccessRenameFolder,
    AccessMoveFolder, AccessUploadAnywhere, AccessSetFileComment, AccessSetFolderComment,
    AccessViewDropBoxes, AccessMakeAlias, AccessUploadFolder, AccessDownloadFolder]
  const ChatBits: seq<nat> := [AccessReadChat, AccessSendChat, AccessOpenChat]
  const UserBits: seq<nat> := [
    AccessCreateUser, AccessDeleteUser, AccessOpenUser, AccessModifyUser,
    AccessDisconUser, AccessCannotBeDiscon, AccessGetClientInfo]
  const NewsBits: seq<nat> := [
    AccessNewsReadArt, AccessNewsPostArt, AccessNewsDeleteArt, AccessNewsCreateCat,
    AccessNewsDeleteCat, AccessNewsCreateFldr, AccessNewsDeleteFldr]
  const MessagingBits: seq<nat> := [AccessBroadcast, AccessSendPrivMsg]
  const MiscBits: seq<nat> := [AccessAnyName, AccessNoAgreement]

  const Categories: seq<seq<nat>> := [FileSystemBits, ChatBits, UserBits, NewsBits, MessagingBits, MiscBits]

  /** The checkboxes in screen order: the categories' bits one after another. */
  function Checkboxes(cats: seq<seq<nat>>): seq<nat>
  {
    if cats == [] then [] else cats[0] + Checkboxes(cats[1..])
  }

  /** The table's bits in screen order. */
  const CheckboxOrder: seq<nat> := [
    0, 1, 2, 3, 4, 5, 6, 7, 8, 25, 28, 29, 30, 31, 38, 39,
    9, 10, 11,
    14, 15, 16, 17, 22, 23, 24,
    20, 21, 33, 34, 35, 36, 37,
    32, 40,
    26, 27]

  /** Where each bit number sits in CheckboxOrder (37 for the bits the
    * table leaves out: 12, 13, 18 and 19). */
  const CheckboxPosition: seq<nat> := [
    0, 1, 2, 3, 4, 5, 6, 7, 8, 16, 17, 18, 37, 37, 19, 20,
    21, 22, 37, 37, 26, 27, 23, 24, 25, 9, 35, 36, 10, 11,
    12, 13, 33, 28, 29, 30, 31, 32, 14, 15, 34]

  predicate Distinct(s: seq<nat>)
  {
    forall i, j :: 0 <= i < j < |s| ==> s[i] != s[j]
  }

  lemma CategoriesInOrder()
    ensures Checkboxes(Categories) == CheckboxOrder
  {
    CheckboxesOfSix(FileSystemBits, ChatBits, UserBits, NewsBits, MessagingBits, MiscBits);
  }

  /** Six categories' checkboxes are their bits one after another. */
  lemma CheckboxesOfSix(a: seq<nat>, b: seq<nat>, c: seq<nat>, d: seq<nat>, e: seq<nat>, f: seq<nat>)
    ensures Checkboxes([a, b, c, d, e, f]) == a + b + c + d + e + f
  {
    var cats := [a, b, c, d, e, f];
    assert cats[1..] == [b, c, d, e, f] && cats[2..] == [c, d, e, f] && cats[3..] == [d, e, f];
    assert cats[4..] == [e, f] && cats[5..] == [f] && cats[6..] == [];
    assert Checkboxes(cats[5..]) == f;
    assert Checkboxes(cats[4..]) == e + f;
    assert Checkboxes(cats[3..]) == d + e + f;
    assert Checkboxes(cats[2..]) == c + d + e + f;
    assert Checkboxes(cats[1..]) == b + c + d + e + f;
  }

  /** Entries lo to hi of order are bits that pos maps back to their own
    * index. */
  predicate PositionsOn(order: seq<nat>, pos: seq<nat>, lo: nat, hi: nat)
  {
    forall k :: lo <= k < hi && k < |order| ==> order[k] < |pos| && pos[order[k]] == k
  }

  lemma PositionsOn0() ensures PositionsOn(CheckboxOrder, CheckboxPosition, 0, 6) {}
  lemma PositionsOn6() ensures PositionsOn(CheckboxOrder, CheckboxPosition, 6, 12) {}
  lemma PositionsOn12() ensures PositionsOn(CheckboxOrder, CheckboxPosition, 12, 18) {}
  lemma PositionsOn18() ensures PositionsOn(CheckboxOrder, CheckboxPosition, 18, 24) {}
  lemma PositionsOn24() ensures PositionsOn(CheckboxOrder, CheckboxPosition, 24, 30) {}
  lemma PositionsOn30() ensures PositionsOn(CheckboxOrder, CheckboxPosition, 30, 37) {}

  /** The table has 37 checkboxes (16 + 3 + 7 + 7 + 2 + 2), every one a
    * different bit below 41, so each focus index below 37 stands for a bit
    * of its own. */
  lemma TableShape()
    ensures |Checkboxes(Categories)| == 37
    ensures forall k :: 0 <= k < 37 ==> Checkboxes(Categories)[k] < 41
    ensures Distinct(Checkboxes(Categories))
  {
    CategoriesInOrder();
    PositionsOn0();
    PositionsOn6();
    PositionsOn12();
    PositionsOn18();
    PositionsOn24();
    PositionsOn30();
    assert forall k :: 0 <= k < 37 ==> CheckboxOrder[k] < 41 && CheckboxPosition[CheckboxOrder[k]] == k;
  }
}

/** The file-list entries of ui/util_files.go: what a listed file or folder
  * carries, the emoji chosen by its four-character Hotline type code, and
  * the title and description lines the list shows for it. */
module FileItems {
  import opened Text

  /** A listed entry; size is in KB, fileType and creator are the four
    * type and creator code characters. */
  datatype FileItem = FileItem(name: string, isFolder: bool, size: nat, fileType: string, creator: string)

  const ImageEmoji: string := "\U{1F5BC}\U{FE0F}"
  const DocumentEmoji: string := "\U{1F4C4}"
  const VideoEmoji: string := "\U{1F3AC}"
  const ArchiveEmoji: string := "\U{1F4E6}"
  const TextEmoji: string := "\U{1F4DD}"
  const PartialEmoji: string := "\U{23F3}"
  const DiskEmoji: string := "\U{1F4BE}"
  const FolderEmoji: string := "\U{1F4C1}"

  /** fileTypeEmoji: the switch on the type code. */
  function FileTypeEmoji(tc: string): (e: string)
    ensures e in {ImageEmoji, DocumentEmoji, VideoEmoji, ArchiveEmoji, TextEmoji, PartialEmoji, DiskEmoji}
  {
    if tc == "JPEG" || tc == "GIFf" || tc == "PNGf" || tc == "TIFF" || tc == "BMPf" then ImageEmoji
    else if tc == "PDF " then DocumentEmoji
    else if tc == "MooV" || tc == "MPEG" then VideoEmoji
    else if tc == "SIT!" || tc == "ZIP " || tc == "Gzip" then ArchiveEmoji
    else if tc == "TEXT" then TextEmoji
    else if tc == "HTft" then PartialEmoji
    else if tc == "rohd" then DiskEmoji
    else DocumentEmoji
  }

  /** The same mapping as a table of case lists, each with its emoji. */
  const EmojiTable: seq<(seq<string>, string)> := [
    (["JPEG", "GIFf", "PNGf", "TIFF", "BMPf"], ImageEmoji),
    (["PDF "], DocumentEmoji),
    (["MooV", "MPEG"], VideoEmoji),
    (["SIT!", "ZIP ", "Gzip"], ArchiveEmoji),
    (["TEXT"], TextEmoji),
    (["HTft"], PartialEmoji),
    (["rohd"], DiskEmoji)
  ]

  /** No code is listed in two rows. */
  lemma TableRowsDisjoint()
    ensures forall i, j, c :: 0 <= i < j < |EmojiTable| && c in EmojiTable[i].0 ==> c !in EmojiTable[j].0
  {
  }

  /** Each code in a case list maps to exactly that case's emoji. */
  lemma ListedCodes()
    ensures forall i, c :: 0 <= i < |EmojiTable| && c in EmojiTable[i].0 ==> FileTypeEmoji(c) == EmojiTable[i].1
  {
    forall i, c | 0 <= i < |EmojiTable| && c in EmojiTable[i].0
      ensures FileTypeEmoji(c) == EmojiTable[i].1
    {
    }
  }

  /** Every code listed nowhere maps to the document emoji. */
  lemma UnlistedCode(tc: string)
    requires forall i :: 0 <= i < |EmojiTable| ==> tc !in EmojiTable[i].0
    ensures FileTypeEmoji(tc) == DocumentEmoji
  {
    assert tc !in EmojiTable[0].0 && tc !in EmojiTable[1].0 && tc !in EmojiTable[2].0;
    assert tc !in EmojiTable[3].0 && tc !in EmojiTable[4].0 && tc !in EmojiTable[5].0 && tc !in EmojiTable[6].0;
  }

  /** fileItem.Title: a folder shows the folder emoji, a file its type's. */
  function Title(item: FileItem): (t: string)
    ensures HasSuffix(t, " " + item.name)
    ensures item.isFolder ==> HasPrefix(t, FolderEmoji)
    ensures !item.isFolder ==> HasPrefix(t, FileTypeEmoji(item.fileType))
  {
    if item.isFolder then FolderEmoji + " " + item.name
    else FileTypeEmoji(item.fileType) + " " + item.name
  }

  /** fileItem.Description: "Folder", or the size in decimal KB. */
  function Description(item: FileItem): (d: string)
    ensures item.isFolder <==> d == "Folder"
    ensures !item.isFolder ==> HasSuffix(d, " KB") && AllDigits(d[..|d| - 3]) && DigitsValue(d[..|d| - 3]) == item.size
  {
    if item.isFolder then "Folder"
    else
      var n := NatToString(item.size);
      DigitsValueOfNatToString(item.size);
      assert (n + " KB")[..|n|] == n;
      n + " KB"
  }
}

/** The byte layouts of the Hotline file-transfer (HTXF) connection as the
  * client writes and reads them in internal/file_transfer.go: the 16-byte
  * handshake, the 24-byte flattened-file header, the 16-byte fork headers,
  * the AppleDouble sidecar header and the upload's announced total size. */
module TransferWire {
  import opened Bytes

  /** "HTXF", the protocol tag that opens the handshake. */
  const HTXF: seq<byte> := [0x48, 0x54, 0x58, 0x46]
  /** Fork type tags. */
  const DATA: seq<byte> := [0x44, 0x41, 0x54, 0x41]
  const MACR: seq<byte> := [0x4D, 0x41, 0x43, 0x52]
  const INFO: seq<byte> := [0x49, 0x4E, 0x46, 0x4F]

  const FlatFileHeaderSize: nat := 24
  const ForkHeaderSize: nat := 16
  /** The header length the upload skips in an AppleDouble sidecar. */
  const SidecarSkip: nat := 82

  /** The handshake: tag, reference number, big-endian transfer size, 4 reserved zero bytes. */
  function Handshake(refNum: seq<byte>, size: nat): (h: seq<byte>)
    requires |refNum| == 4 && size < TWO32
    ensures |h| == 16
  {
    HTXF + refNum + BE32(size) + Zeros(4)
  }

  /** Each field of the handshake reads back as what was put in. */
  lemma HandshakeFields(refNum: seq<byte>, size: nat)
    requires |refNum| == 4 && size < TWO32
    ensures var h := Handshake(refNum, size);
      h[..4] == HTXF && h[4..8] == refNum && ReadBE32(h[8..12]) == size
      && forall i :: 12 <= i < 16 ==> h[i] == 0
  {
    var h := Handshake(refNum, size);
    assert h[8..12] == BE32(size);
    BE32RoundTrip(size);
  }

  /** Reference number 00 00 00 07 and size 1024. */
  lemma HandshakeExample()
    ensures Handshake([0, 0, 0, 7], 1024)
         == [0x48, 0x54, 0x58, 0x46, 0, 0, 0, 7, 0, 0, 4, 0, 0, 0, 0, 0]
  {
  }

  /** The flattened-file header of an upload: version 1 at bytes 4-5, the fork
    * count at bytes 22-23, zeros elsewhere. */
  function FlatFileHeader(forkCount: nat): (h: seq<byte>)
    requires forkCount < TWO16
    ensures |h| == FlatFileHeaderSize
  {
    Zeros(4) + BE16(1) + Zeros(16) + BE16(forkCount)
  }

  /** The fork count a download reads from bytes 22-23 of the header. */
  function ForkCount(header: seq<byte>): (c: nat)
    requires |header| == FlatFileHeaderSize
    ensures c < TWO16
  {
    ReadBE16(header[22..24])
  }

  /** The fork count written by an upload is the one a download reads, and the
    * header carries version 1 and nothing else. */
  lemma FlatFileHeaderRoundTrip(forkCount: nat)
    requires forkCount < TWO16
    ensures var h := FlatFileHeader(forkCount);
      ForkCount(h) == forkCount && ReadBE16(h[4..6]) == 1
      && (forall i :: 0 <= i < 4 ==> h[i] == 0) && (forall i :: 6 <= i < 22 ==> h[i] == 0)
  {
    var h := FlatFileHeader(forkCount);
    assert h[22..24] == BE16(forkCount);
    assert h[4..6] == BE16(1);
    BE16RoundTrip(forkCount);
    BE16RoundTrip(1);
  }

  /** A fork header: 4-byte type, 2 compression and 6 reserved zero bytes, big-endian size. */
  function ForkHeader(forkType: seq<byte>, size: nat): (h: seq<byte>)
    requires |forkType| == 4 && size < TWO32
    ensures |h| == ForkHeaderSize
  {
    forkType + Zeros(8) + BE32(size)
  }

  /** The size a download reads from bytes 12-15 of a fork header. */
  function ForkSize(header: seq<byte>): (n: nat)
    requires |header| == ForkHeaderSize
    ensures n < TWO32
  {
    ReadBE32(header[12..16])
  }

  lemma ForkHeaderRoundTrip(forkType: seq<byte>, size: nat)
    requires |forkType| == 4 && size < TWO32
    ensures ForkSize(ForkHeader(forkType, size)) == size
    ensures ForkHeader(forkType, size)[..4] == forkType
  {
    assert ForkHeader(forkType, size)[12..16] == BE32(size);
    BE32RoundTrip(size);
  }

  /** The AppleDouble header written before a downloaded resource fork. */
  function AppleDoubleHeader(resourceForkSize: nat): (h: seq<byte>)
    requires resourceForkSize < TWO32
    ensures |h| == 38
  {
    [0x00, 0x05, 0x16, 0x07] + [0x00, 0x02, 0x00, 0x00] + Zeros(16) + [0x00, 0x01]
    + [0x00, 0x00, 0x00, 0x02] + [0x00, 0x00, 0x00, 0x52] + BE32(resourceForkSize)
  }

  /** Magic 0x00051607, version 0x00020000, one entry with ID 2 (resource fork)
    * claiming offset 82 and the given length; the header itself is 38 bytes long. */
  lemma AppleDoubleHeaderFields(size: nat)
    requires size < TWO32
    ensures var h := AppleDoubleHeader(size);
      ReadBE32(h[0..4]) == 0x0005_1607 && ReadBE32(h[4..8]) == 0x0002_0000
      && (forall i :: 8 <= i < 24 ==> h[i] == 0)
      && ReadBE16(h[24..26]) == 1 && ReadBE32(h[26..30]) == 2
      && ReadBE32(h[30..34]) == SidecarSkip && ReadBE32(h[34..38]) == size
      && ReadBE32(h[30..34]) > |h|
  {
    var h := AppleDoubleHeader(size);
    assert h[34..38] == BE32(size);
    BE32RoundTrip(size);
  }

  /** What an upload sends as resource-fork data for a sidecar: the bytes after
    * the first 82, when there are more than 82 (a directory or a shorter file
    * contributes no resource fork). */
  function SidecarResourceData(isDir: bool, content: seq<byte>): (r: Option<seq<byte>>)
    ensures r.Some? <==> !isDir && |content| > SidecarSkip
    ensures r.Some? ==> |r.value| == |content| - SidecarSkip
  {
    if !isDir && |content| - SidecarSkip > 0 then Some(content[SidecarSkip..]) else None
  }

  /** A sidecar written by a download is not read back intact by an upload: the
    * header is 38 bytes but the upload skips 82, so the first 44 bytes of the
    * resource fork are lost. */
  lemma SidecarNotRoundTrip(res: seq<byte>)
    requires 44 < |res| < TWO32
    ensures SidecarResourceData(false, AppleDoubleHeader(|res|) + res) == Some(res[44..])
    ensures SidecarResourceData(false, AppleDoubleHeader(|res|) + res) != Some(res)
  {
    var c := AppleDoubleHeader(|res|) + res;
    assert c[SidecarSkip..] == res[44..];
  }

  /** Stat of a local file: its size and whether it is a directory. */
  datatype FileStat = FileStat(size: int, isDir: bool)

  /** The resource-fork size the upload derives from the sidecar's stat, if it has one. */
  function StatResourceSize(sidecar: Option<FileStat>): (r: Option<int>)
    ensures r.Some? ==> r.value > 0
  {
    if sidecar.Some? && !sidecar.value.isDir && sidecar.value.size - SidecarSkip > 0
    then Some(sidecar.value.size - SidecarSkip) else None
  }

  /** The transfer size announced in an upload's handshake: header, info fork,
    * data fork header and data, plus resource fork header and data, all in
    * uint32 arithmetic. */
  function UploadTotalSize(infoForkLen: nat, fileSize: int, sidecar: Option<FileStat>): (t: nat)
    ensures t < TWO32
  {
    var total := U32(FlatFileHeaderSize + infoForkLen + ForkHeaderSize + fileSize);
    match StatResourceSize(sidecar)
    case Some(resSize) => U32(total + U32(ForkHeaderSize + resSize))
    case None => total
  }

  /** The flattened file object an upload streams after its handshake. */
  function FlatFileObject(infoFork: seq<byte>, data: seq<byte>, res: Option<seq<byte>>): (s: seq<byte>)
    ensures |s| == FlatFileHeaderSize + |infoFork| + ForkHeaderSize + |data|
                   + (if res.Some? then ForkHeaderSize + |res.value| else 0)
  {
    FlatFileHeader(if res.Some? then 3 else 2) + infoFork + Forks(data, res)
  }

  /** The data fork and the optional resource fork, each behind its header. */
  function Forks(data: seq<byte>, res: Option<seq<byte>>): (s: seq<byte>)
    ensures |s| == ForkHeaderSize + |data| + (if res.Some? then ForkHeaderSize + |res.value| else 0)
  {
    ForkHeader(DATA, U32(|data|)) + data + (if res.Some? then ForkHeader(MACR, U32(|res.value|)) + res.value else [])
  }

  /** The announced total size is the length of the stream actually sent, modulo
    * 2^32, whenever the sidecar seen by stat is the one that is sent. */
  lemma UploadTotalSizeIsStreamLength(infoFork: seq<byte>, data: seq<byte>, sidecar: Option<seq<byte>>)
    ensures var st := if sidecar.Some? then Some(FileStat(|sidecar.value|, false)) else None;
      var res := if sidecar.Some? then SidecarResourceData(false, sidecar.value) else None;
      UploadTotalSize(|infoFork|, |data|, st) == U32(|FlatFileObject(infoFork, data, res)|)
  {
    var base := FlatFileHeaderSize + |infoFork| + ForkHeaderSize + |data|;
    if sidecar.Some? && |sidecar.value| > SidecarSkip {
      var r := |sidecar.value| - SidecarSkip;
      U32Add(base, ForkHeaderSize + r);
    }
  }

  /** Adding in uint32 after truncating both sides is truncating the sum. */
  lemma U32Add(a: int, b: int)
    ensures U32(U32(a) + U32(b)) == U32(a + b)
  {
    var qa, qb := a / TWO32, b / TWO32;
    assert a == qa * TWO32 + U32(a);
    assert b == qb * TWO32 + U32(b);
    assert a + b == (qa + qb) * TWO32 + (U32(a) + U32(b));
    ModShift(U32(a) + U32(b), qa + qb);
  }

  lemma ModShift(x: int, k: int)
    ensures (k * TWO32 + x) % TWO32 == x % TWO32
  {
    var q := x / TWO32;
    assert x == q * TWO32 + x % TWO32;
    assert k * TWO32 + x == (k + q) * TWO32 + x % TWO32;
  }
}

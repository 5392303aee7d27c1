/** The threaded-news wire formats the client handles itself: the news path
  * it sends with every news request (encodeNewsPath in internal/screens.go
  * and ui/screens.go) and the article records it parses out of a
  * NewsArtListData payload (HandleGetNewsArtNameList in
  * internal/handlers_transaction.go and ui/transaction_handlers.go, which
  * share the same loop). Names and titles are Go strings, that is byte
  * sequences. */
module NewsCodec {
  import opened Bytes

  // ---------------------------------------------------------------------
  // News path

  /** The path field: nothing for the root, otherwise a 16-bit count and,
    * per name, two zero bytes, a one-byte length and the name. */
  function NewsPathBytes(path: seq<seq<byte>>): seq<byte>
  {
    if path == [] then [] else BE16(U16(|path|)) + NameEntries(path)
  }

  function NameEntries(path: seq<seq<byte>>): seq<byte>
  {
    if path == [] then [] else [0, 0, |path[0]| % 256] + path[0] + NameEntries(path[1..])
  }

  /** Bytes a path occupies once encoded, three per name plus the name. */
  function EntriesSize(path: seq<seq<byte>>): nat
  {
    if path == [] then 0 else 3 + |path[0]| + EntriesSize(path[1..])
  }

  /** encodeNewsPath, appending into a buffer name by name. */
  method EncodeNewsPath(path: seq<seq<byte>>) returns (buf: seq<byte>)
    ensures buf == NewsPathBytes(path)
    ensures path == [] ==> buf == []
    ensures path != [] ==> |buf| == 2 + EntriesSize(path) && buf[..2] == BE16(U16(|path|))
  {
    if |path| == 0 {
      return [];
    }
    buf := BE16(U16(|path|));
    var i := 0;
    while i < |path|
      invariant 0 <= i <= |path|
      invariant buf + NameEntries(path[i..]) == NewsPathBytes(path)
    {
      EntriesStep(path, i);
      buf := buf + [0, 0] + [|path[i]| % 256] + path[i];
      i := i + 1;
    }
    assert path[i..] == [];
    EntriesLength(path);
  }

  lemma EntriesStep(path: seq<seq<byte>>, i: nat)
    requires i < |path|
    ensures NameEntries(path[i..]) == [0, 0, |path[i]| % 256] + path[i] + NameEntries(path[i + 1..])
  {
    assert path[i..][1..] == path[i + 1..];
  }

  /** The encoded entries take three bytes per name plus the name itself. */
  lemma {:induction false} EntriesLength(path: seq<seq<byte>>)
    ensures |NameEntries(path)| == EntriesSize(path)
  {
    if path != [] {
      EntriesLength(path[1..]);
    }
  }

  /** Reads a path back: the count, then that many entries with their two
    * leading bytes zero, and nothing after the last one. */
  function DecodeNewsPath(b: seq<byte>): Option<seq<seq<byte>>>
  {
    if b == [] then Some([])
    else if |b| < 2 then None
    else DecodeEntries(b[2..], ReadBE16(b[..2]))
  }

  function DecodeEntries(b: seq<byte>, n: nat): Option<seq<seq<byte>>>
    decreases n
  {
    if n == 0 then (if b == [] then Some([]) else None)
    else if |b| < 3 || b[0] != 0 || b[1] != 0 || |b| < 3 + b[2] as int then None
    else match DecodeEntries(b[3 + b[2] as int..], n - 1)
      case None => None
      case Some(rest) => Some([b[3..3 + b[2] as int]] + rest)
  }

  /** Every name fits its length byte. */
  predicate ShortNames(path: seq<seq<byte>>)
  {
    forall i :: 0 <= i < |path| ==> |path[i]| < 256
  }

  lemma {:induction false} DecodeEntriesOf(path: seq<seq<byte>>)
    requires ShortNames(path)
    ensures DecodeEntries(NameEntries(path), |path|) == Some(path)
  {
    if path != [] {
      var e := NameEntries(path);
      var name := path[0];
      assert e == [0, 0, |name|] + (name + NameEntries(path[1..]));
      assert e[3..3 + |name|] == name;
      assert e[3 + |name|..] == NameEntries(path[1..]);
      assert ShortNames(path[1..]) by {
        forall i | 0 <= i < |path[1..]| ensures |path[1..][i]| < 256 {
          assert path[1..][i] == path[i + 1];
        }
      }
      DecodeEntriesOf(path[1..]);
      assert [name] + path[1..] == path;
    }
  }

  /** With fewer than 65536 names of fewer than 256 bytes each, the encoding
    * decodes back to the same path. */
  lemma NewsPathRoundTrip(path: seq<seq<byte>>)
    requires |path| < TWO16 && ShortNames(path)
    ensures DecodeNewsPath(NewsPathBytes(path)) == Some(path)
  {
    if path != [] {
      var b := NewsPathBytes(path);
      assert b[..2] == BE16(|path|);
      assert b[2..] == NameEntries(path);
      BE16RoundTrip(|path|);
      DecodeEntriesOf(path);
    }
  }

  /** Hence two such paths are sent as the same bytes only when they are equal. */
  lemma NewsPathInjective(p: seq<seq<byte>>, q: seq<seq<byte>>)
    requires |p| < TWO16 && ShortNames(p) && |q| < TWO16 && ShortNames(q)
    requires NewsPathBytes(p) == NewsPathBytes(q)
    ensures p == q
  {
    NewsPathRoundTrip(p);
    NewsPathRoundTrip(q);
  }

  // ---------------------------------------------------------------------
  // Article list

  /** An entry of the article list as the news screens keep it; depth,
    * expansion and hasChildren are filled in by the thread tree. */
  datatype NewsArticle = NewsArticle(id: nat, title: seq<byte>, poster: seq<byte>, date: seq<byte>,
                                     parentID: nat, depth: nat, isExpanded: bool, hasChildren: bool)

  /** A Pascal string (a length byte and that many bytes) fits at p. */
  predicate StrFits(d: seq<byte>, p: nat)
  {
    p + 1 <= |d| && p + 1 + d[p] <= |d|
  }

  /** The offset just past the Pascal string at p. */
  function StrEnd(d: seq<byte>, p: nat): nat
    requires p < |d|
  {
    p + 1 + d[p]
  }

  /** The record at offset o is complete: the id, the fixed 18 bytes after
    * it, the title and the poster with their length bytes, and the flavour
    * text with its length byte and the 2-byte article size all fit. */
  predicate RecordFits(d: seq<byte>, o: nat)
  {
    o + 22 <= |d| && StrFits(d, o + 22) && StrFits(d, StrEnd(d, o + 22))
    && var f := StrEnd(d, StrEnd(d, o + 22));
    f + 1 <= |d| && f + 1 + d[f] + 2 <= |d|
  }

  /** The offset just past a complete record. */
  function RecordEnd(d: seq<byte>, o: nat): (next: nat)
    requires RecordFits(d, o)
    ensures o < next <= |d|
  {
    var f := StrEnd(d, StrEnd(d, o + 22));
    f + 1 + d[f] + 2
  }

  /** The article the client keeps of a complete record. */
  function RecordArticle(d: seq<byte>, o: nat): (a: NewsArticle)
    requires RecordFits(d, o)
    ensures a.depth == 0 && !a.isExpanded && !a.hasChildren && |a.date| == 8
  {
    var p := o + 22;
    var q := StrEnd(d, p);
    var f := StrEnd(d, q);
    NewsArticle(ReadBE32(d[o..o + 4]), d[p + 1..q], d[q + 1..f], d[o + 4..o + 12],
                ReadBE32(d[o + 12..o + 16]), 0, false, false)
  }

  /** The articles the loop collects: up to count records from offset o,
    * stopping at the end of the payload or at the first record cut short. */
  function ParseArticles(count: int, d: seq<byte>, o: nat): seq<NewsArticle>
    decreases |d| - o
  {
    if count <= 0 || o >= |d| || !RecordFits(d, o) then []
    else [RecordArticle(d, o)] + ParseArticles(count - 1, d, RecordEnd(d, o))
  }

  /** The parsing loop of HandleGetNewsArtNameList, on the Count and the
    * NewsArtList payload of the already-decoded NewsArtListData: it reads
    * record after record and breaks at the first one cut short. */
  method ParseArticleList(count: int, data: seq<byte>) returns (articles: seq<NewsArticle>)
    ensures articles == ParseArticles(count, data, 0)
  {
    articles := [];
    var offset: nat := 0;
    var i := 0;
    ghost var whole := ParseArticles(count, data, 0);
    while i < count && offset < |data|
      invariant 0 <= offset <= |data|
      invariant articles + ParseArticles(count - i, data, offset) == whole
      decreases |data| - offset
    {
      var ok, article, next := ReadRecord(data, offset);
      if !ok {
        StopsAt(count - i, data, offset, articles, whole);
        break;
      }
      Continues(count - i, data, offset, article, next, articles, whole);
      articles := articles + [article];
      offset := next;
      i := i + 1;
    }
  }

  /** One pass of the loop body: every read is preceded by its bound check,
    * and a failed check abandons the record. */
  method ReadRecord(data: seq<byte>, start: nat) returns (ok: bool, article: NewsArticle, offset: nat)
    requires start < |data|
    ensures ok == RecordFits(data, start)
    ensures ok ==> article == RecordArticle(data, start) && offset == RecordEnd(data, start)
  {
    offset := start;
    article := NewsArticle(0, [], [], [], 0, 0, false, false);
    ok := false;
    if offset + 4 > |data| {
      return;
    }
    var articleID := ReadBE32(data[offset..offset + 4]);
    offset := offset + 4;
    if offset + 18 > |data| {
      return;
    }
    var timestamp := data[offset..offset + 8];
    offset := offset + 8;
    var parentID := ReadBE32(data[offset..offset + 4]);
    offset := offset + 4;
    offset := offset + 4 + 2;
    if offset + 1 > |data| {
      return;
    }
    var titleLen := data[offset] as nat;
    offset := offset + 1;
    if offset + titleLen > |data| {
      return;
    }
    var title := data[offset..offset + titleLen];
    offset := offset + titleLen;
    if offset + 1 > |data| {
      return;
    }
    var posterLen := data[offset] as nat;
    offset := offset + 1;
    if offset + posterLen > |data| {
      return;
    }
    var poster := data[offset..offset + posterLen];
    offset := offset + posterLen;
    if offset + 1 > |data| {
      return;
    }
    var flavorLen := data[offset] as nat;
    offset := offset + 1;
    if offset + flavorLen + 2 > |data| {
      return;
    }
    offset := offset + flavorLen + 2;
    article := NewsArticle(articleID, title, poster, timestamp, parentID, 0, false, false);
    RecordAt(data, start, titleLen, posterLen, flavorLen);
    ok := true;
  }

  /** A complete record, with its three length bytes named. */
  lemma RecordAt(d: seq<byte>, o: nat, tl: nat, pl: nat, fl: nat)
    requires o + 23 <= |d| && tl == d[o + 22]
    requires o + 24 + tl <= |d| && pl == d[o + 23 + tl]
    requires o + 25 + tl + pl <= |d| && fl == d[o + 24 + tl + pl]
    requires o + 27 + tl + pl + fl <= |d|
    ensures RecordFits(d, o)
    ensures RecordArticle(d, o)
            == NewsArticle(ReadBE32(d[o..o + 4]), d[o + 23..o + 23 + tl], d[o + 24 + tl..o + 24 + tl + pl],
                           d[o + 4..o + 12], ReadBE32(d[o + 12..o + 16]), 0, false, false)
    ensures RecordEnd(d, o) == o + 27 + tl + pl + fl
  {
  }

  /** One record parsed by the loop is one step of ParseArticles. */
  lemma Continues(count: int, d: seq<byte>, o: nat, a: NewsArticle, next: nat,
                  before: seq<NewsArticle>, whole: seq<NewsArticle>)
    requires count > 0 && o < |d| && RecordFits(d, o)
    requires a == RecordArticle(d, o) && next == RecordEnd(d, o)
    requires before + ParseArticles(count, d, o) == whole
    ensures (before + [a]) + ParseArticles(count - 1, d, next) == whole
  {
    assert ParseArticles(count, d, o) == [a] + ParseArticles(count - 1, d, next);
  }

  /** A record cut short ends ParseArticles. */
  lemma StopsAt(count: int, d: seq<byte>, o: nat, before: seq<NewsArticle>, whole: seq<NewsArticle>)
    requires !RecordFits(d, o)
    requires before + ParseArticles(count, d, o) == whole
    ensures before == whole
  {
    assert ParseArticles(count, d, o) == [];
  }

  /** The loop never collects more records than the count announces. */
  lemma {:induction false} ParseArticlesBound(count: int, d: seq<byte>, o: nat)
    ensures |ParseArticles(count, d, o)| <= if count < 0 then 0 else count
    decreases |d| - o
  {
    if count > 0 && o < |d| && RecordFits(d, o) {
      ParseArticlesBound(count - 1, d, RecordEnd(d, o));
    }
  }

  /** A record as a server lays it out: id, 8-byte date, parent id, 4 flag
    * bytes, 2 flavour-count bytes, then title, poster and flavour text as
    * Pascal strings and a 2-byte article size. */
  datatype ArticleRecord = ArticleRecord(id: nat, date: seq<byte>, parentID: nat, flags: seq<byte>,
                                         flavorCount: seq<byte>, title: seq<byte>, poster: seq<byte>,
                                         flavor: seq<byte>, size: seq<byte>)

  predicate WellFormedRecord(r: ArticleRecord)
  {
    r.id < TWO32 && r.parentID < TWO32 && |r.date| == 8 && |r.flags| == 4 && |r.flavorCount| == 2
    && |r.title| < 256 && |r.poster| < 256 && |r.flavor| < 256 && |r.size| == 2
  }

  function Pascal(s: seq<byte>): (r: seq<byte>)
    requires |s| < 256
    ensures |r| == 1 + |s| && r[0] == |s| && r[1..] == s
  {
    [|s|] + s
  }

  function RecordHead(r: ArticleRecord): (h: seq<byte>)
    requires WellFormedRecord(r)
    ensures |h| == 22
  {
    BE32(r.id) + r.date + BE32(r.parentID) + r.flags + r.flavorCount
  }

  function RecordTail(r: ArticleRecord): (t: seq<byte>)
    requires WellFormedRecord(r)
    ensures |t| == 3 + |r.title| + |r.poster| + |r.flavor| + 2
  {
    Pascal(r.title) + (Pascal(r.poster) + (Pascal(r.flavor) + r.size))
  }

  function EncodeRecord(r: ArticleRecord): (e: seq<byte>)
    requires WellFormedRecord(r)
    ensures |e| == 22 + |RecordTail(r)| == RecordSize(r)
  {
    RecordHead(r) + RecordTail(r)
  }

  /** What the client keeps of a record. */
  function ArticleOf(r: ArticleRecord): NewsArticle
  {
    NewsArticle(r.id, r.title, r.poster, r.date, r.parentID, 0, false, false)
  }

  lemma HeadFields(r: ArticleRecord)
    requires WellFormedRecord(r)
    ensures var h := RecordHead(r);
      h[..4] == BE32(r.id) && h[4..12] == r.date && h[12..16] == BE32(r.parentID)
  {
  }

  lemma TailFields(r: ArticleRecord, d: seq<byte>, p: nat)
    requires WellFormedRecord(r) && p + |RecordTail(r)| <= |d| && d[p..p + |RecordTail(r)|] == RecordTail(r)
    ensures d[p] == |r.title| && d[p + 1..p + 1 + |r.title|] == r.title
    ensures var q := p + 1 + |r.title|; d[q] == |r.poster| && d[q + 1..q + 1 + |r.poster|] == r.poster
    ensures var f := p + 2 + |r.title| + |r.poster|; d[f] == |r.flavor|
  {
    var t := RecordTail(r);
    var q := 1 + |r.title|;
    assert t[1..q] == r.title;
    assert t[q..] == Pascal(r.poster) + (Pascal(r.flavor) + r.size);
    assert t[q] == |r.poster|;
    assert t[q + 1..q + 1 + |r.poster|] == r.poster;
    assert t[q + 1 + |r.poster|] == |r.flavor|;
    SliceOfSlice(d, p, p + |t|, 1, q);
    SliceOfSlice(d, p, p + |t|, q + 1, q + 1 + |r.poster|);
    assert d[p] == t[0] && d[p + q] == t[q] && d[p + q + 1 + |r.poster|] == t[q + 1 + |r.poster|];
  }

  lemma SliceOfSlice<T>(d: seq<T>, i: nat, j: nat, a: nat, b: nat)
    requires i <= j <= |d| && a <= b <= j - i
    ensures d[i..j][a..b] == d[i + a..i + b]
  {
    forall k | 0 <= k < b - a ensures d[i..j][a..b][k] == d[i + a..i + b][k] {
      assert d[i..j][a..b][k] == d[i..j][a + k];
    }
  }

  /** Round trip: a well-formed record found at offset o parses back to its
    * id, date, parent, title and poster, and parsing resumes right after it. */
  lemma RecordRoundTrip(r: ArticleRecord, d: seq<byte>, o: nat)
    requires WellFormedRecord(r)
    requires o + |EncodeRecord(r)| <= |d| && d[o..o + |EncodeRecord(r)|] == EncodeRecord(r)
    ensures RecordFits(d, o)
    ensures RecordArticle(d, o) == ArticleOf(r) && RecordEnd(d, o) == o + |EncodeRecord(r)|
  {
    var e := EncodeRecord(r);
    var h := RecordHead(r);
    assert e[..22] == h;
    assert d[o..o + 22] == h;
    HeadFields(r);
    SliceOfSlice(d, o, o + 22, 0, 4);
    SliceOfSlice(d, o, o + 22, 4, 12);
    SliceOfSlice(d, o, o + 22, 12, 16);
    BE32RoundTrip(r.id);
    BE32RoundTrip(r.parentID);
    assert e[22..] == RecordTail(r);
    assert d[o + 22..o + |e|] == RecordTail(r);
    TailFields(r, d, o + 22);
  }

  /** Bytes a well-formed record occupies. */
  function RecordSize(r: ArticleRecord): nat
  {
    27 + |r.title| + |r.poster| + |r.flavor|
  }

  /** A payload that ends inside a record: the parser stops there and keeps
    * nothing of that record. */
  lemma TruncatedRecordStops(count: int, d: seq<byte>, o: nat, r: ArticleRecord, k: nat)
    requires WellFormedRecord(r) && k < |EncodeRecord(r)|
    requires o <= |d| && d[o..] == EncodeRecord(r)[..k]
    ensures !RecordFits(d, o)
    ensures ParseArticles(count, d, o) == []
  {
  }
}

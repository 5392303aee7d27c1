/** The transfer engine of internal/file_transfer.go: the chunked copy with
  * progress reporting, the choice of a free local file name, and the download
  * and upload drivers that move a task from Active to Completed or Failed.
  *
  * The network and the file system are values: a Stream is what a reader
  * delivers (its bytes, then how it ends), a Sink is a writer that accepts a
  * bounded number of bytes, the existing local paths are a set, and dialing,
  * directory creation and file creation are given as their error results.
  * Clock readings and the 100 ms progress ticker are parameters. */
module FileTransfer {
  import opened Bytes
  import opened Text
  import opened Tasks
  import opened TransferWire

  /** The copy buffer: 32 KiB. */
  const BufferSize: nat := 32 * 1024

  function Min(a: int, b: int): int { if a < b then a else b }

  datatype StreamEnd = EndOfFile | Broken(reason: string)

  /** A byte source: the bytes it delivers, then how it ends. A read asks for
    * a number of bytes and may be given fewer: shortReads[k] is what the
    * k-th read of a copy loop returns when it is a positive count below the
    * request; any other entry, or none, means the read fills the request. */
  datatype Stream = Stream(data: seq<byte>, end: StreamEnd, shortReads: seq<nat>)

  /** A byte destination that accepts `room` bytes in all (None: unlimited);
    * a write that does not fit fails with `reason` and writes nothing. */
  datatype Sink = Sink(room: Option<nat>, reason: string)

  predicate Fits(dst: Sink, used: nat, n: nat)
  {
    dst.room.None? || used + n <= dst.room.value
  }

  /** The bytes the k-th read returns when m bytes are asked for and held. */
  function ReadLength(src: Stream, k: nat, m: nat): (n: nat)
    ensures n <= m && (m > 0 ==> n > 0)
    ensures k >= |src.shortReads| ==> n == m
  {
    if k < |src.shortReads| && 0 < src.shortReads[k] < m then src.shortReads[k] else m
  }

  /** The k-th Read into a buffer of `want` bytes at offset pos: some of the
    * bytes available up to want, at least one, or, once the data is drained,
    * no bytes and the end. */
  function Read(src: Stream, pos: nat, want: nat, k: nat): (r: (nat, Option<StreamEnd>))
    requires pos <= |src.data|
    ensures r.0 <= want && pos + r.0 <= |src.data|
    ensures r.1.Some? <==> pos == |src.data|
    ensures r.1.Some? ==> r.0 == 0 && r.1.value == src.end
    ensures want > 0 && r.1.None? ==> r.0 > 0
    ensures k >= |src.shortReads| && r.1.None? ==> r.0 == Min(want, |src.data| - pos)
  {
    if pos < |src.data| then (ReadLength(src, k, Min(want, |src.data| - pos)), None) else (0, Some(src.end))
  }

  /** io.ReadFull of k bytes at pos: the new offset, or the error: EOF when
    * nothing was left, "unexpected EOF" when part was, the stream's own
    * error when it broke. */
  function ReadFull(src: Stream, pos: nat, k: nat): (r: Result<nat>)
    requires pos <= |src.data|
    ensures r.Ok? <==> pos + k <= |src.data|
    ensures r.Ok? ==> r.value == pos + k
  {
    if pos + k <= |src.data| then Ok(pos + k)
    else if src.end.Broken? then Err(src.end.reason)
    else if pos == |src.data| then Err("EOF")
    else Err("unexpected EOF")
  }

  /** io.CopyN of k bytes at pos into a writer that accepts them all: the new
    * offset, or EOF / the stream's error when fewer than k bytes remain. */
  function CopyN(src: Stream, pos: nat, k: nat): (r: Result<nat>)
    requires pos <= |src.data|
    ensures r.Ok? <==> pos + k <= |src.data|
    ensures r.Ok? ==> r.value == pos + k
  {
    if pos + k <= |src.data| then Ok(pos + k)
    else if src.end.Broken? then Err(src.end.reason)
    else Err("EOF")
  }

  /** The bytes a copy of `size` bytes from offset start can move: size
    * (none when negative), but no more than the source holds. */
  function CopyTotal(src: Stream, start: nat, size: int): (t: nat)
    requires start <= |src.data|
    ensures t <= |src.data| - start && (size >= 0 ==> t <= size)
  {
    Min(if size < 0 then 0 else size, |src.data| - start)
  }

  /** How a copy that reached the end of what it could move ends: with the
    * stream's error when the source broke before size bytes, else success. */
  function EndError(src: Stream, start: nat, size: int): Option<string>
    requires start <= |src.data|
  {
    if size > |src.data| - start && src.end.Broken? then Some(src.end.reason) else None
  }

  /** The rest of a copy once k reads have moved `written` bytes into dst,
    * which held `used` bytes before the copy: the error, if any, and the
    * bytes copied in all. */
  function CopyFrom(src: Stream, start: nat, size: int, dst: Sink, used: nat, written: nat, k: nat)
    : (r: (Option<string>, nat))
    requires start <= |src.data| && written <= CopyTotal(src, start, size)
    requires written > 0 ==> Fits(dst, used, written)
    ensures written <= r.1 <= CopyTotal(src, start, size)
    ensures r.1 > 0 ==> Fits(dst, used, r.1)
    ensures CopyTotal(src, start, size) == 0 || Fits(dst, used, CopyTotal(src, start, size)) ==>
              r == (EndError(src, start, size), CopyTotal(src, start, size))
    ensures CopyTotal(src, start, size) > 0 && !Fits(dst, used, CopyTotal(src, start, size)) ==>
              r.0 == Some(dst.reason) && !Fits(dst, used, r.1 + BufferSize)
    decreases CopyTotal(src, start, size) - written
  {
    var total := CopyTotal(src, start, size);
    if written == total then (EndError(src, start, size), total)
    else
      var n := ReadLength(src, k, Min(BufferSize, total - written));
      if !Fits(dst, used, written + n) then (Some(dst.reason), written)
      else CopyFrom(src, start, size, dst, used, written + n, k + 1)
  }

  /** The outcome of copying `size` bytes of src from offset start into dst,
    * which already holds `used` bytes. The copy never passes size nor the
    * bytes the source holds. When everything fits it copies all it can and
    * ends with success, or with the stream's error when the source broke
    * early; how the reads are cut then makes no difference. A write that does
    * not fit ends the copy with the writer's error, the bytes before it all
    * written and fewer than one buffer short of the writer's room. */
  function CopyOutcome(src: Stream, start: nat, size: int, dst: Sink, used: nat): (r: (Option<string>, nat))
    requires start <= |src.data|
    ensures r.1 <= |src.data| - start && (size >= 0 ==> r.1 <= size)
    ensures r.0.None? ==> r.1 == CopyTotal(src, start, size)
    ensures CopyTotal(src, start, size) == 0 || Fits(dst, used, CopyTotal(src, start, size)) ==>
              r == (EndError(src, start, size), CopyTotal(src, start, size))
    ensures CopyTotal(src, start, size) > 0 && !Fits(dst, used, CopyTotal(src, start, size)) ==>
              r.0 == Some(dst.reason) && r.1 < CopyTotal(src, start, size)
              && (r.1 > 0 ==> Fits(dst, used, r.1)) && !Fits(dst, used, r.1 + BufferSize)
  {
    CopyFrom(src, start, size, dst, used, 0, 0)
  }

  /** The bytes of the whole buffers that fit in `room` bytes. */
  function WholeBuffers(room: nat): (b: nat)
    ensures b <= room < b + BufferSize
    decreases room
  {
    if room < BufferSize then 0 else BufferSize + WholeBuffers(room - BufferSize)
  }

  /** WholeBuffers is room rounded down to a multiple of the buffer size. */
  lemma {:induction false} WholeBuffersOf(room: nat, chunks: nat)
    requires chunks * BufferSize <= room < chunks * BufferSize + BufferSize
    ensures WholeBuffers(room) == chunks * BufferSize
  {
    if chunks > 0 {
      WholeBuffersOf(room - BufferSize, chunks - 1);
    }
  }

  /** From read k on a source whose reads are never short, a copy standing on
    * a buffer boundary that meets a write that does not fit stops at the
    * last whole buffer the writer has room for. */
  lemma {:induction false} NeverShortStopsOnWholeBuffer(src: Stream, start: nat, size: int, dst: Sink, used: nat,
                                                        written: nat, k: nat, chunks: nat)
    requires start <= |src.data| && written <= CopyTotal(src, start, size)
    requires written > 0 ==> Fits(dst, used, written)
    requires k >= |src.shortReads| && written == chunks * BufferSize
    requires CopyTotal(src, start, size) > 0 && !Fits(dst, used, CopyTotal(src, start, size))
    ensures CopyFrom(src, start, size, dst, used, written, k).1
            == WholeBuffers(if dst.room.value >= used then dst.room.value - used else 0)
    decreases CopyTotal(src, start, size) - written
  {
    var total := CopyTotal(src, start, size);
    var room := if dst.room.value >= used then dst.room.value - used else 0;
    var n := ReadLength(src, k, Min(BufferSize, total - written));
    if !Fits(dst, used, written + n) {
      WholeBuffersOf(room, chunks);
    } else {
      NeverShortStopsOnWholeBuffer(src, start, size, dst, used, written + n, k + 1, chunks + 1);
    }
  }

  predicate NonDecreasing(s: seq<int>)
  {
    forall i, j :: 0 <= i < j < |s| ==> s[i] <= s[j]
  }


  /** Progress reports in order, none negative and none past total. */
  predicate ReportsUpTo(reports: seq<int>, total: int)
  {
    NonDecreasing(reports) && forall k :: 0 <= k < |reports| ==> 0 <= reports[k] <= total
  }

  /** copyWithProgress / copyWithProgressUpload: reads at most
    * min(32 KiB, size - written) bytes at a time, writes each chunk, records
    * the running total on the task and reports it when the ticker has fired
    * (ticks[k] for the k-th read); stops at size bytes or at the end of the
    * source, and on success reports the final total once more. Each chunk
    * written lands after the previous ones, so `out`, what reached dst, is
    * the first `written` bytes of the source. */
  method CopyWithProgress(task: Task, src: Stream, start: nat, size: int, dst: Sink, used: nat,
                          ticks: seq<bool>, now: int)
    returns (err: Option<string>, written: nat, out: seq<byte>, reports: seq<int>)
    requires start <= |src.data|
    modifies task`transferredBytes, task`lastBytes, task`lastUpdate
    ensures (err, written) == CopyOutcome(src, start, size, dst, used)
    ensures start + written <= |src.data| && out == src.data[start..start + written]
    ensures written > 0 ==> Fits(dst, used, written)
    ensures ReportsUpTo(reports, written)
    ensures err.None? ==> |reports| > 0 && reports[|reports| - 1] == written
    ensures task.transferredBytes == if written > 0 then written else old(task.transferredBytes)
    ensures task.lastBytes == 0 && task.lastUpdate == now
  {
    written, out, reports := 0, [], [];
    task.lastBytes := 0;
    task.lastUpdate := now;
    var step := 0;
    while written < size
      invariant written <= CopyTotal(src, start, size) && start + written <= |src.data|
      invariant written > 0 ==> Fits(dst, used, written)
      invariant CopyFrom(src, start, size, dst, used, written, step) == CopyOutcome(src, start, size, dst, used)
      invariant ReportsUpTo(reports, written)
      invariant task.transferredBytes == if written > 0 then written else old(task.transferredBytes)
      modifies task`transferredBytes
      decreases size - written
    {
      var stop;
      stop, err, written, reports := CopyRound(task, src, start, size, dst, used, written, step, ticks, reports);
      if stop {
        if err.Some? {
          out := src.data[start..start + written];
          return;
        }
        break;
      }
      step := step + 1;
    }
    if written >= size {
      CompleteOutcome(src, start, size, dst, used, written, step);
    }
    ReportAppend(reports, written);
    reports := reports + [written];
    err, out := None, src.data[start..start + written];
  }

  /** One turn of the copy loop: the step-th read, then the write of what it
    * returned and the report when the ticker has fired. The copy stops at the
    * end of the source or on a write that does not fit, with the copy's
    * outcome; otherwise it goes on having moved more bytes. */
  method CopyRound(task: Task, src: Stream, start: nat, size: int, dst: Sink, used: nat,
                   written: nat, step: nat, ticks: seq<bool>, reports: seq<int>)
    returns (stop: bool, err: Option<string>, next: nat, nextReports: seq<int>)
    requires start + written <= |src.data| && written < size && written <= CopyTotal(src, start, size)
    requires written > 0 ==> Fits(dst, used, written)
    requires ReportsUpTo(reports, written)
    modifies task`transferredBytes
    ensures stop ==> (err, next) == CopyFrom(src, start, size, dst, used, written, step) && next == written
    ensures stop ==> nextReports == reports && task.transferredBytes == old(task.transferredBytes)
    ensures !stop ==> written < next <= CopyTotal(src, start, size) && Fits(dst, used, next) && err.None?
    ensures !stop ==> CopyFrom(src, start, size, dst, used, next, step + 1) == CopyFrom(src, start, size, dst, used, written, step)
    ensures !stop ==> ReportsUpTo(nextReports, next) && task.transferredBytes == next
  {
    var toRead := Min(BufferSize, size - written);
    var (n, end) := Read(src, start + written, toRead, step);
    next, nextReports := written, reports;
    if n > 0 {
      CopyStep(src, start, size, dst, used, written, step, toRead);
      if !Fits(dst, used + written, n) {
        return true, Some(dst.reason), written, reports;
      }
      ReportsGrow(reports, written, written + n);
      next := written + n;
      task.transferredBytes := next;
      if step < |ticks| && ticks[step] {
        ReportAppend(nextReports, next);
        nextReports := nextReports + [next];
      }
    }
    if end.Some? {
      SourceEndOutcome(src, start, size, dst, used, written, step);
      return true, if end.value.Broken? then Some(end.value.reason) else None, written, reports;
    }
    return false, None, next, nextReports;
  }

  /** Reporting a total no smaller than the earlier reports keeps them in order. */
  lemma ReportAppend(reports: seq<int>, total: int)
    requires ReportsUpTo(reports, total) && total >= 0
    ensures ReportsUpTo(reports + [total], total)
  {
  }

  /** Reports within a total stay within a larger one. */
  lemma ReportsGrow(reports: seq<int>, total: int, larger: int)
    requires ReportsUpTo(reports, total) && total <= larger
    ensures ReportsUpTo(reports, larger)
  {
  }

  /** A read that returns data asks for what the copy still has to move, up to
    * a buffer: min(32 KiB, size - written) capped by the source is
    * min(32 KiB, total - written). */
  lemma CopyStep(src: Stream, start: nat, size: int, dst: Sink, used: nat, written: nat, k: nat, toRead: nat)
    requires start + written < |src.data| && written < size && toRead == Min(BufferSize, size - written)
    requires written <= CopyTotal(src, start, size) && (written > 0 ==> Fits(dst, used, written))
    ensures written < CopyTotal(src, start, size)
    ensures var n := Read(src, start + written, toRead, k).0;
            n == ReadLength(src, k, Min(BufferSize, CopyTotal(src, start, size) - written))
            && CopyFrom(src, start, size, dst, used, written, k)
               == if !Fits(dst, used, written + n) then (Some(dst.reason), written)
                  else CopyFrom(src, start, size, dst, used, written + n, k + 1)
  {
  }

  /** Reaching the end of the source before size bytes: the copy reports the
    * stream's error, or success for EOF. */
  lemma SourceEndOutcome(src: Stream, start: nat, size: int, dst: Sink, used: nat, written: nat, k: nat)
    requires start + written == |src.data| && written < size
    requires written > 0 ==> Fits(dst, used, written)
    ensures CopyFrom(src, start, size, dst, used, written, k)
            == (if src.end.Broken? then Some(src.end.reason) else None, written)
  {
  }

  /** Copying size bytes in full: success. */
  lemma CompleteOutcome(src: Stream, start: nat, size: int, dst: Sink, used: nat, written: nat, k: nat)
    requires start + written <= |src.data| && written >= size
    requires written <= CopyTotal(src, start, size)
    requires written > 0 ==> Fits(dst, used, written)
    ensures CopyFrom(src, start, size, dst, used, written, k) == (None, written)
  {
  }

  /** filepath.Join of a directory and a file name (path cleaning is not modelled). */
  function Join(dir: string, name: string): (p: string)
    ensures dir == "" ==> p == name
    ensures dir != "" ==> HasSuffix(p, name) && HasPrefix(p, dir + "/")
  {
    if dir == "" then name else dir + "/" + name
  }

  /** filepath.Ext: the suffix from the last '.' of the final path element, or "". */
  function Ext(path: string): (e: string)
    ensures HasSuffix(path, e)
    ensures e == "" || (e[0] == '.' && forall m :: 0 < m < |e| ==> e[m] != '.' && e[m] != '/')
  {
    ExtBefore(path, |path|)
  }

  /** Ext's backwards scan, having passed positions i.. without finding '.' or '/'. */
  function ExtBefore(path: string, i: nat): (e: string)
    requires i <= |path|
    requires forall m :: i <= m < |path| ==> path[m] != '.' && path[m] != '/'
    ensures HasSuffix(path, e)
    ensures e == "" || (e[0] == '.' && forall m :: 0 < m < |e| ==> e[m] != '.' && e[m] != '/')
  {
    if i == 0 || path[i - 1] == '/' then ""
    else if path[i - 1] == '.' then path[i - 1..]
    else ExtBefore(path, i - 1)
  }

  /** The n-th alternative name for a taken download: "stem (n)ext". */
  function Candidate(dir: string, stem: string, ext: string, n: nat): string
  {
    Join(dir, stem + " (" + NatToString(n) + ")" + ext)
  }

  lemma CancelAround(p: string, x: string, y: string, q: string)
    requires p + x + q == p + y + q
    ensures x == y
  {
    assert |x| == |y|;
    assert x == (p + x + q)[|p|..|p| + |x|];
    assert y == (p + y + q)[|p|..|p| + |y|];
  }

  /** Different counters give different alternative names. */
  lemma CandidateInjective(dir: string, stem: string, ext: string, a: nat, b: nat)
    requires Candidate(dir, stem, ext, a) == Candidate(dir, stem, ext, b)
    ensures a == b
  {
    var x, y := stem + " (" + NatToString(a) + ")" + ext, stem + " (" + NatToString(b) + ")" + ext;
    if dir == "" {
      assert x == y;
    } else {
      CancelAround(dir + "/", x, y, []);
      assert (dir + "/") + x + [] == dir + "/" + x;
      assert (dir + "/") + y + [] == dir + "/" + y;
    }
    assert x == y;
    assert stem + " (" + NatToString(a) + ")" + ext == (stem + " (") + NatToString(a) + (")" + ext);
    assert stem + " (" + NatToString(b) + ")" + ext == (stem + " (") + NatToString(b) + (")" + ext);
    CancelAround(stem + " (", NatToString(a), NatToString(b), ")" + ext);
    NatToStringInjective(a, b);
  }

  /** The alternative names for counters 1 to n. */
  function CandidatesUpTo(dir: string, stem: string, ext: string, n: nat): set<string>
  {
    if n == 0 then {} else CandidatesUpTo(dir, stem, ext, n - 1) + {Candidate(dir, stem, ext, n)}
  }

  lemma {:induction false} CandidatesUpToSize(dir: string, stem: string, ext: string, n: nat)
    ensures |CandidatesUpTo(dir, stem, ext, n)| == n
  {
    if n > 0 {
      CandidatesUpToSize(dir, stem, ext, n - 1);
      NewCandidate(dir, stem, ext, n, n - 1);
    }
  }

  /** The name for counter n is none of the names for counters 1 to m < n. */
  lemma {:induction false} NewCandidate(dir: string, stem: string, ext: string, n: nat, m: nat)
    requires m < n
    ensures Candidate(dir, stem, ext, n) !in CandidatesUpTo(dir, stem, ext, m)
  {
    if m > 0 {
      NewCandidate(dir, stem, ext, n, m - 1);
      if Candidate(dir, stem, ext, n) == Candidate(dir, stem, ext, m) {
        CandidateInjective(dir, stem, ext, m, n);
      }
    }
  }

  /** Every alternative name for counters 1 to n is in CandidatesUpTo(n). */
  lemma {:induction false} CandidatesUpToHas(dir: string, stem: string, ext: string, n: nat, j: nat)
    requires 1 <= j <= n
    ensures Candidate(dir, stem, ext, j) in CandidatesUpTo(dir, stem, ext, n)
  {
    if j < n {
      CandidatesUpToHas(dir, stem, ext, n - 1, j);
    }
  }

  lemma {:induction false} SubsetSize<T>(a: set<T>, b: set<T>)
    requires a <= b
    ensures |a| <= |b|
    decreases |a|
  {
    if a != {} {
      var x :| x in a;
      SubsetSize(a - {x}, b - {x});
    }
  }

  /** A finite set of taken paths holds at most |existing| alternative names,
    * so the counter search ends. */
  lemma CandidatesBounded(dir: string, stem: string, ext: string, existing: set<string>, n: nat)
    requires CandidatesUpTo(dir, stem, ext, n) <= existing
    ensures n <= |existing|
  {
    CandidatesUpToSize(dir, stem, ext, n);
    SubsetSize(CandidatesUpTo(dir, stem, ext, n), existing);
  }

  /** The first free alternative name at counter i or later, the names for
    * counters 1 to i - 1 being taken. */
  function FirstFreeCandidate(dir: string, stem: string, ext: string, existing: set<string>, i: nat): (p: string)
    requires 1 <= i && CandidatesUpTo(dir, stem, ext, i - 1) <= existing
    ensures p !in existing
    decreases |existing| + 1 - i
  {
    if Candidate(dir, stem, ext, i) !in existing then Candidate(dir, stem, ext, i)
    else
      CandidatesBounded(dir, stem, ext, existing, i);
      FirstFreeCandidate(dir, stem, ext, existing, i + 1)
  }

  /** The name found is the one for some counter n >= i with every name for
    * counters 1 to n - 1 taken. */
  lemma {:induction false} FirstFreeIsFirst(dir: string, stem: string, ext: string, existing: set<string>, i: nat)
    returns (n: nat)
    requires 1 <= i && CandidatesUpTo(dir, stem, ext, i - 1) <= existing
    ensures i <= n && FirstFreeCandidate(dir, stem, ext, existing, i) == Candidate(dir, stem, ext, n)
    ensures CandidatesUpTo(dir, stem, ext, n - 1) <= existing
    decreases |existing| + 1 - i
  {
    if Candidate(dir, stem, ext, i) !in existing {
      n := i;
    } else {
      CandidatesBounded(dir, stem, ext, existing, i);
      n := FirstFreeIsFirst(dir, stem, ext, existing, i + 1);
    }
  }

  /** The stem of a file name: the name without its extension. */
  function Stem(fileName: string): string
  {
    fileName[..|fileName| - |Ext(fileName)|]
  }

  /** resolveDownloadPath, as a value: dir/fileName when that path is free,
    * otherwise the first free "stem (n)ext". */
  function ResolvedPath(dir: string, fileName: string, existing: set<string>): (p: string)
    ensures p !in existing
  {
    if Join(dir, fileName) !in existing then Join(dir, fileName)
    else FirstFreeCandidate(dir, Stem(fileName), Ext(fileName), existing, 1)
  }

  /** resolveDownloadPath: keeps the name if it is free, otherwise tries
    * "stem (1)ext", "stem (2)ext", ... and returns the first that is free. */
  method ResolveDownloadPath(dir: string, fileName: string, existing: set<string>) returns (path: string)
    ensures path == ResolvedPath(dir, fileName, existing)
  {
    var basePath := Join(dir, fileName);
    if basePath in existing {
      var ext := Ext(fileName);
      var nameWithoutExt := fileName[..|fileName| - |ext|];
      var i := 1;
      while true
        invariant 1 <= i
        invariant CandidatesUpTo(dir, nameWithoutExt, ext, i - 1) <= existing
        invariant FirstFreeCandidate(dir, nameWithoutExt, ext, existing, i) == ResolvedPath(dir, fileName, existing)
        decreases |existing| + 1 - i
      {
        var newPath := Candidate(dir, nameWithoutExt, ext, i);
        if newPath !in existing {
          return newPath;
        }
        CandidatesBounded(dir, nameWithoutExt, ext, existing, i);
        i := i + 1;
      }
    }
    return basePath;
  }

  /** The resolved path is free; it is the file name itself when that is
    * free, and otherwise the first alternative name, counting from 1, that is
    * free. */
  lemma ResolvedPathIsFirstFree(dir: string, fileName: string, existing: set<string>)
    ensures ResolvedPath(dir, fileName, existing) !in existing
    ensures Join(dir, fileName) !in existing ==> ResolvedPath(dir, fileName, existing) == Join(dir, fileName)
    ensures Join(dir, fileName) in existing ==>
      exists n :: 1 <= n && ResolvedPath(dir, fileName, existing) == Candidate(dir, Stem(fileName), Ext(fileName), n)
                  && forall j :: 1 <= j < n ==> Candidate(dir, Stem(fileName), Ext(fileName), j) in existing
  {
    if Join(dir, fileName) in existing {
      var stem, ext := Stem(fileName), Ext(fileName);
      var n := FirstFreeIsFirst(dir, stem, ext, existing, 1);
      forall j | 1 <= j < n ensures Candidate(dir, stem, ext, j) in existing {
        CandidatesUpToHas(dir, stem, ext, n - 1, j);
      }
    }
  }

  lemma ExtExample()
    ensures Ext("a.txt") == ".txt" && Stem("a.txt") == "a"
  {
    assert ExtBefore("a.txt", 2) == ".txt";
    assert ExtBefore("a.txt", 3) == ".txt";
    assert ExtBefore("a.txt", 4) == ".txt";
  }

  lemma SecondCandidateExample(existing: set<string>)
    requires existing == {"dl/a.txt", "dl/a (1).txt"}
    ensures FirstFreeCandidate("dl", "a", ".txt", existing, 1) == "dl/a (2).txt"
  {
    var two := "dl/a (2).txt";
    CandidateNamesExample();
    assert two !in existing by {
      assert two[6] != "dl/a (1).txt"[6];
      assert |two| != |"dl/a.txt"|;
    }
    assert FirstFreeCandidate("dl", "a", ".txt", existing, 2) == two;
  }

  lemma CandidateNamesExample()
    ensures Candidate("dl", "a", ".txt", 1) == "dl/a (1).txt"
    ensures Candidate("dl", "a", ".txt", 2) == "dl/a (2).txt"
  {
    assert NatToString(1) == "1" && NatToString(2) == "2";
    assert "a" + " (" + "1" + ")" + ".txt" == "a (1).txt";
    assert "a" + " (" + "2" + ")" + ".txt" == "a (2).txt";
    assert Join("dl", "a (1).txt") == "dl/a (1).txt";
    assert Join("dl", "a (2).txt") == "dl/a (2).txt";
  }

  /** With "a.txt" and "a (1).txt" taken, a download of a.txt lands in "a (2).txt". */
  lemma ResolveExample()
    ensures ResolvedPath("dl", "a.txt", {"dl/a.txt", "dl/a (1).txt"}) == "dl/a (2).txt"
  {
    var existing := {"dl/a.txt", "dl/a (1).txt"};
    ExtExample();
    SecondCandidateExample(existing);
    assert Join("dl", "a.txt") == "dl/a.txt";
  }

  /** Index just past the last '/' of p before position i (0 when there is none). */
  function BaseStart(p: string, i: nat): (k: nat)
    requires i <= |p|
    ensures k <= i
  {
    if i == 0 then 0 else if p[i - 1] == '/' then i else BaseStart(p, i - 1)
  }

  /** The AppleDouble companion of a file: "._" + its base name, in its directory. */
  function SidecarPath(p: string): string
  {
    var k := BaseStart(p, |p|);
    p[..k] + "._" + p[k..]
  }

  /** The status message sent when a transfer ends. */
  datatype StatusReport = StatusReport(taskId: string, status: TaskStatus, error: Option<string>)

  /** A file written completely by a transfer. */
  datatype SavedFile = SavedFile(path: string, content: seq<byte>)

  /** The steps whose failure ends a transfer. */
  datatype Step =
    | Dial | ShakeHands | MakeDir | CreateFile
    | ReadFfoHeader | ReadInfoForkHeader | ReadInfoFork | ReadDataForkHeader | ReceiveData
    | OpenFile | StatFile
    | WriteFfoHeader | WriteInfoFork | WriteDataForkHeader | SendData | WriteResourceForkHeader | SendResourceFork

  /** A failed step and the underlying error's text. */
  datatype Failure = Failure(step: Step, reason: string)

  /** The label a step's error is wrapped with. */
  function Label(step: Step): string
  {
    match step
    case Dial => "connection failed"
    case ShakeHands => "handshake failed"
    case MakeDir => "mkdir failed"
    case CreateFile => "create file failed"
    case ReadFfoHeader => "read FFO header failed"
    case ReadInfoForkHeader => "read info fork header failed"
    case ReadInfoFork => "read info fork failed"
    case ReadDataForkHeader => "read data fork header failed"
    case ReceiveData => "data transfer failed"
    case OpenFile => "open file failed"
    case StatFile => "stat file failed"
    case WriteFfoHeader => "write FFO header"
    case WriteInfoFork => "write info fork"
    case WriteDataForkHeader => "write data fork header"
    case SendData => "data transfer"
    case WriteResourceForkHeader => "write resource fork header"
    case SendResourceFork => "resource fork transfer"
  }

  /** The error text a task records for a failure: "label: reason". */
  function Message(f: Failure): string
  {
    Label(f.step) + ": " + f.reason
  }

  /** What a download meets: dialing and handshake errors, the download directory
    * and the paths already taken in it, directory and file creation errors, the
    * local file as a sink, what the server sends, the progress ticker, the
    * sidecar's creation and write errors, and the clock. */
  datatype DownloadEnv = DownloadEnv(
    dialErr: Option<string>,
    handshakeErr: Option<string>,
    downloadDir: string,
    existing: set<string>,
    mkdirErr: Option<string>,
    createErr: Option<string>,
    file: Sink,
    conn: Stream,
    ticks: seq<bool>,
    sidecarCreateErr: Option<string>,
    sidecarWriteErr: Option<string>,
    now: int)

  /** What a download does: the error it records (the task then fails), the
    * local path once chosen, the bytes sent on the connection, the bytes written
    * to the local file, how many data-fork bytes were copied, and the
    * AppleDouble sidecar when it was written completely. */
  datatype DownloadOutcome = DownloadOutcome(
    failure: Option<Failure>,
    localPath: Option<string>,
    sent: seq<byte>,
    saved: seq<byte>,
    copied: nat,
    sidecar: Option<SavedFile>)

  /** performFileTransfer up to its deferred completion, as a value. */
  function DownloadSpec(fileName: string, refNum: seq<byte>, transferSize: nat, env: DownloadEnv): (o: DownloadOutcome)
    requires |refNum| == 4 && transferSize < TWO32
    ensures o.failure.None? ==> o.localPath.Some?
  {
    if env.dialErr.Some? then
      DownloadOutcome(Some(Failure(Dial, env.dialErr.value)), None, [], [], 0, None)
    else if env.handshakeErr.Some? then
      DownloadOutcome(Some(Failure(ShakeHands, env.handshakeErr.value)), None, [], [], 0, None)
    else
      var path := ResolvedPath(env.downloadDir, fileName, env.existing);
      var sent := Handshake(refNum, transferSize);
      if env.mkdirErr.Some? then
        DownloadOutcome(Some(Failure(MakeDir, env.mkdirErr.value)), Some(path), sent, [], 0, None)
      else if env.createErr.Some? then
        DownloadOutcome(Some(Failure(CreateFile, env.createErr.value)), Some(path), sent, [], 0, None)
      else ReceiveForks(path, sent, env)
  }

  /** The reading half of a download: header, info fork, data fork, and the
    * optional resource fork. */
  function ReceiveForks(path: string, sent: seq<byte>, env: DownloadEnv): (o: DownloadOutcome)
    ensures o.localPath == Some(path) && o.sent == sent
  {
    var conn := env.conn;
    match ReadFull(conn, 0, FlatFileHeaderSize)
    case Err(e) => DownloadOutcome(Some(Failure(ReadFfoHeader, e)), Some(path), sent, [], 0, None)
    case Ok(p1) =>
      match ReadFull(conn, p1, ForkHeaderSize)
      case Err(e) => DownloadOutcome(Some(Failure(ReadInfoForkHeader, e)), Some(path), sent, [], 0, None)
      case Ok(p2) =>
        match CopyN(conn, p2, ForkSize(conn.data[p1..p2]))
        case Err(e) => DownloadOutcome(Some(Failure(ReadInfoFork, e)), Some(path), sent, [], 0, None)
        case Ok(p3) => ReceiveDataFork(path, sent, env, ForkCount(conn.data[..p1]), p3)
  }

  /** The data fork and what follows it, from offset p3 on. */
  function ReceiveDataFork(path: string, sent: seq<byte>, env: DownloadEnv, forkCount: nat, p3: nat): (o: DownloadOutcome)
    requires p3 <= |env.conn.data|
    ensures o.localPath == Some(path) && o.sent == sent
  {
    var conn := env.conn;
    match ReadFull(conn, p3, ForkHeaderSize)
    case Err(e) => DownloadOutcome(Some(Failure(ReadDataForkHeader, e)), Some(path), sent, [], 0, None)
    case Ok(p4) =>
      var (err, written) := CopyOutcome(conn, p4, ForkSize(conn.data[p3..p4]), env.file, 0);
      var saved := conn.data[p4..p4 + written];
      if err.Some? then
        DownloadOutcome(Some(Failure(ReceiveData, err.value)), Some(path), sent, saved, written, None)
      else
        var sidecar := if forkCount == 3 then ReceiveResourceFork(path, env, p4 + written) else None;
        DownloadOutcome(None, Some(path), sent, saved, written, sidecar)
  }

  /** The resource fork after the data fork, saved as an AppleDouble file; any
    * failure here only means that no sidecar is written. */
  function ReceiveResourceFork(path: string, env: DownloadEnv, pos: nat): Option<SavedFile>
  {
    var conn := env.conn;
    if pos > |conn.data| then None
    else match ReadFull(conn, pos, ForkHeaderSize)
    case Err(_) => None
    case Ok(q) =>
      var size := ForkSize(conn.data[pos..q]);
      if env.sidecarCreateErr.Some? || env.sidecarWriteErr.Some? then None
      else match CopyN(conn, q, size)
      case Err(_) => None
      case Ok(r) => Some(SavedFile(SidecarPath(path), AppleDoubleHeader(size) + conn.data[q..r]))
  }

  /** performFileTransfer: runs the download and, on the way out, turns a task
    * that is still Active into Completed (stamping its end time) and sends
    * exactly one status report carrying the final status and error. */
  method PerformFileTransfer(task: Task, refNum: seq<byte>, transferSize: nat, env: DownloadEnv)
    returns (report: StatusReport, sent: seq<byte>, saved: seq<byte>, sidecar: Option<SavedFile>, progress: seq<int>)
    requires |refNum| == 4 && transferSize < TWO32
    modifies task
    ensures var o := DownloadSpec(old(task.fileName), refNum, transferSize, env);
      && sent == o.sent && saved == o.saved && sidecar == o.sidecar
      && task.status == (if o.failure.Some? then Failed
                         else if old(task.status) == Active then Completed else old(task.status))
      && task.error == (if o.failure.Some? then Some(Message(o.failure.value)) else old(task.error))
      && task.localPath == (if o.localPath.Some? then o.localPath.value else old(task.localPath))
      && task.transferredBytes == (if o.copied > 0 then o.copied else old(task.transferredBytes))
      && task.endTime == (if o.failure.None? && old(task.status) == Active then env.now else old(task.endTime))
    ensures report == StatusReport(task.id, task.status, task.error)
    ensures task.id == old(task.id) && task.totalBytes == old(task.totalBytes)
    ensures NonDecreasing(progress)
  {
    sent, saved, sidecar, progress := DownloadBody(task, refNum, transferSize, env);
    if task.status == Active {
      task.status := Completed;
      task.endTime := env.now;
    }
    report := StatusReport(task.id, task.status, task.error);
  }

  /** The body of performFileTransfer, each failing step recording a labelled error. */
  method DownloadBody(task: Task, refNum: seq<byte>, transferSize: nat, env: DownloadEnv)
    returns (sent: seq<byte>, saved: seq<byte>, sidecar: Option<SavedFile>, progress: seq<int>)
    requires |refNum| == 4 && transferSize < TWO32
    modifies task`status, task`error, task`localPath, task`transferredBytes, task`lastBytes, task`lastUpdate
    ensures var o := DownloadSpec(old(task.fileName), refNum, transferSize, env);
      && sent == o.sent && saved == o.saved && sidecar == o.sidecar
      && task.status == (if o.failure.Some? then Failed else old(task.status))
      && task.error == (if o.failure.Some? then Some(Message(o.failure.value)) else old(task.error))
      && task.localPath == (if o.localPath.Some? then o.localPath.value else old(task.localPath))
      && task.transferredBytes == (if o.copied > 0 then o.copied else old(task.transferredBytes))
    ensures NonDecreasing(progress)
  {
    sent, saved, sidecar, progress := [], [], None, [];
    if env.dialErr.Some? {
      task.status, task.error := Failed, Some(Message(Failure(Dial, env.dialErr.value)));
      return;
    }
    if env.handshakeErr.Some? {
      task.status, task.error := Failed, Some(Message(Failure(ShakeHands, env.handshakeErr.value)));
      return;
    }
    sent := Handshake(refNum, transferSize);
    var localPath := ResolveDownloadPath(env.downloadDir, task.fileName, env.existing);
    task.localPath := localPath;
    if env.mkdirErr.Some? {
      task.status, task.error := Failed, Some(Message(Failure(MakeDir, env.mkdirErr.value)));
      return;
    }
    if env.createErr.Some? {
      task.status, task.error := Failed, Some(Message(Failure(CreateFile, env.createErr.value)));
      return;
    }
    saved, sidecar, progress := ReceiveBody(task, localPath, sent, env);
  }

  /** Reading the flat file object from the connection into the local file. */
  method ReceiveBody(task: Task, localPath: string, sent: seq<byte>, env: DownloadEnv)
    returns (saved: seq<byte>, sidecar: Option<SavedFile>, progress: seq<int>)
    modifies task`status, task`error, task`transferredBytes, task`lastBytes, task`lastUpdate
    ensures var o := ReceiveForks(localPath, sent, env);
      && saved == o.saved && sidecar == o.sidecar
      && task.status == (if o.failure.Some? then Failed else old(task.status))
      && task.error == (if o.failure.Some? then Some(Message(o.failure.value)) else old(task.error))
      && task.transferredBytes == (if o.copied > 0 then o.copied else old(task.transferredBytes))
    ensures NonDecreasing(progress)
  {
    saved, sidecar, progress := [], None, [];
    var conn := env.conn;
    var header := ReadFull(conn, 0, FlatFileHeaderSize);
    if header.Err? {
      task.status, task.error := Failed, Some(Message(Failure(ReadFfoHeader, header.error)));
      return;
    }
    var forkCount := ForkCount(conn.data[..header.value]);
    var infoHeader := ReadFull(conn, header.value, ForkHeaderSize);
    if infoHeader.Err? {
      task.status, task.error := Failed, Some(Message(Failure(ReadInfoForkHeader, infoHeader.error)));
      return;
    }
    var infoForkSize := ForkSize(conn.data[header.value..infoHeader.value]);
    var info := CopyN(conn, infoHeader.value, infoForkSize);
    if info.Err? {
      task.status, task.error := Failed, Some(Message(Failure(ReadInfoFork, info.error)));
      return;
    }
    saved, sidecar, progress := DataForkBody(task, localPath, sent, env, forkCount, info.value);
  }

  /** The data fork, copied with progress, then the optional resource fork. */
  method DataForkBody(task: Task, localPath: string, sent: seq<byte>, env: DownloadEnv, forkCount: nat, p3: nat)
    returns (saved: seq<byte>, sidecar: Option<SavedFile>, progress: seq<int>)
    requires p3 <= |env.conn.data|
    modifies task`status, task`error, task`transferredBytes, task`lastBytes, task`lastUpdate
    ensures var o := ReceiveDataFork(localPath, sent, env, forkCount, p3);
      && saved == o.saved && sidecar == o.sidecar
      && task.status == (if o.failure.Some? then Failed else old(task.status))
      && task.error == (if o.failure.Some? then Some(Message(o.failure.value)) else old(task.error))
      && task.transferredBytes == (if o.copied > 0 then o.copied else old(task.transferredBytes))
    ensures NonDecreasing(progress)
  {
    saved, sidecar, progress := [], None, [];
    var conn := env.conn;
    var dataHeader := ReadFull(conn, p3, ForkHeaderSize);
    if dataHeader.Err? {
      task.status, task.error := Failed, Some(Message(Failure(ReadDataForkHeader, dataHeader.error)));
      return;
    }
    var dataForkSize := ForkSize(conn.data[p3..dataHeader.value]);
    var err, written, out, reports := CopyWithProgress(task, conn, dataHeader.value, dataForkSize, env.file, 0, env.ticks, env.now);
    saved, progress := out, reports;
    if err.Some? {
      task.status, task.error := Failed, Some(Message(Failure(ReceiveData, err.value)));
      return;
    }
    if forkCount == 3 {
      sidecar := ResourceForkStep(localPath, env, dataHeader.value + written);
    }
  }

  /** The resource-fork branch of performFileTransfer, whose failures only return. */
  method ResourceForkStep(localPath: string, env: DownloadEnv, pos: nat) returns (sidecar: Option<SavedFile>)
    requires pos <= |env.conn.data|
    ensures sidecar == ReceiveResourceFork(localPath, env, pos)
    ensures sidecar.Some? ==> sidecar.value.path == SidecarPath(localPath) && |sidecar.value.content| >= 38
  {
    var conn := env.conn;
    var resHeader := ReadFull(conn, pos, ForkHeaderSize);
    if resHeader.Err? {
      return None;
    }
    var resForkSize := ForkSize(conn.data[pos..resHeader.value]);
    if env.sidecarCreateErr.Some? {
      return None;
    }
    if env.sidecarWriteErr.Some? {
      return None;
    }
    var copied := CopyN(conn, resHeader.value, resForkSize);
    if copied.Err? {
      return None;
    }
    return Some(SavedFile(SidecarPath(localPath), AppleDoubleHeader(resForkSize) + conn.data[resHeader.value..copied.value]));
  }

  /** The AppleDouble file beside an upload's source: whether it is a
    * directory, its open error, and its content. */
  datatype SidecarFile = SidecarFile(isDir: bool, openErr: Option<string>, content: seq<byte>)

  /** What an upload meets: open and stat errors of the local file, its
    * content and how reads of it are cut, the information fork built for it,
    * its sidecar (None: stat fails), the dial error, the connection as a sink,
    * the progress ticker and the clock. */
  datatype UploadEnv = UploadEnv(
    openErr: Option<string>,
    statErr: Option<string>,
    fileData: seq<byte>,
    fileReads: seq<nat>,
    infoFork: seq<byte>,
    sidecar: Option<SidecarFile>,
    dialErr: Option<string>,
    conn: Sink,
    ticks: seq<bool>,
    now: int)

  /** The local file as the copy loop reads it. */
  function FileStream(env: UploadEnv): (src: Stream)
    ensures src.data == env.fileData && src.end == EndOfFile
  {
    Stream(env.fileData, EndOfFile, env.fileReads)
  }

  /** What an upload does: the error it records, the bytes it sends and how
    * many data-fork bytes it copied. */
  datatype UploadOutcome = UploadOutcome(failure: Option<Failure>, sent: seq<byte>, copied: nat)

  /** The sidecar as performFileUpload's stat sees it. */
  function SidecarStat(env: UploadEnv): Option<FileStat>
  {
    if env.sidecar.Some? then Some(FileStat(|env.sidecar.value.content|, env.sidecar.value.isDir)) else None
  }

  /** The resource fork sendFlattenedFileObject sends: the sidecar must also open. */
  function UploadResourceFork(env: UploadEnv): Option<seq<byte>>
  {
    if env.sidecar.Some? && env.sidecar.value.openErr.None?
    then SidecarResourceData(env.sidecar.value.isDir, env.sidecar.value.content) else None
  }

  /** performFileUpload up to its deferred completion, as a value. */
  function UploadSpec(refNum: seq<byte>, env: UploadEnv): (o: UploadOutcome)
    requires |refNum| == 4
  {
    if env.openErr.Some? then UploadOutcome(Some(Failure(OpenFile, env.openErr.value)), [], 0)
    else if env.statErr.Some? then UploadOutcome(Some(Failure(StatFile, env.statErr.value)), [], 0)
    else if env.dialErr.Some? then UploadOutcome(Some(Failure(Dial, env.dialErr.value)), [], 0)
    else if !Fits(env.conn, 0, 16) then UploadOutcome(Some(Failure(ShakeHands, env.conn.reason)), [], 0)
    else
      var total := UploadTotalSize(|env.infoFork|, |env.fileData|, SidecarStat(env));
      SendSpec(Handshake(refNum, total), env)
  }

  /** sendFlattenedFileObject after the handshake `sent`, as a value. */
  function SendSpec(sent: seq<byte>, env: UploadEnv): (o: UploadOutcome)
  {
    var res := UploadResourceFork(env);
    var conn := env.conn;
    if !Fits(conn, |sent|, FlatFileHeaderSize) then UploadOutcome(Some(Failure(WriteFfoHeader, conn.reason)), sent, 0)
    else
      var s1 := sent + FlatFileHeader(if res.Some? then 3 else 2);
      if !Fits(conn, |s1|, |env.infoFork|) then UploadOutcome(Some(Failure(WriteInfoFork, conn.reason)), s1, 0)
      else
        var s2 := s1 + env.infoFork;
        if !Fits(conn, |s2|, ForkHeaderSize) then UploadOutcome(Some(Failure(WriteDataForkHeader, conn.reason)), s2, 0)
        else
          var s3 := s2 + ForkHeader(DATA, U32(|env.fileData|));
          var (err, written) := CopyOutcome(FileStream(env), 0, |env.fileData|, conn, |s3|);
          var s4 := s3 + env.fileData[..written];
          if err.Some? then UploadOutcome(Some(Failure(SendData, err.value)), s4, written)
          else if res.None? then UploadOutcome(None, s4, written)
          else if !Fits(conn, |s4|, ForkHeaderSize) then
            UploadOutcome(Some(Failure(WriteResourceForkHeader, conn.reason)), s4, written)
          else
            var s5 := s4 + ForkHeader(MACR, U32(|res.value|));
            if !Fits(conn, |s5|, |res.value|) then
              UploadOutcome(Some(Failure(SendResourceFork, conn.reason)), s5, written)
            else UploadOutcome(None, s5 + res.value, written)
  }

  /** performFileUpload: runs the upload and, on the way out, completes a task
    * that is still Active and sends exactly one status report. */
  method PerformFileUpload(task: Task, refNum: seq<byte>, env: UploadEnv)
    returns (report: StatusReport, sent: seq<byte>, progress: seq<int>)
    requires |refNum| == 4
    modifies task
    ensures var o := UploadSpec(refNum, env);
      && sent == o.sent
      && task.status == (if o.failure.Some? then Failed
                         else if old(task.status) == Active then Completed else old(task.status))
      && task.error == (if o.failure.Some? then Some(Message(o.failure.value)) else old(task.error))
      && task.transferredBytes == (if o.copied > 0 then o.copied else old(task.transferredBytes))
      && task.endTime == (if o.failure.None? && old(task.status) == Active then env.now else old(task.endTime))
    ensures report == StatusReport(task.id, task.status, task.error)
    ensures task.id == old(task.id) && task.localPath == old(task.localPath)
    ensures NonDecreasing(progress)
  {
    sent, progress := UploadBody(task, refNum, env);
    if task.status == Active {
      task.status := Completed;
      task.endTime := env.now;
    }
    report := StatusReport(task.id, task.status, task.error);
  }

  /** The body of performFileUpload. */
  method UploadBody(task: Task, refNum: seq<byte>, env: UploadEnv) returns (sent: seq<byte>, progress: seq<int>)
    requires |refNum| == 4
    modifies task
    ensures var o := UploadSpec(refNum, env);
      && sent == o.sent
      && task.status == (if o.failure.Some? then Failed else old(task.status))
      && task.error == (if o.failure.Some? then Some(Message(o.failure.value)) else old(task.error))
      && task.transferredBytes == (if o.copied > 0 then o.copied else old(task.transferredBytes))
    ensures task.endTime == old(task.endTime) && task.id == old(task.id) && task.localPath == old(task.localPath)
    ensures NonDecreasing(progress)
  {
    sent, progress := [], [];
    if env.openErr.Some? {
      task.status, task.error := Failed, Some(Message(Failure(OpenFile, env.openErr.value)));
      return;
    }
    if env.statErr.Some? {
      task.status, task.error := Failed, Some(Message(Failure(StatFile, env.statErr.value)));
      return;
    }
    var infoFork := env.infoFork;
    var totalSize := UploadTotalSize(|infoFork|, |env.fileData|, SidecarStat(env));
    if env.dialErr.Some? {
      task.status, task.error := Failed, Some(Message(Failure(Dial, env.dialErr.value)));
      return;
    }
    if !Fits(env.conn, 0, 16) {
      task.status, task.error := Failed, Some(Message(Failure(ShakeHands, env.conn.reason)));
      return;
    }
    sent := Handshake(refNum, totalSize);
    var err;
    err, sent, progress := SendFlattenedFileObject(task, sent, env);
    if err.Some? {
      task.status, task.error := Failed, Some(Message(err.value));
      return;
    }
  }

  /** sendFlattenedFileObject: header, info fork, data fork header, data with
    * progress, then the resource fork when the sidecar has one; each write
    * error is labelled with the step that failed. */
  method SendFlattenedFileObject(task: Task, handshake: seq<byte>, env: UploadEnv)
    returns (err: Option<Failure>, sent: seq<byte>, progress: seq<int>)
    modifies task
    ensures var o := SendSpec(handshake, env);
      && err == o.failure && sent == o.sent
      && task.transferredBytes == (if o.copied > 0 then o.copied else old(task.transferredBytes))
    ensures task.status == old(task.status) && task.error == old(task.error)
    ensures task.endTime == old(task.endTime) && task.id == old(task.id) && task.localPath == old(task.localPath)
    ensures NonDecreasing(progress)
  {
    sent, progress := handshake, [];
    var conn := env.conn;
    var res := UploadResourceFork(env);
    var forkCount := if res.Some? then 3 else 2;
    if !Fits(conn, |sent|, FlatFileHeaderSize) {
      return Some(Failure(WriteFfoHeader, conn.reason)), sent, progress;
    }
    sent := sent + FlatFileHeader(forkCount);
    if !Fits(conn, |sent|, |env.infoFork|) {
      return Some(Failure(WriteInfoFork, conn.reason)), sent, progress;
    }
    sent := sent + env.infoFork;
    if !Fits(conn, |sent|, ForkHeaderSize) {
      return Some(Failure(WriteDataForkHeader, conn.reason)), sent, progress;
    }
    sent := sent + ForkHeader(DATA, U32(|env.fileData|));
    var copyErr, written, out;
    copyErr, written, out, progress :=
      CopyWithProgress(task, FileStream(env), 0, |env.fileData|, conn, |sent|, env.ticks, env.now);
    sent := sent + out;
    if copyErr.Some? {
      return Some(Failure(SendData, copyErr.value)), sent, progress;
    }
    if res.Some? {
      if !Fits(conn, |sent|, ForkHeaderSize) {
        return Some(Failure(WriteResourceForkHeader, conn.reason)), sent, progress;
      }
      sent := sent + ForkHeader(MACR, U32(|res.value|));
      if !Fits(conn, |sent|, |res.value|) {
        return Some(Failure(SendResourceFork, conn.reason)), sent, progress;
      }
      sent := sent + res.value;
    }
    err := None;
  }

  /** With every local step succeeding and a connection that takes everything,
    * an upload sends the handshake announcing UploadTotalSize and then exactly
    * the flattened file object with the sidecar's resource fork. */
  lemma UploadSendsFlatFileObject(refNum: seq<byte>, env: UploadEnv)
    requires |refNum| == 4
    requires env.openErr.None? && env.statErr.None? && env.dialErr.None? && env.conn.room.None?
    ensures UploadSpec(refNum, env)
            == UploadOutcome(None,
                             Handshake(refNum, UploadTotalSize(|env.infoFork|, |env.fileData|, SidecarStat(env)))
                             + FlatFileObject(env.infoFork, env.fileData, UploadResourceFork(env)),
                             |env.fileData|)
  {
    var hs := Handshake(refNum, UploadTotalSize(|env.infoFork|, |env.fileData|, SidecarStat(env)));
    var res := UploadResourceFork(env);
    var h := FlatFileHeader(if res.Some? then 3 else 2);
    var a := ForkHeader(DATA, U32(|env.fileData|));
    var tail := if res.Some? then ForkHeader(MACR, U32(|res.value|)) + res.value else [];
    assert env.fileData[..|env.fileData|] == env.fileData;
    calc {
      hs + FlatFileObject(env.infoFork, env.fileData, res);
      hs + (h + env.infoFork + (a + env.fileData + tail));
      { AppendAssoc(h + env.infoFork, a + env.fileData, tail); }
      hs + (h + env.infoFork + (a + env.fileData) + tail);
      { AppendAssoc(hs, h + env.infoFork + (a + env.fileData), tail); }
      hs + (h + env.infoFork + (a + env.fileData)) + tail;
      { AppendAssoc(h + env.infoFork, a, env.fileData); }
      hs + (h + env.infoFork + a + env.fileData) + tail;
      { AppendAssoc(hs, h + env.infoFork + a, env.fileData); }
      hs + (h + env.infoFork + a) + env.fileData + tail;
      { AppendAssoc(hs, h + env.infoFork, a); AppendAssoc(hs, h, env.infoFork); }
      hs + h + env.infoFork + a + env.fileData + tail;
    }
    if res.Some? {
      assert tail == ForkHeader(MACR, U32(|res.value|)) + res.value;
      AppendAssoc(hs + h + env.infoFork + a + env.fileData, ForkHeader(MACR, U32(|res.value|)), res.value);
    } else {
      assert hs + h + env.infoFork + a + env.fileData + tail == hs + h + env.infoFork + a + env.fileData;
    }
  }

  lemma AppendAssoc<T>(x: seq<T>, y: seq<T>, z: seq<T>)
    ensures x + (y + z) == x + y + z
  {
  }

  /** An information fork as createInfoFork builds it: a 16-byte fork header
    * whose size field counts the bytes after it. */
  predicate WellFormedInfoFork(info: seq<byte>)
  {
    |info| >= ForkHeaderSize && ForkSize(info[..ForkHeaderSize]) == |info| - ForkHeaderSize
  }

  /** A download whose local steps succeed, reading a flattened file object as
    * an upload sends it, saves exactly the data fork and, for a resource
    * fork, writes the sidecar as the AppleDouble header followed by the fork. */
  lemma DownloadOfFlatFileObject(fileName: string, refNum: seq<byte>, size: nat, env: DownloadEnv,
                                 info: seq<byte>, data: seq<byte>, res: Option<seq<byte>>)
    requires |refNum| == 4 && size < TWO32
    requires env.dialErr.None? && env.handshakeErr.None? && env.mkdirErr.None? && env.createErr.None?
    requires env.file.room.None? && env.sidecarCreateErr.None? && env.sidecarWriteErr.None?
    requires WellFormedInfoFork(info) && |data| < TWO32 && (res.Some? ==> |res.value| < TWO32)
    requires env.conn.data == FlatFileObject(info, data, res)
    ensures var o := DownloadSpec(fileName, refNum, size, env);
      && o.failure.None? && o.saved == data && o.copied == |data|
      && o.sidecar == (if res.Some? then Some(SavedFile(SidecarPath(o.localPath.value),
                                                        AppleDoubleHeader(|res.value|) + res.value))
                       else None)
  {
    var path := ResolvedPath(env.downloadDir, fileName, env.existing);
    ReceiveFlatFileObject(path, Handshake(refNum, size), env, info, data, res);
  }

  lemma ReceiveFlatFileObject(path: string, sent: seq<byte>, env: DownloadEnv,
                              info: seq<byte>, data: seq<byte>, res: Option<seq<byte>>)
    requires env.file.room.None? && env.sidecarCreateErr.None? && env.sidecarWriteErr.None?
    requires WellFormedInfoFork(info) && |data| < TWO32 && (res.Some? ==> |res.value| < TWO32)
    requires env.conn.data == FlatFileObject(info, data, res)
    ensures var o := ReceiveForks(path, sent, env);
      && o.failure.None? && o.saved == data && o.copied == |data|
      && o.sidecar == (if res.Some? then Some(SavedFile(SidecarPath(path), AppleDoubleHeader(|res.value|) + res.value))
                       else None)
  {
    var c := if res.Some? then 3 else 2;
    HeaderAndInfoFork(path, sent, env, c, info, Forks(data, res));
    ReceiveDataForkRoundTrip(path, sent, env, c, 24 + |info|, data, res);
  }

  lemma ReceiveDataForkRoundTrip(path: string, sent: seq<byte>, env: DownloadEnv, forkCount: nat, p3: nat,
                                 data: seq<byte>, res: Option<seq<byte>>)
    requires env.file.room.None? && env.sidecarCreateErr.None? && env.sidecarWriteErr.None?
    requires |data| < TWO32 && (res.Some? ==> |res.value| < TWO32) && forkCount == (if res.Some? then 3 else 2)
    requires p3 <= |env.conn.data|
    requires env.conn.data[p3..] == Forks(data, res)
    ensures var o := ReceiveDataFork(path, sent, env, forkCount, p3);
      && o.failure.None? && o.saved == data && o.copied == |data|
      && o.sidecar == (if res.Some? then Some(SavedFile(SidecarPath(path), AppleDoubleHeader(|res.value|) + res.value))
                       else None)
  {
    var tail := if res.Some? then ForkHeader(MACR, U32(|res.value|)) + res.value else [];
    assert Forks(data, res) == ForkHeader(DATA, |data|) + data + tail;
    var p4 := p3 + ForkHeaderSize;
    Layout(env.conn.data, p3, ForkHeader(DATA, |data|), data, tail);
    assert env.conn.data[p4..p4 + |data|] == data;
    DataForkCopied(path, sent, env, forkCount, p3, |data|);
    if res.Some? {
      ReceiveResourceForkRoundTrip(path, env, p4 + |data|, res.value);
    }
  }

  lemma ReceiveResourceForkRoundTrip(path: string, env: DownloadEnv, pos: nat, res: seq<byte>)
    requires env.sidecarCreateErr.None? && env.sidecarWriteErr.None? && |res| < TWO32
    requires pos <= |env.conn.data| && env.conn.data[pos..] == ForkHeader(MACR, |res|) + res
    ensures ReceiveResourceFork(path, env, pos) == Some(SavedFile(SidecarPath(path), AppleDoubleHeader(|res|) + res))
  {
    Layout(env.conn.data, pos, ForkHeader(MACR, |res|), res, []);
    ForkHeaderRoundTrip(MACR, |res|);
  }

  /** A resource fork that is cut short, or a sidecar that cannot be created or
    * written, does not fail the download: the data fork is saved and the task
    * completes without a sidecar. */
  lemma ResourceForkFailureIsNotFatal(fileName: string, refNum: seq<byte>, size: nat, env: DownloadEnv,
                                      info: seq<byte>, data: seq<byte>, partial: seq<byte>)
    requires |refNum| == 4 && size < TWO32
    requires env.dialErr.None? && env.handshakeErr.None? && env.mkdirErr.None? && env.createErr.None?
    requires env.file.room.None?
    requires WellFormedInfoFork(info) && |data| < TWO32
    requires env.conn.data == FlatFileHeader(3) + info + ForkHeader(DATA, |data|) + data + partial
    requires |partial| < ForkHeaderSize || env.sidecarCreateErr.Some? || env.sidecarWriteErr.Some?
    ensures var o := DownloadSpec(fileName, refNum, size, env);
      o.failure.None? && o.saved == data && o.sidecar.None?
  {
    var path := ResolvedPath(env.downloadDir, fileName, env.existing);
    var head, fork := FlatFileHeader(3) + info, ForkHeader(DATA, |data|);
    var rest := fork + data + partial;
    AppendAssoc(head, fork + data, partial);
    AppendAssoc(head, fork, data);
    ReceiveBrokenResource(path, Handshake(refNum, size), env, info, rest, data, partial);
  }

  lemma ReceiveBrokenResource(path: string, sent: seq<byte>, env: DownloadEnv,
                              info: seq<byte>, rest: seq<byte>, data: seq<byte>, partial: seq<byte>)
    requires env.file.room.None?
    requires WellFormedInfoFork(info) && |data| < TWO32
    requires env.conn.data == FlatFileHeader(3) + info + rest
    requires rest == ForkHeader(DATA, |data|) + data + partial
    requires |partial| < ForkHeaderSize || env.sidecarCreateErr.Some? || env.sidecarWriteErr.Some?
    ensures var o := ReceiveForks(path, sent, env);
      o.failure.None? && o.saved == data && o.sidecar.None?
  {
    HeaderAndInfoFork(path, sent, env, 3, info, rest);
    DataForkThenBrokenResource(path, sent, env, 24 + |info|, data, partial);
  }

  /** Reading the flat file header and a whole information fork leaves the
    * reader at the data fork header, with the fork count from the header. */
  lemma HeaderAndInfoFork(path: string, sent: seq<byte>, env: DownloadEnv, c: nat, info: seq<byte>, rest: seq<byte>)
    requires c < TWO16 && WellFormedInfoFork(info)
    requires env.conn.data == FlatFileHeader(c) + info + rest
    ensures 24 + |info| <= |env.conn.data| && env.conn.data[24 + |info|..] == rest
    ensures ReceiveForks(path, sent, env) == ReceiveDataFork(path, sent, env, c, 24 + |info|)
  {
    var d := env.conn.data;
    assert d[..24] == FlatFileHeader(c);
    FlatFileHeaderRoundTrip(c);
    assert d[24..24 + ForkHeaderSize] == info[..ForkHeaderSize];
    assert ReadFull(env.conn, 0, FlatFileHeaderSize) == Ok(24);
    assert ReadFull(env.conn, 24, ForkHeaderSize) == Ok(24 + ForkHeaderSize);
    assert CopyN(env.conn, 24 + ForkHeaderSize, |info| - ForkHeaderSize) == Ok(24 + |info|);
    assert d[24 + |info|..] == rest;
  }

  lemma DataForkThenBrokenResource(path: string, sent: seq<byte>, env: DownloadEnv, p3: nat,
                                   data: seq<byte>, partial: seq<byte>)
    requires env.file.room.None? && |data| < TWO32
    requires p3 <= |env.conn.data| && env.conn.data[p3..] == ForkHeader(DATA, |data|) + data + partial
    requires |partial| < ForkHeaderSize || env.sidecarCreateErr.Some? || env.sidecarWriteErr.Some?
    ensures var o := ReceiveDataFork(path, sent, env, 3, p3);
      o.failure.None? && o.saved == data && o.sidecar.None?
  {
    Layout(env.conn.data, p3, ForkHeader(DATA, |data|), data, partial);
    DataForkCopied(path, sent, env, 3, p3, |data|);
    BrokenResourceFork(path, env, p3 + ForkHeaderSize + |data|);
  }

  /** A data fork header announcing `size` bytes that are all there, copied
    * into a file with unlimited room: the download succeeds with those bytes,
    * and what follows decides only the sidecar. */
  lemma DataForkCopied(path: string, sent: seq<byte>, env: DownloadEnv, forkCount: nat, p3: nat, size: nat)
    requires env.file.room.None? && size < TWO32
    requires p3 + ForkHeaderSize + size <= |env.conn.data|
    requires env.conn.data[p3..p3 + ForkHeaderSize] == ForkHeader(DATA, size)
    ensures var p4 := p3 + ForkHeaderSize;
      ReceiveDataFork(path, sent, env, forkCount, p3)
      == DownloadOutcome(None, Some(path), sent, env.conn.data[p4..p4 + size], size,
                         if forkCount == 3 then ReceiveResourceFork(path, env, p4 + size) else None)
  {
    ForkHeaderRoundTrip(DATA, size);
    CopyAll(env.conn, p3 + ForkHeaderSize, size, env.file, 0);
  }

  /** A copy into a sink with unlimited room of bytes the source holds succeeds. */
  lemma CopyAll(src: Stream, start: nat, size: nat, dst: Sink, used: nat)
    requires start + size <= |src.data| && dst.room.None?
    ensures CopyOutcome(src, start, size, dst, used) == (None, size)
  {
  }

  /** Where three consecutive parts sit in d once d[p..] is their concatenation. */
  lemma Layout(d: seq<byte>, p: nat, h: seq<byte>, m: seq<byte>, t: seq<byte>)
    requires p <= |d| && d[p..] == h + m + t
    ensures p + |h| + |m| <= |d|
    ensures d[p..p + |h|] == h && d[p + |h|..p + |h| + |m|] == m && d[p + |h| + |m|..] == t
  {
    assert d[p..p + |h|] == (h + m + t)[..|h|];
    assert d[p + |h|..p + |h| + |m|] == (h + m + t)[|h|..|h| + |m|];
    assert d[p + |h| + |m|..] == (h + m + t)[|h| + |m|..];
  }

  lemma BrokenResourceFork(path: string, env: DownloadEnv, pos: nat)
    requires pos <= |env.conn.data|
    requires |env.conn.data| - pos < ForkHeaderSize || env.sidecarCreateErr.Some? || env.sidecarWriteErr.Some?
    ensures ReceiveResourceFork(path, env, pos).None?
  {
  }
}

# A verified model of the mobius-hotline-client core

mobius-hotline-client is a terminal client for the Hotline protocol. It logs
in to a Hotline server and lets the user chat, exchange private messages,
browse and post threaded news, browse the server's files, download and
upload them over the HTXF transfer protocol, and administer user accounts.
The live client is the `internal` package. The `ui` package is an older
parallel copy, partly inconsistent with it, and is modelled as written.

This project models the deterministic core of both packages in Dafny and
proves properties of that model:

- `TransferWire` (transfer_wire.dfy): the 16-byte HTXF handshake, the 24-byte
  flattened-file header, the 16-byte fork headers, the AppleDouble sidecar
  header written for resource forks, and the upload's total-size arithmetic.
- `FileTransfer` (file_transfer.dfy): the chunked copy loop with progress
  reports, the choice of a free local file name, and the download and upload
  drivers that take a task from Active to Completed or Failed.
- `Tasks` (tasks.dfy): the transfer task registry, a keyed store with an
  insertion-order list and its active and finished queries.
- `Transactions` and `NewsCodec` (transactions.dfy, news_codec.dfy): how
  each control-channel reply decides that it carries an error, the user-list
  updates, the download reply, the account list, text clean-up, the
  bounds-checked news-article-list parser and the news-path encoder.
- `Formatting` (formatting.dfy): byte-size units, durations, name truncation
  and which transfers the task widget shows.
- `ThreadTree` and `NewsScreen` (thread_tree.dfy, news_screen.dfy): the
  threaded news list (orphan promotion, reply marks, depths, reversal, the
  visible articles under the expanded ones, cursor clamping) and the news
  screen's keys.
- `ScreenHistory`, `ClientModel` and `UiModel` (history.dfy,
  client_model.dfy, ui_model.dfy): the screen-history stack, the
  private-message stack and its modal, and the message handlers that consume
  pending transfers, update tasks and edit bookmarks, in both packages.
- `Access` and `AccountEditor` (access.dfy, accounts.dfy): the access-bit
  bitmap with its category table, and the account editor's focus, toggling,
  text editing, scrolling and saved payload.
- `UiScreens` (ui_screens.dfy): the ui package's key handlers for the join
  and settings forms, the account editor and the file browser.
- `ServerScreen`, `FileItems`, `FilesScreen`, `JoinServer`, `Modals` and
  `Prefs` (server_screen.dfy, util_files.dfy, files_screen.dfy,
  join_server.dfy, modal.dfy, settings.dfy): the chat and user-list screen,
  the file browser and its entries, the join-server form, the modal dialog,
  and the ui settings with the icon-ID encoding and bookmark list.
- `Bytes` and `Text` (bytes.dfy, text.dfy): bytes, big-endian encodings and
  the parts of Go's fmt and strconv the core uses.

Code that changes state in place is modelled as classes whose methods
modify their fields. Each method's contract ties the new state to a
specification function, and lemmas state the properties of those functions.
Byte layouts and parsers are functions over `seq<byte>`.

## Model

| member | source | states |
|---|---|---|
| Text.ParseInt | ui/screen_settings.go:211 | strconv.Atoi accepts only an optional sign followed by decimal digits, never empty text, and only values that fit in a 64-bit int. |
| Text.ParseIntOfIntToString | ui/screen_settings.go:144 | Every 64-bit integer that strconv.Itoa prints, strconv.Atoi reads back as the same value. |
| Text.DigitsValueOfNatToString | ui/util_files.go:56 | The digits "%d" prints for a non-negative number read back as that number. |
| Text.NatToStringInjective | ui/util_files.go:56 | Different non-negative numbers print as different digit strings. |
| Text.RemoveChar | internal/handlers_transaction.go:209 | Removing a character from a string leaves none of it, keeps the count of every other character, and shortens the string by exactly the number removed. |
| Text.RemoveCharConcat | internal/handlers_transaction.go:209 | Removal distributes over concatenation, so the characters kept stay in their original order. |
| TransferWire.Handshake | internal/file_transfer.go:62-66 | the handshake is exactly 16 bytes |
| TransferWire.HandshakeFields | internal/file_transfer.go:62-66 | bytes 0-3 are "HTXF", 4-7 the reference number, 8-11 read back big-endian as the transfer size, 12-15 are zero |
| TransferWire.HandshakeExample | internal/file_transfer.go:389-394 | reference 00 00 00 07 and size 1024 give 48 54 58 46 00 00 00 07 00 00 04 00 00 00 00 00 |
| TransferWire.FlatFileHeader | internal/file_transfer.go:437-447 | the flattened-file header is 24 bytes |
| TransferWire.ForkCount | internal/file_transfer.go:113 | the fork count read from bytes 22-23 fits in 16 bits |
| TransferWire.FlatFileHeaderRoundTrip | internal/file_transfer.go:437-447 | the count an upload writes is the count a download reads at bytes 22-23; version 1 sits at bytes 4-5 and every other byte is zero |
| TransferWire.ForkHeader | internal/file_transfer.go:460-467 | a fork header is 16 bytes |
| TransferWire.ForkSize | internal/file_transfer.go:145 | the size read from bytes 12-15 fits in 32 bits |
| TransferWire.ForkHeaderRoundTrip | internal/file_transfer.go:145 | (writer at line 467) the size written into a fork header is the size read back, and the type leads the header |
| TransferWire.AppleDoubleHeader | internal/file_transfer.go:270-310 | the AppleDouble header written is exactly 38 bytes |
| TransferWire.AppleDoubleHeaderFields | internal/file_transfer.go:270-310 | magic 0x00051607, version 0x00020000, 16 zero bytes, one entry, entry ID 2, offset 82 and the fork length; the offset claimed is beyond the header's own 38 bytes |
| TransferWire.SidecarResourceData | internal/file_transfer.go:426-432 | a sidecar yields resource data iff it is a file longer than 82 bytes, and then exactly the bytes after the first 82 |
| TransferWire.SidecarNotRoundTrip | internal/file_transfer.go:270-310 | a sidecar written by a download and read by an upload loses the first 44 bytes of the resource fork |
| TransferWire.StatResourceSize | internal/file_transfer.go:350-356 | a resource fork is counted only with a positive size |
| TransferWire.UploadTotalSize | internal/file_transfer.go:358-368 | the announced total is a uint32 |
| TransferWire.FlatFileObject | internal/file_transfer.go:416-497 | the stream's length is 24 + info fork + 16 + data, plus 16 + resource data when there is a resource fork |
| TransferWire.Forks | internal/file_transfer.go:459-492 | the forks part's length is 16 + data, plus 16 + resource data when present |
| TransferWire.UploadTotalSizeIsStreamLength | internal/file_transfer.go:358-368 | the announced total equals, modulo 2^32, the length of the flattened file object actually sent |
| FileTransfer.ReadLength | internal/file_transfer.go:214 | a read asked for m available bytes returns at least one and at most m, fewer only where the stream cuts that read short |
| FileTransfer.Read | internal/file_transfer.go:209-215 | a read asks for at most the chunk size and returns at least one of the bytes available, or the end of the stream only once the data is drained |
| FileTransfer.ReadFull | internal/file_transfer.go:104-105 | io.ReadFull succeeds iff the k bytes are there, and then advances by exactly k |
| FileTransfer.CopyN | internal/file_transfer.go:127 | io.CopyN succeeds iff the k bytes are there, and then advances by exactly k |
| FileTransfer.CopyTotal | internal/file_transfer.go:209-215 | a copy can move size bytes, none when size is negative, and never more than the source holds |
| FileTransfer.CopyFrom | internal/file_transfer.go:209-237 | from any point of the copy: when all fits, the whole total is copied and the copy ends with success or the broken stream's error; otherwise it ends with the writer's error, the bytes copied all fit and one more buffer would not |
| FileTransfer.CopyOutcome | internal/file_transfer.go:200-248 | the copy never passes size nor the bytes available; when everything fits it copies min(size, available) and the cut of the reads does not matter; a write that does not fit ends it with the writer's error, less than one buffer short of the writer's room |
| FileTransfer.NeverShortStopsOnWholeBuffer | internal/file_transfer.go:209-219 | with a reader that always fills the request, a write that does not fit stops the copy at the last whole 32 KiB buffer the writer has room for |
| FileTransfer.CopyWithProgress | internal/file_transfer.go:200-248 | copyWithProgress, and copyWithProgressUpload at lines 544-592 whose body is the same: reads at most min(32768, size - written) per step, so written never passes size; the bytes written are the source's first `written` bytes; EOF ends the copy as success, other read or write errors are returned; reports never decrease and a final report of `written` is sent on success; TransferredBytes tracks written |
| FileTransfer.CopyRound | internal/file_transfer.go:210-238 | one turn of the copy loop: a write that does not fit, or the end of the source, stops the copy with exactly the outcome CopyFrom gives from that point and leaves the reports and TransferredBytes alone; otherwise the copy goes on with more bytes written, all within size and the writer's room, TransferredBytes equal to the new total, reports still in order and within it, and the same outcome one read later |
| FileTransfer.CopyStep | internal/file_transfer.go:210-219 | a read that returns data asks for min(32 KiB, bytes still to copy), and the copy then either fails on that chunk's write or goes on one read later |
| FileTransfer.SourceEndOutcome | internal/file_transfer.go:232-237 | the source ending early is success on EOF and the stream's error otherwise |
| FileTransfer.CompleteOutcome | internal/file_transfer.go:209 | (end at lines 240-247) copying all size bytes is success |
| FileTransfer.Ext | internal/file_transfer.go:255 | the extension is a suffix of the name, empty or a '.' followed by no '.' or '/' |
| FileTransfer.CandidateInjective | internal/file_transfer.go:258-259 | distinct counters give distinct "stem (n)ext" names |
| FileTransfer.CandidatesUpToSize | internal/file_transfer.go:258-263 | counters 1 to n give n different names |
| FileTransfer.NewCandidate | internal/file_transfer.go:258-263 | the name for counter n is not among those for smaller counters |
| FileTransfer.CandidatesUpToHas | internal/file_transfer.go:258-263 | every counter from 1 to n has its name among the first n |
| FileTransfer.CandidatesBounded | internal/file_transfer.go:258-263 | a finite set of taken paths blocks at most as many counters as it has paths, so the search ends |
| FileTransfer.FirstFreeCandidate | internal/file_transfer.go:258-263 | the name found is not taken |
| FileTransfer.FirstFreeIsFirst | internal/file_transfer.go:258-263 | the name found belongs to the smallest free counter from where the search starts |
| FileTransfer.ResolvedPath | internal/file_transfer.go:250-267 | the resolved path is never one already taken |
| FileTransfer.ResolveDownloadPath | internal/file_transfer.go:250-267 | the loop returns the resolved path: the name itself when free, else the first free "stem (i)ext" |
| FileTransfer.ResolvedPathIsFirstFree | internal/file_transfer.go:250-267 | dir/name when that is free, otherwise "stem (n)ext" for the smallest n >= 1 whose path is free |
| FileTransfer.ExtExample | internal/file_transfer.go:255-256 | "a.txt" splits into stem "a" and extension ".txt" |
| FileTransfer.CandidateNamesExample | internal/file_transfer.go:259 | counters 1 and 2 name "dl/a (1).txt" and "dl/a (2).txt" |
| FileTransfer.SecondCandidateExample | internal/file_transfer.go:258-263 | with "a (1).txt" taken, the search stops at counter 2 |
| FileTransfer.ResolveExample | internal/file_transfer.go:250-267 | with "a.txt" and "a (1).txt" taken, a download of a.txt lands in "a (2).txt" |
| FileTransfer.BaseStart | internal/file_transfer.go:172 | the base name starts no later than the end of the path |
| FileTransfer.DownloadSpec | internal/file_transfer.go:30-196 | a download without a recorded failure has chosen its local path |
| FileTransfer.ReceiveForks | internal/file_transfer.go:103-133 | reading the forks keeps the chosen path and what was sent |
| FileTransfer.ReceiveDataFork | internal/file_transfer.go:135-155 | reading the data fork keeps the chosen path and what was sent |
| FileTransfer.PerformFileTransfer | internal/file_transfer.go:30-196 | a failed step leaves the task Failed with "label: error"; otherwise an Active task ends Completed with its end time set; exactly one status report carries the final status and error; LocalPath is set once chosen; ID and TotalBytes are kept |
| FileTransfer.DownloadBody | internal/file_transfer.go:43-195 | each failing step sets Failed and its labelled error; success leaves the status alone |
| FileTransfer.ReceiveBody | internal/file_transfer.go:103-195 | the reading steps do what ReceiveForks describes |
| FileTransfer.DataForkBody | internal/file_transfer.go:135-195 | the data-fork copy and the resource-fork branch do what ReceiveDataFork describes |
| FileTransfer.ResourceForkStep | internal/file_transfer.go:157-190 | the resource fork goes to "._" + base name as the AppleDouble header plus the fork; any failure only skips it |
| FileTransfer.PerformFileUpload | internal/file_transfer.go:313-413 | a failed step leaves the task Failed with its labelled error; otherwise an Active task ends Completed; exactly one status report is sent; ID and LocalPath are kept |
| FileTransfer.FileStream | internal/file_transfer.go:474 | the upload copies from the local file: its bytes, ending in EOF |
| FileTransfer.UploadBody | internal/file_transfer.go:325-412 | the body does what UploadSpec describes and leaves EndTime alone |
| FileTransfer.SendFlattenedFileObject | internal/file_transfer.go:416-497 | header, info fork, data fork header and data, then the resource fork when present; a write error is returned labelled and the task status is not touched here |
| FileTransfer.UploadSendsFlatFileObject | internal/file_transfer.go:358-368 | (sender at lines 416-497) when every local step succeeds, the upload sends the handshake announcing the total size and then exactly the flattened file object, and completes |
| FileTransfer.DownloadOfFlatFileObject | internal/file_transfer.go:30-196 | (sender at lines 416-497) a download reading what an upload sends saves exactly the data fork and writes a sidecar of AppleDouble header plus resource fork |
| FileTransfer.ReceiveFlatFileObject | internal/file_transfer.go:103-195 | reading a well-formed flattened file object saves its data fork |
| FileTransfer.ReceiveDataForkRoundTrip | internal/file_transfer.go:135-190 | a data fork and resource fork as an upload sends them are saved as sent |
| FileTransfer.ReceiveResourceForkRoundTrip | internal/file_transfer.go:157-190 | a complete resource fork is saved after the AppleDouble header |
| FileTransfer.ResourceForkFailureIsNotFatal | internal/file_transfer.go:157-190 | a cut-short resource fork or a sidecar that cannot be made does not fail the download: no error, the data fork saved, no sidecar |
| FileTransfer.ReceiveBrokenResource | internal/file_transfer.go:157-190 | the same at the level of the fork reader |
| FileTransfer.HeaderAndInfoFork | internal/file_transfer.go:103-133 | after the 24-byte header and a whole info fork, the reader is at the data fork header with the header's fork count |
| FileTransfer.DataForkThenBrokenResource | internal/file_transfer.go:157-166 | a broken resource fork header after a good data fork leaves no sidecar and no error |
| FileTransfer.DataForkCopied | internal/file_transfer.go:135-155 | a data fork that is all there is copied whole |
| FileTransfer.CopyAll | internal/file_transfer.go:200-248 | copying bytes the source holds into an unlimited writer succeeds with all of them |
| FileTransfer.BrokenResourceFork | internal/file_transfer.go:159-164 | a resource fork header that cannot be read gives no sidecar |
| Tasks.Task.constructor | ui/screen_files.go:259-265 | a queued task has the given ID, name, path, size and start time, is Pending, with nothing transferred and no error |
| Tasks.Lookup | ui/tasks.go:65-66 | the tasks stored under the IDs, one per ID, in the IDs' order |
| Tasks.UnfinishedOf | ui/tasks.go:64-71 | exactly the Pending or Active tasks among those given |
| Tasks.FinishedOf | ui/tasks.go:82-84 | exactly the Completed or Failed tasks among those given, in their order |
| Tasks.RecentFinishedOf | ui/tasks.go:78-86 | at most limit tasks (none when limit <= 0), all Completed or Failed, taken from the given ones |
| Tasks.RecentFinishedIsNewestFinished | ui/tasks.go:78-86 | whatever the statuses, the result is the finished tasks in reverse insertion order, none skipped, cut after limit |
| Tasks.TaskManager.Chronological | ui/tasks.go:37 | one stored task per entry of the insertion order |
| Tasks.TaskManager.constructor | ui/tasks.go:40-45 | a new manager holds no tasks and an empty order, and every ordered ID is stored |
| Tasks.TaskManager.Add | ui/tasks.go:47-52 | the task is stored under its ID, every other entry is unchanged, and the ID is appended to the order |
| Tasks.TaskManager.Get | ui/tasks.go:54-58 | the task stored under the ID, or none (nil) when the ID was never added |
| Tasks.TaskManager.GetActive | ui/tasks.go:60-72 | exactly the Pending and Active tasks, in insertion order |
| Tasks.TaskManager.GetCompleted | ui/tasks.go:74-87 | the backwards scan returns RecentFinishedOf of the tasks in insertion order: the finished tasks newest first, none skipped, at most limit of them |
| Tasks.ScanStep | ui/tasks.go:80-85 | one step of the backwards scan keeps the result equal to RecentFinishedOf |
| Tasks.LookupPrefix | ui/tasks.go:65-66 | looking up one more ID appends its task |
| Tasks.UnfinishedOfAppend | ui/tasks.go:65-69 | the filter applied to one more task appends it iff it is unfinished |
| Tasks.UnfinishedOfConcat | ui/tasks.go:60-72 | the filter distributes over concatenation, so insertion order is kept |
| Tasks.ActiveAndCompletedDisjoint | ui/tasks.go:60-87 | no task is reported both as active and as completed |
| Tasks.AllFinishedNewestFirst | ui/tasks.go:78-86 | with every task finished, the result is the newest limit tasks, newest first: [A, B, C] with limit 2 gives [C, B] |
| Tasks.RecentFinishedPrefix | ui/tasks.go:78-86 | a smaller limit gives a prefix of what a larger one gives |
| Transactions.FirstOfType | internal/handlers_transaction.go:264-268 | GetField's lookup: a field of the asked type taken from the list, and nothing exactly when no field has that type |
| Transactions.ToText | internal/handlers_transaction.go:28 | Go's string(b): one character per byte, with the byte's code |
| Transactions.CheckTransactionError | internal/handlers_transaction.go:19-41 | an error is reported exactly when the code is not 00 00 00 00; its text is shown unless it is one of the ignored messages |
| Transactions.UhNoIsSilent | internal/handlers_transaction.go:19-21 | a reply with a nonzero code and the text "Uh, no." shows nothing |
| Transactions.UiErrorText | ui/transaction_handlers.go:490-497 | a ui handler shows text exactly when its rule calls the code an error, and the text ends with the error field |
| Transactions.UiErrorRules | ui/transaction_handlers.go:40 | the listing handlers' rule (only 00 00 00 01) and the other handlers' rule (any nonzero code) agree on 0 and 1, and the listing rule takes every other nonzero code for success |
| Transactions.NewNewsCatReportsSuccessAsFailure | ui/transaction_handlers.go:517-530 | as written, a category that was created is reported as "Failed to create category: errMsg" |
| Transactions.NewNewsCatReportsOnlyFailures | ui/transaction_handlers.go:503-515 | corrected like its sibling handler: a message is shown exactly when the code is nonzero, and the as-written handler shows the bogus message before it |
| Transactions.ChatText | internal/handlers_transaction.go:210-211 | chat text holds no carriage return and is no longer than the data field |
| Transactions.BodyText | internal/handlers_transaction.go:242-243 | agreement and message text has every carriage return turned into a line feed, with the length kept |
| Transactions.SenderId | internal/handlers_transaction.go:57-61 | the sender ID is two bytes: the field's first two, or zeros when it is shorter |
| Transactions.ServerMessageOf | internal/handlers_transaction.go:47-67 | a server message carries a two-byte sender ID and its text, with no carriage return and the data's length |
| Transactions.ChangedUser | internal/handlers_transaction.go:104-109 | the user a change notification describes has a two-byte ID |
| Transactions.KnownSnoc | internal/handlers_transaction.go:115-117 | a user is known in an extended list exactly when known before or equal to the added one |
| Transactions.Replaced | internal/handlers_transaction.go:115-127 | the same length, each entry with the new user's ID replaced by the new user and every other entry unchanged |
| Transactions.ChangeUser | internal/handlers_transaction.go:103-141 | the new list is the one with the user replaced in place or appended, with a rename notice per renamed entry and a join notice only for an unknown user |
| Transactions.ChangeUserPlacement | internal/handlers_transaction.go:115-130 | a known user keeps its place and the length is kept; an unknown user is appended at the end; either way the user is in the list |
| Transactions.Without | internal/handlers_transaction.go:151-157 | the remaining entries are exactly those whose ID differs, and the list does not grow |
| Transactions.DeleteUser | internal/handlers_transaction.go:144-173 | the new list drops every entry with the leaving ID; a leave notice is sent only when the leaving user's name is not empty |
| Transactions.WithoutConcat | internal/handlers_transaction.go:151-157 | removing a user distributes over concatenation, so the order of the rest is kept |
| Transactions.WithoutAbsent | internal/handlers_transaction.go:151-157 | removing an ID nobody has leaves the list as it is |
| Transactions.WithoutIdempotent | internal/handlers_transaction.go:151-157 | a second departure notice for the same user changes nothing |
| Transactions.ChangeThenDelete | internal/handlers_transaction.go:103-157 | a change notification followed by the user's departure leaves what the departure alone leaves |
| Transactions.ReplacedThenWithout | internal/handlers_transaction.go:115-157 | replacing a user's entries and then removing that user is the same as removing it |
| Transactions.DownloadReplyOf | internal/handlers_transaction.go:264-293 | silent exactly on a nonzero code, rejected exactly when a required field is missing or shorter than 4 bytes, otherwise a reply with the transaction ID and a 4-byte reference number |
| Transactions.DownloadReplyReads | internal/handlers_transaction.go:269-283 | a reply whose three fields have 4 bytes each is accepted and its sizes are those bytes read big-endian |
| Transactions.DownloadReplyRoundTrip | internal/handlers_transaction.go:279-280 | sizes below 2^32 sent big-endian are read back unchanged |
| Transactions.ThreeFields | internal/handlers_transaction.go:269-271 | each of the three leading fields is found by its type |
| Transactions.Copy4 | internal/handlers_transaction.go:282-283 | copy into a zeroed [4]byte: four bytes, the data's where present and zero after |
| Transactions.UiDownloadReplyOf | ui/transaction_handlers.go:243-259 | the ui handler, which checks nothing, gives the transaction ID and a 4-byte reference number |
| Transactions.DownloadRepliesAgree | ui/transaction_handlers.go:243-259 | whenever the internal handler accepts a reply, the ui handler gives the same one |
| Transactions.UploadReplyOf | internal/handlers_transaction.go:295-312 | a reply with a nonzero error code sends no upload reply; any other sends one with the transaction ID and the reference number's first four bytes, zero-padded when shorter |
| Transactions.UiUploadReplyOf | ui/transaction_handlers.go:261-273 | the ui handler checks no error code and always sends the transaction ID with the zero-padded reference number |
| Transactions.UploadReplyRoundTrip | internal/handlers_transaction.go:300-307 | a four-byte reference number sent by the server comes back unchanged in the upload reply, from the internal handler only when the code is zero |
| Transactions.ApplySubField | ui/transaction_handlers.go:306-318 | one sub-field applied to an account leaves its index unchanged |
| Transactions.ApplySubFields | ui/transaction_handlers.go:294-319 | the sub-fields applied in order leave the index unchanged |
| Transactions.AccountOf | ui/transaction_handlers.go:285-322 | the account read from the field at position i has index i |
| Transactions.HandleListUsers | ui/transaction_handlers.go:275-329 | a nonzero code gives the error text; otherwise the accounts read from the data fields, in field order |
| Transactions.ReadAccount | ui/transaction_handlers.go:289-319 | the loop reads the account the sub-fields describe, stopping when the count or the scanner runs out |
| Transactions.AccountsIndexed | ui/transaction_handlers.go:283-324 | each account's index is the position of a data field, and indices increase along the list |
| Transactions.AccountsComplete | ui/transaction_handlers.go:283-324 | every data field has its account: none is skipped |
| Transactions.AccessAndPassword | ui/transaction_handlers.go:310-317 | the access bits are those of the last access sub-field of at least 8 bytes, and the password flag follows the last password sub-field |
| NewsCodec.EncodeNewsPath | internal/screens.go:111-131 | the buffer built name by name is the path encoding: empty for the root, otherwise the 16-bit count first and three bytes plus the name per entry |
| NewsCodec.EntriesLength | internal/screens.go:122-128 | the entries take three bytes per name plus the name |
| NewsCodec.DecodeEntriesOf | internal/screens.go:122-128 | the entries of names shorter than 256 bytes read back as the same names |
| NewsCodec.NewsPathRoundTrip | ui/screens.go:2114-2134 | a path of fewer than 65536 names, each shorter than 256 bytes, decodes back from its encoding |
| NewsCodec.NewsPathInjective | internal/screens.go:111-131 | two such paths are sent as the same bytes only when they are equal |
| NewsCodec.RecordEnd | internal/handlers_transaction.go:419-474 | the offset past a complete record lies after its start and within the payload |
| NewsCodec.RecordArticle | internal/handlers_transaction.go:476-485 | a parsed article has depth 0, is collapsed, has no children yet and an 8-byte date |
| NewsCodec.ParseArticleList | internal/handlers_transaction.go:416-486 | the loop collects exactly the records ParseArticles describes: up to Count complete records, stopping at the end of the payload or at the first record cut short |
| NewsCodec.ReadRecord | internal/handlers_transaction.go:420-474 | one pass of the loop body succeeds exactly when the whole record fits, and then yields that record's article and the offset past it |
| NewsCodec.RecordAt | internal/handlers_transaction.go:420-474 | a record whose three length bytes fit is complete, with the article and end offset read at the fixed positions |
| NewsCodec.Continues | internal/handlers_transaction.go:476-486 | a record read by the loop is one step of ParseArticles |
| NewsCodec.StopsAt | internal/handlers_transaction.go:420-474 | a record cut short ends the list |
| NewsCodec.ParseArticlesBound | internal/handlers_transaction.go:419 | never more articles than the count announces, none for a count of 0 or less |
| NewsCodec.EncodeRecord | internal/handlers_transaction.go:419-474 | a server's record takes 27 bytes plus its three strings |
| NewsCodec.RecordRoundTrip | internal/handlers_transaction.go:419-486 | a well-formed record found at an offset parses back to its id, date, parent, title and poster, and parsing resumes right after it |
| NewsCodec.TruncatedRecordStops | internal/handlers_transaction.go:420-474 | a payload ending inside a record yields nothing from that record on |
| Formatting.FormatBytes | internal/screens.go:133-144 | formatBytes, the same at ui/screens.go:2799-2810: below 1024 the plain "%d B" text; otherwise the unit letter of the power of 1024 that leaves a quotient in [1, 1024), never past E |
| Formatting.ScaleStep | internal/screens.go:139-142 | one pass of the loop keeps n the quotient of b by div |
| Formatting.RoundToSecond | internal/screens.go:147 | Duration.Round(time.Second) stays within int64 and keeps a non-negative duration non-negative |
| Formatting.RoundToSecondNearest | internal/screens.go:147 | away from saturation, the rounded value is a whole number of seconds, at most half a second from the input |
| Formatting.Pad02 | internal/screens.go:156 | "%02d" of a non-negative number is its two-digit form |
| Formatting.ClockSplit | internal/screens.go:146-159 | for a non-negative duration the hours, minutes and seconds split the rounded seconds, with minutes and seconds below 60 |
| Formatting.FormatDurationReadsBack | internal/screens.go:146-159 | formatDuration, the same at ui/screens.go:2812-2824: the printed "h:mm:ss" or "m:ss" text reads back as the rounded number of seconds, with two-digit minutes and seconds |
| Formatting.TruncateName | internal/screens.go:69-71 | a name longer than 18 becomes its first 15 characters and "...", exactly 18 long; a shorter one is kept |
| Formatting.TruncateNameIdempotent | internal/screens.go:69-71 | cutting a cut name changes nothing |
| Formatting.SelectDisplayTasks | internal/screens.go:12-33 | renderTaskWidget, the same at ui/screens.go:1325-1347: the loop's list is the widget's selection: the first three active transfers, filled up with finished ones |
| Formatting.WidgetShowsActiveFirst | internal/screens.go:17-33 | at most three transfers, the active ones first in their order, finished ones only after them |
| Access.BitmapBytes | internal/screen_accounts.go:685 | the bitmap is sent as its eight bytes, unchanged |
| Access.Set | internal/screen_accounts.go:491 | setting a bit keeps an eight-byte bitmap |
| Access.Clear | internal/screen_accounts.go:490 | clearing a bit keeps an eight-byte bitmap |
| Access.Toggle | internal/screen_accounts.go:489-492 | the checkbox flip keeps an eight-byte bitmap |
| Access.MaskAlone | internal/screen_accounts.go:490 | within one byte, or-ing or and-not-ing mask k changes only bit k |
| Access.MaskRestore | internal/screen_accounts.go:489-492 | within one byte, clearing a set mask and setting it again, or the reverse, gives the byte back |
| Access.SetOnly | internal/screen_accounts.go:491 | after Set, bit i is set and every other bit is as before |
| Access.ClearOnly | internal/screen_accounts.go:490 | after the and-not, bit i is clear and every other bit is as before |
| Access.ToggleFlipsOnly | internal/screen_accounts.go:489-492 | a toggle flips exactly the chosen bit |
| Access.ToggleTwice | internal/screen_accounts.go:489-492 | toggling the same checkbox twice gives back the bitmap byte for byte |
| Access.CategoriesInOrder | internal/screen_accounts.go:41-110 | the categories' bits, one category after another, are the checkbox order the editor walks |
| Access.TableShape | internal/screen_accounts.go:41-110 | the table has 37 checkboxes, each a different bit below 41, so each focus index stands for one bit |
| AccountEditor.CheckboxAtIsCheckbox | internal/screen_accounts.go:483-497 | the checkbox the space key's walk reaches for focus f is entry f of the flattened table, and none past its end |
| AccountEditor.CheckboxAtTable | internal/screen_accounts.go:483-497 | focus 0 to 36 names one of the table's bits, all below 41; every other focus names none |
| AccountEditor.CheckboxLinesIncrease | internal/screen_accounts.go:588-606 | a later checkbox sits on a lower line |
| AccountEditor.CheckboxLineFound | internal/screen_accounts.go:588-606 | a line is found exactly for the focus values that name a checkbox |
| AccountEditor.CheckboxLineAfter | internal/screen_accounts.go:588-606 | every checkbox line lies below the starting line |
| AccountEditor.ScrollTarget | internal/screen_accounts.go:577-612 | the text fields scroll to the top, and a focus below 41 that names no checkbox leaves the offset unchanged |
| AccountEditor.ScrollTargetMonotone | internal/screen_accounts.go:593-599 | a focused checkbox never scrolls above the top, and a later checkbox never scrolls less far |
| AccountEditor.CheckboxLineExamples | internal/screen_accounts.go:580-606 | the first checkbox sits at line 9, the first of each category two lines below the last of the one before, and focus 37 has no line |
| AccountEditor.ToggleFocused | internal/screen_accounts.go:481-499 | the space key keeps an eight-byte bitmap |
| AccountEditor.EditText | internal/screen_accounts.go:547-571 | typing changes only the three text fields and the password-changed flag, and keeps them byte strings |
| AccountEditor.ListViewKey | internal/screen_accounts.go:382-420 | the list view keeps the user's own access and the viewport height, and keeps the state well formed |
| AccountEditor.SplitViewKey | internal/screen_accounts.go:423-575 | the split view keeps the user's own access and the viewport height, and keeps the state well formed |
| AccountEditor.Next | internal/screen_accounts.go:380-575 | handleKeys keeps the user's own access and the viewport height, keeps both bitmaps eight bytes and the focus in [0, 43] |
| AccountEditor.FocusSteps | internal/screen_accounts.go:437-466 | up and down move the focus by one within [0, 43] and change nothing else but the scroll offset |
| AccountEditor.ToggleFocusedFlipsOne | internal/screen_accounts.go:481-499 | space flips exactly the bit of the focused checkbox, and a focus past the 37 checkboxes changes nothing |
| AccountEditor.ToggleFocusedTwice | internal/screen_accounts.go:481-499 | flipping the focused checkbox twice gives back the bitmap |
| AccountEditor.SpaceTogglesOnlyBits | internal/screen_accounts.go:481-500 | space in the focused pane of an editable account changes only the access bits, elsewhere nothing; twice restores the state |
| AccountEditor.TextGoesToFocusedField | internal/screen_accounts.go:547-571 | runes are appended to the focused field only, backspace drops the last byte of a non-empty one, and only password edits mark it changed |
| AccountEditor.NewAccountNeedsCreateAccess | internal/screen_accounts.go:384-394 | "n" in the list opens an empty new account exactly when the user may create accounts |
| AccountEditor.EscAndEnter | internal/screen_accounts.go:395-436 | esc goes from the detail view back to the list and from the list asks to close; a save comes only from the focused pane of an editable account and carries the working copy |
| AccountEditor.AccountsScreen.constructor | internal/screen_accounts.go:150-174 | a new screen shows only the list, edits nothing, holds a zero bitmap and a viewport 12 lines shorter than the window |
| AccountEditor.AccountsScreen.SetSize | internal/screen_accounts.go:230-236 | only the viewport height changes, to 12 less than the window |
| AccountEditor.AccountsScreen.ResetEditState | internal/screen_accounts.go:615-620 | nothing selected, not new, list focused; the rest unchanged |
| AccountEditor.AccountsScreen.HandleKey | internal/screen_accounts.go:380-575 | the screen's new state and the message are those Next gives, and the state stays well formed |
| AccountEditor.AccountsScreen.ListKey | internal/screen_accounts.go:382-420 | the list-view branch does what ListViewKey describes |
| AccountEditor.AccountsScreen.SplitKey | internal/screen_accounts.go:423-575 | the split-view branch does what SplitViewKey describes |
| AccountEditor.AccountsScreen.StartNewAccount | internal/screen_accounts.go:385-393 | the "n" branch leaves the state StartNew describes |
| AccountEditor.AccountsScreen.MoveFocus | internal/screen_accounts.go:437-466 | the focus moves by the step and the view scrolls to it |
| AccountEditor.AccountsScreen.SelectItem | internal/screen_accounts.go:395-410 | the chosen account becomes the working copy, as Select describes |
| AccountEditor.AccountsScreen.EditFocusedField | internal/screen_accounts.go:547-571 | the text-input branch leaves the state EditText describes |
| AccountEditor.AccountsScreen.ToggleFocusedBit | internal/screen_accounts.go:481-499 | only the edited access bits change, by flipping the focused checkbox |
| AccountEditor.AccountsScreen.ScrollToFocusedCheckbox | internal/screen_accounts.go:577-612 | only the scroll offset changes, to the target ScrollTarget gives |
| AccountEditor.FindCheckbox | internal/screen_accounts.go:483-497 | the walk through the categories finds the checkbox CheckboxAt names |
| AccountEditor.FindCheckboxLine | internal/screen_accounts.go:586-606 | the line count of the walk is the line CheckboxLine gives |
| AccountEditor.SaveSubFields | internal/screen_accounts.go:681-700 | a saved account has three or four sub-fields |
| AccountEditor.PasswordSubField | internal/screen_accounts.go:689-700 | a password sub-field is sent unless the password was changed to empty: the new password when changed, a single zero byte otherwise |
| AccountEditor.SaveData | internal/screen_accounts.go:678-709 | the payload is the big-endian sub-field count followed by the serialised sub-fields |
| AccountEditor.PackSubFields | internal/screen_accounts.go:700-709 | the serialising loop writes the count and then each sub-field's bytes in order |
| AccountEditor.ToTextOfBytes | internal/screen_accounts.go:686 | a byte string converted to bytes and back is itself |
| AccountEditor.SavedAccountListsBack | internal/screen_accounts.go:622-676 | a saved payload read back by the account list gives the edited name and access bits, a password flag set unless the password was cleared, and the login through EncodeString twice |
| UiScreens.Rem | ui/screens.go:320 | Go's `%` agrees with the mathematical remainder on a non-negative dividend |
| UiScreens.FocusCycles | ui/screens.go:319-330 | tab and shift+tab keep the focus in [0, n), undo each other, and tab wraps from the last stop to the first |
| UiScreens.JoinSpaceTarget | ui/screens.go:332-350 | space on the join form flips the TLS box, the save box or goes to the text input, and never the save box in bookmark mode |
| UiScreens.SettingsSpaceTarget | ui/screens.go:1162-1170 | space on the settings form flips the bell box, the sounds box or goes to the text input |
| UiScreens.JoinBoxesHaveOneStop | ui/screens.go:332-350 | no check box of the join form sits at two stops |
| UiScreens.PathUp | ui/screens.go:2349-2353 | "<- Back" drops the last path element, and nothing on an empty path |
| UiScreens.EnterThenBack | ui/screens.go:2349-2365 | entering a folder and going back returns to the same path |
| UiScreens.ReplySubject | ui/screens.go:1946-1950 | the reply subject starts with "Re: ", is the title when it already does, and "Re: " plus the title otherwise |
| UiScreens.ReplySubjectIdempotent | ui/screens.go:1946-1950 | replying to a reply does not stack prefixes |
| UiScreens.Model.JoinServerTab | ui/screens.go:319-322 | the focus moves to the next of the five stops, wrapping |
| UiScreens.Model.JoinServerShiftTab | ui/screens.go:324-330 | the focus moves to the previous of the five stops, wrapping |
| UiScreens.Model.JoinServerSpace | ui/screens.go:332-350 | space flips exactly the box at the focus for the form's mode, or passes the key on to the text input |
| UiScreens.Model.SettingsTab | ui/screens.go:1149-1152 | the focus moves to the next of the six stops, wrapping |
| UiScreens.Model.SettingsShiftTab | ui/screens.go:1154-1160 | the focus moves to the previous of the six stops, wrapping |
| UiScreens.Model.SettingsSpace | ui/screens.go:1162-1170 | space flips the bell or sounds box at the focus, or passes the key on |
| UiScreens.Model.AccountUp | ui/screens.go:1755-1768 | up moves the focus one back when the account may be edited and the focus is not at 0, and scrolls to it |
| UiScreens.Model.AccountDown | ui/screens.go:1770-1783 | down moves the focus one on when the account may be edited and the focus is below the password field, and scrolls to it |
| UiScreens.Model.AccountPage | ui/screens.go:1785-1797 | pgup and pgdown move the detail viewport's offset by a full page (ViewUp and ViewDown), up or down, and only when the detail pane is focused; otherwise the offset is unchanged |
| UiScreens.Model.AccountSpace | ui/screens.go:1799-1818 | space flips the focused checkbox's bit only when the account may be edited and the detail pane is focused |
| UiScreens.Model.ScrollToFocusedCheckbox | ui/screens.go:1663-1698 | the offset is the one the internal editor's scroll target gives |
| UiScreens.Model.FilesEsc | ui/screens.go:2334-2337 | esc returns to the previous screen with the path cleared |
| UiScreens.Model.FilesEnter | ui/screens.go:2345-2375 | "<- Back" goes up and a folder is entered, both asking for the new listing; a file is downloaded after returning to the previous screen |
| ThreadTree.Links | ui/screen_news.go:593-602 | one id-and-parent link per article, in list order |
| ThreadTree.IndexOf | ui/screen_news.go:585-588 | the first article with the id, or none when no article has it |
| ThreadTree.ParentIndex | ui/screen_news.go:596-600 | a reply's parent is a listed article carrying the reply's nonzero parent id |
| ThreadTree.ParentIndexUnique | ui/screen_news.go:596-600 | with distinct ids a reply's parent is the article carrying its parent id |
| ThreadTree.KidsUpToMembers | ui/screen_news.go:593-602 | the replies entered under id p in the first n passes are exactly the articles below n whose parent is p, and p is not 0 |
| ThreadTree.Kids | ui/screen_news.go:593-602 | childrenMap[p] holds exactly the indices of the replies to p |
| ThreadTree.KidsUpToAgree | ui/screen_news.go:593-602 | the replies entered so far depend only on the articles already passed |
| ThreadTree.WalkBound | ui/screen_news.go:610-624 | a walk up to a root found within f steps takes at most f steps |
| ThreadTree.WalkMono | ui/screen_news.go:610-624 | allowing more steps finds the same root at the same distance |
| ThreadTree.CorrectUnique | ui/screen_news.go:610-624 | an article has one true depth |
| ThreadTree.AncestorAt | ui/screen_news.go:610-616 | an ancestor is a listed article |
| ThreadTree.AncestorLastStep | ui/screen_news.go:610-616 | s + 1 steps up are s steps up and then one parent step |
| ThreadTree.WalkReachesRoot | ui/screen_news.go:619-624 | a walk of v steps ends at a root v steps up |
| ThreadTree.Visit | ui/screen_news.go:610-616 | calculateDepth keeps one depth per article |
| ThreadTree.VisitKids | ui/screen_news.go:611-615 | the loop over the replies keeps one depth per article |
| ThreadTree.Roots | ui/screen_news.go:619-624 | the root loop keeps one depth per article |
| ThreadTree.CoveredStable | ui/screen_news.go:610-624 | depths already true stay true when later writes are true ones |
| ThreadTree.VisitCorrect | ui/screen_news.go:610-616 | numbering the replies below an article of true depth d - 1 writes only true depths and reaches every article up to the fuel below it |
| ThreadTree.VisitKidsCorrect | ui/screen_news.go:611-615 | the loop gives each reply its true depth and writes only true depths |
| ThreadTree.ReplyCorrect | ui/screen_news.go:612-613 | a reply to an article of depth d - 1 has depth d |
| ThreadTree.RootsCorrect | ui/screen_news.go:619-624 | after the root loop every root and every article below one has its true depth, and nothing else changed |
| ThreadTree.RootsGiveDepths | ui/screen_news.go:610-624 | an article that reaches a root gets its distance to it; the depth of any other article is left as it was |
| ThreadTree.Promoted | ui/screen_news.go:593-602 | each article is promoted or kept, position by position |
| ThreadTree.Marked | ui/screen_news.go:605-607 | an article has replies exactly when childrenMap lists some under its id |
| ThreadTree.Depths | ui/screen_news.go:610-624 | the depths of the articles, position by position |
| ThreadTree.WithDepths | ui/screen_news.go:610-624 | the articles with only their depths replaced |
| ThreadTree.Reversed | ui/screen_news.go:627 | the k-th entry is the k-th from the end |
| ThreadTree.TreeLinks | ui/screen_news.go:593-602 | the links after orphans are promoted to roots |
| ThreadTree.TreeDepths | ui/screen_news.go:619-624 | one depth per article |
| ThreadTree.Threaded | ui/screen_news.go:583-626 | the list before reversal: orphans promoted, replies marked, depths numbered, nothing else changed |
| ThreadTree.ThreadedLinks | ui/ui.go:223-237 | an article keeps its parent exactly when that parent is listed, and has replies exactly when some article names it as parent |
| ThreadTree.ThreadedDepths | ui/ui.go:240-255 | with distinct ids a root gets depth 0 and every article whose chain of parents reaches a root gets that chain's length; an article on a cycle of parents keeps its depth |
| ThreadTree.ReplyOneDeeper | ui/ui.go:240-255 | a reply is one level deeper than its parent |
| ThreadTree.WalkExact | ui/screen_news.go:610-624 | a walk that takes v steps also succeeds with exactly v allowed |
| ThreadTree.WalkStep | ui/screen_news.go:612-613 | a reply's walk is one step longer than its parent's |
| ThreadTree.ReversedPermutes | ui/screen_news.go:627 | reversing keeps every article, each as often as before |
| ThreadTree.BuildThreadTree | ui/screen_news.go:583-630 | the array ends as the threaded list reversed, newest first |
| ThreadTree.CollectIds | ui/screen_news.go:585-588 | validIDs is the set of listed ids |
| ThreadTree.PromoteOrphans | ui/screen_news.go:593-602 | orphans become roots and childrenMap lists each id's replies in list order |
| ThreadTree.EnterArticle | ui/screen_news.go:594-601 | one pass: article i becomes a root when its parent is not listed, or is entered under its parent; no other article changes |
| ThreadTree.ChildrenStep | ui/screen_news.go:599 | entering article i under its parent extends childrenMap by one pass |
| ThreadTree.MarkParents | ui/screen_news.go:605-607 | each article's hasChildren says whether childrenMap lists replies under its id |
| ThreadTree.Shape | ui/screen_news.go:610-624 | the articles with depths blanked, position by position |
| ThreadTree.ShapeKeepsAllButDepth | ui/screen_news.go:610-624 | two lists equal but for depths have the same links |
| ThreadTree.AssignDepths | ui/screen_news.go:619-624 | the root loop leaves the depths Roots describes and changes nothing else |
| ThreadTree.SetDepth | ui/screen_news.go:613 | only article c's depth changes |
| ThreadTree.CalculateDepth | ui/screen_news.go:610-616 | calculateDepth leaves the depths Visit describes and changes nothing else |
| ThreadTree.NumberReply | ui/screen_news.go:612-614 | the reply gets currentDepth and the replies below it are numbered from one deeper |
| ThreadTree.VisitKidsStep | ui/screen_news.go:611-615 | one turn of the loop is one step of VisitKids |
| ThreadTree.ReverseArticles | ui/screen_news.go:627 | slices.Reverse leaves the reversed list |
| ThreadTree.RepliesUpToMembers | ui/screen_news.go:640-645 | childrenMap holds only listed replies to p, and none for 0 |
| ThreadTree.Replies | ui/screen_news.go:640-645 | the replies to p are listed articles whose parent is p |
| ThreadTree.RootArticlesAppend | ui/screen_news.go:661-665 | the roots of two lists joined are the roots of each, joined |
| ThreadTree.SubtreeShape | ui/screen_news.go:648-658 | an article is shown first, and below it only listed replies whose parent is expanded |
| ThreadTree.SubtreesShape | ui/screen_news.go:653-656 | the subtrees of the replies to an expanded article hold only replies whose parent is expanded |
| ThreadTree.SubtreeRoots | ui/screen_news.go:648-658 | a subtree headed by a root holds exactly one root, its head |
| ThreadTree.NoRoots | ui/screen_news.go:661-665 | a list of replies has no roots |
| ThreadTree.VisibleUpToShape | ui/screen_news.go:633-668 | the visible list keeps the roots passed so far in their order and shows a reply only when its parent is expanded |
| ThreadTree.VisibleShape | ui/ui.go:264-297 | the visible list keeps every root in its order, every entry comes from the list, a reply is shown only when its parent is expanded, and every shown reply comes after an earlier entry that is its parent and is expanded (children follow their parent) |
| ThreadTree.SubtreeParentsBefore | ui/screen_news.go:648-658 | inside one article's subtree every entry below the head comes after its expanded parent, and the head's own replies are the ones that do not need an earlier parent |
| ThreadTree.VisibleUpToParentsBefore | ui/screen_news.go:661-665 | in the list built from the first n articles every reply comes after an earlier, expanded entry that is its parent |
| ThreadTree.ChainInSubtree | ui/screen_news.go:648-658 | the last article of a parent-to-reply chain whose upper articles are all expanded is in the subtree of the chain's head, as long as the depth bound covers the chain |
| ThreadTree.ExpandedChainShown | ui/screen_news.go:633-668 | the converse of VisibleShape: every article reached from a root through a chain of distinct articles, each replying to the one before and every one above it expanded, is in the visible list |
| ThreadTree.NothingExpandedShowsRoots | ui/screen_news.go:633-668 | with nothing expanded only the roots are shown, in list order |
| ThreadTree.FilterVisibleArticles | ui/screen_news.go:633-668 | the method's list is the one Visible describes, so by VisibleShape and ExpandedChainShown it holds every root in order, each reply after its expanded parent, and every article whose distinct ancestors are all expanded |
| ThreadTree.AddArticleAndChildren | ui/screen_news.go:648-658 | appends the article and, when it is expanded, each reply's subtree |
| ThreadTree.SubtreesStep | ui/screen_news.go:653-656 | one turn of the loop appends one reply's subtree |
| ThreadTree.ListItems | ui/screen_news.go:676-679 | each visible article is marked expanded exactly when its id is expanded |
| ThreadTree.RefreshedCursor | ui/screen_news.go:681-689 | refreshArticleList, and refreshNewsArticleList at ui/ui.go:312-320 alike: an index past the end moves to the last item, one inside is kept, and with no items or a negative index nothing is selected |
| NewsScreen.Toggled | ui/screen_news.go:351-358 | space flips the article's membership in the expanded set and leaves every other id alone |
| NewsScreen.ToggledTwice | ui/screen_news.go:351-358 | two presses give back the expanded set |
| NewsScreen.ParentMapOf | ui/screen_news.go:424-427 | parentMap has exactly the listed ids as keys |
| NewsScreen.AncestorChain | ui/screen_news.go:429-433 | the walk visits no id 0 and starts at the reply's parent |
| NewsScreen.AncestorChainLinks | ui/screen_news.go:429-433 | each id the walk visits after the first is the parent of the one before it |
| NewsScreen.ElemsCons | ui/screen_news.go:429-433 | the ids of a walk are its first id and the ids of the rest |
| NewsScreen.ThreadArticles | ui/screen_news.go:180 | the stored articles are the threaded list, reversed |
| NewsScreen.ArticlesTitle | ui/screen_news.go:194-199 | "Articles" at the root, otherwise "Articles - " and the last path element |
| NewsScreen.ArticleItems | ui/screen_news.go:186-190 | one list item per article, in order |
| NewsScreen.CategoryItems | ui/screen_news.go:161-175 | one list item per bundle or category, in order |
| NewsScreen.ShowsArticles | ui/screen_news.go:270-304 | the loop says whether the list holds an article item |
| NewsScreen.NewsScreen.constructor | ui/screen_news.go:140-158 | a new browser is at the root with nothing listed, expanded, awaited or selected |
| NewsScreen.NewsScreen.SelectedItem | ui/screen_news.go:383 | an item exactly when the cursor is on the list, and then the item under it |
| NewsScreen.NewsScreen.SetCategories | ui/screen_news.go:161-175 | a fresh list of the categories with the cursor at the top, not in a category, no article open |
| NewsScreen.NewsScreen.SetArticles | ui/screen_news.go:178-207 | the threaded list is stored, the list shows its visible part marked by expansion, the title names the category, and no article is open |
| NewsScreen.NewsScreen.ShowArticles | ui/screen_news.go:183-206 | the fresh list shows the visible stored articles, titled by the category |
| NewsScreen.NewsScreen.SetArticleData | ui/screen_news.go:210-219 | the awaited article becomes the open one with the reply's data, and nothing is awaited any more |
| NewsScreen.NewsScreen.RefreshArticleList | ui/screen_news.go:671-690 | the list shows the visible stored articles and the cursor is kept in range |
| NewsScreen.NewsScreen.EscKey | ui/screen_news.go:270-304 | an open article is closed first; in an article list with a non-empty path the path goes up; otherwise the browser closes |
| NewsScreen.NewsScreen.FormKey | ui/screen_news.go:306-345 | a new article only inside a category, a reply only to an open article with its subject prefixed once, a new bundle or category only outside a category |
| NewsScreen.NewsScreen.SpaceKey | ui/screen_news.go:347-362 | an article with replies flips between expanded and collapsed and the list is rebuilt; anything else changes nothing |
| NewsScreen.NewsScreen.MoveKey | ui/screen_news.go:364-379 | pgup and pgdown scroll an open article; otherwise the keys go to the list |
| NewsScreen.NewsScreen.EnterCategory | ui/screen_news.go:386-417 | "<- Back" goes up a level, another entry is appended to the path; a bundle lists the new path, a category its articles; no article is open |
| NewsScreen.NewsScreen.EnterArticle | ui/screen_news.go:420-449 | a reply first has every article above it expanded and the list rebuilt; the article is then awaited and requested |
| NewsScreen.NewsScreen.ExpandAncestors | ui/screen_news.go:424-433 | every id on the walk up the parent chain is added to the expanded set, nothing else |
| NewsScreen.NewsScreen.EnterKey | ui/screen_news.go:381-450 | with no entry under the cursor nothing changes and no command is sent; on a bundle or category the path goes up a level for "<- Back" or gains the entry's name, the bundle or category of the new path is requested, no article is open, and the expanded set, list, cursor and awaited article stay as they were; on an article every ancestor of a reply is expanded and the list rebuilt (a root leaves them alone), the article is awaited and requested under the unchanged path, and the open article stays as it was |
| ScreenHistory.Pushed | internal/model.go:143-145 | The pushed history is the old one with exactly the new screen appended on top. |
| ScreenHistory.Popped | internal/model.go:149-156 | A pop never leaves the history empty: with two or more entries only the top one goes, otherwise the history becomes the lone Home entry. |
| ScreenHistory.Replaced | internal/model.go:160-166 | The replaced history keeps its length (one entry for an empty one), shows the new screen and keeps every entry below the top. |
| ScreenHistory.PopShowsPrevious | internal/model.go:135-156 | The screen on show after a pop is the one PreviousScreen reported before it. |
| ScreenHistory.PushShowsPushed | internal/model.go:127-145 | After a push the pushed screen is current and the old current screen is the previous one. |
| ScreenHistory.PopUndoesPush | internal/model.go:143-156 | On any non-empty history, a pop undoes a push exactly. |
| ScreenHistory.PushCount | internal/model.go:143-145 | The number of pushes in a script is at most its length. |
| ScreenHistory.NeverEmpty | internal/model.go:143-172 | From a non-empty history (NewModel starts at [Home]) no sequence of push, pop, replace and navigate steps empties it, and it grows by at most one entry per push. |
| ScreenHistory.NavigateForgets | internal/model.go:170-172 | After a NavigateTo the history no longer depends on what came before it. |
| ClientModel.PmTitle | internal/model.go:182-187 | The PM modal title names the newest sender after "Private Message from ", and ends in " (1 of n)" exactly when n > 1 messages wait. |
| ClientModel.PmModal | internal/model.go:176-193 | The PM modal is a PrivateMessage modal with Close and Reply buttons showing the newest message's sender and text. |
| ClientModel.WithoutNoMatch | internal/handlers_msg.go:408-422 | Deleting a bookmark that no entry matches on both name and address leaves the list unchanged. |
| ClientModel.WithoutFirstMatchAt | internal/handlers_msg.go:413-418 | When i is the first index matching on name and address, exactly entry i is removed and the rest keep their order. |
| ClientModel.WithoutFirstMatchLength | internal/handlers_msg.go:413-418 | The list shrinks by one exactly when some entry matches, and otherwise keeps its length. |
| ClientModel.Model.constructor | internal/model.go:249-291 | NewModel starts on [Home] with no messages, no modal, no pending transfers, no progress bars and an empty task manager. |
| ClientModel.Model.PushScreen | internal/model.go:143-145 | The history becomes Pushed of the old one, and the pushed screen is current. |
| ClientModel.Model.PopScreen | internal/model.go:149-156 | The history becomes Popped of the old one, and the screen returned is the new current one, which PreviousScreen named before. |
| ClientModel.Model.ReplaceScreen | internal/model.go:160-166 | The history becomes Replaced of the old one. |
| ClientModel.Model.NavigateTo | internal/model.go:170-172 | The history becomes the single given screen. |
| ClientModel.Model.PopLoading | internal/handlers_msg.go:139-142 | A Loading screen on top is popped, and any other history is left alone. |
| ClientModel.Model.UpdatePrivateMessageModal | internal/model.go:176-193 | With messages waiting, the modal becomes the PM modal for the newest; with none, the modal is untouched. |
| ClientModel.Model.ShowModal | internal/handlers_msg.go:143-144 | The given modal is shown with a Modal entry pushed on the history. |
| ClientModel.Model.HandleServerMsg | internal/handlers_msg.go:148-169 | The message joins the stack, the modal shows it, a Modal entry is pushed unless a modal is already current, and a PM modal is then showing. |
| ClientModel.Model.HandleModalCancelled | internal/model.go:407-421 | On a PM modal the newest message is dropped, and the modal stays to show the next one while any remain; otherwise the screen is popped and the stack kept. |
| ClientModel.Model.AgreementButton | internal/model.go:433-458 | Agree sends the agreement and keeps the history; any other button marks a client disconnect, goes to [Home] and closes the connection. |
| ClientModel.Model.DisconnectButton | internal/model.go:459-478 | Exit marks a client disconnect, goes to [Home] and closes the connection; any other button pops the prompt. |
| ClientModel.Model.PrivateMessageButton | internal/model.go:479-505 | The newest message is taken off the stack; Reply opens the compose screen for that message's sender and text in the modal's place; otherwise the next message is shown, or the modal is popped when none remain. |
| ClientModel.Model.HandleModalButtonClicked | internal/model.go:430-512 | Dispatch on the modal type: the agreement, disconnect and PM cases as above, and a generic or error modal pops; only PM modals touch the message stack. |
| ClientModel.Model.HandleDisconnect | internal/model.go:359-379 | A disconnect resets the history to [Home] and clears the flag; "Server connection closed." is queued exactly when the client did not start the disconnect. |
| ClientModel.Model.HandleError | internal/handlers_msg.go:135-146 | An error modal titled "Error" with a Close button is shown on top of the history, with a Loading screen on top popped first. |
| ClientModel.Model.HandleAgreement | internal/handlers_msg.go:171-186 | The agreement modal, with Disagree and Agree, is shown on top of the history, with a Loading screen on top popped first. |
| ClientModel.Model.HandleServerConnected | internal/handlers_msg.go:188-212 | The server name is recorded and the server screen becomes the whole history. |
| ClientModel.Model.HandleConnectionAttempt | internal/handlers_msg.go:359-372 | A success changes nothing; a failure shows a "Connection Error" modal with an OK button in place of a Loading screen on top. |
| ClientModel.Model.HandleLoadingCancelled | internal/model.go:424-427 | Cancelling the loading screen pops it. |
| ClientModel.Model.ShowResults | internal/handlers_msg.go:424-465 | After a file list or news reply the results screen is current, pushed only when it was not already current, so closing it returns where the user came from. |
| ClientModel.Model.HandleComposeDone | internal/handlers_msg.go:854-892 | After a message is sent or its composing cancelled, the modal for the next waiting message replaces the compose screen, or the compose screen is popped when none wait. |
| ClientModel.Model.HandleJoinServerConnect | internal/handlers_msg.go:331-357 | The address is remembered, becomes the display name when none was chosen, and the Loading screen is pushed. |
| ClientModel.Model.HandleJoinServerCancelled | internal/handlers_msg.go:395-406 | The history is reset to the page the form was opened from. |
| ClientModel.Model.HandleBookmarkSaved | internal/handlers_msg.go:374-386 | The bookmark at the index is overwritten only when the index is in range, and the form is popped either way. |
| ClientModel.Model.HandleBookmarkDeleted | internal/handlers_msg.go:408-422 | The first bookmark matching on name and address is removed, and nothing else changes. |
| ClientModel.Model.HandleTaskStatus | internal/handlers_msg.go:618-634 | A known task takes the new status and error; a completed or failed one also gets its end time and loses its progress bar; an unknown ID and every other task are left unchanged. |
| ClientModel.Model.HandleDownloadReply | internal/handlers_msg.go:636-650 | The pending entry is always removed; the task it named, if it exists, gets the transfer size, becomes Active and is returned to be transferred; no other task changes. |
| ClientModel.Model.HandleUploadReply | internal/handlers_msg.go:652-671 | An unknown transaction changes nothing; a known one loses its entry, and its task, if it exists, becomes Active and is returned; no other task changes. |
| UiModel.Model.constructor | ui/model.go:219-263 | The ui NewModel starts on [Home], with no client disconnect pending, no compose screen, no pending transfers, no progress bars and an empty task manager. |
| UiModel.Model.PushScreen | ui/model.go:143-145 | The history becomes Pushed of the old one, and the pushed screen is current. |
| UiModel.Model.PopScreen | ui/model.go:149-156 | The history becomes Popped of the old one, and the screen returned is the new current one, which PreviousScreen named before. |
| UiModel.Model.ReplaceScreen | ui/model.go:160-166 | The history becomes Replaced of the old one, keeping its length when it was not empty. |
| UiModel.Model.NavigateTo | ui/model.go:170-172 | The history becomes the single given screen. |
| UiModel.Model.HandleModalCancelled | ui/model.go:366-368 | Cancelling any modal pops it. |
| UiModel.Model.LeaveServer | ui/model.go:383-389 | Leaving the server marks a client disconnect and resets the history to [Home]. |
| UiModel.Model.HandleModalButtonClicked | ui/model.go:371-434 | By title: Agree on "Server Agreement" sends the agreement and changes nothing else; any other agreement button, and Exit on "Disconnect from the server?", leave the server; Reply on a "Private Message from" modal opens the compose screen for the remembered sender in the modal's place; every other case pops. |
| UiModel.Model.HandleDisconnect | ui/model.go:327-348 | A disconnect resets the history to [Home] and clears the flag; "Server connection closed." is queued exactly when the client did not start the disconnect. |
| UiModel.Model.HandleTaskStatus | ui/ui.go:1379-1390 | A known task takes the new status and error; a completed or failed one also gets its end time and loses its progress bar; an unknown ID and every other task are left unchanged. |
| UiModel.Model.HandleDownloadReply | ui/ui.go:1393-1405 | The pending entry is always removed; the task it named, if it exists, gets the transfer size, becomes Active and is returned to be transferred; no other task changes. |
| UiModel.Model.HandleUploadReply | ui/ui.go:1407-1424 | An unknown transaction changes nothing; a known one loses its entry, and its task, if it exists, becomes Active and is returned; no other task changes. |
| Modals.NewModalScreen | internal/screen_modal.go:50-67 | A modal always has at least one button: an empty button list becomes a lone "OK", and any other list and the type, title and text are kept. |
| Modals.InitForm | internal/screen_modal.go:69-85 | One button is the affirmative with an empty negative; with two or more, the second is the affirmative, the first the negative, and the field starts on the affirmative. |
| Modals.ClickedAsWritten | internal/screen_modal.go:170-179 | handleFormComplete as written: yes names the last button; no names the first when there are two or more buttons, and "" otherwise. |
| Modals.Clicked | internal/screen_modal.go:69-85 | The label reported is the one the confirm field showed for the answer given, so it is "" or one of the buttons. |
| Modals.ClickedAsWrittenForTwo | internal/screen_modal.go:170-179 | For the one- and two-button modals the client builds, the label handleFormComplete reports is the one the user chose. |
| Modals.ClickedAsWrittenForThree | internal/screen_modal.go:170-179 | With buttons No, Yes and Maybe, confirming the affirmative shown (Yes) is reported as Maybe. |
| Modals.HandleKey | internal/screen_modal.go:145-167 | Esc cancels; another key sends nothing until the form completes, and then always a button-clicked message with the modal's own title and type and the label handleFormComplete picks (lines 170-179): yes names the last button, no the first or "" for a lone button. For one or two buttons that label is the one the confirm field showed (Clicked). |
| Modals.EnterPicksDefault | internal/screen_modal.go:78-85 | Submitting on the starting answer reports the last button of a modal with two or more buttons, which for two is the affirmative the field showed, and the empty label of a one-button one. |
| Modals.UiModalUpdate | ui/screen_modal.go:88-104 | In the ui package a cancelled modal pops the model's screen and leaves the rest of its state alone; a clicked button is handed to the model's handler. |
| ServerScreen.ClampSelection | internal/screen_server.go:413-422 | The selection kept after the user list changes is an index of the new list (0 for an empty list): unchanged when already in range, the last entry when past the end, 0 when negative. |
| ServerScreen.WrapWidth | internal/screen_server.go:445-462 | Chat lines wrap at 33 columns less than the window, never at fewer than 9, so the floor of 5 is never reached. |
| ServerScreen.Server.constructor | internal/screen_server.go:95-140 | A new server screen has the chat input focused, no users, selection 0, no messages and an empty input. |
| ServerScreen.Server.SetServerName | internal/screen_server.go:408-410 | The server name is the one given. |
| ServerScreen.Server.SetUserList | internal/screen_server.go:413-422 | The user list is replaced and the selection is clamped into it, which keeps the selection valid. |
| ServerScreen.Server.AddChatMessage | internal/screen_server.go:425-436 | The message is appended to the transcript, and whether the view was at the bottom is recorded before the append. |
| ServerScreen.Server.FocusChatInput | internal/screen_server.go:439-442 | The chat input has the keyboard afterwards. |
| ServerScreen.Server.ToggleFocus | internal/screen_server.go:302-312 | Tab moves the keyboard between the chat input and the user list. |
| ServerScreen.Server.SelectUp | internal/screen_server.go:329-336 | With the list focused, up moves the selection one entry up, stopping at the first; the selection stays valid. |
| ServerScreen.Server.SelectDown | internal/screen_server.go:338-345 | With the list focused, down moves the selection one entry down, stopping at the last; the selection stays valid. |
| ServerScreen.Server.EnterKey | internal/screen_server.go:375-394 | On the list, enter asks to compose to the selected user when the selection is in range; in the chat it sends the typed text and clears the input, and an empty input sends nothing. |
| ServerScreen.Server.HandleKey | internal/screen_server.go:297-405 | Esc asks to disconnect; the ctrl keys open news, message board, files, accounts and tasks; only tab changes focus; only up and down move the selection; enter on the list asks to compose to the selected user, and in the chat sends and clears the input; while the chat has the keyboard typed text is added to the input and backspace removes its last character, and no other key changes the input; the user list is never changed and the selection stays valid. |
| FileItems.FileTypeEmoji | ui/util_files.go:21-42 | Every type code maps to one of the seven emoji of the switch. |
| FileItems.TableRowsDisjoint | ui/util_files.go:24-38 | No type code appears in two cases of the switch. |
| FileItems.ListedCodes | ui/util_files.go:24-38 | Every code listed in a case maps to that case's emoji. |
| FileItems.UnlistedCode | ui/util_files.go:39-40 | Every code listed in no case maps to the document emoji. |
| FileItems.Title | ui/util_files.go:45-51 | An entry's title ends in a space and its name, after the folder emoji for a folder and its type's emoji for a file. |
| FileItems.Description | ui/util_files.go:52-57 | A folder is described as "Folder", and a file as its size in decimal followed by " KB", which reads back as the size. |
| FilesScreen.ItemOf | ui/screen_files.go:231-238 | A listed file keeps its name, type and creator, is a folder exactly when its type is "fldr", and its size is its byte count rounded down to whole KB. |
| FilesScreen.ItemsOf | ui/screen_files.go:230-239 | One entry per listed file, in the reply's order. |
| FilesScreen.ListingShape | ui/screen_files.go:218-242 | The listing has one entry per file, after a "<- Back" entry exactly when the path is not the root; past that entry it is exactly the entries ItemsOf builds, file by file in the reply's order. |
| FilesScreen.ItemsOfAppend | ui/screen_files.go:231-239 | Appending a file to the reply appends its entry to the list. |
| FilesScreen.Files.constructor | ui/screen_files.go:51-69 | A new files screen is at the root with an empty list. |
| FilesScreen.Files.SetFiles | ui/screen_files.go:218-242 | The list becomes the listing of the reply for the current path. |
| FilesScreen.Files.EnterItem | ui/screen_files.go:173-207 | "<- Back" goes up one level, stopping at the root, and a folder is entered, both asking for the new folder's listing; a file is asked to be downloaded from the current folder. |
| FilesScreen.Files.HandleKey | ui/screen_files.go:127-215 | While filtering every key is the list's; otherwise esc leaves with the path reset, tab asks for the selected entry's info (never for "<- Back"), ctrl+u asks to upload, enter acts on the selected entry, and other keys change nothing. |
| FilesScreen.Files.HandleCancelled | ui/screen_files.go:84-86 | Cancelling pops the files screen off the model's history. |
| FilesScreen.Files.InitiateDownload | ui/screen_files.go:255-289 | A Pending task for the file is added to the task manager, last in its order, and the download transaction's ID maps to the task's ID. |
| JoinServer.LoginOrGuest | internal/screen_join_server.go:337-340 | The login sent is never empty: the one typed, or the guest account. |
| JoinServer.WithDefaultPort | internal/model.go:627-634 | joinServer here and at ui/ui.go:1718-1724 alike: the address always ends up with a port: one with a ':' is used as given, and one without gets ":5600" over TLS and ":5500" otherwise. |
| JoinServer.DefaultPortIdempotent | internal/model.go:627-634 | Adding the default port to an address that already went through it changes nothing. |
| JoinServer.JoinServerScreen.constructor | internal/screen_join_server.go:194-209 | A new join form is an empty connect form with no bookmark index that goes back home. |
| JoinServer.JoinServerScreen.ForConnect | internal/screen_join_server.go:212-231 | A connect form is filled in with the given address, login, password and TLS flag, and goes back to the given page. |
| JoinServer.JoinServerScreen.ForEdit | internal/screen_join_server.go:234-254 | An edit form holds the bookmark's fields and index, and goes back to the bookmark list. |
| JoinServer.JoinServerScreen.ForCreate | internal/screen_join_server.go:257-272 | A create form is empty and goes back to the bookmark list. |
| JoinServer.JoinServerScreen.Submit | internal/screen_join_server.go:333-383 | The message matches the form's mode exactly and carries the fields as entered, with an empty login replaced by the guest account, the edited index when editing and the save flag when connecting. |
| JoinServer.JoinServerScreen.HandleKey | internal/screen_join_server.go:298-330 | Esc cancels back to the page the form came from; any other key sends nothing until the form completes, and then sends its submission. |
| JoinServer.EditUnchangedSavesSame | internal/screen_join_server.go:234-254 | A bookmark with a login, opened for editing and submitted untouched, is saved back unchanged at its own index. |
| Prefs.Settings.IconBytes | ui/settings.go:15-19 | The icon ID is sent as two big-endian bytes that read back as the ID truncated to 16 bits, and as the ID itself when it fits. |
| Prefs.Settings.AddBookmark | ui/screen_settings.go:53-55 | The bookmark, with all five fields, is appended after the existing ones. |
| Prefs.Settings.AddBookmarkAsWritten | ui/settings.go:21-23 | This version appends the bookmark without its name, so a bookmark added with a name does not carry it. |
| Prefs.Unnamed | ui/settings.go:22 | The bookmark stored has an empty name and the given address, login, password and TLS flag. |
| Prefs.DeleteUndoesAdd | ui/screen_settings.go:53-55 | A bookmark added to a list with no entry of the same name and address is removed again by deleting it by name and address. |
| Prefs.DeleteMissesUnnamed | ui/settings.go:21-23 | With the name dropped, deleting the new bookmark by the name it was created with removes nothing. |
| Prefs.ParseIconID | ui/screen_settings.go:210-213 | The icon ID sent is the typed text read as a 64-bit decimal integer, or 0 when it is not one. |
| Prefs.ParseIconIDExamples | ui/screen_settings.go:210-213 | Empty text, a lone sign and trailing letters give 0; "128", "-7" and "+7" give 128, -7 and 7. |
| Prefs.IconIDRoundTrip | ui/screen_settings.go:136-213 | An icon ID shown in decimal by the form and submitted unedited comes back unchanged. |
| Prefs.SettingsScreen.constructor | ui/screen_settings.go:136-154 | The form starts with the settings' values, the icon ID in decimal. |
| Prefs.SettingsScreen.Submit | ui/screen_settings.go:202-225 | The saved message copies every field as entered and parses the icon ID. |

## Left out

- Network and files: TLS and TCP dialing, `dialTransfer`, `fetchTrackerList`, `hlClient.Send` and the `os` calls are not modelled. Incoming streams are byte sequences, outgoing ones are sequences the model appends to, and the files already on disk are a set of paths. Every error these calls could return is a parameter.
- Concurrency: the goroutines that start transfers, the task manager's RWMutex, `program.Send` and the 100 ms ticker are not modelled. The registry is single-threaded, and "the tick has elapsed" is a boolean sequence given to the copy loop.
- Floating point: transfer speed, ETA, percentages, progress bars, `formatSpeed` and the colour gradients are not modelled. `formatBytes` is modelled up to its unit choice and the integer quotient; the one-decimal digit is left out. The progress-bar map of the task widget is only the set of task IDs it holds.
- Foreign library calls are parameters: `EncodeString`, the `Field` serialisation, `FieldScanner`, the info-fork bytes `createInfoFork` builds, `EncodeFilePath`, and the hotline record writers. A transaction is its error code and its list of fields in wire order.
- Presentation: `View` and render methods, lipgloss, the bubbles list and viewport widgets (and so scrolling of the chat and lists), text-input editing and huh forms are not modelled. Where a handler reads a form, the form's completed flag and its answer are inputs.
- Screens that only wrap a form or a widget are not part of this model: compose message, news bundle and category forms, legacy news, article post, loading, home, logs, file picker, tracker, bookmarks, message board and tasks.
- Sound and the terminal bell, the random banner, reading and saving the YAML configuration, main.go, the debug buffer wrapper and the type-only ui/messages.go are not part of this model.
- The internal package's `Settings` type, and with it `handleJoinServerBookmarkCreatedMsg` and the bookmark save inside `HandleJoinServerConnect`, are not part of this model. Only the ui package's `Settings` is modelled.
- FilesScreen.Files.InitiateDownload: the closure that sends the download request is modelled as run at once. The task's uuid, the transaction ID and `time.Now` are inputs.
- ServerScreen.Server.HandleKey: the chat input is a string edited at its end. The text-input widget's cursor movement and its other editing keys are not modelled, so those keys leave the input unchanged in the model.
- Text.ParseInt: models `strconv.Atoi` with Go's 64-bit `int`. Out-of-range text fails, as it does in Go.
- ThreadTree: the depth recursion and the visible-article walk take a fuel bound equal to the number of articles. With distinct IDs and acyclic parent links the bound is never reached. Where the source recurses forever (duplicate IDs, parent cycles), the model stops.
- NewsScreen: the ancestor walk that expands a selected child's parents is cut after one step more than the number of articles. The source loops forever on a parent cycle.
- Transactions: `GetField(...).Data` on a missing field dereferences nil in the source. Where the source does that, the model requires the field to be present.
- Formatting.TruncateName and the other text helpers count characters, while Go's `len` counts UTF-8 bytes. They agree on ASCII names.
- AccountEditor.SplitViewKey: pgup and pgdown move `yOffset` by half the viewport height without the viewport's clamping to the content, so `yOffset` is the offset asked of the viewport, not the one it keeps (it may be negative or past the end).
- UiScreens.Model.AccountPage: the same for the ui package's full-page ViewUp and ViewDown: `accountsYOffset` is the offset asked of the viewport, unclamped, not the one it keeps.
- FileTransfer.Read: a read that returns no bytes and no error is not modelled; io.Reader allows one, and the copy loop would only ask again.
- FileTransfer.Sink: a write that fails writes nothing of its chunk. A file or connection write that fails part-way may have written part of it, which the bytes counted as copied do not include.
- FileTransfer: `filepath.Join` is modelled as joining with "/". The path cleaning it also does is not modelled.
- Modals.UiModalUpdate: states only the cancelled case. A clicked button is delegated to UiModel.Model.HandleModalButtonClicked, which states it.
- Access: the access-bit positions and the guest login ("guest") are constants of the hotline library. They are written into the model with the values that library gives them.

## Findings

| source | as written | input that shows it | evidently intended | confidence | as-written member | corrected member |
|---|---|---|---|---|---|---|
| ui/transaction_handlers.go:517-530 | `HandleNewNewsCat` queues the error "Failed to create category: errMsg" at line 518 on every reply, before it looks at the error code | a reply whose error code is 00 00 00 00 | report only a failed reply, as the sibling `HandleNewNewsFldr` at ui/transaction_handlers.go:503-515 does | not executed | Transactions.NewNewsCatReportsSuccessAsFailure | Transactions.NewNewsCatReportsOnlyFailures |
| ui/settings.go:21-23 | `AddBookmark` ignores its name parameter, so the bookmark is stored without a name. ui/settings.go:5-23 and ui/screen_settings.go:37-55 both declare `Settings`, `IconBytes` and `AddBookmark` in package ui, so the package as shown does not compile; the dropped name is what happens only if ui/settings.go is the version built | a bookmark named "Home" added from ui/screens.go:381: deleting "Home" by name and address afterwards finds nothing | store the name, as the `AddBookmark` of ui/screen_settings.go:53-55 does | low (depends on which duplicate declaration is built), not executed | Prefs.Settings.AddBookmarkAsWritten, with Prefs.DeleteMissesUnnamed | Prefs.Settings.AddBookmark, with Prefs.DeleteUndoesAdd |
| internal/screen_modal.go:170-179 (the same at ui/screen_modal.go:150-160) | a confirmed modal reports the last button, but the confirm field shows `buttons[1]` as the affirmative | buttons ["No", "Yes", "Maybe"], confirmed: "Maybe" is reported while the field showed "Yes" | report `buttons[1]`, the button shown; for one or two buttons this is the same | low, not executed | Modals.ClickedAsWrittenForThree, and Modals.HandleKey which sends the as-written label | Modals.Clicked, with Modals.ClickedAsWrittenForTwo showing the two agree for every modal the client builds |

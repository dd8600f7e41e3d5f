# Deep-dive document scanner: a Dafny model of its core

This project models the core of a document-scanning dashboard. It has two parts:

- **The deep-dive page** (`frontend/src/pages/DeepDive.js`). A user selects uploaded documents,
  or one "Pro" PDF uploaded in 5 MiB chunks, and starts a scan. The page reads the server-sent
  event stream and folds its records into live progress, a thinking trace, live findings and a
  final result. Two chat panels converse about the documents.
- **The server** (`backend/server.py`). It cuts a document into batches of 10, 20 or 30 pages,
  asks a language model about each batch and normalises the JSON the model returns. It filters
  pages by range, computes page coverage, keeps the byte counter of an upload session, picks a
  Gemini Pro model, splits a large PDF into parts of at most 1000 pages, and decides whether a
  Pro scan runs in batch mode.

The modules follow those two files:

| module | file | models |
|---|---|---|
| `Wrappers` | wrappers.dfy | `Option`, `Result`, sequence flattening |
| `Numbers` | numbers.dfy | `Math.round`, Python `round`, `Math.ceil` of a ratio |
| `Strings` | strings.dfy | `split`, `indexOf`/`rfind`, `trim`, `toLowerCase`, `endsWith` |
| `Sse` | sse.dfy | "data: " framing of the event streams, read by read |
| `Progress` | progress.dfy | the page's scan state, the Pro and legacy reducers |
| `Scan` | scan.dfy | `runProAnalyze` and `startScan`, with their reader loops |
| `ProUpload` | upload.dfy | `uploadPdfPro`: its guards, the chunk loop and the percents shown |
| `UploadStore` | uploadstore.dfy | `pro_upload_init` and `pro_upload_chunk` on the session collection |
| `Chat` | chat.dfy | `ChatPanel.sendMessage`, `sendProChat`, the Pro document picker |
| `Selection` | selection.dfy | `toggleDoc`, the deletion filter, `totalPages`, `effectivePages`, `estimateTime` |
| `Batching` | batching.dfy | `deep_analyze_stream` |
| `PdfSplit` | pdfsplit.dfy | `_split_pdf_by_pages` |
| `Backend` | backend.dfy | page-range filter, the percents a multi-document scan relays, coverage, `gemini_select_pro_model`, `needs_split`, `batch_mode` |

**How the code maps to Dafny:**

- React state that a handler updates step by step is a class whose methods change its fields:
  `Scan.ScanPage`, `ProUpload.ProUploadPanel`, `Chat.ChatPanel`, `Chat.ProChat` and
  `UploadStore.SessionStore`.
- Each such method is proved equal to a pure function of the old state, and the properties are
  proved about that function.
- The source's `while` and `for` loops are methods with loop invariants: the reader loops, the
  upload chunk loop, the batch loop, the PDF splitter's two loops and the model-selection loop.
- The network, the language model, `JSON.parse`, the PDF writer's byte count and fresh uuids are
  parameters.

## Model

| member | source | states |
|---|---|---|
| Numbers.JsRound | frontend/src/pages/DeepDive.js:802 | the result is the integer nearest n/d, a half rounding up, as `Math.round` does |
| Numbers.JsRoundRatio | frontend/src/pages/DeepDive.js:898 | the same for a denominator of either sign |
| Numbers.PyRound | backend/server.py:346 | the result is the integer nearest n/d, and an exact half goes to the even neighbour, as Python's `round` does |
| Numbers.CeilDiv | frontend/src/pages/DeepDive.js:111-113 | the result q is the ceiling of n/d: (q-1)·d < n ≤ q·d |
| Numbers.CeilDivUnique | frontend/src/pages/DeepDive.js:111-113 | that ceiling is the only integer with this property |
| Numbers.JsRoundMonotone | frontend/src/pages/DeepDive.js:898 | `Math.round` of a ratio never decreases as the numerator grows |
| Numbers.JsRoundBetween | frontend/src/pages/DeepDive.js:898 | a ratio between two integers rounds to a value between them |
| Numbers.PyRoundMonotone | backend/server.py:346 | Python's `round` of a ratio never decreases as the numerator grows |
| Numbers.PyRoundWhole | backend/server.py:346 | a whole ratio rounds to itself |
| Numbers.RisingAppend | frontend/src/pages/DeepDive.js:898-911 | two non-falling runs, the second starting at or above the first's end, join into one non-falling run |
| Strings.Split | frontend/src/pages/DeepDive.js:881 | `split('\n')` always gives at least one piece |
| Strings.SplitJoin | frontend/src/pages/DeepDive.js:881 | there is one more piece than separators, no piece holds a separator, and joining the pieces gives the string back |
| Strings.SplitAppend | frontend/src/pages/DeepDive.js:881 | splitting a + b fuses the last piece of a with the first piece of b |
| Strings.SplitLineEnd | frontend/src/pages/DeepDive.js:881 | a separator-free line followed by the separator splits off as one piece |
| Strings.IndexOf | backend/server.py:358 | the first index of c, or -1 exactly when c is absent |
| Strings.LastIndexOf | backend/server.py:359 | the last index of c, or -1 exactly when c is absent |
| Strings.AsciiLower | frontend/src/pages/DeepDive.js:773 | each character is lower-cased on its own and the length is kept |
| Strings.RemoveAll | backend/server.py:161 | removal never lengthens the text, and text without the pattern is unchanged |
| Strings.RemoveAllPrefix | backend/server.py:161 | a leading occurrence of the pattern is removed and the rest, free of it, is kept as is |
| Strings.TrimStartRemovesLeadingSpace | frontend/src/pages/DeepDive.js:619 | `trimStart` removes exactly the leading white space |
| Strings.TrimEndRemovesTrailingSpace | frontend/src/pages/DeepDive.js:619 | `trimEnd` removes exactly the trailing white space |
| Strings.TrimIsEmptyIffBlank | frontend/src/pages/DeepDive.js:619 | `!s.trim()` holds exactly when every character is white space |
| Sse.PayloadsAppend | frontend/src/pages/DeepDive.js:882-885 | the payloads of two runs of lines are those of each, in order |
| Sse.StreamPayloadsAppend | frontend/src/pages/DeepDive.js:877-885 | the payloads of two runs of reads are those of each, in order |
| Sse.ReadPayloadsAtLineEnd | frontend/src/pages/DeepDive.js:880-885 | when the first read ends in a newline, two reads decode as their concatenation would |
| Sse.FramesRoundTrip | backend/server.py:541-573 | a read of whole `data: <json>\n\n` frames gives back exactly their payloads, in order |
| Sse.AlignedReadsDecodeAsOne | frontend/src/pages/DeepDive.js:877-885 | when every read but the last ends in a newline, decoding read by read equals decoding the whole body |
| Sse.SplitLineIsLost | frontend/src/pages/DeepDive.js:880-885 | as written: a frame cut between two reads yields no payload, though the same bytes in one read yield "x" |
| Sse.BufferedDecodesWholeLines | frontend/src/pages/DeepDive.js:880-885 | with a carried partial line, the payloads are those of the complete lines of the whole stream, and the carry is its unfinished last line |
| Sse.BufferedIsFragmentationInvariant | frontend/src/pages/DeepDive.js:880-885 | with a carry, two ways of cutting the same bytes into reads decode alike |
| Progress.Reset | frontend/src/pages/DeepDive.js:855-860 | starting a scan clears the progress, the trace, the live findings and the result, and keeps the rubric |
| Progress.BatchStartPercent | frontend/src/pages/DeepDive.js:898 | 20 without a total, otherwise between 10 and 90 for a part within the total |
| Progress.BatchDonePercent | frontend/src/pages/DeepDive.js:908-911 | at most 90; 50 when the part or the captured total is missing; at least 10 for a part within the total |
| Progress.ProApply | frontend/src/pages/DeepDive.js:887-931 | `start` sets 5% and the part count (1 when absent or 0); `batch_start` and `batch_done` set their percents; `done` sets 100 and shows the outcome for the query; `error` alone ends the scan; other records change nothing; the trace and live findings never change |
| Progress.ProRunAppend | frontend/src/pages/DeepDive.js:877-936 | folding two stretches of records is folding the first, then the second unless an `error` stopped it |
| Progress.ProErrorIsFinal | frontend/src/pages/DeepDive.js:915-919 | nothing after an `error` is applied |
| Progress.ProRunKeepsTrace | frontend/src/pages/DeepDive.js:887-931 | the Pro scan never changes the thinking trace or the live findings |
| Progress.ProRunStopsOnError | frontend/src/pages/DeepDive.js:915-919 | the scan stops exactly when some record is an `error` |
| Progress.ProRunOutcome | frontend/src/pages/DeepDive.js:920-931 | an outcome is shown exactly when a `done` arrives before any `error`, and it answers the scan's own query |
| Progress.PercentsLast | frontend/src/pages/DeepDive.js:887-931 | the last percent shown is the one the run ends with |
| Progress.PercentsAppend | frontend/src/pages/DeepDive.js:887-931 | the percents of two stretches of records are those of each, in order |
| Progress.StaleTotalLowersPercent | frontend/src/pages/DeepDive.js:907-911 | as written: on a first scan of three parts the percents are 5, 10, 50, 37, which fall |
| Progress.CurrentTotalPartsRise | frontend/src/pages/DeepDive.js:897-914 | corrected, with the current total: over parts b..t the percent never falls, stays at most 90, and nothing stops the run |
| Progress.CurrentTotalStreamRises | backend/server.py:541-570 | corrected: over a whole multi-part stream the percent never falls and ends at 100 |
| Progress.LegacyApply | frontend/src/pages/DeepDive.js:1070-1113 | each record type updates its own slice of the state: progress for `start` and `document_start` and the stream's progress reports; the trace for `thinking`; the findings for `finding`; the stored analysis for `done`. `error` and other types change nothing |
| Progress.LegacyRunAppend | frontend/src/pages/DeepDive.js:1058-1119 | folding two stretches of records is folding one, then the other |
| Progress.LegacyPercents | frontend/src/pages/DeepDive.js:1070-1113 | one percent shown per record |
| Progress.Reports | frontend/src/pages/DeepDive.js:1090-1096 | one `progress` record per percent, carrying it |
| Progress.LegacyShowsReported | frontend/src/pages/DeepDive.js:1090-1096 | the legacy page shows each reported percent as it arrives, replacing what it showed |
| Progress.LegacyRunAppendsInOrder | frontend/src/pages/DeepDive.js:1070-1113 | the trace and the findings grow by exactly the thoughts and findings the records carry, in order |
| Progress.ScanStartsClean | frontend/src/pages/DeepDive.js:1032-1037 | after a reset, a scan's trace and findings are exactly those its own records carry |
| Progress.LegacyErrorIsNotTerminal | frontend/src/pages/DeepDive.js:1104-1106 | an `error` in the legacy flow changes nothing, and the records after it still apply |
| Progress.LegacyIgnoresUnknown | frontend/src/pages/DeepDive.js:1070-1113 | a record type the switch does not list changes nothing |
| Scan.EventsAppend | frontend/src/pages/DeepDive.js:884-885 | decoding two runs of payloads gives the events of each, in order |
| Scan.AllEvents | frontend/src/pages/DeepDive.js:877-885 | the events read so far, followed by those still to come, are the events of the whole body |
| Scan.ReadPro | frontend/src/pages/DeepDive.js:877-936 | the reader loop leaves the view the Pro reducer computes from the events of the body, stopping at an `error` |
| Scan.ReadProLines | frontend/src/pages/DeepDive.js:881-935 | the lines of one read either continue the fold or end the whole scan on an `error` |
| Scan.ReadLegacy | frontend/src/pages/DeepDive.js:1058-1119 | the reader loop leaves the view the legacy reducer computes from every event of the body |
| Scan.ReadLegacyLines | frontend/src/pages/DeepDive.js:1062-1118 | the lines of one read extend the fold by that read's events |
| Scan.ScanPage.RunProAnalyze | frontend/src/pages/DeepDive.js:841-942 | refused by its guards it changes nothing; otherwise it ends on the results tab, not analyzing, with a reset view and, when there is a response, the Pro fold of its events |
| Scan.ScanPage.StartScan | frontend/src/pages/DeepDive.js:1028-1125 | refused by its guards it changes nothing; otherwise it ends on the results tab, not analyzing, with the legacy fold of the events |
| Scan.ScanPage.constructor | frontend/src/pages/DeepDive.js:697-699 | an empty view on the home tab, not analyzing |
| ProUpload.Slices | frontend/src/pages/DeepDive.js:791-793 | the first slice starts at the offset; there are none once the offset reaches the size |
| ProUpload.SlicesTile | frontend/src/pages/DeepDive.js:791-803 | the slices are non-empty, at most 5 MiB, consecutive, and end at the file size |
| ProUpload.SlicesCount | frontend/src/pages/DeepDive.js:789-803 | the loop posts ceil(remaining / 5 MiB) slices |
| ProUpload.TwelveMiBTakesThreeSlices | frontend/src/pages/DeepDive.js:789-803 | a 12 MiB file goes up as 5, 5 and 2 MiB |
| ProUpload.UploadPercent | frontend/src/pages/DeepDive.js:802 | within 0..60 while the offset is within the file, and 60 at its end |
| ProUpload.SlicePercentsRise | frontend/src/pages/DeepDive.js:791-804 | the percents shown during the loop never fall and stay at most 60 |
| ProUpload.ShownRises | frontend/src/pages/DeepDive.js:784-814 | after the initial 1% the percents never fall, and 100 is shown exactly when no request throws |
| ProUpload.InitFails | frontend/src/pages/DeepDive.js:786-790 | when the init request throws, only it was sent and only 1% was shown |
| ProUpload.ChunkFails | frontend/src/pages/DeepDive.js:791-804 | when chunk f throws, the init request and the first f chunks were sent, and the percents of the first f-1 were shown |
| ProUpload.CompleteSent | frontend/src/pages/DeepDive.js:806-814 | once every slice is posted, 70% is shown and the complete request goes out last |
| ProUpload.ProUploadPanel.UploadPdfPro | frontend/src/pages/DeepDive.js:771-820 | refused by its guards it sends nothing and changes nothing; otherwise it sends the requests of an upload up to and including the one that throws, shows the percents of `Shown`, and ends not uploading |
| ProUpload.ProUploadPanel.Transfer | frontend/src/pages/DeepDive.js:781-819 | the requests and percents of the upload after its guards, ending not uploading on the last percent shown |
| ProUpload.ProUploadPanel.PostSlice | frontend/src/pages/DeepDive.js:792-803 | one pass of the loop: the next slice ends at min(offset + 5 MiB, size) and is posted; unless its request throws, its percent is shown |
| ProUpload.ProUploadPanel.PostChunks | frontend/src/pages/DeepDive.js:786-804 | the chunk loop posts the slices in order, stops at the first that throws, and shows one percent per slice posted |
| ProUpload.ProUploadPanel.constructor | frontend/src/pages/DeepDive.js:706-707 | not uploading, at 0% |
| UploadStore.Opened | backend/server.py:451-459 | a new session has an empty file, counts 0 bytes and is uploading |
| UploadStore.Receive | backend/server.py:461-471 | an unknown id is 404 and an empty body 400, neither changing anything; otherwise the body is appended to that session's file, its length is added to the counter, its name, size and status stay as they were, and no other session changes |
| UploadStore.ReceiveKeepsCounted | backend/server.py:461-471 | every session's counter stays equal to the length of its file |
| UploadStore.ReceiveAllAppends | backend/server.py:461-471 | non-empty chunks for an open session are appended and counted in order; the session keeps its name, size and status, and no other session changes |
| UploadStore.BodiesRebuild | frontend/src/pages/DeepDive.js:791-803 | the bodies the client cuts are non-empty and together give back the file |
| UploadStore.UploadRebuildsFile | backend/server.py:451-471 | an upload carried to the end leaves the server's file equal to the client's, with the counter at its size |
| UploadStore.SessionStore.Init | backend/server.py:451-459 | adds the opened session under the fresh id and keeps every counter right |
| UploadStore.SessionStore.Chunk | backend/server.py:461-471 | does what `Receive` describes and keeps every counter right |
| UploadStore.SessionStore.constructor | backend/server.py:451-459 | starts with no sessions |
| Chat.DropLast | frontend/src/pages/DeepDive.js:635 | `slice(0, -1)` removes exactly the last message |
| Chat.SendUnchangedIffRefused | frontend/src/pages/DeepDive.js:619 | a send changes nothing exactly when the input is blank or there are no documents, and exactly then nothing is posted |
| Chat.FailureRollsBack | frontend/src/pages/DeepDive.js:620-637 | a failed request leaves the transcript and session as they were, with the input cleared |
| Chat.ConverseTranscript | frontend/src/pages/DeepDive.js:618-638 | over a conversation the transcript gains exactly the answered exchanges, in order |
| Chat.ConverseKeepsSession | frontend/src/pages/DeepDive.js:631 | once the panel has a session id, it keeps it |
| Chat.ChatPanel.SendMessage | frontend/src/pages/DeepDive.js:618-638 | the panel's new state is `Send` of the old one, and the request posted is `RequestOf` it |
| Chat.ChatPanel.constructor | frontend/src/pages/DeepDive.js:608-611 | an empty transcript, an empty input, not loading, no session |
| Chat.SelectProDocument | frontend/src/pages/DeepDive.js:1337 | picking a Pro document selects it and starts an empty conversation with no session |
| Chat.ProConverseOutcome | frontend/src/pages/DeepDive.js:944-963 | the Pro chat never takes a turn back, its session id is that of the latest reply, and the selection is kept |
| Chat.LastSessionCons | frontend/src/pages/DeepDive.js:958 | the latest reply's session id, read front to back |
| Chat.ProChat.SendProChat | frontend/src/pages/DeepDive.js:944-963 | the new state is `ProSend` of the old one, and the request posted is `ProRequestOf` it |
| Chat.ProChat.Select | frontend/src/pages/DeepDive.js:1337 | the new state is `SelectProDocument` of the old one |
| Chat.ProChat.constructor | frontend/src/pages/DeepDive.js:709-711 | nothing selected, no messages, no session |
| Selection.Without | frontend/src/pages/DeepDive.js:1004 | filtering never lengthens the selection |
| Selection.WithoutKeepsOthers | frontend/src/pages/DeepDive.js:997 | the filter drops every copy of the id and keeps every other id |
| Selection.ToggleFlips | frontend/src/pages/DeepDive.js:996-998 | toggling flips the id's membership and leaves every other id alone |
| Selection.ToggleTwice | frontend/src/pages/DeepDive.js:996-998 | toggling an unselected id twice restores the selection |
| Selection.ToggleKeepsDistinct | frontend/src/pages/DeepDive.js:996-998 | a selection built by toggling never holds an id twice |
| Selection.TotalPagesBySet | frontend/src/pages/DeepDive.js:1134-1135 | the total depends only on which ids are selected |
| Selection.ToggleChangesTotal | frontend/src/pages/DeepDive.js:1134-1135 | selecting a document adds its pages to the total; deselecting takes them away |
| Selection.EffectivePagesCounts | frontend/src/pages/DeepDive.js:1137-1139 | never more than the total; the size of a range inside the documents; the total without a range |
| Selection.PagesPerBatch | frontend/src/pages/DeepDive.js:69-100 | thorough reads 10 pages a batch, balanced 20 and fast 30, each exactly for that speed; any other speed has no entry |
| Selection.EstimateBrackets | frontend/src/pages/DeepDive.js:108-117 | for pages > 0 the estimate is whole minutes bracketing 9 and 15 seconds per batch; "< 1 min" appears exactly for a negative count |
| Selection.EstimateMonotone | frontend/src/pages/DeepDive.js:108-117 | more pages never give a lower minimum |
| Selection.BalancedThousandPages | frontend/src/pages/DeepDive.js:108-117 | 1000 pages at balanced speed read "~8-13 min" |
| Batching.BatchSize | backend/server.py:336-337 | 10, 20 or 30 pages, and 20 for an unknown speed |
| Batching.TotalBatchesIsCeil | backend/server.py:340 | `(n + size - 1) // size` is the ceiling of n / size |
| Batching.BatchesTile | backend/server.py:341-342 | the batches are non-empty, at most `batch_size` pages each, and together give every page once, in order |
| Batching.BatchesCount | backend/server.py:340-341 | there are `total_batches` batches |
| Batching.BatchPercentBounds | backend/server.py:346 | batch percents grow with the batch, stay within 0..100 and reach 100 on the last batch |
| Batching.NormalizeStatus | backend/server.py:366 | "found" for match, possible or found; "empty" for empty; "no_match" for anything else |
| Batching.ToFinding | backend/server.py:369-370 | a finding keeps the page, the document and the text; its match type is "possible" exactly for a possible page; confidence defaults to "medium" |
| Batching.Analyzed | backend/server.py:373-374 | a reply that is not JSON logs every page of the batch |
| Batching.JsonSpanIsOutermost | backend/server.py:358-360 | a span exists exactly when some '{' precedes some '}', and it runs from the first '{' to the last '}' |
| Batching.AddReplyExtends | backend/server.py:347-377 | handling a reply only appends to the updates, the findings and the log, and every collected finding is one yielded and has a text |
| Batching.AddBatchExtends | backend/server.py:341-377 | a batch adds exactly its own progress percent to the percents |
| Batching.AddBatchesExtends | backend/server.py:341-377 | the batches add exactly the percents of batches 1..k |
| Batching.BatchPercentsRise | backend/server.py:346 | those percents never fall and end at round(k / total · 100) |
| Batching.StreamOutcome | backend/server.py:322-378 | one progress update per batch, its percents rising to 100; then a final update whose findings are exactly those yielded before it, each with a text, and whose analysed count is the length of its page log |
| Batching.DeepAnalyzeStream | backend/server.py:322-378 | yields exactly `Stream`: one error without a key, otherwise the batch loop's updates and the final update |
| Batching.RunBatches | backend/server.py:341-377 | the loop's updates, findings and log are those of the batches handled in order |
| Batching.ProcessBatch | backend/server.py:341-377 | one batch: its progress update, then its reply |
| Batching.HandleReply | backend/server.py:347-377 | a raised call yields an error; a reply without a span changes nothing; unparsable JSON logs every page "analyzed"; otherwise the thinking and the page results are added |
| Batching.PageFindings | backend/server.py:368-372 | the findings of one page result, those without text dropped |
| PdfSplit.Range | backend/server.py:247-256 | pages a..b, of length b - a + 1 or 0 |
| PdfSplit.RangeJoin | backend/server.py:268 | two adjacent ranges make one |
| PdfSplit.FillShape | backend/server.py:246-258 | the inner loop stops at most one past the last page and one past the cap, having added the pages before it (or, cut short by size, up to where it stopped) |
| PdfSplit.Close | backend/server.py:259-263 | the recorded end lies between the start and the last page, and a part is never empty |
| PdfSplit.SplitPdfByPages | backend/server.py:234-269 | the outer loop produces exactly `Split` |
| PdfSplit.Round | backend/server.py:243-268 | one round records the part at `start`, and the rest follows from its end |
| PdfSplit.ClosePart | backend/server.py:259-268 | records the part as `Close` describes |
| PdfSplit.FillPart | backend/server.py:244-258 | the inner loop reaches the state `Fill` describes |
| PdfSplit.PartShape | backend/server.py:243-268 | each part is a non-empty run of at most 1000 pages from its start, with the end the rule gives |
| PdfSplit.SplitTiles | backend/server.py:242-268 | parts are numbered from 1, the first starts at page 1, each starts right after the previous recorded end, the last ends at the last page |
| PdfSplit.SplitCovers | backend/server.py:234-269 | corrected: with the end taken from the last page written, the parts hold every page exactly once, in order |
| PdfSplit.FillUnderLimit | backend/server.py:246-258 | when no size check trips, the inner loop stops at the cap or after the last page |
| PdfSplit.CapLosesPage | backend/server.py:246-268 | as written: a 1001-page PDF of small pages gives one part recorded as 1-1001 that lacks page 1001 |
| PdfSplit.CapKeepsPage | backend/server.py:246-268 | corrected: the same PDF gives parts 1-1000 and 1001-1001 |
| Backend.FilterPagesKeeps | backend/server.py:622-627 | with a start or an end, exactly the pages numbered within the range are kept; without either, every page is |
| Backend.KeepRangeMembers | backend/server.py:626 | a page is kept exactly when its number lies in (start - 1, end] |
| Backend.KeepRangeAppend | backend/server.py:626 | the kept pages stay in their order |
| Backend.KeepRangeCount | backend/server.py:626 | on pages numbered 1..n, as many pages are kept as the range holds |
| Backend.RangeEstimateAgrees | backend/server.py:622-627 | for a range inside one document, the server keeps as many pages as the page's `effectivePages` shows |
| Backend.FoundPagesSnoc | backend/server.py:651 | one more finding adds a page exactly when it is not "possible" and its page is new |
| Backend.PagesWithFindingsBound | backend/server.py:651 | never more pages than findings, and none without findings |
| Backend.EstimateUsesServerBatches | backend/server.py:336-337 | the page estimates with the server's batch size for every speed it offers; only an unknown speed has no estimate, and the server reads it at 20 pages |
| Backend.NoPagesNoProgress | backend/server.py:340-346 | a document without pages yields no progress update |
| Backend.RelayedCount | backend/server.py:636-648 | a multi-document scan relays one percent per batch of all its documents |
| Backend.FortyPagesBalanced | backend/server.py:336-346 | a 40-page document at the balanced speed reports 50%, then 100% |
| Backend.PerDocumentPercentsRestart | backend/server.py:636-648 | as written: two 40-page documents relay 50, 100, 50, 100, which falls, and the legacy page shows exactly that |
| Backend.OverallPercents | backend/server.py:636-648 | corrected: one percent per batch of the whole scan |
| Backend.OverallPercentsRise | backend/server.py:636-648 | corrected: numbered across the scan, the percents never fall, end at 100, and the legacy page shows exactly them |
| Backend.CoverageBounds | backend/server.py:653 | 0 without pages, growing with the pages analysed, within 0-100% while they are at most the total, and 100% for all of them |
| Backend.UsableNamesMembers | backend/server.py:162-169 | a name is usable exactly when some listed model with that name offers generateContent, is a Pro model and not Flash, and is not excluded |
| Backend.FirstCandidate | backend/server.py:172-174 | a candidate chosen is a usable one |
| Backend.ChoiceIsUsable | backend/server.py:158-177 | the model chosen is usable; there is an error exactly when none is; a usable preferred model always wins; with neither it nor a candidate usable, the first usable model in list order is taken; the error names the first 80 listed models, normalised, in order |
| Backend.NoCandidateUsable | backend/server.py:172-174 | with no candidate usable, no candidate is taken |
| Backend.CandidateOrder | backend/server.py:170-174 | without a usable preferred model, the first usable candidate in preference order is taken |
| Backend.AllNames | backend/server.py:176 | one normalised name per listed model, in list order |
| Backend.NormStripsPrefix | backend/server.py:161 | a "models/"-prefixed name normalises to its id, and an id is already normal |
| Backend.CandidatesAreNormal | backend/server.py:172-174 | each candidate, bare or "models/"-prefixed, normalises to itself, so a listed candidate is found by name |
| Backend.NoSlashNoPrefix | backend/server.py:161 | a name without "/" holds no "models/" and so is not changed by normalising |
| Backend.SelectProModel | backend/server.py:158-177 | the selection loop returns `ChooseProModel` of the list |
| Backend.PartsWithinPageLimit | backend/server.py:480-483 | every recorded part holds at most 1000 pages |
| Backend.TokenModeImpliesParts | backend/server.py:529-534 | a document large enough for token batch mode is always split into two parts or more |
| Backend.OverLimitIsBatched | backend/server.py:529-534 | corrected: any document over 1000 pages is analysed in batch mode |
| Backend.ThousandAndOnePagesNotBatched | backend/server.py:529-534 | as written: a 1001-page document is recorded as one part without page 1001 and is not batched |

## Left out

- Floating point. The percent figures, `0.15` and `0.25` in the time estimate, coverage rounded to one decimal and megabytes are exact integer ratios. Each rounding (`Math.round`, `Math.ceil`, Python `round`) is written out, so ties follow the source's rule on the exact value, not on a binary float.
- Lower-casing covers only ASCII letters. Trimming recognises space, tab, the line breaks, vertical tab, form feed, no-break space, the byte-order mark and the line and paragraph separators; the other Unicode space separators that JavaScript's `trim` also removes are not modelled.
- `TextDecoder` is left out. Reads are strings, so a multi-byte character cut between two reads is not modelled.
- `JSON.parse`, `json.loads` and the model's reply text are opaque parameters (`parse`, `llm`). `json.loads` raising anything other than `JSONDecodeError` is not modelled.
- Batching.HandleReply: does not model a reply whose JSON parses but has the wrong shape (`"page_results": null`, an entry that is not an object, `"findings": null`). In the source, the `.get` or the iteration then raises inside the batch's `try` (server.py:363-372). The batch yields `{"type": "error", "batch": b}` (server.py:375-377), keeping the log entries and findings added before the raise. `parse` returns only a well-typed `BatchResult` or nothing, so the model has no partial page and no error for this path. The same holds for `Batching.AddReply`.
- Fresh uuids, the clock, toasts, React rendering, localStorage, axios/fetch transport, MongoDB, Gemini's Files API and `LlmChat` are parameters or left out. The outcome of each request is an input: `Reply`, `failAt`, `response`, `fetch`.
- The status texts are kept as the values they show, not as formatted strings. The model name, relevance mode and status text of the server's legacy updates are dropped. The properties proved do not depend on them.
- The PDF writer's byte count is an oracle `size(start, cur)`. The 50-page check interval is kept only through that oracle.
- The state updates of a scan are applied in arrival order. React's batching and the interleaving of async handlers are not modelled; the one closure effect that matters, the stale `progress` read by `batch_done`, is.
- `pro_upload_complete` is modelled only as far as the split decision and the parts it records. Uploading to Gemini, polling and storing the document are left out.
- The token-batch-mode branch of `pro_analyze_stream` is a `pass` in the source and yields nothing, so only its effect on `batch_mode` is modelled.
- The analysis history cache and `loadProDocuments` are not part of this model.
- Findings carry page numbers without their document, as server.py:651 counts them: equal page numbers from two documents are one page in `FoundPages` and `PagesWithFindings`. The model keeps this behaviour.

## Findings

| source | as written | input that shows it | evidently intended | confidence | as-written member | corrected member |
|---|---|---|---|---|---|---|
| backend/server.py:246-268 | a part closed by the 1000-page cap records `end = current_page`, one past its last page, and the next part starts after it | a 1001-page PDF of small pages: one part, recorded as pages 1-1001, whose file holds pages 1-1000 | the end is the last page written, so every page is in some part and a 1001-page PDF is split and batched | high, not executed | PdfSplit.CapLosesPage, Backend.ThousandAndOnePagesNotBatched | PdfSplit.CapKeepsPage, PdfSplit.SplitCovers, Backend.OverLimitIsBatched |
| frontend/src/pages/DeepDive.js:908 | the `batch_done` percent divides by `progress.totalBatches` from the handler's render-time closure, not by the current state | the first Pro scan of a 3-part document: 5, 10, 50, 37 | divide by the current total, so the percent never falls | high, not executed | Progress.StaleTotalLowersPercent | Progress.CurrentTotalPartsRise, Progress.CurrentTotalStreamRises |
| backend/server.py:636-648 | each document's stream numbers its batches from 1 and its percent `round(b / total_batches * 100)` restarts at every document; the legacy page (DeepDive.js:1090-1096) shows each percent as it arrives | two 40-page documents at the balanced speed: 50, 100, 50, 100; the bar reaches 100 halfway and falls back, and `done` never sets it | number the batches across the scan, so the percent never falls and ends at 100 on the last batch | medium, not executed | Backend.PerDocumentPercentsRestart | Backend.OverallPercents, Backend.OverallPercentsRise |
| frontend/src/pages/DeepDive.js:880-885 | each network read is split into lines on its own, with no carry-over between reads | reads "da" and "ta: x\n": the payload "x" is lost | carry the unfinished last line into the next read | medium, not executed | Sse.SplitLineIsLost | Sse.BufferedDecodesWholeLines, Sse.BufferedIsFragmentationInvariant |

The scan handlers (`Scan`) model the page as written: they decode each read on its own. The
buffered decoder is the corrected definition; `Sse.AlignedReadsDecodeAsOne` shows that the two
agree whenever every read ends on a line boundary.

For the multi-document percents, `Batching` models one document's stream, which is right on its
own: its percents rise to 100 (`Batching.StreamOutcome`). The fault lies in relaying the streams
one after the other. The model states the relayed percents and the scan-wide percents side by
side; it does not model the relay's database writes.

# UITestKit recording core, modelled in Dafny

UITestKit is a Windows desktop tool for recording test kits of a client/server application.

- It starts the client and the server as console processes.
- It puts a recording proxy (the "middleware") between them.
- It captures, stage by stage, what happens:
  - the actions the tester declares (InputClient rows);
  - what the client side receives (OutputClient rows);
  - what the server side receives (OutputServer rows).
- Each captured payload is tagged with a data type.
- A recording can be exported to a Detail workbook and loaded back.
- JSON and XML payloads can be compared structurally.

This project models the logic around that plumbing and proves what it does:

| module | file | models |
|---|---|---|
| `Inspection` | `data_inspector.dfy` | the payload classifier (Empty, Integer, JSON, XML, String, Binary) |
| `StageStore` | `recorder_window.dfy` | the stage store of the recorder window: the stage counter, stage creation and deletion, the ignore filter, console lines appended to the current stage |
| `Proxy` | `middleware_start.dfy` | the proxy's session flag with its start and stop guards; the TCP relay that forwards every chunk and folds it into the recorder's rows; the records an HTTP exchange adds |
| `ConsoleCapture` | `executable_manager.dfy` | the stdout and stderr line splitters of the process monitor |
| `Folders` | `folder_manager.dfy` | the workspace root; test-kit name validation; cell conversion; the three Detail-sheet loaders; the free export file name; file icons |
| `RecorderTab` | `recorder_window_content.dfy` | the recorder tab: flattening the stages into export sheets, reloading stages, and the run/dispose guards |
| `Compare` | `datacompare.dfy` | the structural JSON/XML comparison over dictionaries and an element tree |
| `NameDialog` | `test_kit_name_dialog.dfy` | the new-test-kit dialog: default name, folder preview, and the Create validation |
| `Records` | `records.dfy` | the record types |
| `Wrappers`, `Text`, `Paths`, `Seqs` | | shared definitions: Option/Result, .NET string and integer conversions, `Path.Combine`, sequence helpers |

Cross-cutting modelling choices:

- **Values and objects.** Records are values. Objects whose fields the source updates in place are classes: the recorder window, the proxy, the recorder tab, the folder manager and the dialog. Their methods state the whole new state.
- **Loops.** Loops in the source are loops in the model. Each loop is proved against a specification function, and the lemmas beside it state what the source promises about that function.
- **Environment as parameters.** These are parameters of the model:
  - the UTF-8 decoder and the JSON/XML parsers;
  - the clock's timestamp;
  - `Path.GetInvalidFileNameChars`;
  - the set of existing files;
  - the answers of confirmation dialogs.

Behaviour of the code worth noting:

- Stage numbers come from a counter that only grows. Freed numbers are not reused.
- Deleting the last remaining stage is allowed.
- A proxy whose listener fails to bind still counts as running.
- The recorder window sends console lines to the stage with the highest number. The proxy instead attributes traffic to the stage of the last InputClient.

## Model

| member | source | states |
|---|---|---|
| Inspection.Classify | UITestKit/Service/DataInspector.cs:11-53 | Empty exactly for a null or zero-length payload; a String has only printable bytes, and a Binary payload has some unprintable byte |
| Inspection.DetectDataType | UITestKit/Service/DataInspector.cs:9-54 | the tag returned is the name of the first matching rule of the classification, and the printability scan of the raw bytes decides only after the number, JSON and XML rules fail |
| Inspection.ScanPrintable | UITestKit/Service/DataInspector.cs:41-50 | the loop with its early break answers true exactly when every raw byte is 32 or above, or is tab, LF or CR |
| Inspection.TagName | UITestKit/Service/DataInspector.cs:11-53 | the classifier only ever returns one of the six tag strings |
| Inspection.TagNameInjective | UITestKit/Service/DataInspector.cs:11-53 | a fact of the model that needs no proof steps: two classifications have the same tag string exactly when they are the same classification |
| Inspection.EmptyIff | UITestKit/Service/DataInspector.cs:11-12 | Empty exactly for a null or zero-length payload |
| Inspection.IntegerIff | UITestKit/Service/DataInspector.cs:14-18 | a non-empty payload is Integer exactly when its trimmed text is a 64-bit integer as long.TryParse reads it (white space, an optional sign, digits, then any trailing '\0' characters), whatever the JSON and XML parsers say |
| Inspection.NotIntegerByFirst | UITestKit/Service/DataInspector.cs:15 | text whose first character is not white space, a sign or a digit never parses as a long |
| Inspection.JsonIff | UITestKit/Service/DataInspector.cs:19-27 | JSON exactly when the trimmed text starts with '{', ends with '}' and the parser accepts it |
| Inspection.XmlIff | UITestKit/Service/DataInspector.cs:30-39 | XML exactly when the trimmed text starts with '<', ends with '>' and the parser accepts it |
| Inspection.FailedJsonFallsThrough | UITestKit/Service/DataInspector.cs:19-53 | braced text that the JSON parser rejects does not fail: it ends as String or as Binary, decided by the raw bytes |
| Inspection.TextOrBinary | UITestKit/Service/DataInspector.cs:41-53 | when no earlier rule matches, String exactly when all raw bytes are printable, and Binary exactly when some byte is not, so the function is total |
| Inspection.BinaryByFirstByte | UITestKit/Service/DataInspector.cs:41-53 | a payload that is no number, starts with neither '{' nor '<', and whose first byte is a control byte is Binary |
| Inspection.TextWhenPrintable | UITestKit/Service/DataInspector.cs:41-50 | a payload that is no number, starts with neither '{' nor '<', and whose bytes are all printable is a String |
| Inspection.IsPrintable | UITestKit/Service/DataInspector.cs:44 | every byte from 0x80 up counts as printable |
| Inspection.WhiteSpaceIsText | UITestKit/Service/DataInspector.cs:11-50 | a non-empty payload made only of space, tab, LF and CR is a String, not Empty |
| Inspection.DigitsAreInteger | UITestKit/Service/DataInspector.cs:14-18 | ASCII digits, optionally after '-', whose value fits in a long are Integer, also when any number of NUL bytes follow them |
| Inspection.NulTerminatedDigitIsInteger | UITestKit/Service/DataInspector.cs:14-18 | the bytes of "5" followed by a NUL are Integer, because Trim keeps the '\0' and long.TryParse accepts it |
| Inspection.LongDigitsAreText | UITestKit/Service/DataInspector.cs:14-50 | a digit string whose value is above Int64.MaxValue is not Integer but String |
| Inspection.TwentyNinesAreText | UITestKit/Service/DataInspector.cs:14-50 | twenty nines are a String |
| Inspection.BracedPayload | UITestKit/Service/DataInspector.cs:19-50 | a printable payload whose trimmed text is braced is JSON when the parser accepts it and String otherwise |
| Inspection.AngledPayload | UITestKit/Service/DataInspector.cs:30-39 | a payload whose trimmed text is in angle brackets and parses as XML is XML |
| Inspection.BracedText | UITestKit/Service/DataInspector.cs:19-50 | printable ASCII text in braces is JSON if the parser accepts it, else String |
| Inspection.AngledText | UITestKit/Service/DataInspector.cs:30-39 | printable ASCII text in angle brackets that the parser accepts is XML |
| Inspection.JsonExample | UITestKit/Service/DataInspector.cs:19-24 | the bytes of `{"a":1}` are JSON when the parser accepts that text |
| Inspection.RejectedJsonExample | UITestKit/Service/DataInspector.cs:19-50 | the bytes of `{not json}` are a String when the parser rejects that text |
| Inspection.XmlExample | UITestKit/Service/DataInspector.cs:30-36 | the bytes of `<a>1</a>` are XML when the parser accepts that text |
| Inspection.BinaryExample | UITestKit/Service/DataInspector.cs:41-53 | the bytes 0, 1, 2 are Binary |
| StageStore.RecorderWindow.constructor | UITestKit/RecorderWindow.xaml.cs:60-79 | a new recorder keeps its ignore list and holds exactly stage 1, a "Connect" stage, which is selected; the counter is 1 and the store invariants hold |
| StageStore.RecorderWindow.SetSelectedStageKey | UITestKit/RecorderWindow.xaml.cs:42-58 | the selected key becomes the value and no stage data changes |
| StageStore.RecorderWindow.AddActionStage | UITestKit/RecorderWindow.xaml.cs:125-141 | the counter grows by one; its new value numbers a new stage holding one Input_Client with that stage number, the action, the input and the data type; the number is appended to StageKeys and selected; it was not in use before; the keys stay ascending and in step with TestStages |
| StageStore.RecorderWindow.ShouldIgnore | UITestKit/RecorderWindow.xaml.cs:115-121 | a line is ignored exactly when it is non-empty and some ignore text occurs in it, ignoring case; so an empty line or an empty list ignores nothing |
| StageStore.ContainsIgnoreCaseAll | UITestKit/RecorderWindow.xaml.cs:120 | the case-insensitive Contains of each ignore text is an occurrence at some position of the case-folded line |
| StageStore.IgnoreIsCaseInsensitive | UITestKit/RecorderWindow.xaml.cs:120 | a line and its lower-case form are ignored alike |
| StageStore.RecorderWindow.HandleProcessOutput | UITestKit/RecorderWindow.xaml.cs:145-175 | with no stage, or for an ignored line, nothing changes; otherwise only the stage with the highest number changes: client lines go to its OutputClients, server lines to its OutputServers; the invariants are kept |
| StageStore.AppendOutput | UITestKit/RecorderWindow.xaml.cs:177-210 | appending a line keeps the collection's length or adds exactly one record |
| StageStore.AppendToExisting | UITestKit/RecorderWindow.xaml.cs:183-201 | with a record of the stage present, the length is unchanged; the last such record gets the line, after "\n" unless its Output was empty; every other record is unchanged |
| StageStore.AppendToNone | UITestKit/RecorderWindow.xaml.cs:203-209 | without a record of the stage, exactly one created record holding the line is appended |
| StageStore.AppendAllJoins | UITestKit/RecorderWindow.xaml.cs:183-209 | non-empty lines sent one by one to a stage without a record end in one new record whose Output is the lines joined with "\n" |
| StageStore.AccessorsLawful | UITestKit/RecorderWindow.xaml.cs:185-207 | a fact of the model that needs no proof steps: setting Output by reflection reads back, keeps Stage, and a second setting replaces the first, on both record types |
| StageStore.RecorderWindow.DeleteStage | UITestKit/RecorderWindow.xaml.cs:257-276 | nothing changes unless the selected number is positive, live and the deletion confirmed; then the stage leaves both TestStages and StageKeys, the first remaining number is selected (the deleted one stays selected when none remains), and the counter is untouched; the invariants are kept |
| StageStore.NumberingExample | UITestKit/RecorderWindow.xaml.cs:127-268 | after stages 1 to 3, deleting 1 and adding another stage, the keys are 2, 3 and 4: the freed number is not reused |
| StageStore.DeleteLastExample | UITestKit/RecorderWindow.xaml.cs:259-275 | deleting the only stage is allowed and leaves no stage |
| Proxy.MiddlewareStart.constructor | UITestKit/MiddlewareHandling/MiddlewareStart.cs:21-33 | the singleton starts with no recorder, no session, no cancellation source and no listener |
| Proxy.MiddlewareStart.StartAsync | UITestKit/MiddlewareHandling/MiddlewareStart.cs:40-59 | a no-op while a session runs; otherwise a fresh uncancelled source, the running flag, then the chosen listener, which listens only if it could bind; the flag stays set after a failed bind |
| Proxy.MiddlewareStart.StopAsync | UITestKit/MiddlewareHandling/MiddlewareStart.cs:64-125 | a no-op when no session runs; otherwise the flag is cleared, the source is cancelled and dropped, a listening HTTP listener is dropped and the TCP listener is dropped |
| Proxy.CancellationSource.Cancel | UITestKit/MiddlewareHandling/MiddlewareStart.cs:83 | the source is cancelled afterwards |
| Proxy.SessionExample | UITestKit/MiddlewareHandling/MiddlewareStart.cs:40-125 | start, start again, stop, stop again: running after the starts, stopped after the stops, and the source cancelled |
| Proxy.MiddlewareStart.RelayData | UITestKit/MiddlewareHandling/MiddlewareStart.cs:312-377 | the chunks written to the peer are exactly the reads up to the first empty one, in order; the recorder's rows become those of folding every chunk in, one after the other, and its InputClients are untouched |
| Proxy.MiddlewareStart.RecordChunk | UITestKit/MiddlewareHandling/MiddlewareStart.cs:324-374 | one chunk changes only the rows of its direction, and only when an InputClient exists |
| Proxy.RelayIsIdentity | UITestKit/MiddlewareHandling/MiddlewareStart.cs:316-318 | a stream fact used with RelayData, whose written chunks are the reads up to the first empty one: those chunks, followed by the chunks never read, make up the whole stream |
| Proxy.AttributedStage | UITestKit/MiddlewareHandling/MiddlewareStart.cs:324-326 | traffic is attributed to a stage exactly when an InputClient exists, and that stage is the stage of the last InputClient |
| Proxy.RelayedRecordsOneSide | UITestKit/MiddlewareHandling/MiddlewareStart.cs:324-374 | without an InputClient nothing is recorded; otherwise a direction naming "Client" grows the OutputServer rows and leaves the OutputClient rows alone, and the other direction does the reverse |
| Proxy.RecordOnLastServer | UITestKit/MiddlewareHandling/MiddlewareStart.cs:331-338 | a chunk toward the server changes only the last OutputServer of the stage: Method "TCP", request text and size extended, data type of the chunk |
| Proxy.RecordOnLastClient | UITestKit/MiddlewareHandling/MiddlewareStart.cs:353-360 | the same on the last OutputClient of the stage, for the response text |
| Proxy.ServersAccumulate | UITestKit/MiddlewareHandling/MiddlewareStart.cs:329-338 | chunks toward the server all accumulate into the existing last OutputServer of the stage, and no other row changes |
| Proxy.ServersCreate | UITestKit/MiddlewareHandling/MiddlewareStart.cs:339-349 | for a stage without an OutputServer, chunks create exactly one row, appended, holding all of them |
| Proxy.ClientsAccumulate | UITestKit/MiddlewareHandling/MiddlewareStart.cs:351-360 | chunks toward the client all accumulate into the existing last OutputClient of the stage, and no other row changes |
| Proxy.ClientsCreate | UITestKit/MiddlewareHandling/MiddlewareStart.cs:362-372 | for a stage without an OutputClient, chunks create exactly one row, appended, holding all of them |
| Proxy.GrownServerType | UITestKit/MiddlewareHandling/MiddlewareStart.cs:337 | an accumulated row carries the data type of the last chunk alone |
| Proxy.LatestChunkDecidesType | UITestKit/MiddlewareHandling/MiddlewareStart.cs:337 | a NUL chunk followed by a chunk of digits is recorded as "Integer", although the bytes together classify as "Binary" |
| Proxy.MiddlewareStart.ProcessHttpRequest | UITestKit/MiddlewareHandling/MiddlewareStart.cs:167-241 | as written: with an InputClient, one request row for the last InputClient's stage is added; when the server answers, the response row as written is added, taking its status from the outgoing response before the reply's status is copied in and its size from the request, and then the reply's status, Content-Length and body are sent and the response is closed; a failed forward adds no response row and leaves the response untouched; nothing is recorded without an InputClient |
| Proxy.MiddlewareStart.RecordRequest | UITestKit/MiddlewareHandling/MiddlewareStart.cs:178-193 | with an InputClient, exactly one request row for the last InputClient's stage is appended; otherwise nothing changes |
| Proxy.RequestRecord | UITestKit/MiddlewareHandling/MiddlewareStart.cs:184-191 | builds the request row of the record: it carries the stage, the method, the request text and the request's byte count, with an empty Output and one of the six tag strings; what the proxy does with it is stated by RecordRequest and ProcessHttpRequest |
| Proxy.ResponseRecordAsWritten | UITestKit/MiddlewareHandling/MiddlewareStart.cs:212-223 | builds the response row as the source writes it: the status shown by the outgoing response and the request's byte count, with the reply's text and one of the six tags; its meaning is stated by AsWrittenAgreesOnlyBySize and NotFoundExchangeExample |
| Proxy.ResponseRecord | UITestKit/MiddlewareHandling/MiddlewareStart.cs:212-223 | builds the corrected response row from the reply's status and size, with the reply's text and one of the six tags; ProcessHttpRequestCorrected states that it is what the client receives |
| Proxy.ListenerResponse.constructor | UITestKit/MiddlewareHandling/MiddlewareStart.cs:227 | a response starts with status 200, no Content-Length, no body and open |
| Proxy.ListenerResponse.Send | UITestKit/MiddlewareHandling/MiddlewareStart.cs:227-233 | the reply's status and Content-Length are set, its bytes are written after what the body held, and the response is closed |
| Proxy.MiddlewareStart.ProcessHttpRequestCorrected | UITestKit/MiddlewareHandling/MiddlewareStart.cs:167-241 | the evidently intended exchange: the row added for the reply is the corrected row, and its status, size and text are what the client receives: the response's status, its Content-Length and its decoded body |
| Proxy.NotFoundExchangeExample | UITestKit/MiddlewareHandling/MiddlewareStart.cs:167-241 | through the method as written, an empty GET answered 404 with 9 bytes is recorded with status 200 and size 0 while the client receives 404 and a Content-Length of 9 |
| Proxy.AsWrittenAgreesOnlyBySize | UITestKit/MiddlewareHandling/MiddlewareStart.cs:215-223 | the row as written equals the corrected row exactly when the server answered 200 with a body as long as the request |
| Proxy.AsWrittenNotFoundExample | UITestKit/MiddlewareHandling/MiddlewareStart.cs:215-223 | an empty GET answered 404 with 9 bytes is recorded as written with status 200 and size 0 |
| ConsoleCapture.MonitorStdout | UITestKit/ServiceExcute/ExcutableManager.cs:163-219 | the stdout reader emits exactly the non-empty pieces of everything read (up to the first empty read) split at every CR and LF, the final remainder included |
| ConsoleCapture.SplitStdoutRead | UITestKit/ServiceExcute/ExcutableManager.cs:165-197 | one read leaves the emitted lines and the buffer as reading the text so far plus that read would |
| ConsoleCapture.MachineStep | UITestKit/ServiceExcute/ExcutableManager.cs:170-196 | a terminator emits the buffer if non-empty and empties it; any other character is appended to the buffer |
| ConsoleCapture.MachineSplits | UITestKit/ServiceExcute/ExcutableManager.cs:163-219 | the character machine agrees with the reference split: the buffer holds the text after the last terminator, and the emissions plus the final flush are the non-empty pieces |
| ConsoleCapture.AppendWord | UITestKit/ServiceExcute/ExcutableManager.cs:193-196 | characters without a terminator emit nothing and only extend the buffer |
| ConsoleCapture.SplitLinesProperties | UITestKit/ServiceExcute/ExcutableManager.cs:163-219 | no emitted line is empty or holds CR or LF, and the lines concatenated are the input with every CR and LF removed |
| ConsoleCapture.CrLfEndsOneLine | UITestKit/ServiceExcute/ExcutableManager.cs:179-183 | a CR LF pair ends one line: the empty gap between CR and LF is not emitted |
| ConsoleCapture.SingleLine | UITestKit/ServiceExcute/ExcutableManager.cs:205-219 | a text without terminators is one line, emitted at the end of the stream or at its LF |
| ConsoleCapture.MonitorStderr | UITestKit/ServiceExcute/ExcutableManager.cs:223-266 | the stderr reader emits, read by read up to the first empty read, each read's own split lines with the "[ERR] " prefix, and nothing else |
| ConsoleCapture.SplitStderrRead | UITestKit/ServiceExcute/ExcutableManager.cs:232-249 | the character loop over one read emits the prefixed emissions of that read and leaves its pending text |
| ConsoleCapture.StderrRead | UITestKit/ServiceExcute/ExcutableManager.cs:230-259 | one pass of the read loop emits that read's prefixed split lines and ends with an empty buffer |
| ConsoleCapture.ErrReadLines | UITestKit/ServiceExcute/ExcutableManager.cs:251-258 | a read's emissions followed by its per-read flush are exactly its prefixed split lines |
| ConsoleCapture.ErrLinesPrefixed | UITestKit/ServiceExcute/ExcutableManager.cs:235-264 | every stderr emission is "[ERR] " followed by a non-empty text without CR or LF |
| ConsoleCapture.StderrSplitsAtReads | UITestKit/ServiceExcute/ExcutableManager.cs:251-258 | a stderr line that arrives in two reads is emitted as two prefixed lines, whereas stdout emits it as one |
| Folders.FolderManager.constructor | UITestKit/FolderHelper/FolderManager.cs:13-18 | the singleton starts with no root folder and no project name |
| Folders.FolderManager.Initialize | UITestKit/FolderHelper/FolderManager.cs:24-57 | a blank save location, then a blank project name, is refused with nothing changed; otherwise the project name is kept, and the root folder is the project folder inside the save location, non-empty and returned |
| Folders.FolderManager.IsInitialized | UITestKit/FolderHelper/FolderManager.cs:59-62 | an initialized manager's root folder exists; a manager without a root folder is not initialized |
| Folders.InitializedOnceCreated | UITestKit/FolderHelper/FolderManager.cs:24-62 | a fresh manager is not initialized whatever folders exist; after Initialize accepts a save location and a project name and the returned root folder exists, it is |
| Folders.RootFolderNamesProject | UITestKit/FolderHelper/FolderManager.cs:37 | for a relative project name, the root folder starts with the save location and ends with the project name |
| Folders.GetDetailExcelPath | UITestKit/FolderHelper/FolderManager.cs:224-227 | the Detail workbook is "Detail.xlsx" inside the folder, with one separator between |
| Folders.GetHeaderExcelPath | UITestKit/FolderHelper/FolderManager.cs:229-232 | the Header workbook is "Header.xlsx" inside the folder, with one separator between |
| Folders.WorkbooksSideBySide | UITestKit/FolderHelper/FolderManager.cs:224-232 | the two workbooks of a folder are distinct paths that share the folder part |
| Folders.ValidateTestKitName | UITestKit/FolderHelper/FolderManager.cs:489-500 | blank, then an invalid character, then more than 100 UTF-16 units, each named exactly when the earlier checks pass; an accepted name has at most 100 characters |
| Folders.AcceptedNameStaysInRoot | UITestKit/FolderHelper/FolderManager.cs:489-500 | when separators and ':' are invalid, an accepted name holds no separator, is not rooted, and its folder lies directly inside the root |
| Folders.Truncate | UITestKit/FolderHelper/FolderManager.cs:605-609 | the (int) cast of a number truncates toward zero |
| Folders.SafeGetInt | UITestKit/FolderHelper/FolderManager.cs:598-615 | a null cell gives none, an int cell gives itself, a number that converts gives its truncation toward zero, and every value returned is in the Int32 range |
| Folders.SafeGetString | UITestKit/FolderHelper/FolderManager.cs:620-623 | null gives the empty string and text gives itself |
| Folders.SafeGetIntReadsText | UITestKit/FolderHelper/FolderManager.cs:598-623 | apart from numbers, SafeGetInt reads back the text SafeGetString shows |
| Folders.SafeGetIntOfText | UITestKit/FolderHelper/FolderManager.cs:611-612 | an Int32 written as text is read back as itself |
| Folders.SafeGetIntTruncates | UITestKit/FolderHelper/FolderManager.cs:605-609 | 3.75 gives 3 and -3.75 gives -3 |
| Folders.OutOfRangeStageSkipsRow | UITestKit/FolderHelper/FolderManager.cs:605-664 | a stage cell holding a number outside the Int32 range gives no stage, and its row is skipped with the dictionary unchanged |
| Folders.PaddedTwoIsStageTwo | UITestKit/FolderHelper/FolderManager.cs:611-612 | the text " 2 " gives stage 2 |
| Folders.NulTerminatedSeven | UITestKit/FolderHelper/FolderManager.cs:611-612 | the text "7" followed by a '\0' gives 7, as int.TryParse accepts trailing NULs |
| Folders.LoadSheet | UITestKit/FolderHelper/FolderManager.cs:625-668 | a sheet with fewer than 2 rows changes nothing; otherwise rows 2 to rowCount are loaded in order (the same loop loads all three sheets: 625-668, 670-730, 732-791) |
| Folders.LoadRow | UITestKit/FolderHelper/FolderManager.cs:635-660 | one row: a missing or non-positive stage is skipped; otherwise the stage is created empty on first use and one record is appended to the sheet's list |
| Folders.LoadRowsPerStage | UITestKit/FolderHelper/FolderManager.cs:633-665 | afterwards a stage exists exactly when it did before or some row names it, and it holds what it held (or an empty stage) followed by one record per such row, in row order |
| Folders.AppendRecordsLists | UITestKit/FolderHelper/FolderManager.cs:645-658 | a stage's rows extend only the list of the sheet's kind, by one record per row, in order |
| Folders.LoadExample | UITestKit/FolderHelper/FolderManager.cs:625-668 | a header, a stage-2 row, a row without a stage and a " 2 " row load as one stage 2 holding two InputClients in order |
| Folders.ExportNamesDistinct | UITestKit/FolderHelper/FolderManager.cs:799-806 | distinct counters give distinct file names |
| Folders.ExportCandidatesDistinct | UITestKit/FolderHelper/FolderManager.cs:799-806 | distinct counters give distinct paths in the folder |
| Folders.GenerateExportFilePath | UITestKit/FolderHelper/FolderManager.cs:796-811 | the result does not exist; it is the base name when that is free, otherwise the first free `_1`, `_2`, ... name, since every earlier candidate exists |
| Folders.GetFileIcon | UITestKit/FolderHelper/FolderManager.cs:447-462 | the icon of the lower-cased extension in the table, and the page icon for any other extension |
| Folders.FileIconIgnoresCase | UITestKit/FolderHelper/FolderManager.cs:449 | extensions that differ only in letter case get the same icon |
| Folders.FileIconExamples | UITestKit/FolderHelper/FolderManager.cs:449-461 | ".XLSX" gets the chart icon and ".csv" the default page |
| RecorderTab.PrepareDataForExport | UITestKit/RecorderWindowContent.xaml.cs:721-765 | the sheets returned are the export of the recorder's stages |
| RecorderTab.CollectRecords | UITestKit/RecorderWindowContent.xaml.cs:725-732 | one kind's list is the records of every stage, stages in ascending key order |
| RecorderTab.CollectOver | UITestKit/RecorderWindowContent.xaml.cs:726-732 | the outer foreach over ascending keys collects the blocks of the keys in order |
| RecorderTab.AddStageRecords | UITestKit/RecorderWindowContent.xaml.cs:728-731 | the inner foreach appends a stage's records of the kind, in their order |
| RecorderTab.AllRecordsMembers | UITestKit/RecorderWindowContent.xaml.cs:725-757 | a record is in the export list of its kind exactly when some stage holds it |
| RecorderTab.StageBlocksInOrder | UITestKit/RecorderWindowContent.xaml.cs:726-731 | each stage's records appear as one block in their own order, and a lower stage's block comes before a higher one's |
| RecorderTab.StageBlockOnce | UITestKit/RecorderWindowContent.xaml.cs:725-732 | each stage's records occur in the export exactly once, as one block: the ascending keys split around the stage into smaller keys and larger keys, neither holding it, and the export is the smaller stages' records, then the stage's own, then the larger stages' |
| RecorderTab.AllRecordsNonEmpty | UITestKit/RecorderWindowContent.xaml.cs:733-736 | a kind's list is non-empty exactly when some stage holds a record of that kind |
| RecorderTab.ExportSheetsShape | UITestKit/RecorderWindowContent.xaml.cs:733-764 | at most three sheets, none empty, in the order InputClients, OutputClients, OutputServers |
| RecorderTab.ExportSheetPresence | UITestKit/RecorderWindowContent.xaml.cs:733-762 | a kind has its sheet exactly when some stage holds one of its records, and that sheet holds the kind's whole list |
| RecorderTab.RecorderWindowContent.constructor | UITestKit/RecorderWindowContent.xaml.cs:35-51 | a new tab keeps its read-only mode and recorder, and has not started, been disposed or changed anything |
| RecorderTab.RecorderWindowContent.LoadTestStages | UITestKit/RecorderWindowContent.xaml.cs:499-530 | no-op without a recorder; otherwise the stages are replaced entirely, the keys become the ascending stage numbers, the least is selected if any, and the counter and ignore list are untouched |
| RecorderTab.Refill | UITestKit/RecorderWindowContent.xaml.cs:507-514 | clearing and then re-adding every key in order leaves exactly the given stages and keys |
| RecorderTab.SortedSetFirstIsMin | UITestKit/RecorderWindowContent.xaml.cs:510-518 | the first of the ascending keys is the least stage number |
| RecorderTab.RecorderWindowContent.ProcessesStarted | UITestKit/RecorderWindowContent.xaml.cs:107-113 | after the processes start the tab runs with nothing unsaved; it becomes the middleware's owner when it found the middleware not running and started it, and otherwise keeps its ownership; mode, disposal and recorder are unchanged |
| RecorderTab.RecorderWindowContent.StopAllProcesses | UITestKit/RecorderWindowContent.xaml.cs:221-298 | a read-only, stopped or disposed tab is left exactly as it was; otherwise the tab ends disposed, not running and no longer owning the middleware |
| RecorderTab.RecorderWindowContent.StartRecord | UITestKit/RecorderWindowContent.xaml.cs:532-581 | refused on a read-only, disposed or not-running tab, in that order; past those checks, the outcome is NoRecorder exactly when there is no recorder, BlankAction exactly when the action is blank, and Started otherwise; on Started the recorder adds the stage and the tab has unsaved changes; otherwise the recorder is unchanged |
| RecorderTab.StopThenRecordExample | UITestKit/RecorderWindowContent.xaml.cs:181-552 | a tab that started the middleware owns it, gives up ownership when stopped, and then refuses to record |
| RecorderTab.SharedMiddlewareExample | UITestKit/RecorderWindowContent.xaml.cs:181-192 | a tab that finds the middleware already running does not become its owner |
| Compare.CompareDictionaries | UITestKit/Service/DataCompare.cs:63-79 | the loop with early returns answers exactly whether the counts agree and every key of the first has a same-shown value in the second |
| Compare.CountsDiffer | UITestKit/Service/DataCompare.cs:65 | a fact of the model that needs no proof steps: different counts never match |
| Compare.MissingKey | UITestKit/Service/DataCompare.cs:69 | a key of the first missing from the second (under the second's comparer) means no match |
| Compare.DifferentValue | UITestKit/Service/DataCompare.cs:71-75 | one value shown differently means no match |
| Compare.LeavesCompareTrimmed | UITestKit/Service/DataCompare.cs:71-75 | two text values compare equal exactly when their trimmed texts agree ignoring case, and null never equals a text |
| Compare.MatchesReflexive | UITestKit/Service/DataCompare.cs:63-79 | every dictionary matches itself |
| Compare.Find | UITestKit/Service/DataCompare.cs:69 | a key lookup finds the last entry with the same key under the comparer, and finds none exactly when no entry has it |
| Compare.SetValid | UITestKit/Service/DataCompare.cs:49-56 | the indexer set keeps the keys distinct under the comparer |
| Compare.SetLookup | UITestKit/Service/DataCompare.cs:54-56 | after a set, the key is present with the new value; other keys keep their presence and values |
| Compare.XmlToDictionary | UITestKit/Service/DataCompare.cs:47-60 | the loop, with its recursion, builds the element's dictionary |
| Compare.AddChild | UITestKit/Service/DataCompare.cs:53-56 | a leaf child sets its name to its trimmed text, and a child with elements sets it to its own nested dictionary |
| Compare.ChildrenDictLookup | UITestKit/Service/DataCompare.cs:51-57 | after the first n children, a name is present exactly when one of them bears it, ignoring case, and its value is that of the last such child |
| Compare.XmlDictLookup | UITestKit/Service/DataCompare.cs:47-60 | the element's dictionary ignores case, has distinct keys, holds a name exactly when some child bears it, and the last such child wins |
| Compare.CompareJson | UITestKit/Service/DataCompare.cs:8-26 | a null argument or a failed parse gives false; otherwise the answer is the dictionary comparison |
| Compare.CompareXml | UITestKit/Service/DataCompare.cs:29-44 | a null argument or a failed parse gives false; otherwise the answer is the comparison of the root elements' dictionaries |
| Compare.JsonReflexive | UITestKit/Service/DataCompare.cs:8-26 | a document that parses into a dictionary equals itself |
| Compare.XmlReflexive | UITestKit/Service/DataCompare.cs:29-44 | a document that parses equals itself |
| Compare.NestedContentsUnseen | UITestKit/Service/DataCompare.cs:71-72 | when nested dictionaries all show the same text (as a type name does), two roots with one same-named nested child compare equal whatever that child holds |
| NameDialog.TestKitNameDialog.constructor | UITestKit/TestKitNameDialog.xaml.cs:14-34 | the dialog keeps its arguments, shows the project name and the default name with its preview, and has no result yet |
| NameDialog.TestKitNameDialog.UpdateFolderPreview | UITestKit/TestKitNameDialog.xaml.cs:36-47 | the preview follows the name box and nothing else changes |
| NameDialog.TestKitNameDialog.NameTextChanged | UITestKit/TestKitNameDialog.xaml.cs:33 | a new text in the name box is shown in the preview at once |
| NameDialog.TestKitNameDialog.BtnCreateClick | UITestKit/TestKitNameDialog.xaml.cs:49-78 | the first failing check on the trimmed name shows its message and leaves the dialog open without a result; a name passing all checks is stored trimmed and closes the dialog with result true |
| NameDialog.TestKitNameDialog.BtnCancelClick | UITestKit/TestKitNameDialog.xaml.cs:80-84 | the dialog closes with result false and no name |
| NameDialog.PreviewPlaceholder | UITestKit/TestKitNameDialog.xaml.cs:38-46 | the placeholder is shown exactly when the name box is blank |
| NameDialog.PreviewOfAccepted | UITestKit/TestKitNameDialog.xaml.cs:46 | an accepted name's preview is the root, one separator unless the root ends with one, the trimmed name and a final '\' |
| NameDialog.AcceptedNameShape | UITestKit/TestKitNameDialog.xaml.cs:51-77 | an accepted name is non-empty, has no white space at either end, holds no invalid character and has at most 100 UTF-16 units |
| NameDialog.DefaultNameShape | UITestKit/TestKitNameDialog.xaml.cs:25 | the default name is "TestKit_", the number in at least three digits that read back as it, '_' and the timestamp |
| NameDialog.DefaultNameAccepted | UITestKit/TestKitNameDialog.xaml.cs:25-77 | below 1000 and with a yyyyMMdd_HHmmss-like timestamp, the default name passes the Create validation unchanged |
| Text.TryParseInteger | UITestKit/Service/DataInspector.cs:15 | Int32.TryParse and Int64.TryParse: a value is returned only when it lies in the type's range |
| Text.StripTrailingNuls | UITestKit/Service/DataInspector.cs:15 | the text's trailing run of '\0' characters is removed and nothing else |
| Text.TrailingNulsIgnored | UITestKit/FolderHelper/FolderManager.cs:611 | '\0' characters appended to a text do not change what it parses to |
| Text.ParseSignedDigits | UITestKit/Service/DataInspector.cs:15 | a digit string with an optional '-' parses to its signed value exactly when that value is in range, and fails otherwise |
| Text.ParseIntToString | UITestKit/FolderHelper/FolderManager.cs:611 | a number in range, formatted and parsed back, is itself |
| Text.FormatD3Digits | UITestKit/TestKitNameDialog.xaml.cs:25 | the "D3" format of a number is a digit string of at least three characters, exactly three below 1000, that reads back as the number |

## Left out

- Sockets, HTTP forwarding, accept loops, tasks and cancellation tokens are I/O and concurrency. They are left out. The model keeps:
  - the relay's byte identity;
  - the per-chunk record update;
  - the HTTP reply as an optional parameter, where none is a failed forward.
- The Dispatcher marshalling is left out. Its calls are modelled as direct sequential calls.
- The process lifecycle is left out: starting and killing processes, the 5-second timeout and the taskkill fallback are operating-system work.
- `Cleanup` and `StopAllAsync` of the manager are process work. `StopAllProcesses` keeps only the tab's flags.
- ConsoleCapture.MonitorStdout: the 100 ms partial-line debounce on stdout (ExcutableManager.cs:126-158 and 198-202) is timer behaviour and is left out. Its contract therefore holds only when no pause of more than 100 ms falls inside a line. In the source, such a pause flushes the buffered text as its own emission, so one line is split into two. That flush runs on its own task, so under a race its text can also be emitted after a later line.
- Debug and middleware log files are left out: they are file I/O.
- Excel reading and writing is foreign-library work and is left out:
  - the exporter;
  - the workbook access in `LoadTestDataFromDetailFile`;
  - the header and ignore workbooks.
  A worksheet is a sequence of rows of cells.
- The exporter's column layout is not modelled. The columns the loaders read are modelled as in the source, and the model does not state that they match what the exporter writes.
- Folders.LoadRow: the StatusCode and ByteSize columns are not loaded. In the source these lines assign strings to int fields, and the record files define those fields as int. The fields keep 0.
- JSON and XML parsing, and UTF-8 decoding, are parameters of the model:
  - JSON duplicate-key behaviour is the JSON parser parameter's business;
  - a payload's text is decoded chunk by chunk, as the relay does.
- Compare.CompareDictionaries: ToString of a nested value is the parameter `render`. .NET shows any nested dictionary as its type name, so nested XML contents go uncompared. NestedContentsUnseen states what follows from that.
- Text.Lower: a model simplification. Lower folds the ASCII letters A-Z only, while .NET's OrdinalIgnoreCase also folds non-ASCII letters (such as 'É' and 'é'). Non-ASCII case pairs therefore compare as different in the model.
- StageStore.RecorderWindow.ShouldIgnore, StageStore.ContainsIgnoreCaseAll, Compare.LeavesCompareTrimmed, Compare.ChildrenDictLookup, Compare.XmlDictLookup, Compare.CompareDictionaries: each inherits the ASCII-only folding of Text.Lower, so its contract is weaker than the source for keys or text with non-ASCII letters.
- Folders.SafeGetInt: a number cell whose truncation is outside the Int32 range gives none. For a decimal this matches the source: the cast at FolderManager.cs:609 throws, and the loader's per-row catch skips the row, as the model's none does (OutOfRangeStageSkipsRow). For a double the source's cast (line 606) gives an unspecified value, so for double cells only, the result-range ensures is weaker than the source.
- Floating-point file-size formatting is not modelled.
- SelectedStageData is left out: it is a reference to a stage object kept for the UI.
- Stage numbers and byte sizes are unbounded integers. Int32 overflow of the counter after 2^31 stages is not modelled.
- `DateTime.Now` is a timestamp parameter.
- `Path.GetInvalidFileNameChars` is an invalid-character set parameter.
- `File.Exists` and `Directory.Exists` are a set of existing paths.
- Pure UI is left out: window closing, focus and SelectAll, message boxes (modelled as a confirmation parameter or a refusal outcome) and tree views.
- RecorderTab.RecorderWindowContent.LoadTestStages does not re-establish the recorder's Issued invariant, because loaded stage numbers may exceed the counter, as in the source.
- Middleware ownership on shared sessions is not modelled beyond the owner flag: clearing the proxy's recorder reference when the tab does not own it.
- Response headers are not modelled: ProcessHttpRequest's copy of the reply's Content-Type, and the request's Content-Type on the forwarded request.
- Proxy.MiddlewareStart.ProcessHttpRequestCorrected: requires a response whose body is still empty, since it reads its row off what was sent.

## Findings

| source | as written | input that shows it | evidently intended | confidence | as-written member | corrected member |
|---|---|---|---|---|---|---|
| UITestKit/MiddlewareHandling/MiddlewareStart.cs:215-223 | the OutputClient row takes ByteSize from the request's bytes, and StatusCode from the outgoing response before line 228 sets it, so it is still 200 | a GET with an empty body answered 404 with "Not Found" (9 bytes) is recorded with status 200 and size 0 | the row describes the reply: the server's status code and the response's size | not executed; high for StatusCode, medium for ByteSize | Proxy.AsWrittenAgreesOnlyBySize, Proxy.NotFoundExchangeExample | Proxy.MiddlewareStart.ProcessHttpRequestCorrected |

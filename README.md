# Financial document analyst: the core rules, in Dafny

This project models the deterministic core of a browser application that analyses financial documents. A user uploads a PDF, Word, spreadsheet, CSV or text file. The application extracts the text, or falls back to sending the file's bytes. A language model answers with a structured analyst report, which is shown on a dashboard. The user can then chat about the report and save reports to a remote table, with a local-storage fallback.

The model covers these parts, one Dafny module per source file:

- `FileParser`: choosing an extractor from the file name's extension, assembling PDF and spreadsheet text, and mapping library failures to fixed messages.
- `InputForm`: validating an upload and the parse transitions.
- `App`: the application state machine for analysis, report selection and chat.
- `GeminiService`: assembling model requests and interpreting their answers.
- `DatabaseService`: the report store and its local fallback.
- `ChatView`: the chat panel's gating, placeholder and message formatting.
- `PerformanceDashboard`, `DonutChart`, `IncomeChart`: the dashboard's computed display values.
- `Types`: the data model.
- Helper modules:
  - `Strings`: JavaScript's whitespace set, `trim`, `split` and ASCII lower-casing.
  - `Wrappers`: `Option` and `Result`.
  - `JsMath`: `Math.abs`.

Handlers that change component state are methods of classes:

- `App.AppState`
- `InputForm.UploadForm`
- `ChatView.ChatInput`
- `DatabaseService.ReportStore`
- `PerformanceDashboard.SaveButton`

Each awaited handler is one atomic step. The source's loops are methods with loop invariants, proved against specification functions:

- the PDF page loop;
- the spreadsheet sheet loop;
- the donut chart's running total.

Foreign calls become parameters:

- FileReader results and the outputs of pdf.js, mammoth and SheetJS are collected in `FileParser.ReadEnv` and `FileParser.DataUrlRead`.
- The language model is a function from request to answer.
- `JSON.stringify` is a function parameter.
- The remote database outcome, the fresh record id and the timestamp are method parameters.
- Number-to-text rendering in the gradient is a function parameter.

## Model

| member | source | states |
|---|---|---|
| Strings.IsSpace | App.tsx:52 | the characters `trim` removes and `\s` matches: JavaScript's WhiteSpace and LineTerminator sets; stated by `Strings.Trim` and `Strings.TrimEmptyIff` |
| Strings.TrimStart | App.tsx:52 | the result is a suffix of the input, everything removed is whitespace, and it does not start with whitespace |
| Strings.TrimEnd | App.tsx:52 | the result is a prefix of the input, everything removed is whitespace, and it does not end with whitespace |
| Strings.Trim | App.tsx:52 | `trim` is a contiguous part of the input with only whitespace and line terminators before and after it, and both of its ends are non-space |
| Strings.TrimEmptyIff | components/ChatView.tsx:36 | a string trims to empty exactly when it is all whitespace |
| Strings.TrimIdempotent | App.tsx:52 | trimming twice is trimming once |
| Strings.Utf16Length | App.tsx:52 | JavaScript's `length` in UTF-16 code units: between the number of characters and twice it, and zero only for the empty string |
| Strings.Utf16LengthOfBmp | App.tsx:52 | within the Basic Multilingual Plane `length` counts characters |
| Strings.Utf16LengthOfAstral | App.tsx:52 | a character outside the Basic Multilingual Plane counts as two code units |
| Strings.Utf16Append | App.tsx:52 | the `length` of a concatenation is the sum of the parts' lengths |
| Strings.ToLower | services/fileParser.ts:88 | the result has the input's length and each character lower-cased (ASCII letters only) |
| Strings.ToLowerKeepsSeparator | services/fileParser.ts:88 | lower-casing neither adds nor removes a non-letter separator such as `.` and keeps emptiness |
| Strings.Split | services/fileParser.ts:88 | `split` gives at least one field and no field contains the separator |
| Strings.SplitWithoutSeparator | services/fileParser.ts:88 | a string without the separator splits into itself alone |
| Strings.SplitJoin | services/fileParser.ts:88 | joining the fields of `split` with the separator gives back the original string |
| Strings.SplitAtFirst | services/fileParser.ts:88 | splitting at the first separator gives the text before it followed by the fields of the rest |
| Strings.FirstField | services/fileParser.ts:122 | the first field of `split` is a prefix that ends at the end of the string or at a separator |
| Strings.LastField | services/fileParser.ts:88 | the last field (`pop`) is a suffix without the separator; it is the whole string exactly when there is one field, otherwise a separator precedes it |
| Strings.Join | services/fileParser.ts:43 | `join`: the parts with the separator between consecutive ones; stated by `Strings.SplitJoin`, `DonutChart.StopsTextCons` and `FileParser.JoinOfEmptyIsBlank` |
| Types.ViewName | types.ts:1 | the string name of each view; stated by `Types.ParseView` |
| Types.ParseView | types.ts:1 | the view names are read back to exactly one view, and any other name to none |
| Types.RoleName | types.ts:68 | `user` or `model`; stated by `Types.ParseRole` |
| Types.ParseRole | types.ts:68 | a role is exactly `user` or `model` |
| Types.AchievabilityName | types.ts:58 | `Low`, `Medium` or `High`; stated by `Types.ParseAchievability` |
| Types.ParseAchievability | types.ts:58 | achievability is exactly `Low`, `Medium` or `High` |
| Types.InDocumentedRange | types.ts:14 | the 1 to 5 range the rating is documented to lie in, which nothing enforces; stated by `PerformanceDashboard.DocumentedRatingStars` |
| FileParser.Extension | services/fileParser.ts:88-90 | the lower-cased text after the last dot, which has no dot itself; a name without a dot gives the whole name; the extension is empty exactly when the name is empty or ends with a dot |
| FileParser.Dispatch | services/fileParser.ts:93-106 | dispatch is total and exclusive: `pdf` goes to PDF, `docx` to Word, `xlsx`/`xls` to the spreadsheet reader and `csv`/`txt` to plain text; every other extension gets no extractor |
| FileParser.UnsupportedError | services/fileParser.ts:105 | the message `Unsupported file type: .<ext>`; stated by `FileParser.ParseOutcome` and `FileParser.NoDotNameIsUnsupported` |
| FileParser.PageText | services/fileParser.ts:41-43 | one page's items, missing `str` read as empty, joined by single spaces; stated by `FileParser.PagesTextFirst` and `FileParser.TextlessPagesAreBlank` |
| FileParser.PagesText | services/fileParser.ts:36-46 | the reference for the page loop: each page's text then a blank line, in page order; stated by `FileParser.PagesTextAppend` and `FileParser.ParsePdfText` |
| FileParser.PagesTextAppend | services/fileParser.ts:36-46 | the page text of a concatenation of page lists is the concatenation of their texts, so pages contribute in order |
| FileParser.PagesTextFirst | services/fileParser.ts:41-45 | the first page contributes its items joined by single spaces, then a blank line |
| FileParser.JoinOfEmptyIsBlank | services/fileParser.ts:41-43 | joining only empty item texts with spaces gives only whitespace |
| FileParser.TextlessPagesAreBlank | services/fileParser.ts:41-48 | pages whose items carry no text (missing `str` counts as empty) produce only whitespace, so the trimmed result is empty |
| FileParser.ParsePdfText | services/fileParser.ts:34-48 | the page loop yields the trimmed concatenation of every page's text in page order, and zero pages give the empty string |
| FileParser.SheetBlock | services/fileParser.ts:75 | one sheet's `Sheet: <name>` header, blank line, CSV and blank line; stated by `FileParser.SheetsTextFirst` |
| FileParser.SheetsText | services/fileParser.ts:72-76 | the reference for the sheet loop: the blocks in sheet order; stated by `FileParser.SheetsTextAppend` and `FileParser.ParseSheetsText` |
| FileParser.SheetsTextAppend | services/fileParser.ts:71-76 | sheet blocks concatenate in sheet order |
| FileParser.SheetsTextFirst | services/fileParser.ts:75 | each sheet contributes `Sheet: <name>`, a blank line, its CSV and a blank line, so non-empty output starts with `Sheet: ` |
| FileParser.ParseSheetsText | services/fileParser.ts:71-77 | the sheet loop yields exactly the concatenated blocks, untrimmed |
| FileParser.ParseOutcome | services/fileParser.ts:36-111 | an empty extension is "File has no extension."; an unsupported one is `Unsupported file type: .<ext>`; success implies a supported extension and a readable file; a loaded PDF resolves with its trimmed page texts, a Word file with mammoth's raw text and a workbook with its sheet blocks |
| FileParser.UnsupportedReadsNothing | services/fileParser.ts:93-106 | for a refused extension the outcome does not depend on the file's contents at all, and it is a failure |
| FileParser.NoDotNameIsUnsupported | services/fileParser.ts:88-90 | the name `report` is rejected as `Unsupported file type: .report` |
| FileParser.UpperCaseExtension | services/fileParser.ts:88 | `Q3.PDF` has extension `pdf` and goes to the PDF extractor |
| FileParser.ExtractorFailures | services/fileParser.ts:49-80 | an unreadable file gives "Failed to read or parse the file."; each extractor failure gives its own message, and only that failure gives it: PDF load failure, missing or failing mammoth, missing or failing SheetJS; plain text is returned as read |
| FileParser.ExtractedTexts | services/fileParser.ts:36-111 | a readable file's extractor succeeds exactly when its library produced a value; CSV and plain text always succeed |
| FileParser.ParseFile | services/fileParser.ts:87-112 | `parseFile` resolves or rejects exactly as the specification function `ParseOutcome` says |
| FileParser.DataUrlPayload | services/fileParser.ts:122 | the second comma-separated field exists exactly when the URL has a comma; it is the text that starts right after the first comma and runs up to the next comma or the end |
| FileParser.PayloadAfterFirstComma | services/fileParser.ts:122 | the second field of `split(',')` begins after the first comma and stops at the next comma or at the end |
| FileParser.PayloadAfterOnlyComma | services/fileParser.ts:122 | when the URL has one comma, the payload is all the text after it |
| InputForm.SelectionError | components/InputForm.tsx:40-51 | a file is accepted exactly when its extension is allowed and its size is at most 10 MiB; a bad extension gets the type error whatever the size; a good extension with a size over the limit gets the size error |
| InputForm.AllowedMatchesDispatch | components/InputForm.tsx:40 | the allowed extensions are exactly those the parser dispatches |
| InputForm.SizeBoundary | components/InputForm.tsx:41 | exactly 10485760 bytes is accepted and 10485761 is refused |
| InputForm.UploadForm.SelectFile | components/InputForm.tsx:36-57 | nothing changes while loading or parsing; a null selection clears the file; a refused file sets the error and keeps the previous file; an accepted file is stored and its parse starts |
| InputForm.UploadForm.FinishParsing | components/InputForm.tsx:20-34 | on success the text and the original file are handed on, even when the text is empty; on failure the message is shown and the file cleared; parsing ends either way |
| InputForm.UploadForm.ClearSelection | components/InputForm.tsx:136-139 | the remove button clears the file and the error |
| GeminiService.InputPart | services/geminiService.ts:119 | a part is passed through unchanged; a string becomes one text part |
| GeminiService.UnwrapContext | services/geminiService.ts:119 | reading the framing back: a result, when there is one, is what the header and footer enclose; stated by `GeminiService.FramingRoundTrip` |
| GeminiService.FramingRoundTrip | services/geminiService.ts:119 | the string's framing `Financial Data Context:\n---\n` … `\n---` can be removed again to give back exactly the input |
| GeminiService.SchemaRequirements | services/geminiService.ts:65-101 | all 13 top-level keys are required; in `valuation` only the two FCF scenarios are optional |
| GeminiService.OptionalFields | services/geminiService.ts:65-101 | the properties a schema object declares but does not require; stated by `GeminiService.SchemaRequirements` |
| GeminiService.ReportRequestFor | services/geminiService.ts:106-128 | the parts are exactly the instruction part then the input part; the response type is JSON under the report schema |
| GeminiService.GenerateReport | services/geminiService.ts:104-135 | the call succeeds exactly when the model's text parses, and then returns it unchecked; a failed call or unparsable text becomes "Failed to generate analyst report."; a throw from creating the client passes through |
| GeminiService.SystemInstruction | services/geminiService.ts:144-148 | the instruction always begins with the persona sentence; the report's JSON follows only when a report is present |
| GeminiService.ChatContents | services/geminiService.ts:150-154 | the history in order, keeping role and text, followed by one final user turn; the length is history length plus one |
| GeminiService.ChatReply | services/geminiService.ts:138-168 | the reply's text, "No response generated." for an empty reply, or "Chat error." on failure; a successful reply is never empty |
| App.ChooseInput | App.tsx:52-63 | the text is used exactly when its trimmed `length`, counted in UTF-16 code units, exceeds 100; otherwise the file if there is one; otherwise nothing |
| App.AstralTextCountsTwice | App.tsx:52 | 51 characters from outside the Basic Multilingual Plane already exceed the threshold, because each counts as two code units |
| App.BlankTextIsNeverSent | App.tsx:52 | whitespace-only text is never sent, however long it is |
| App.MimeOrDefault | App.tsx:58 | the file's media type, or `application/pdf` when it is empty |
| App.AnalysisInputFor | App.tsx:50-63 | the untrimmed text; or the data-URL payload with the media type; a FileReader rejection is a non-`Error` throw; no input at all is the not-enough-text error |
| App.ThrownMessage | App.tsx:74 | an `Error`'s message, or "An unexpected error occurred." for anything else; stated by `App.AnalysisOutcome` and `App.AppState.FinishAnalysis` |
| App.AnalysisOutcome | App.tsx:49-74 | no usable input fails with "Could not extract enough text from the file for analysis."; the analysis succeeds exactly when the input was built and the report call succeeded, and then shows that report; a failure to build the input or a failed report call ends with the message of what was thrown |
| App.UnreadableFileMessage | App.tsx:49-74 | a file the browser could not read ends the analysis with "An unexpected error occurred." |
| App.ReportFailedMessage | App.tsx:49-74 | a failed or unparsable report call ends the analysis with "Failed to generate analyst report." |
| App.TextlessPdfFallsBackToFile | App.tsx:52-61 | a PDF whose pages carry no text parses to the empty string, so the file itself is sent, with the PDF default type when the browser gives none |
| App.AnalysisCompleteMessage | App.tsx:69-72 | a model message made of the fixed opening, the report's subtitle and the fixed closing, in that order |
| App.AnalysisFailedMessage | App.tsx:77-80 | a model message made of the fixed opening followed by exactly the error text |
| App.SavedReportMessage | App.tsx:89-92 | a model message made of the fixed opening, the saved report's title and the fixed closing, in that order |
| App.ReplyMessage | App.tsx:105-112 | the model message is the reply; or `Error: <message>` for an `Error`; or "Sorry, I encountered an error." otherwise |
| App.SentMessageAppearsTwice | App.tsx:98-104 | the history passed to the chat call already ends with the new user message, and the call appends it again, so the last two turns are that same user turn |
| App.AppState.constructor | App.tsx:17-27 | the upload view, no report, no error, and the greeting as the only message |
| App.AppState.BeginAnalysis | App.tsx:44-47 | loading starts; the error, the report and the chat history are cleared |
| App.AppState.FinishAnalysis | App.tsx:49-83 | success shows the report on the dashboard with one message quoting its subtitle; failure shows the error on the upload view with one message containing it; loading ends either way |
| App.AppState.Conclude | App.tsx:66-80 | the state after the analysis promise settles: the report with its opening message on the dashboard, or the error with its message on the upload view |
| App.AppState.Analyze | App.tsx:43-84 | the whole analysis with its resets: one chat message afterwards, the report or the error, never both |
| App.AppState.SelectReport | App.tsx:86-93 | the saved report is shown on the dashboard and the history becomes one message naming its title |
| App.AppState.SendMessage | App.tsx:95-116 | a whitespace-only message changes nothing; any other appends the user message and then exactly one model message derived from the reply; only the history and the chat-loading flag change |
| App.AppState.RecordExchange | App.tsx:98-115 | the history grows by exactly the user message and the reply's message, chat loading ends, and nothing else changes |
| DatabaseService.Reverse | services/databaseService.ts:70 | `reverse()` keeps the length; its meaning is stated by `DatabaseService.ReverseAt` |
| DatabaseService.ReverseAt | services/databaseService.ts:70 | element `i` of the reversed list is element `n-1-i` of the original |
| DatabaseService.ReverseInvolutive | services/databaseService.ts:70 | reversing twice gives the original list |
| DatabaseService.ReverseSnoc | services/databaseService.ts:40-70 | after reversal the last appended record comes first |
| DatabaseService.WithoutId | services/databaseService.ts:83 | no remaining record carries the id, and every remaining record was in the list |
| DatabaseService.WithoutIdAppend | services/databaseService.ts:83 | the filter works element by element and keeps order |
| DatabaseService.WithoutIdKeepsOthers | services/databaseService.ts:83 | every record with another id survives the filter |
| DatabaseService.WithoutAbsentId | services/databaseService.ts:83 | a list without the id is unchanged |
| DatabaseService.WithoutIdIdempotent | services/databaseService.ts:83 | deleting the same id twice equals deleting it once |
| DatabaseService.LocalRecord | services/databaseService.ts:41-47 | the appended record carries the report's title, its as-of date and the report itself, with the given id and timestamp |
| DatabaseService.ReportStore.Save | services/databaseService.ts:23-50 | a successful insert leaves the local list untouched; a failed one appends exactly one record at the end, reading a missing key as the empty list; nothing reaches the caller |
| DatabaseService.ReportStore.Fetch | services/databaseService.ts:55-72 | the remote rows; or none for `null`; or, on failure, the local list reversed, newest first; the store is only read |
| DatabaseService.ReportStore.Delete | services/databaseService.ts:77-86 | a successful delete leaves the local list untouched; a failed one writes back the list without that id |
| DatabaseService.SavedLocallyIsFetchedFirst | services/databaseService.ts:23-72 | on a store with the remote table unreachable, fetch, save and fetch again: the second fetch is the saved record followed by exactly what the first returned |
| DatabaseService.DeleteUndoesSave | services/databaseService.ts:40-84 | deleting a locally saved record by its fresh id restores the earlier list |
| ChatView.IsChatDisabled | components/ChatView.tsx:42 | the input is disabled exactly while either request is running |
| ChatView.SendDisabled | components/ChatView.tsx:110 | the button is enabled exactly when no request is running and the input is not blank |
| ChatView.SubmitAccepted | components/ChatView.tsx:36 | submitting sends exactly when the input is not blank and no request is running; stated by `ChatView.ButtonMatchesSubmit` and `ChatView.ChatInput.Submit` |
| ChatView.ButtonMatchesSubmit | components/ChatView.tsx:110 | the send button is enabled exactly when submitting would send |
| ChatView.PlaceholderText | components/ChatView.tsx:44-49 | priority: analysis loading, then chat loading, then a report present, then the default text |
| ChatView.DisabledShowsLoadingPlaceholder | components/ChatView.tsx:42-49 | the input is disabled exactly when a loading placeholder is shown |
| ChatView.ChatInput.Submit | components/ChatView.tsx:34-40 | a non-blank input with no request running is sent and cleared; otherwise nothing happens |
| ChatView.CloseParen | components/ChatView.tsx:54 | the lazy `(.*?)\)`: the text before the first `)` when no line terminator comes first; none when every `)` follows a line terminator |
| ChatView.LinkAfterBracket | components/ChatView.tsx:54 | the shortest link text followed by a closable `](…)`, with neither part spanning a line; none when no such text exists |
| ChatView.RewriteLinks | components/ChatView.tsx:54 | the global link replace, leftmost match first and resuming after it; stated by `ChatView.LinksUnchanged`, `ChatView.LinksAfterPlain`, `ChatView.UnmatchedBracketCopied`, `ChatView.LinkMatched` and `ChatView.LinkRewritten` |
| ChatView.Anchor | components/ChatView.tsx:54 | the replacement for one link: an anchor opening a new tab, with the target as `href` and the text as its content; stated by `ChatView.LinkRewritten` |
| ChatView.CloseStars | components/ChatView.tsx:55 | the lazy `(.*?)\*\*`: the text before the first `**` on the line; none when there is no such `**` |
| ChatView.RewriteBold | components/ChatView.tsx:55 | the global bold replace, leftmost match first and resuming after it; stated by `ChatView.BoldUnchanged`, `ChatView.BoldAfterPlain`, `ChatView.LoneStarCopied`, `ChatView.UnclosedStarsCopied`, `ChatView.BoldMatched` and `ChatView.BoldRewritten` |
| ChatView.Strong | components/ChatView.tsx:55 | the replacement for one bold span, `<strong>$1</strong>`; stated by `ChatView.BoldRewritten` |
| ChatView.ReplaceNewlines | components/ChatView.tsx:56 | no line feed is left |
| ChatView.NewlineBecomesBreak | components/ChatView.tsx:56 | a line feed becomes `<br />`, the text before it is kept and the text after it is replaced in turn |
| ChatView.FormatContent | components/ChatView.tsx:51-57 | links, then bold, then line breaks; the output never contains a line feed |
| ChatView.LinksUnchanged | components/ChatView.tsx:54 | text without `[` has no link rewritten |
| ChatView.BoldUnchanged | components/ChatView.tsx:55 | text without `*` has no bold rewritten |
| ChatView.NewlinesUnchanged | components/ChatView.tsx:56 | text without a line feed is unchanged |
| ChatView.NewlinesAppend | components/ChatView.tsx:56 | the line-feed replacement distributes over concatenation |
| ChatView.FormatPlainUnchanged | components/ChatView.tsx:51-57 | a message without `[`, `*` or a line feed is displayed exactly as written |
| ChatView.CloseParenOf | components/ChatView.tsx:54 | a target without `)` or a line break is read up to the `)` after it |
| ChatView.LinkRewritten | components/ChatView.tsx:54 | `[t](u)` becomes an anchor with `href="u"` and text `t`, and rewriting continues after it |
| ChatView.LinkAfterBracketOf | components/ChatView.tsx:54 | after `[`, a text without `]` or a line break followed by `](u)` is matched with exactly that text and target |
| ChatView.BoldRewritten | components/ChatView.tsx:55 | `**x**` becomes `<strong>x</strong>`, and rewriting continues after it |
| ChatView.LinksAfterPlain | components/ChatView.tsx:54 | text before the first `[` is copied unchanged whatever follows it, so a link after plain text is still rewritten |
| ChatView.CopiedBeforeLink | components/ChatView.tsx:54 | a first character other than `[` is copied and the scan goes on from the next one |
| ChatView.PlainPrefixStep | components/ChatView.tsx:54 | once the text after a non-`[` character is copied before the rewrite of what follows, so is the text including it |
| ChatView.UnmatchedBracketCopied | components/ChatView.tsx:54 | a `[` that opens no link is copied and the scan goes on from the next character |
| ChatView.BoldAfterPlain | components/ChatView.tsx:55 | text before the first `*` is copied unchanged whatever follows it |
| ChatView.UnclosedStarsCopied | components/ChatView.tsx:55 | a `**` with no closing `**` on its line keeps its first `*`, and the scan goes on from the second |
| ChatView.LoneStarCopied | components/ChatView.tsx:55 | a `*` not followed by another `*`, such as a bullet, is copied and the scan goes on from the next character |
| ChatView.BoldMatched | components/ChatView.tsx:55 | a `**` with a closing `**` on its line becomes one strong element holding the matched text, `*` included, and the scan goes on after it |
| ChatView.LinkMatched | components/ChatView.tsx:54 | a `[` that opens a link becomes one anchor built from the shortest matched text, `]` included, and its target, and the scan goes on after the `)` |
| PerformanceDashboard.ExportFilename | components/PerformanceDashboard.tsx:106 | the file name has no whitespace and is never longer than the title |
| PerformanceDashboard.TrimStartAppend | components/PerformanceDashboard.tsx:106 | a whitespace run at the front of a concatenation ends in the first part unless that part is all whitespace |
| PerformanceDashboard.BlankTitle | components/PerformanceDashboard.tsx:106 | a title made only of whitespace becomes a single `_` |
| PerformanceDashboard.FilenameAppend | components/PerformanceDashboard.tsx:106 | names concatenate when no whitespace run straddles the join |
| PerformanceDashboard.RunBecomesUnderscore | components/PerformanceDashboard.tsx:106 | one maximal whitespace run between words becomes exactly one `_` |
| PerformanceDashboard.FilenameOfPlainTitle | components/PerformanceDashboard.tsx:106 | a title without whitespace is its own file name |
| PerformanceDashboard.ProgressBar | components/PerformanceDashboard.tsx:23-35 | `+` is shown exactly when the change is at least 0, so 0 shows `+0%`; at least 0 gives `text-gray-800` and `bg-green-600`, below 0 gives `text-red-600` and `bg-red-500`; width is in [0, 100], equals the magnitude up to 100 and is 100 beyond |
| PerformanceDashboard.Stars | components/PerformanceDashboard.tsx:145-146 | five stars, star `k` filled when `k` is at most the rating; stated by `PerformanceDashboard.StarsArePrefix` and `PerformanceDashboard.StarsCount` |
| PerformanceDashboard.FilledCount | components/PerformanceDashboard.tsx:146 | the number of filled stars, at most the row's length and equal to it exactly when every star is filled |
| PerformanceDashboard.StarsArePrefix | components/PerformanceDashboard.tsx:145-146 | the filled stars come before the empty ones |
| PerformanceDashboard.CountOfFilledPrefix | components/PerformanceDashboard.tsx:145-146 | a star row filled exactly on its first `n` places counts `n` |
| PerformanceDashboard.StarsCount | components/PerformanceDashboard.tsx:145-146 | a rating from `n` up to `n+1` fills exactly `n` of the five stars |
| PerformanceDashboard.DocumentedRatingStars | components/PerformanceDashboard.tsx:145-146 | a rating between 1 and 5 fills at least one star, and all five exactly at 5 |
| PerformanceDashboard.ShownRatios | components/PerformanceDashboard.tsx:266 | the first four ratios in order, or all of them when there are fewer |
| PerformanceDashboard.ProsAndCons | components/PerformanceDashboard.tsx:245-256 | the pros in their order, then the cons in theirs |
| PerformanceDashboard.ProsPrecedeCons | components/PerformanceDashboard.tsx:245-256 | no con is listed before a pro |
| PerformanceDashboard.SaveLabel | components/PerformanceDashboard.tsx:104 | the captions `Saved!`, `Failed` and `Save to DB` for the three statuses |
| PerformanceDashboard.SaveLabelsDistinct | components/PerformanceDashboard.tsx:104 | different statuses have different captions |
| PerformanceDashboard.SaveButton.BeginSave | components/PerformanceDashboard.tsx:48-49 | saving starts with the status idle |
| PerformanceDashboard.SaveButton.FinishSave | components/PerformanceDashboard.tsx:50-59 | the status is success on resolve and error on reject; saving ends either way |
| PerformanceDashboard.SaveButton.Disabled | components/PerformanceDashboard.tsx:93 | the button is disabled while a save runs; stated by `PerformanceDashboard.SaveButton.BeginSave` and `PerformanceDashboard.SaveButton.FinishSave` |
| PerformanceDashboard.SaveButton.ResetStatus | components/PerformanceDashboard.tsx:53 | the timer after a success resets the status to idle |
| DonutChart.TotalStep | components/performance/PerformanceDonutChart.tsx:7-9 | the running total grows by exactly the next segment's value |
| DonutChart.Total | components/performance/PerformanceDonutChart.tsx:7-9 | the sum of the segments' values, which `cumulativePercent` reaches; stated by `DonutChart.TotalStep` and `DonutChart.CumulativeStopsMeet` |
| DonutChart.CumulativeStops | components/performance/PerformanceDonutChart.tsx:6-9 | one stop per segment, each with its aliased colour, starting at the sum of the earlier values and ending at that plus its own; stated by `DonutChart.GradientStops` |
| DonutChart.GradientColor | components/performance/PerformanceDonutChart.tsx:12-14 | the gradient's colour for a segment; stated by `DonutChart.AliasesAgree` |
| DonutChart.LegendColor | components/performance/PerformanceDonutChart.tsx:38-40 | the legend swatch's colour for a segment; stated by `DonutChart.AliasesAgree` |
| DonutChart.AliasesAgree | components/performance/PerformanceDonutChart.tsx:12-40 | `perf-bar-dark` becomes `#374151` in the gradient and its CSS variable in the legend; `perf-bar-light` likewise; every other colour is kept; the gradient and the legend translate exactly the same colours |
| DonutChart.GradientStops | components/performance/PerformanceDonutChart.tsx:5-17 | one stop per segment, in order; each has its aliased colour, starts at the sum of the earlier values and ends at that plus its own value |
| DonutChart.ExtendStops | components/performance/PerformanceDonutChart.tsx:6-16 | one iteration of the `map` extends the correct stops by the next correct one |
| DonutChart.CumulativeStopsMeet | components/performance/PerformanceDonutChart.tsx:5-9 | the first stop starts at 0, each stop starts where the previous ends, and the last ends at the total of all values |
| DonutChart.ConicGradient | components/performance/PerformanceDonutChart.tsx:17-19 | the joined stops inside `conic-gradient(` … `)` |
| DonutChart.StopsTextCons | components/performance/PerformanceDonutChart.tsx:16-17 | consecutive stops are separated by `, `, with nothing after the last |
| DonutChart.StopText | components/performance/PerformanceDonutChart.tsx:16 | the text `<colour> <start>% <end>%` of one stop; stated by `DonutChart.StopsTextCons` |
| DonutChart.StopsText | components/performance/PerformanceDonutChart.tsx:17 | the stop texts joined with `, `; stated by `DonutChart.StopsTextCons` and `DonutChart.ConicGradient` |
| IncomeChart.MaxVal | components/performance/IncomeStatementChart.tsx:8 | the scale is at least 1 and each magnitude, and is one of them or 1 |
| IncomeChart.Scaled | components/performance/IncomeStatementChart.tsx:9-10 | a magnitude scaled against a bound at or above it lies in [0, 100], and equals 100 at the bound |
| IncomeChart.IncomeBars | components/performance/IncomeStatementChart.tsx:8-23 | both heights lie in [0, 100] and are proportional to the magnitudes; the larger bar is 100 when its magnitude is at least 1; a change is positive exactly when it is at least 0, shown with `+`; the current bar is red exactly when negative |
| IncomeChart.HeightsProportional | components/performance/IncomeStatementChart.tsx:9-10 | the two heights keep the ratio of the two magnitudes |
| JsMath.Abs | components/performance/IncomeStatementChart.tsx:8 | `Math.abs` is non-negative and is the value or its negation |

## Left out

- Network and browser I/O are parameters. This covers the language model (`GoogleGenAI.generateContent`), Supabase, FileReader, `localStorage` and its JSON encoding, and the DOM. The library internals of pdf.js, mammoth and SheetJS are left out too; their outputs are taken as given in `FileParser.ReadEnv`.
- Randomness and clocks are parameters: `Math.random` for record ids and `new Date` for timestamps.
- Async interleaving is not modelled. Every awaited handler is one atomic step, so races between overlapping handlers are out of scope, as are the `useCallback` closures and the three-second timer's scheduling.
- JavaScript numbers are exact reals. Floating-point rounding, NaN and infinities are not modelled.
- Number formatting is left out: `toFixed`, `toLocaleString`, and number-to-string in CSS and templates.
- `Strings.Utf16Length`: Dafny characters are Unicode scalar values, so a lone surrogate code unit, which a JavaScript string can hold, is not represented.
- `Strings.ToLower`: lower-cases ASCII letters only. JavaScript's full Unicode case mapping is not modelled.
- The report request's prompt text and model names are not modelled beyond the instruction text and the part order.
- The app performs no schema validation of reports. `GeminiService.GenerateReport` returns whatever parses, and the model claims no check. A report is modelled as a typed value, so missing fields and out-of-range achievability values cannot be represented.
- `GeminiService.GenerateReport`: a throw from constructing the client is folded into the `ClientThrew` answer. The real constructor sits outside the `try` and such a throw passes through unchanged, which is what `ClientThrew` gives.
- `GeminiService.ChatRequest` has no `tools` field: the Google Search tool the chat request enables (services/geminiService.ts:162) only changes how the service composes its answer, which is a parameter here.
- `GeminiService.SchemaRequirements` covers the top-level object and the `valuation` object only. The `required` lists of the nested key-metric, quality, financial, ratio, DCF and valuation-ratio objects (services/geminiService.ts:22-97) are not modelled, since no report is validated against them.
- `InputForm.UploadForm.FinishParsing`: the fallback text "An unknown error occurred during file parsing." is not modelled. `parseFile` only rejects with `Error` objects, so that text is unreachable.
- `PerformanceDashboard.SaveButton.FinishSave`: the outcome is a parameter. In the modelled store `saveReport` always resolves. The error status would come only from a `localStorage` or JSON exception, and those are not modelled.
- Types: `DCFAnalysis` has the eight fields that types.ts:28-37 declares.
- Types: the quality rating range 1–5 is documentation only. It is stated as a predicate, and nothing enforces it.
- `services/exportService.ts` and `components/ExportButton.tsx` are not part of this model. They capture the DOM and generate PDF and DOCX downloads.
- The presentation-only components are not part of this model: `BottomNavBar`, `DocumentsView`, `BalanceSheetItem`, `PerformanceMetricChart`, `ErrorMessage`, `LoadingSpinner`, `Logo` and the icons. Their JSX rendering carries no rule beyond trivial conditionals.
- `ChatView.FormatContent`: HTML escaping is not modelled because the source does none. A target that contains `"` or `**` is spliced into the anchor as is, and the bold pass may rewrite inside it.

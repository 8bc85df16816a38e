# auto-imm core, modelled in Dafny

auto-imm is a browser extension paired with a Go API server. The user uploads documents (images and PDFs) to the side panel. The panel keeps them in extension storage and runs OCR over them through the server. Later it asks the server to map the extracted text onto the fields of a web form. A content script then fills those fields in the page.

This project models that core:

- **FileStorage** (`file_storage.dfy`): the persisted list of stored files under the key 'extension-files'. It covers:
  - saving one or many files, including quota errors and the stop-after-quota rule;
  - looking up a file;
  - writing OCR results back to a record;
  - deleting one or all files;
  - the total size.
- **FilesStore** (`files_store.dfy`): the side panel's stores. They hold the file list, the OCR progress and the OCR-running flag. The actions that keep them in step with storage are modelled, including both OCR runs and their write-back loop.
- **OcrService** (`ocr_service.dfy`):
  - decoding a stored data URL into file bytes;
  - the per-file OCR attempt;
  - the batch run in waves of three, with its results map and its progress reports. Within a wave the files are launched together and their requests may finish in any order; that order is an input.
- **OcrApiService** (`ocr_api_service.dfy`): the allow-list of media types, the 20 MB client-side limit, and the mapping of request failures to user messages.
- **ContentScript** (`content_script.dfy`): the message listener. It answers 'getFormHTML' with the first form's markup. It answers 'fillFields' by filling inputs, radio groups, selects and text areas; every change is announced with `input`, `change` and `blur`, and the filled and failed assignments are counted.
- **Handlers** (`handlers.dfy`): the Go HTTP handlers. They cover:
  - the Claude and Tesseract OCR endpoints: upload checks, PDF-or-image routing, page-by-page PDF processing with "=== Page N ===" assembly, and the concatenation of reply text blocks;
  - the form-filling endpoint: request validation, markdown-fence clean-up of Claude's reply, and the final reply.
- **Base** and **Text** (`base.dfy`, `text.dfy`): `Option`/`Result`, JavaScript thrown values, and the string helpers the source relies on. These are `includes`, prefix/suffix trimming, ASCII lower-casing, Go's `strings.TrimSpace`, decimal rendering and `Join`.

### How the model is set up

- **Objects become classes.** The stored list (`FileStorage.Storage`), the side-panel stores (`FilesStore.FilesStore`) and the browser tab (`ContentScript.Tab`) are classes whose methods update their fields.
- **Loops are methods with invariants.** Each loop of the source is a method proved against a specification function. Examples:
  - `SaveFiles` against `SaveAll`;
  - `WriteResults` against `WriteBack`;
  - `FillEach` against `FillAll`;
  - `ProcessPdf` against `PdfResult`/`Assemble`;
  - `DataUrlToFile` against `Bytes`.
- **Collaborators are inputs.** Browser storage, the base64 decoder, HTTP requests, Claude, MuPDF and Tesseract are given to each operation as data describing how they behave:
  - storage: whether the read succeeds and which error the write throws;
  - the decoder: the table of the inputs it accepts, with their decodings;
  - the OCR request: the reply for each processable file;
  - Claude: the reply's content blocks;
  - a PDF: each page's render and encode errors.

## Model

| member | source | states |
|---|---|---|
| FileStorage.Storage.Read | src/lib/utils/fileStorage.ts:55-70 | the stored list is the value under the key, or empty when the key is absent or the read fails |
| FileStorage.Storage.SetStoredFiles | src/lib/utils/fileStorage.ts:75-88 | a successful write replaces the stored list; a failed write surfaces its error and leaves the list as it was |
| FileStorage.SaveError | src/lib/utils/fileStorage.ts:114-120 | a 'QuotaExceededError' becomes a new Error whose message names the storage area and carries "Storage quota exceeded"; any other error is rethrown unchanged |
| FileStorage.SaveFileAppends | src/lib/utils/fileStorage.ts:94-121 | on success exactly one record is appended, built from the file (name, type, size, id, no OCR fields), after the existing ones; on failure nothing is stored |
| FileStorage.Storage.SaveFile | src/lib/utils/fileStorage.ts:94-121 | the new stored value and the result are those of saveFile's specification |
| FileStorage.Storage.SaveFiles | src/lib/utils/fileStorage.ts:126-148 | the loop saves files in order and stops after the first quota failure; it throws the first error only when nothing was saved |
| FileStorage.SaveFilesResult | src/lib/utils/fileStorage.ts:143-147 | the result is an error exactly when nothing was saved and some file failed, and then it is the first error; otherwise it is the saved records |
| FileStorage.SaveAllStops | src/lib/utils/fileStorage.ts:136-138 | once the loop has stopped on a quota failure, the later files are never tried |
| FileStorage.SaveAllAccounting | src/lib/utils/fileStorage.ts:126-148 | each file tried is either saved or collected as an error; without a stop every file is tried; a stop follows a quota error; collected errors are Error objects |
| FileStorage.SaveAllAppends | src/lib/utils/fileStorage.ts:126-148 | when every read succeeds, the stored list is the old list followed by the saved records in input order |
| FileStorage.SaveAllHealthy | src/lib/utils/fileStorage.ts:126-148 | on healthy storage every file is saved, the k-th saved record being the one built from the k-th file, no error is collected, the loop does not stop, and a non-empty call succeeds with the saved records |
| FileStorage.Storage.GetFile | src/lib/utils/fileStorage.ts:153-161 | the result is the first stored record with the id, and it is absent exactly when no record has the id |
| FileStorage.FindIndex | src/lib/utils/fileStorage.ts:180 | the first position carrying the id; absent exactly when no record carries it |
| FileStorage.UpdateOcr | src/lib/utils/fileStorage.ts:173-200 | absent exactly when no record has the id; otherwise only the first matching record gets the text, the error and the processed flag |
| FileStorage.UpdateThenFind | src/lib/utils/fileStorage.ts:173-200 | after an update, the id is found at the same place, carrying exactly the given text and error, processed, with its other fields unchanged |
| FileStorage.Storage.UpdateFileOCR | src/lib/utils/fileStorage.ts:173-200 | returns true exactly when the read finds the id and the write succeeds; the stored value is updated accordingly and otherwise unchanged |
| FileStorage.WithoutId | src/lib/utils/fileStorage.ts:208 | the remaining records are exactly those with another id |
| FileStorage.WithoutIdKeepsOrder | src/lib/utils/fileStorage.ts:208 | deletion keeps the order of the remaining records |
| FileStorage.WithoutAbsentId | src/lib/utils/fileStorage.ts:205-215 | deleting an id no record has leaves the list as it was |
| FileStorage.Storage.DeleteFile | src/lib/utils/fileStorage.ts:205-215 | returns true exactly when the write succeeds, even if no record matched; then the stored list is the old list without the id; on failure nothing changes |
| FileStorage.Storage.DeleteAllFiles | src/lib/utils/fileStorage.ts:220-232 | returns true exactly when removal succeeds; the key is then absent; on failure nothing changes |
| FileStorage.TotalSizeAppend | src/lib/utils/fileStorage.ts:237-240 | the total size adds up over concatenated lists |
| FileStorage.SaveAddsSize | src/lib/utils/fileStorage.ts:94-121 | a successful save raises the total storage size by the file's size |
| FileStorage.Storage.GetTotalStorageSize | src/lib/utils/fileStorage.ts:237-240 | the total is TotalSize of the stored list: zero for an empty list and at least the size of every stored file; it adds up over concatenation (TotalSizeAppend) and a save raises it by the file's size (SaveAddsSize) |
| FilesStore.FilesStore.constructor | src/lib/stores/files.ts:16-20 | the stores start empty: no files, no progress, not running |
| FilesStore.FilesStore.RefreshFiles | src/lib/stores/files.ts:96-99 | the file store takes the stored list; the other stores are unchanged |
| FilesStore.FilesStore.OnStorageChanged | src/lib/stores/files.ts:29-35 | only a 'local' change to 'extension-files' replaces the file store (with the empty list when the key was removed) |
| FilesStore.FilesStore.AddFiles | src/lib/stores/files.ts:42-64 | the files are saved; the store is refreshed only when the save returned; a shortfall is reported as "Only k of n files were saved..."; a thrown error yields no saved files and its message |
| FilesStore.FilesStore.RemoveFile | src/lib/stores/files.ts:69-77 | reports the deletion's outcome; on success the store is refreshed, on failure storage and store are unchanged |
| FilesStore.FilesStore.ClearAllFiles | src/lib/stores/files.ts:82-90 | reports the removal's outcome; on success the key is gone and the store empty, on failure nothing changes |
| FilesStore.Selected | src/lib/stores/files.ts:190 | the selection holds exactly the stored files whose id is listed |
| FilesStore.SelectedKeepsOrder | src/lib/stores/files.ts:190 | the selection keeps storage order |
| FilesStore.FilesStore.WriteResults | src/lib/stores/files.ts:129-131 | the write-back loop applies updateFileOCR for each results key, in the map's key order, with each update's own storage behaviour |
| FilesStore.WriteBackHealthy | src/lib/stores/files.ts:129-131 | when every update meets healthy storage, writing back rewrites the first record of each result id (a success sets the text and clears the error, a failure the reverse) and leaves every other record as it was |
| FilesStore.WriteBackOneField | src/lib/stores/files.ts:129-131 | after a healthy write-back, each rewritten record is processed and carries exactly one of text and error: the text of a success or the message of a failure |
| FilesStore.WriteBackOnlyOcr | src/lib/stores/files.ts:129-131 | whatever storage does on each update (read failure, write error, per id), writing back adds and removes no record, changes only OCR fields, and absent storage stays absent |
| FilesStore.FilesStore.ReportAll | src/lib/stores/files.ts:124-126 | the progress store is set to every report of the batch in order and ends on the last one |
| FilesStore.FilesStore.RunSelected | src/lib/stores/files.ts:113-174 | the running flag is set and then reset; progress starts at 0 of n, then follows the batch's reports, then ends complete; the batch's results are written back and the store refreshed; a batch that throws leaves storage and the file store untouched and ends with the failure progress |
| FilesStore.FilesStore.RunOCROnAllFiles | src/lib/stores/files.ts:105-176 | nothing happens when storage is empty; otherwise every stored file is run with the flag, progress, write-back and refresh outcome RunSelected states |
| FilesStore.FilesStore.RunOCROnSpecificFiles | src/lib/stores/files.ts:182-259 | nothing happens for an empty id list or when no file matches; otherwise the matching files are run in storage order with the outcome RunSelected states |
| OcrApiService.SupportedIffSameIgnoringCase | src/lib/services/ocrApiService.ts:53-61 | a media type is supported exactly when it equals one of image/jpeg, image/jpg, image/png, application/pdf up to letter case |
| OcrApiService.SupportIgnoresCase | src/lib/services/ocrApiService.ts:60 | support does not depend on letter case |
| OcrApiService.ExtractTextFromImage | src/lib/services/ocrApiService.ts:14-46 | an oversized file is refused before any request; a 401, a 413 or a network error is replaced by its friendly message; anything else passes through |
| OcrApiService.SizeCheckPrecedesRequest | src/lib/services/ocrApiService.ts:16-19 | on an oversized file the outcome does not depend on the request |
| OcrApiService.LimitIsInclusive | src/lib/services/ocrApiService.ts:16-19 | a file of exactly 20 MB is accepted |
| OcrService.OcrResults.Set | src/lib/services/ocrService.ts:118 | a Map set keeps an existing key's place and appends a new key |
| OcrService.OcrResults.SetKeepsValid | src/lib/services/ocrService.ts:118 | the keys stay distinct and in step with the entries |
| OcrService.Processable | src/lib/services/ocrService.ts:85 | the processable files are exactly those whose type is supported |
| OcrService.ProcessableAppend | src/lib/services/ocrService.ts:85 | the filter keeps input order |
| OcrService.DataSegmentOfDataUrl | src/lib/services/ocrService.ts:22-31 | on 'header,payload' with no other comma, the decoded segment is the payload |
| OcrService.DataSegmentNoComma | src/lib/services/ocrService.ts:23-24 | without a comma the decoder is given 'undefined' |
| OcrService.DataSegmentAfterFirstComma | src/lib/services/ocrService.ts:23-24 | the decoder gets the text between the first and the second comma |
| OcrService.Bytes | src/lib/services/ocrService.ts:25-29 | one byte per character, each the character code's low eight bits |
| OcrService.BytesKeepCodes | src/lib/services/ocrService.ts:25-29 | on a binary string (codes below 256) each byte equals the character code |
| OcrService.DataUrlToFile | src/lib/services/ocrService.ts:22-31 | the array loop fills exactly the bytes of the decoded segment, or yields the decoder's error |
| OcrService.DecodedBytesAreCodes | src/lib/services/ocrService.ts:22-31 | with a binary decoder, decoding a data URL succeeds on a payload the decoder accepts and the file's bytes are exactly the codes of the decoded text |
| OcrService.Outcome | src/lib/services/ocrService.ts:107-127 | a file records text exactly when decoding and extraction both succeed |
| OcrService.DecodeFailureSkipsRequest | src/lib/services/ocrService.ts:107-127 | a failed decode records the decoder's error whatever the endpoint would answer |
| OcrService.ProcessFileOCR | src/lib/services/ocrService.ts:36-75 | the result is the attempt's; the start is reported first and the completion only on success |
| OcrService.ResultsValid | src/lib/services/ocrService.ts:80-148 | the results map stays well formed: each id listed once |
| OcrService.ResultsKeys | src/lib/services/ocrService.ts:113-126 | an id is in the map exactly when a file carrying it has settled |
| OcrService.ResultsLastWriter | src/lib/services/ocrService.ts:113-126 | each id holds the outcome of the last file carrying it to settle, so with shared ids the finish order decides |
| OcrService.DistinctIdsEachRecorded | src/lib/services/ocrService.ts:80-148 | with distinct ids every processable file's outcome is recorded under its id, whatever order the requests finish in |
| OcrService.WavesPartition | src/lib/services/ocrService.ts:142-145 | the waves cover each file exactly once and in order; each wave holds one to three files, and every wave but the last holds three |
| OcrService.LaunchFile | src/lib/services/ocrService.ts:95-111 | processFile up to its await: the start is reported and the file decoded; a decoding error settles the file at once with its error, otherwise the decoded file waits for its request |
| OcrService.FinishFile | src/lib/services/ocrService.ts:111-137 | processFile after its await: the text or the error is set under the file's id and the Completed or Failed report follows; a file settled at launch does nothing more |
| OcrService.PendingOfAt | src/lib/services/ocrService.ts:95-111 | after launching a range, a file waits for its request exactly when it is in the range and its decoding succeeded, and what waits is its decoding |
| OcrService.RunWave | src/lib/services/ocrService.ts:142-145 | one Promise.all: every file of the wave is launched in list order, then the requests finish in the wave's finish order; the state is that after one more wave |
| OcrService.RunWaves | src/lib/services/ocrService.ts:142-145 | the loop over waves yields the batch's results map and reports |
| OcrService.ScheduleBegins | src/lib/services/ocrService.ts:142-145 | the first m waves launch files 0 to 3m-1, in order |
| OcrService.ScheduleSettles | src/lib/services/ocrService.ts:142-145 | the first m waves settle each of files 0 to 3m-1 exactly once and no other |
| OcrService.BatchEachOnce | src/lib/services/ocrService.ts:142-145 | a batch launches every processable file once in list order and settles each exactly once, whatever the finish orders |
| OcrService.BatchResultsKeys | src/lib/services/ocrService.ts:80-148 | the batch's map is well formed and holds exactly the ids of the processable files |
| OcrService.WaveBarrier | src/lib/services/ocrService.ts:142-145 | a wave starts only after the previous one has finished: every report of the waves before w has index at most 3w, every later one at least 3w |
| OcrService.EndFollowsStart | src/lib/services/ocrService.ts:97-137 | every Completed or Failed report comes after the Processing report of the same file, whose index is one less |
| OcrService.ProgressFallsWithinAWave | src/lib/services/ocrService.ts:97-145 | as written, with three decodable files in the first wave and the first one finishing first, the third report shows 2/n and the fourth 1/n: the bar moves back |
| OcrService.CompletedProgressGrows | src/lib/services/ocrService.ts:97-145 | progress counted as files settled so far out of n never decreases |
| OcrService.BatchCompletes | src/lib/services/ocrService.ts:97-145 | counted as files settled, the last report of a non-empty batch is n of n |
| OcrService.ProcessMultipleFilesOCR | src/lib/services/ocrService.ts:80-148 | the results and reports are those of running the processable files in waves of three, each wave launching its files in order and finishing them in its given order; with no processable file they are empty |
| ContentScript.FirstWhere | src/content-script.ts:50-64 | the first element satisfying the test, or none when no element does |
| ContentScript.CheckRadio | src/content-script.ts:60-77 | the chosen button becomes checked; every other radio button with the same non-empty name and the same form owner becomes unchecked; nothing else changes |
| ContentScript.OptionIndex | src/content-script.ts:87-94 | a select picks its first option with the value, or none |
| ContentScript.FillField | src/content-script.ts:48-111 | a failed assignment changes nothing; a filled one adds the three events on one element |
| ContentScript.MissingOrUnsupportedFails | src/content-script.ts:50-110 | an assignment fails and changes nothing when no element has the id, when the element is not an input, select or text area, or when a non-empty value is written to a file input |
| ContentScript.FillAllCounts | src/content-script.ts:43-122 | every assignment counts once as filled or failed; each filled one adds input, change and blur on one element, in that order |
| ContentScript.FailureDoesNotStopBatch | src/content-script.ts:107-110 | a failed assignment adds one to the failures and the rest are handled as if it were absent |
| ContentScript.RadioAssignment | src/content-script.ts:60-77 | a radio assignment succeeds exactly when the group name and the value are quotable and some radio button has that name and value; the first such button is checked, the rest of its group unchecked, and it receives the events |
| ContentScript.ValueAssignment | src/content-script.ts:78-102 | inputs, selects and text areas take the value and receive the three events; an input keeps the value sanitised for its type, and a hidden, checkbox, submit, reset, button or image input also gets it as its value attribute; a text area keeps it as given |
| ContentScript.StripNewlines | src/content-script.ts:80 | a text, search, telephone or password input holds no line feed or carriage return after sanitising, is never longer, and a value without them is unchanged |
| ContentScript.StripNewlinesAppend | src/content-script.ts:80 | stripping newlines works character by character: it distributes over concatenation |
| ContentScript.StripNewlinesChar | src/content-script.ts:80 | on one character, a line feed or carriage return is dropped and anything else kept; with stripping distributing over concatenation, this fixes the result for every value |
| ContentScript.TrimAsciiSpec | src/content-script.ts:80 | a URL or email input trims ASCII white space: the result is a stretch of the value that neither starts nor ends with white space, and a value already so is kept |
| ContentScript.NumberCharset | src/content-script.ts:80 | a number input accepts only strings of digits, signs, the point and exponent letters, so "1,000" or "1 000" is refused |
| ContentScript.NaturalsAreNumbers | src/content-script.ts:80 | the decimal rendering of every natural number is accepted by a number input |
| ContentScript.SanitizeIdempotent | src/content-script.ts:80 | sanitising a value twice gives what sanitising once gives, for every input type |
| ContentScript.DateRefused | src/content-script.ts:80 | a date input given "01/15/1990" ends up empty |
| ContentScript.NumberExample | src/content-script.ts:80 | a number input given "1,000" ends up empty |
| ContentScript.TextExample | src/content-script.ts:80 | a text input given "a\nb" ends up "ab" |
| ContentScript.FillFieldsReply | src/content-script.ts:43-122 | the fill reply's counts add up to the number of assignments, and the channel stays open |
| ContentScript.GetFormReply | src/content-script.ts:32-41 | getFormHTML answers with the markup of the first form in document order, or "No form found on page" exactly when there is no form; the page is unchanged and the channel kept open |
| ContentScript.UnknownActionReply | src/content-script.ts:124-126 | any other request gets "Unknown action" and lets the channel close |
| ContentScript.NotAListReply | src/content-script.ts:43-130 | a fillFields request whose fields are truthy but not an array gets the thrown "request.fields.forEach is not a function" message, changes nothing, and keeps the channel open |
| ContentScript.Tab.DispatchChange | src/content-script.ts:68-70 | input, change and blur are dispatched in that order |
| ContentScript.Tab.FillOne | src/content-script.ts:48-111 | one forEach pass does what FillField specifies |
| ContentScript.Tab.FillEach | src/content-script.ts:48-111 | the forEach fills the assignments in order with the counts FillAll gives |
| ContentScript.Tab.OnMessage | src/content-script.ts:25-133 | exactly one reply is sent per request; the page and the reply are as the handler specifies |
| Handlers.BlocksTextAppend | api/cmd/api/handlers.go:66-71 | the text of the blocks splits along any split of the blocks |
| Handlers.OtherBlocksIgnored | api/cmd/api/handlers.go:66-71 | non-text blocks contribute nothing |
| Handlers.ConcatTextBlocks | api/cmd/api/handlers.go:442-447 | the loop yields the in-order concatenation of the text blocks |
| Handlers.ExtractTextFromImageData | api/cmd/api/handlers.go:47-75 | fails exactly when the Claude call fails, with its error; otherwise returns the text of the blocks |
| Handlers.ProcessImageWithTesseract | api/cmd/api/handlers.go:221-240 | succeeds exactly when the image loads and recognition succeeds; a recognition error is kept at the end of the message |
| Handlers.BuiltComplete | api/cmd/api/handlers.go:86-124 | once all pages are written, the builder holds the page sections joined by blank lines |
| Handlers.BuiltIsJoin | api/cmd/api/handlers.go:89-122 | part way through, the builder holds the sections so far joined by blank lines, plus a separator because pages remain |
| Handlers.AssembleOnePage | api/cmd/api/handlers.go:115-118 | a one-page document is its page text, without a header |
| Handlers.AssembleBounds | api/cmd/api/handlers.go:114-124 | with several pages the text opens with "=== Page 1 ===" and the first page, and ends with the last page's text |
| Handlers.WritePage | api/cmd/api/handlers.go:115-121 | writing a page appends its header (more than one page), its text and a separator (not the last page) |
| Handlers.CollectAllOk | api/cmd/api/handlers.go:89-112 | when every page succeeds the texts are collected in page order |
| Handlers.CollectFirstErr | api/cmd/api/handlers.go:89-112 | the first failing page aborts the document with its error |
| Handlers.CollectOkOnlyIfAllOk | api/cmd/api/handlers.go:89-112 | a document yields text only when every page does |
| Handlers.PathsAssembleAlike | api/cmd/api/handlers.go:114-121 | the Claude and Tesseract paths assemble identical page texts identically |
| Handlers.ProcessClaudePage | api/cmd/api/handlers.go:93-112 | a page reports its first failure (render, JPEG encode, extraction) with its 1-based number, or its text |
| Handlers.ProcessPdf | api/cmd/api/handlers.go:78-126 | an open error fails the document; otherwise the first failing page fails it; otherwise the result is the assembled text of all pages |
| Handlers.ProcessTesseractPage | api/cmd/api/handlers.go:257-273 | a page reports its first failure (render, PNG encode, OCR) with its 1-based number, or its text |
| Handlers.ProcessPdfWithTesseract | api/cmd/api/handlers.go:243-287 | the same as processPDF, with Tesseract reading each page |
| Handlers.MediaType | api/cmd/api/handlers.go:186-196 | the type is image/png exactly when the name is longer than four characters and ends in ".png" in any case; image/jpeg otherwise |
| Handlers.ClassificationIgnoresCase | api/cmd/api/handlers.go:172-196 | the PDF test and the media type ignore the case of the name |
| Handlers.ShortNames | api/cmd/api/handlers.go:172-196 | ".pdf" is treated as a PDF, but ".png" is sent as JPEG |
| Handlers.UploadRejection | api/cmd/api/handlers.go:135-161 | an upload is accepted exactly when the form parses, it has a file, the file is at most 20 MB and it is readable |
| Handlers.SizeLimitInclusive | api/cmd/api/handlers.go:150-154 | 20 MB is accepted and one byte more is refused with "file must be less than 20MB" |
| Handlers.RejectionsAreErrors | api/cmd/api/handlers.go:135-161 | every rejection is a 400 or a 500; with a parsed form, the too-large reply comes exactly for an oversized file |
| Handlers.ExtractTextFromImage | api/cmd/api/handlers.go:128-218 | API key check, then upload checks, then PDFs go page by page and images go to Claude with their media type; the text is sent as JSON and failures as server errors |
| Handlers.ExtractTextFromImageTesseract | api/cmd/api/handlers.go:290-342 | upload checks (no key needed), then the PDF or image path through Tesseract; the text is sent as plain text |
| Handlers.CleanResponse | api/cmd/api/handlers.go:451-455 | the cleaned reply has no surrounding white space and is never longer |
| Handlers.CleanJsonFence | api/cmd/api/handlers.go:451-455 | a reply wrapped in a json fence cleans to the JSON it wraps |
| Handlers.CleanBareFence | api/cmd/api/handlers.go:451-455 | a reply wrapped in a bare fence cleans to the JSON it wraps |
| Handlers.CleanBareJson | api/cmd/api/handlers.go:451-455 | unfenced JSON only loses its surrounding white space |
| Handlers.FillForm | api/cmd/api/handlers.go:344-487 | the checks run in order (key, body, formHTML, documentsExtractedText, Claude error, parse error); the form is filled exactly when all pass and the cleaned reply parses, with totalFields equal to the number of fields |
| Text.NatToStringRoundTrip | api/cmd/api/handlers.go:116 | page numbers are rendered as decimal digits that read back as the number |

## Left out

- **Concurrency is a parameter.** Within a wave, `processMultipleFilesOCR` launches every file and awaits them together (`Promise.all`). The model launches the files in list order up to their first `await`, then settles them in the order `orders[w]`, which every OCR run takes as an input. Every such order is covered. The results map lists its keys in the order the files settle. Interleavings finer than "launch all, then finish one by one" cannot arise in the source and are not modelled.
- **Collaborators are given as data.** These parameters stand for the calls:
  - browser storage and `chrome.runtime`;
  - `FileReader`, `atob`, `fetch`/`apiPost`;
  - the Anthropic client, MuPDF (`fitz`) page rendering, the JPEG/PNG encoders, gosseract;
  - multipart parsing and JSON decoding/encoding.

  Their internals are not modelled, and `apiClient.ts` is not part of this model.
- **Batch exceptions are a flag.** Whether a batch throws is the parameter `batchThrows` of the OCR runs.
- **Logging is omitted:** `console.log`/`console.error` and the Go logger, including the results printout that follows each OCR run (`getAllFiles` plus logging).
- **Prompts and model settings are omitted.** The prompt texts and Claude model parameters are not modelled; only the reply matters.
- FillForm: the error from writing the final JSON response is not modelled, and neither is that of ExtractTextFromImage and ExtractTextFromImageTesseract (api/cmd/api/handlers.go:214-217, 343-346). Each is only logged after the status line has been sent.
- **Error reply bodies are not modelled.** `ServerError(e)` and `BadRequest(e)` carry the error handed to the server's error helpers. The body those helpers write is not part of this model.
- **Selector quoting is a predicate.** `ContentScript.Quotable` holds for a name or value that reads back as itself between the double quotes of an attribute selector. It is a conservative stand-in for the selector parser, not a test of well-formedness.
- ContentScript.RadioAssignment: a radio assignment whose group name or value contains a double quote, a backslash, a carriage return, a line feed or a form feed counts as failed and changes nothing. The browser behaves differently. It reads a backslash as a CSS escape, so the value `\M` selects the radio with value "M". A double quote can end the string early and splice more selector text in, and the resulting selector list may be valid and match some other element. CSS unescaping and selector parsing are not modelled.
- **Letter case is ASCII only.** Case folding is applied to ASCII letters only. This is exact for every comparison made here: the compared literals ".pdf", ".png", ".jpg", "jpeg" and the media types are ASCII.
- **Lengths count characters.** File-name length in the Go media-type test is counted in characters, not UTF-8 bytes. The two agree on ASCII names.
- **Dates, ids and formatting are omitted.** `generateFileId`, the upload date and `formatFileSize` are not modelled; the id and date are inputs to each save.
- **UI plumbing is omitted.** Svelte subscription mechanics are out of scope, and so are the dev form HTML and the menu constants.
- ContentScript.ValueAssignment: value sanitisation is modelled for the text, search, telephone, password, URL, email, number and date input types. The time, month, week, datetime-local, color and range types keep the value as given here. An email input with `multiple` is treated as a single address. The line-break normalisation of text areas is not modelled.
- ContentScript.GetFormReply: a form's markup is part of the page as given and does not follow later assignments. In the browser, an assignment that rewrites a `value` attribute (a hidden, checkbox, submit, reset, button or image input) also changes the form's `outerHTML`. The model updates that input's attribute but not the serialised markup.
- **Progress callbacks do not throw.** A progress callback that throws is not modelled.
- OcrService.DataUrlToFile: the model follows the code, which decodes the segment between the first and second comma of the URL. For a data URL, whose payload has no comma, that is the whole payload. A URL with no comma decodes the text "undefined".
- FileStorage.Storage.SaveFile: a failed read of the existing list yields the empty list, which the code then overwrites with the new record. The model keeps this behaviour.

## Findings

| source | as written | input that shows it | evidently intended | confidence | as-written member | corrected member |
|---|---|---|---|---|---|---|
| src/lib/services/ocrService.ts:97-145 | each file reports progress (k+1)/n on finishing, where k is its own index, and all files of a wave report their start before any finishes | a batch of three or more decodable files whose first request finishes first: the reports read 0/n, 1/n, 2/n, then 1/n | a progress bar that never moves back, counting the files finished so far and ending at n of n | not executed | OcrService.ProgressFallsWithinAWave | OcrService.CompletedProgressGrows |
